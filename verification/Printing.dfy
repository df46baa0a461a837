/**
 Writing registries "in the same format read_from() expects": the token sequences that spell terms
 and registries, and the proofs that reading inverts writing.
 */
module Printing {
  import opened Gaps
  import opened Lexicon
  import opened Lexing
  import opened Parsing
  import opened Rendering
  import opened Results
  import opened Scanning

  // ---------------------------------------------------------------- writing

  predicate ValidTerm(t: Term) {
    match t
    case Num(literal) => Decimal(literal)
    case Str(_) => true
    case List(elements) => forall e :: e in elements ==> ValidTerm(e)
    case Expr(head, tail) => Word(head) && forall e :: e in tail ==> ValidTerm(e)
  }

  function Sign(tok: Token): Piece { Piece(tok, "") }

  /** commas says whether commas are written between elements. */
  function TermPieces(t: Term, ps: ParserStyle, commas: bool): seq<Piece>
    requires ValidStyle(ps)
  {
    match t
    case Num(literal) => [Piece(Number, literal)]
    case Str(value) => [Piece(Text, value)]
    case List(elements) =>
      [Sign(ps.list)] + (ElementPieces(elements, true, ps, commas) + [Sign(ClosingToken(ps.list))])
    case Expr(head, tail) =>
      [Piece(Ident, head), Sign(ps.expr)]
      + (ElementPieces(tail, true, ps, commas) + [Sign(ClosingToken(ps.expr))])
  }

  function ElementPieces(es: seq<Term>, first: bool, ps: ParserStyle, commas: bool): seq<Piece>
    requires ValidStyle(ps)
  {
    if es == [] then []
    else (if first || !commas then [] else [Sign(Comma)])
         + (TermPieces(es[0], ps, commas) + ElementPieces(es[1..], false, ps, commas))
  }

  type Pair = (string, Term)

  function PairPieces(p: Pair, ps: ParserStyle, commas: bool): seq<Piece>
    requires ValidStyle(ps)
  {
    [Piece(Ident, p.0), Sign(Assign)] + TermPieces(p.1, ps, commas)
  }

  function RegistryPieces(pairs: seq<Pair>, ps: ParserStyle, commas: bool): seq<Piece>
    requires ValidStyle(ps)
  {
    if pairs == [] then [] else PairPieces(pairs[0], ps, commas) + RegistryPieces(pairs[1..], ps, commas)
  }

  // ---------------------------------------------------------------- streams that spell pieces

  /** l starts with the given pieces, and rest follows. */
  predicate Spells(l: Stream, pieces: seq<Piece>, rest: Stream) {
    if pieces == [] then l == rest
    else l.More? && l.head.tok == pieces[0].tok && l.head.text == pieces[0].text
         && Spells(l.tail, pieces[1..], rest)
  }

  function Drop(l: Stream, n: nat): Stream { if n == 0 || !l.More? then l else Drop(l.tail, n - 1) }

  lemma {:induction false} SpellsSplit(l: Stream, a: seq<Piece>, b: seq<Piece>, rest: Stream)
    requires Spells(l, a + b, rest)
    ensures Spells(l, a, Drop(l, |a|)) && Spells(Drop(l, |a|), b, rest)
  {
    if a == [] {
      assert a + b == b;
    } else {
      assert (a + b)[1..] == a[1..] + b;
      SpellsSplit(l.tail, a[1..], b, rest);
    }
  }

  /** The tokens of a layout spell its pieces. */
  lemma {:induction false} TokensSpell(pieces: seq<Piece>, gaps: seq<Spacing>, line: nat)
    requires |gaps| == |pieces| + 1
    ensures exists n: nat :: Spells(Tokens(pieces, gaps, line), pieces, Done(n))
    decreases |pieces|
  {
    var n := line + Newlines(GapText(gaps[0]));
    if pieces == [] {
      assert Spells(Tokens(pieces, gaps, line), pieces, Done(n));
    } else {
      TokensSpell(pieces[1..], gaps[1..], n);
      var end: nat :| Spells(Tokens(pieces[1..], gaps[1..], n), pieces[1..], Done(end));
      assert Spells(Tokens(pieces, gaps, line), pieces, Done(end));
    }
  }

  // ---------------------------------------------------------------- parsing inverts writing

  /** Commas must be written where they are required. */
  predicate CommasSuffice(ps: ParserStyle, commas: bool) { ps.commas == CommaRequired ==> commas }

  lemma TermStart(t: Term, ps: ParserStyle, commas: bool)
    requires ValidStyle(ps)
    ensures TermPieces(t, ps, commas) != []
    ensures TermPieces(t, ps, commas)[0].tok in {Number, Text, Ident, ps.list}
  {
  }

  lemma ExprSpelled(l: Stream, head: string, tail: seq<Term>, ps: ParserStyle, commas: bool, rest: Stream)
    requires ValidStyle(ps) && Spells(l, TermPieces(Expr(head, tail), ps, commas), rest)
    ensures l.More? && l.head.tok == Ident && l.head.text == head && l.tail.More? && l.tail.head.tok == ps.expr
    ensures Spells(l.tail.tail, ElementPieces(tail, true, ps, commas) + [Sign(ClosingToken(ps.expr))], rest)
  {
    var body := ElementPieces(tail, true, ps, commas) + [Sign(ClosingToken(ps.expr))];
    assert TermPieces(Expr(head, tail), ps, commas)[1..] == [Sign(ps.expr)] + body;
    assert ([Sign(ps.expr)] + body)[1..] == body;
  }

  /** A written term is parsed back, whatever follows it. */
  lemma {:induction false} TermParsed(l: Stream, t: Term, ps: ParserStyle, commas: bool, rest: Stream)
    requires ValidStyle(ps) && CommasSuffice(ps, commas)
    requires Spells(l, TermPieces(t, ps, commas), rest) && !l.Fault?
    ensures ParseTerm(l, ps) == Good(t, rest)
    decreases t, 0
  {
    match t
    case Num(literal) => assert TermPieces(t, ps, commas)[1..] == [];
    case Str(value) => assert TermPieces(t, ps, commas)[1..] == [];
    case List(elements) =>
      var close := ClosingToken(ps.list);
      assert TermPieces(t, ps, commas)[1..] == ElementPieces(elements, true, ps, commas) + [Sign(close)];
      ListParsed(l.tail, elements, true, close, ps, commas, rest);
    case Expr(head, tail) =>
      ExprSpelled(l, head, tail, ps, commas, rest);
      ListParsed(l.tail.tail, tail, true, ClosingToken(ps.expr), ps, commas, rest);
  }

  lemma SeparatorRead(l: Stream, m: Stream, sep: seq<Piece>, first: bool, ps: ParserStyle, commas: bool)
    requires ValidStyle(ps) && CommasSuffice(ps, commas)
    requires sep == if first || !commas then [] else [Sign(Comma)]
    requires Spells(l, sep, m) && m.More? && m.head.tok in {Number, Text, Ident, ps.list}
    ensures Separator(l, first, ps) == Good((), m)
    ensures l.More? && l.head.tok in {Number, Text, Ident, ps.list, Comma}
  {
    if sep != [] { assert [Sign(Comma)][1..] == []; }
  }

  /** Where the first element of a list starts (m) and ends (r). */
  lemma ElementSplit(
      l: Stream, es: seq<Term>, first: bool, close: Token, ps: ParserStyle, commas: bool, rest: Stream)
    returns (m: Stream, r: Stream)
    requires ValidStyle(ps) && CommasSuffice(ps, commas) && es != []
    requires close == ClosingToken(ps.list) || close == ClosingToken(ps.expr)
    requires Spells(l, ElementPieces(es, first, ps, commas) + [Sign(close)], rest)
    ensures l.More? && l.head.tok != close && Separator(l, first, ps) == Good((), m) && !m.Fault?
    ensures Spells(m, TermPieces(es[0], ps, commas), r)
    ensures Spells(r, ElementPieces(es[1..], false, ps, commas) + [Sign(close)], rest)
  {
    var sep := if first || !commas then [] else [Sign(Comma)];
    var term, more := TermPieces(es[0], ps, commas), ElementPieces(es[1..], false, ps, commas) + [Sign(close)];
    assert ElementPieces(es, first, ps, commas) + [Sign(close)] == sep + (term + more);
    SpellsSplit(l, sep, term + more, rest);
    m := Drop(l, |sep|);
    SpellsSplit(m, term, more, rest);
    r := Drop(m, |term|);
    TermStart(es[0], ps, commas);
    SeparatorRead(l, m, sep, first, ps, commas);
  }

  lemma {:induction false} ListParsed(
      l: Stream, es: seq<Term>, first: bool, close: Token, ps: ParserStyle, commas: bool, rest: Stream)
    requires ValidStyle(ps) && CommasSuffice(ps, commas)
    requires close == ClosingToken(ps.list) || close == ClosingToken(ps.expr)
    requires Spells(l, ElementPieces(es, first, ps, commas) + [Sign(close)], rest)
    ensures ParseList(l, close, first, ps) == Good(es, rest)
    decreases es, 1
  {
    if es == [] {
      assert ElementPieces(es, first, ps, commas) + [Sign(close)] == [Sign(close)];
      assert [Sign(close)][1..] == [];
    } else {
      var m, r := ElementSplit(l, es, first, close, ps, commas, rest);
      TermParsed(m, es[0], ps, commas, r);
      ListParsed(r, es[1..], false, close, ps, commas, rest);
      ListStep(l, m, es[0], r, close, first, ps);
      assert [es[0]] + es[1..] == es;
    }
  }

  // ---------------------------------------------------------------- whole registries

  predicate Distinct(pairs: seq<Pair>) {
    forall i, j :: 0 <= i < j < |pairs| ==> pairs[i].0 != pairs[j].0
  }

  function KeysOf(pairs: seq<Pair>): set<string> { set i | 0 <= i < |pairs| :: pairs[i].0 }

  ghost predicate ValidPairs(pairs: seq<Pair>) {
    Distinct(pairs) && forall i :: 0 <= i < |pairs| ==> Word(pairs[i].0) && ValidTerm(pairs[i].1)
  }

  /** kv' is kv with exactly the given pairs added. */
  ghost predicate Added(kv: map<string, Entry>, pairs: seq<Pair>, kv': map<string, Entry>) {
    && kv'.Keys == kv.Keys + KeysOf(pairs)
    && (forall i :: 0 <= i < |pairs| ==> pairs[i].0 in kv' && kv'[pairs[i].0].value == pairs[i].1)
    && (forall k :: k in kv && k !in KeysOf(pairs) ==> k in kv' && kv'[k] == kv[k])
  }

  lemma PairParsed(l: Stream, p: Pair, ps: ParserStyle, commas: bool, rest: Stream)
    requires ValidStyle(ps) && CommasSuffice(ps, commas) && Spells(l, PairPieces(p, ps, commas), rest)
    ensures l.More? && ParsePair(l, ps) == Good(Some((p.0, Entry(p.1, l.head.line))), rest)
  {
    var term := TermPieces(p.1, ps, commas);
    assert PairPieces(p, ps, commas)[1..] == [Sign(Assign)] + term;
    assert ([Sign(Assign)] + term)[1..] == term;
    TermStart(p.1, ps, commas);
    TermParsed(l.tail.tail, p.1, ps, commas, rest);
  }

  lemma AddedStep(kv: map<string, Entry>, pairs: seq<Pair>, line: nat, kv': map<string, Entry>)
    requires pairs != [] && Distinct(pairs)
    requires Added(kv[pairs[0].0 := Entry(pairs[0].1, line)], pairs[1..], kv')
    ensures Added(kv, pairs, kv')
  {
    assert pairs[0].0 !in KeysOf(pairs[1..]);
    forall i | 1 <= i < |pairs| ensures pairs[i].0 in kv' && kv'[pairs[i].0].value == pairs[i].1 {
      assert pairs[1..][i - 1] == pairs[i];
    }
    forall k ensures k in KeysOf(pairs) <==> k == pairs[0].0 || k in KeysOf(pairs[1..]) {
      if k in KeysOf(pairs[1..]) {
        var i :| 0 <= i < |pairs[1..]| && pairs[1..][i].0 == k;
        assert pairs[i + 1].0 == k;
      }
      if k in KeysOf(pairs) && k != pairs[0].0 {
        var i :| 0 <= i < |pairs| && pairs[i].0 == k;
        assert pairs[1..][i - 1].0 == k;
      }
    }
  }

  lemma {:induction false} PairsParsed(
      l: Stream, pairs: seq<Pair>, ps: ParserStyle, commas: bool, unique: bool, kv: map<string, Entry>, end: nat)
    requires ValidStyle(ps) && CommasSuffice(ps, commas) && Distinct(pairs)
    requires unique ==> kv.Keys !! KeysOf(pairs)
    requires Spells(l, RegistryPieces(pairs, ps, commas), Done(end))
    ensures var r := ReadPairs(l, ps, unique, kv);
            r.Good? && r.rest == Done(end) && Added(kv, pairs, r.value)
    decreases |pairs|
  {
    if pairs != [] {
      var first, more := PairPieces(pairs[0], ps, commas), RegistryPieces(pairs[1..], ps, commas);
      SpellsSplit(l, first, more, Done(end));
      var r := Drop(l, |first|);
      PairParsed(l, pairs[0], ps, commas, r);
      var kv1 := kv[pairs[0].0 := Entry(pairs[0].1, l.head.line)];
      assert pairs[0].0 in KeysOf(pairs);
      forall i | 1 <= i < |pairs| ensures pairs[i].0 != pairs[0].0 && pairs[i].0 in KeysOf(pairs) {}
      PairsParsed(r, pairs[1..], ps, commas, unique, kv1, end);
      AddedStep(kv, pairs, l.head.line, ReadPairs(r, ps, unique, kv1).value);
    }
  }

  lemma {:induction false} TermPiecesValid(t: Term, ps: ParserStyle, commas: bool)
    requires ValidStyle(ps) && ValidTerm(t)
    ensures ValidPieces(TermPieces(t, ps, commas))
    decreases t, 0
  {
    match t
    case List(elements) => ElementPiecesValid(elements, true, ps, commas);
    case Expr(_, tail) => ElementPiecesValid(tail, true, ps, commas);
    case _ =>
  }

  lemma {:induction false} ElementPiecesValid(es: seq<Term>, first: bool, ps: ParserStyle, commas: bool)
    requires ValidStyle(ps) && forall e :: e in es ==> ValidTerm(e)
    ensures ValidPieces(ElementPieces(es, first, ps, commas))
    decreases es, 1
  {
    if es != [] {
      TermPiecesValid(es[0], ps, commas);
      ElementPiecesValid(es[1..], false, ps, commas);
    }
  }

  lemma {:induction false} RegistryPiecesValid(pairs: seq<Pair>, ps: ParserStyle, commas: bool)
    requires ValidStyle(ps) && forall i :: 0 <= i < |pairs| ==> Word(pairs[i].0) && ValidTerm(pairs[i].1)
    ensures ValidPieces(RegistryPieces(pairs, ps, commas))
  {
    if pairs != [] {
      TermPiecesValid(pairs[0].1, ps, commas);
      RegistryPiecesValid(pairs[1..], ps, commas);
    }
  }

  /** Print then parse is the identity, on characters: for all pairs with distinct identifier keys
      and arbitrarily nested values, in every comment, quote and comma style, with any brackets as
      delimiters and any white space and comments between tokens, the text is read without error
      into exactly those pairs. */
  lemma ReadInvertsWrite(
      pairs: seq<Pair>, gaps: seq<Spacing>, ls: LexerStyle, ps: ParserStyle, commas: bool,
      unique: bool, kv: map<string, Entry>)
    requires ValidStyle(ps) && CommasSuffice(ps, commas) && ValidPairs(pairs)
    requires unique ==> kv.Keys !! KeysOf(pairs)
    requires ValidSpacing(RegistryPieces(pairs, ps, commas), gaps, ls)
    ensures var r := ReadText(Render(RegistryPieces(pairs, ps, commas), gaps, ls), ls, ps, unique, kv);
            r.Ok? && Added(kv, pairs, r.value)
  {
    var pieces := RegistryPieces(pairs, ps, commas);
    RegistryPiecesValid(pairs, ps, commas);
    LexInvertsRender(pieces, gaps, 1, ls);
    TokensSpell(pieces, gaps, 1);
    var end: nat :| Spells(Tokens(pieces, gaps, 1), pieces, Done(end));
    PairsParsed(Tokens(pieces, gaps, 1), pairs, ps, commas, unique, kv, end);
  }

  function Blanks(n: nat): seq<Spacing> { seq(n, _ => [Blank(' ')]) }

  /** The plainest layout: a blank before and after each token. */
  function Print(pairs: seq<Pair>, ls: LexerStyle, ps: ParserStyle): string
    requires ValidStyle(ps)
  {
    var pieces := RegistryPieces(pairs, ps, true);
    Render(pieces, Blanks(|pieces| + 1), ls)
  }

  lemma BlanksAreValid(pieces: seq<Piece>, ls: LexerStyle)
    ensures ValidSpacing(pieces, Blanks(|pieces| + 1), ls)
  {
  }

  lemma ReadInvertsPrint(pairs: seq<Pair>, ls: LexerStyle, ps: ParserStyle)
    requires ValidStyle(ps) && ValidPairs(pairs)
    ensures var r := ReadText(Print(pairs, ls, ps), ls, ps, true, map[]);
            r.Ok? && Added(map[], pairs, r.value)
  {
    var pieces := RegistryPieces(pairs, ps, true);
    BlanksAreValid(pieces, ls);
    ReadInvertsWrite(pairs, Blanks(|pieces| + 1), ls, ps, true, true, map[]);
  }

  // ---------------------------------------------------------------- whatever is read can be written

  /** Identifiers and literals in l are well formed. */
  predicate ValidStream(l: Stream) {
    l.More? ==>
      && (l.head.tok == Ident ==> Word(l.head.text))
      && (l.head.tok == Number ==> Decimal(l.head.text))
      && ValidStream(l.tail)
  }

  lemma {:induction false} LexedValid(s: string, line: nat, st: LexerStyle)
    ensures ValidStream(Lex(s, line, st))
    decreases |s|
  {
    var r := Next(s, line, st);
    NextInGrammar(s, line, st);
    if r.Read? { LexedValid(r.rest, r.line, st); }
  }

  lemma {:induction false} ParsedTermValid(l: Stream, ps: ParserStyle)
    requires ValidStyle(ps) && ValidStream(l) && ParseTerm(l, ps).Good?
    ensures ValidTerm(ParseTerm(l, ps).value) && ValidStream(ParseTerm(l, ps).rest)
    decreases Length(l), 0
  {
    if l.head.tok == Ident && Head(l.tail) == ps.expr {
      assert Length(l.tail) == 1 + Length(l.tail.tail);
      ParsedListValid(l.tail.tail, ClosingToken(ps.expr), true, ps);
    } else if l.head.tok == ps.list {
      ParsedListValid(l.tail, ClosingToken(ps.list), true, ps);
    }
  }

  lemma {:induction false} ParsedListValid(l: Stream, close: Token, first: bool, ps: ParserStyle)
    requires ValidStyle(ps) && close != End && ValidStream(l) && ParseList(l, close, first, ps).Good?
    ensures forall e :: e in ParseList(l, close, first, ps).value ==> ValidTerm(e)
    ensures ValidStream(ParseList(l, close, first, ps).rest)
    decreases Length(l), 1
  {
    if Head(l) != close {
      var m := Separator(l, first, ps).rest;
      ParsedTermValid(m, ps);
      ParsedListValid(ParseTerm(m, ps).rest, close, false, ps);
    }
  }

  ghost predicate ValidEntries(kv: map<string, Entry>) {
    forall k :: k in kv ==> Word(k) && ValidTerm(kv[k].value)
  }

  lemma {:induction false} ReadPairsValid(l: Stream, ps: ParserStyle, unique: bool, kv: map<string, Entry>)
    requires ValidStyle(ps) && ValidStream(l) && ValidEntries(kv) && ReadPairs(l, ps, unique, kv).Good?
    ensures ValidEntries(ReadPairs(l, ps, unique, kv).value)
    decreases Length(l)
  {
    var r := ParsePair(l, ps);
    if r.Good? && r.value.Some? {
      ParsedTermValid(l.tail.tail, ps);
      var (key, entry) := r.value.value;
      ReadPairsValid(r.rest, ps, unique, kv[key := entry]);
    }
  }

  /** pairs lists the entries of kv, in some order. */
  ghost predicate Lists(pairs: seq<Pair>, kv: map<string, Entry>) {
    && Distinct(pairs) && KeysOf(pairs) == kv.Keys
    && forall i :: 0 <= i < |pairs| ==> pairs[i].0 in kv && kv[pairs[i].0].value == pairs[i].1
  }

  lemma ListedIsAdded(pairs: seq<Pair>, kv: map<string, Entry>, kv': map<string, Entry>)
    requires Lists(pairs, kv) && Added(map[], pairs, kv')
    ensures kv'.Keys == kv.Keys && forall k :: k in kv ==> kv'[k].value == kv[k].value
  {
    forall k | k in kv ensures k in kv' && kv'[k].value == kv[k].value {
      assert k in KeysOf(pairs);
      var i :| 0 <= i < |pairs| && pairs[i].0 == k;
      assert kv'[pairs[i].0].value == pairs[i].1;
    }
  }

  /** Whatever text is accepted, writing its registry, in any grammar and order, and reading that
      gives the same registry again. */
  lemma RereadIsIdentity(
      s: string, ls: LexerStyle, ps: ParserStyle, unique: bool, kv: map<string, Entry>,
      pairs: seq<Pair>, ls': LexerStyle, ps': ParserStyle)
    requires ValidStyle(ps) && ValidStyle(ps')
    requires ReadText(s, ls, ps, unique, map[]) == Ok(kv) && Lists(pairs, kv)
    ensures var r := ReadText(Print(pairs, ls', ps'), ls', ps', true, map[]);
            r.Ok? && r.value.Keys == kv.Keys && forall k :: k in kv ==> r.value[k].value == kv[k].value
  {
    LexedValid(s, 1, ls);
    ReadPairsValid(Lex(s, 1, ls), ps, unique, map[]);
    ReadInvertsPrint(pairs, ls', ps');
    var kv' := ReadText(Print(pairs, ls', ps'), ls', ps', true, map[]).value;
    ListedIsAdded(pairs, kv, kv');
  }
}
