/**
 The registry's grammar, written without the parser: which token streams spell a term, and which
 texts a registry.  The parser accepts these and nothing else, with these values.
 */
module Grammar {
  import opened Lexing
  import opened Parsing
  import opened Results
  import opened Scanning

  // ---------------------------------------------------------------- terms

  predicate Matches(open: Token, close: Token) {
    || (open == LeftParen && close == RightParen)
    || (open == LeftBrace && close == RightBrace)
    || (open == LeftBracket && close == RightBracket)
  }

  /** What stands between an element that begins at m and the one before it. */
  predicate IsSeparator(l: Stream, m: Stream, first: bool, ps: ParserStyle) {
    var comma := l.More? && l.head.tok == Comma && m == l.tail;
    if first then m == l
    else match ps.commas
      case CommaRequired => comma
      case CommaOptional => comma || m == l
  }

  /** A name by itself: the lexer can go on behind it, and no expression opens there. */
  predicate IsName(l: Stream, ps: ParserStyle) {
    l.More? && l.head.tok == Ident && !l.tail.Fault? && (l.tail.More? ==> l.tail.head.tok != ps.expr)
  }

  /** The tokens from l up to rest spell v. */
  ghost predicate IsTerm(l: Stream, v: Term, rest: Stream, ps: ParserStyle)
    decreases v
  {
    l.More? &&
    match v
    case Num(literal) => l.head.tok == Number && l.head.text == literal && rest == l.tail
    case Str(value) => l.head.text == value && rest == l.tail && (l.head.tok == Text || IsName(l, ps))
    case List(elements) => l.head.tok == ps.list && IsList(l.tail, elements, true, ps.list, rest, ps)
    case Expr(head, tail) =>
      && l.head.tok == Ident && l.head.text == head
      && l.tail.More? && l.tail.head.tok == ps.expr && IsList(l.tail.tail, tail, true, ps.expr, rest, ps)
  }

  /** The elements es and what closes the bracket open. */
  ghost predicate IsList(l: Stream, es: seq<Term>, first: bool, open: Token, rest: Stream, ps: ParserStyle)
    decreases es
  {
    if es == [] then l.More? && Matches(open, l.head.tok) && rest == l.tail
    else
      exists m, r ::
        IsSeparator(l, m, first, ps) && IsTerm(m, es[0], r, ps) && IsList(r, es[1..], false, open, rest, ps)
  }

  lemma {:induction false} TermAccepted(l: Stream, v: Term, rest: Stream, ps: ParserStyle)
    requires ValidStyle(ps) && IsTerm(l, v, rest, ps)
    ensures ParseTerm(l, ps) == Good(v, rest)
    decreases v
  {
    match v
    case List(elements) => ListAccepted(l.tail, elements, true, ps.list, rest, ps);
    case Expr(_, tail) => ListAccepted(l.tail.tail, tail, true, ps.expr, rest, ps);
    case _ =>
  }

  lemma SeparatorAccepted(l: Stream, m: Stream, first: bool, open: Token, ps: ParserStyle)
    requires ValidStyle(ps) && Opening(open) && IsSeparator(l, m, first, ps)
    requires m.More? && m.head.tok in {Number, Text, Ident, ps.list}
    ensures l.More? && l.head.tok != ClosingToken(open) && Separator(l, first, ps) == Good((), m)
  {
  }

  lemma {:induction false} ListAccepted(l: Stream, es: seq<Term>, first: bool, open: Token, rest: Stream, ps: ParserStyle)
    requires ValidStyle(ps) && Opening(open) && IsList(l, es, first, open, rest, ps)
    ensures ParseList(l, ClosingToken(open), first, ps) == Good(es, rest)
    decreases es
  {
    if es != [] {
      var m, r :|
        IsSeparator(l, m, first, ps) && IsTerm(m, es[0], r, ps) && IsList(r, es[1..], false, open, rest, ps);
      TermAccepted(m, es[0], r, ps);
      ListAccepted(r, es[1..], false, open, rest, ps);
      SeparatorAccepted(l, m, first, open, ps);
      ListStep(l, m, es[0], r, ClosingToken(open), first, ps);
      assert [es[0]] + es[1..] == es;
    }
  }

  lemma SeparatorGrammatical(l: Stream, m: Stream, first: bool, ps: ParserStyle)
    requires Separator(l, first, ps) == Good((), m)
    ensures IsSeparator(l, m, first, ps)
  {
  }

  lemma OneMoreElement(
      l: Stream, m: Stream, v: Term, r: Stream, es: seq<Term>, first: bool, open: Token, rest: Stream, ps: ParserStyle)
    requires IsSeparator(l, m, first, ps) && IsTerm(m, v, r, ps) && IsList(r, es, false, open, rest, ps)
    ensures IsList(l, [v] + es, first, open, rest, ps)
  {
    assert ([v] + es)[1..] == es;
  }

  lemma ListEnd(l: Stream, first: bool, open: Token, ps: ParserStyle)
    requires Opening(open) && Head(l) == ClosingToken(open)
    ensures IsList(l, [], first, open, l.tail, ps)
  {
  }

  lemma {:induction false} TermGrammatical(l: Stream, ps: ParserStyle)
    requires ValidStyle(ps) && ParseTerm(l, ps).Good?
    ensures IsTerm(l, ParseTerm(l, ps).value, ParseTerm(l, ps).rest, ps)
    decreases Length(l), 0
  {
    if l.head.tok == Ident && Head(l.tail) == ps.expr {
      assert Length(l.tail) == 1 + Length(l.tail.tail);
      ListGrammatical(l.tail.tail, ps.expr, true, ps);
    } else if l.head.tok == ps.list {
      ListGrammatical(l.tail, ps.list, true, ps);
    }
  }

  lemma {:induction false} ListGrammatical(l: Stream, open: Token, first: bool, ps: ParserStyle)
    requires ValidStyle(ps) && Opening(open) && ParseList(l, ClosingToken(open), first, ps).Good?
    ensures var r := ParseList(l, ClosingToken(open), first, ps);
      IsList(l, r.value, first, open, r.rest, ps)
    decreases Length(l), 1
  {
    if Head(l) == ClosingToken(open) {
      ListEnd(l, first, open, ps);
    } else {
      var m := Separator(l, first, ps).rest;
      var v, r := ParseTerm(m, ps).value, ParseTerm(m, ps).rest;
      SeparatorGrammatical(l, m, first, ps);
      TermGrammatical(m, ps);
      ListStep(l, m, v, r, ClosingToken(open), first, ps);
      var tail := ParseList(r, ClosingToken(open), false, ps);
      ListGrammatical(r, open, false, ps);
      OneMoreElement(l, m, v, r, tail.value, first, open, tail.rest, ps);
    }
  }

  /** The parser accepts exactly the terms of the grammar. */
  lemma TermIffGrammar(l: Stream, v: Term, rest: Stream, ps: ParserStyle)
    requires ValidStyle(ps)
    ensures ParseTerm(l, ps) == Good(v, rest) <==> IsTerm(l, v, rest, ps)
  {
    if ParseTerm(l, ps).Good? { TermGrammatical(l, ps); }
    if IsTerm(l, v, rest, ps) { TermAccepted(l, v, rest, ps); }
  }

  lemma ListIffGrammar(l: Stream, es: seq<Term>, first: bool, open: Token, rest: Stream, ps: ParserStyle)
    requires ValidStyle(ps) && Opening(open)
    ensures ParseList(l, ClosingToken(open), first, ps) == Good(es, rest) <==> IsList(l, es, first, open, rest, ps)
  {
    if ParseList(l, ClosingToken(open), first, ps).Good? { ListGrammatical(l, open, first, ps); }
    if IsList(l, es, first, open, rest, ps) { ListAccepted(l, es, first, open, rest, ps); }
  }

  // ---------------------------------------------------------------- pairs

  type KeyEntry = (string, Entry)

  ghost predicate IsPair(l: Stream, p: KeyEntry, rest: Stream, ps: ParserStyle) {
    && l.More? && l.head.tok == Ident && l.head.text == p.0 && l.head.line == p.1.line
    && l.tail.More? && l.tail.head.tok == Assign
    && IsTerm(l.tail.tail, p.1.value, rest, ps)
  }

  ghost predicate IsPairs(l: Stream, pairs: seq<KeyEntry>, rest: Stream, ps: ParserStyle)
    decreases |pairs|
  {
    if pairs == [] then rest == l
    else exists r :: IsPair(l, pairs[0], r, ps) && IsPairs(r, pairs[1..], rest, ps)
  }

  /** kv with the pairs added one after the other. */
  function AddAll(kv: map<string, Entry>, pairs: seq<KeyEntry>): map<string, Entry>
    decreases |pairs|
  {
    if pairs == [] then kv else AddAll(kv[pairs[0].0 := pairs[0].1], pairs[1..])
  }

  /** No key is in kv, or there twice. */
  ghost predicate NewKeys(kv: map<string, Entry>, pairs: seq<KeyEntry>) {
    && (forall i :: 0 <= i < |pairs| ==> pairs[i].0 !in kv)
    && forall i, j :: 0 <= i < j < |pairs| ==> pairs[i].0 != pairs[j].0
  }

  lemma {:induction false} OthersAreKept(kv: map<string, Entry>, pairs: seq<KeyEntry>, k: string)
    requires forall i :: 0 <= i < |pairs| ==> pairs[i].0 != k
    ensures k in AddAll(kv, pairs) <==> k in kv
    ensures k in kv ==> AddAll(kv, pairs)[k] == kv[k]
    decreases |pairs|
  {
    if pairs != [] { OthersAreKept(kv[pairs[0].0 := pairs[0].1], pairs[1..], k); }
  }

  /** A key has the value it was given last. */
  lemma {:induction false} LastIsStored(kv: map<string, Entry>, pairs: seq<KeyEntry>, i: nat)
    requires i < |pairs| && forall j :: i < j < |pairs| ==> pairs[j].0 != pairs[i].0
    ensures pairs[i].0 in AddAll(kv, pairs) && AddAll(kv, pairs)[pairs[i].0] == pairs[i].1
    decreases |pairs|
  {
    var kv1, more := kv[pairs[0].0 := pairs[0].1], pairs[1..];
    if i == 0 {
      OthersAreKept(kv1, more, pairs[0].0);
    } else {
      LastIsStored(kv1, more, i - 1);
    }
  }

  lemma NewKeysStep(kv: map<string, Entry>, pairs: seq<KeyEntry>)
    requires pairs != []
    ensures NewKeys(kv, pairs) <==> pairs[0].0 !in kv && NewKeys(kv[pairs[0].0 := pairs[0].1], pairs[1..])
  {
    var more, kv1 := pairs[1..], kv[pairs[0].0 := pairs[0].1];
    forall i | 1 <= i < |pairs| ensures pairs[i] == more[i - 1] {}
    if NewKeys(kv, pairs) {
      assert forall i :: 0 <= i < |more| ==> more[i].0 == pairs[i + 1].0;
    }
    if pairs[0].0 !in kv && NewKeys(kv1, more) {
      forall i, j | 0 <= i < j < |pairs| ensures pairs[i].0 != pairs[j].0 {
        assert pairs[j] == more[j - 1] && more[j - 1].0 !in kv1;
        if i > 0 { assert pairs[i] == more[i - 1]; }
      }
      forall i | 0 <= i < |pairs| ensures pairs[i].0 !in kv {
        if i > 0 { assert more[i - 1].0 !in kv1; }
      }
    }
  }

  /** A pair is read if and only if there is one. */
  lemma PairIffGrammar(l: Stream, p: KeyEntry, rest: Stream, ps: ParserStyle)
    requires ValidStyle(ps)
    ensures ParsePair(l, ps) == Good(Some(p), rest) <==> IsPair(l, p, rest, ps)
  {
    if l.More? && l.tail.More? { TermIffGrammar(l.tail.tail, p.1.value, rest, ps); }
  }

  /** What reading pairs up to rest leaves, according to the grammar. */
  ghost predicate Reads(
      l: Stream, ps: ParserStyle, unique: bool, kv: map<string, Entry>, kv': map<string, Entry>, rest: Stream)
  {
    && !rest.Fault? && Head(rest) != Ident
    && exists pairs :: IsPairs(l, pairs, rest, ps) && kv' == AddAll(kv, pairs) && (unique ==> NewKeys(kv, pairs))
  }

  lemma {:induction false} PairsAccepted(
      l: Stream, ps: ParserStyle, unique: bool, kv: map<string, Entry>, pairs: seq<KeyEntry>, rest: Stream)
    requires ValidStyle(ps) && !rest.Fault? && Head(rest) != Ident
    requires IsPairs(l, pairs, rest, ps) && (unique ==> NewKeys(kv, pairs))
    ensures ReadPairs(l, ps, unique, kv) == Good(AddAll(kv, pairs), rest)
    decreases |pairs|
  {
    if pairs != [] {
      var r :| IsPair(l, pairs[0], r, ps) && IsPairs(r, pairs[1..], rest, ps);
      PairIffGrammar(l, pairs[0], r, ps);
      NewKeysStep(kv, pairs);
      PairsAccepted(r, ps, unique, kv[pairs[0].0 := pairs[0].1], pairs[1..], rest);
    }
  }

  lemma {:induction false} PairsGrammatical(l: Stream, ps: ParserStyle, unique: bool, kv: map<string, Entry>)
    returns (pairs: seq<KeyEntry>)
    requires ValidStyle(ps) && ReadPairs(l, ps, unique, kv).Good?
    ensures var r := ReadPairs(l, ps, unique, kv);
      && !r.rest.Fault? && Head(r.rest) != Ident && IsPairs(l, pairs, r.rest, ps)
      && r.value == AddAll(kv, pairs) && (unique ==> NewKeys(kv, pairs))
    decreases Length(l)
  {
    var p := ParsePair(l, ps);
    if p.value.None? {
      pairs := [];
    } else {
      PairIffGrammar(l, p.value.value, p.rest, ps);
      var more := PairsGrammatical(p.rest, ps, unique, kv[p.value.value.0 := p.value.value.1]);
      pairs := [p.value.value] + more;
      assert pairs[1..] == more;
      NewKeysStep(kv, pairs);
    }
  }

  /** Pairs are read exactly if the grammar has them: up to a token that begins no pair, with the keys
      new and different if none may be redefined. */
  lemma PairsIffGrammar(
      l: Stream, ps: ParserStyle, unique: bool, kv: map<string, Entry>, kv': map<string, Entry>, rest: Stream)
    requires ValidStyle(ps)
    ensures ReadPairs(l, ps, unique, kv) == Good(kv', rest) <==> Reads(l, ps, unique, kv, kv', rest)
  {
    if ReadPairs(l, ps, unique, kv).Good? { var _ := PairsGrammatical(l, ps, unique, kv); }
    if Reads(l, ps, unique, kv, kv', rest) {
      var pairs :| IsPairs(l, pairs, rest, ps) && kv' == AddAll(kv, pairs) && (unique ==> NewKeys(kv, pairs));
      PairsAccepted(l, ps, unique, kv, pairs, rest);
    }
  }

  /** Where no pair follows that may be added, the store keeps the pairs before; and if it is a
      redefinition that is not allowed, this is the error. */
  lemma {:induction false} StoredByGrammar(
      l: Stream, ps: ParserStyle, unique: bool, kv: map<string, Entry>, pairs: seq<KeyEntry>, rest: Stream)
    requires ValidStyle(ps) && IsPairs(l, pairs, rest, ps) && (unique ==> NewKeys(kv, pairs))
    requires forall p, r :: IsPair(rest, p, r, ps) ==> unique && p.0 in AddAll(kv, pairs)
    ensures Stored(l, ps, unique, kv) == AddAll(kv, pairs)
    ensures forall p, r :: IsPair(rest, p, r, ps) ==> ReadPairs(l, ps, unique, kv) == Failed(Redefined(p.0))
    decreases |pairs|
  {
    if pairs != [] {
      var r :| IsPair(l, pairs[0], r, ps) && IsPairs(r, pairs[1..], rest, ps);
      PairIffGrammar(l, pairs[0], r, ps);
      NewKeysStep(kv, pairs);
      StoredByGrammar(r, ps, unique, kv[pairs[0].0 := pairs[0].1], pairs[1..], rest);
    } else {
      var p := ParsePair(l, ps);
      if p.Good? && p.value.Some? { PairIffGrammar(l, p.value.value, p.rest, ps); }
      forall q, r | IsPair(rest, q, r, ps) ensures p == Good(Some(q), r) { PairIffGrammar(l, q, r, ps); }
    }
  }

  // ---------------------------------------------------------------- whole texts

  predicate NoEnd(l: Stream) { l.More? ==> l.head.tok != End && NoEnd(l.tail) }

  lemma {:induction false} TermNoEnd(l: Stream, v: Term, rest: Stream, ps: ParserStyle)
    requires IsTerm(l, v, rest, ps) && NoEnd(l)
    ensures NoEnd(rest)
    decreases v
  {
    match v
    case List(elements) => ListNoEnd(l.tail, elements, true, ps.list, rest, ps);
    case Expr(_, tail) => ListNoEnd(l.tail.tail, tail, true, ps.expr, rest, ps);
    case _ =>
  }

  lemma {:induction false} ListNoEnd(l: Stream, es: seq<Term>, first: bool, open: Token, rest: Stream, ps: ParserStyle)
    requires IsList(l, es, first, open, rest, ps) && NoEnd(l)
    ensures NoEnd(rest)
    decreases es
  {
    if es != [] {
      var m, r :|
        IsSeparator(l, m, first, ps) && IsTerm(m, es[0], r, ps) && IsList(r, es[1..], false, open, rest, ps);
      TermNoEnd(m, es[0], r, ps);
      ListNoEnd(r, es[1..], false, open, rest, ps);
    }
  }

  lemma {:induction false} PairsNoEnd(l: Stream, pairs: seq<KeyEntry>, rest: Stream, ps: ParserStyle)
    requires IsPairs(l, pairs, rest, ps) && NoEnd(l)
    ensures NoEnd(rest)
    decreases |pairs|
  {
    if pairs != [] {
      var r :| IsPair(l, pairs[0], r, ps) && IsPairs(r, pairs[1..], rest, ps);
      TermNoEnd(l.tail.tail, pairs[0].1.value, r, ps);
      PairsNoEnd(r, pairs[1..], rest, ps);
    }
  }

  lemma {:induction false} LexNoEnd(s: string, line: nat, ls: LexerStyle)
    ensures NoEnd(Lex(s, line, ls))
    decreases |s|
  {
    var r := Next(s, line, ls);
    if r.Read? { LexNoEnd(r.rest, r.line, ls); }
  }

  /** All of s is pairs: its tokens, by the lexical grammar, spell them, and then it ends. */
  ghost predicate IsRegistry(s: string, pairs: seq<KeyEntry>, ls: LexerStyle, ps: ParserStyle) {
    exists l, n :: StreamOf(s, 1, l, ls) && IsPairs(l, pairs, Done(n), ps)
  }

  lemma TextAccepted(
      s: string, ls: LexerStyle, ps: ParserStyle, unique: bool, kv: map<string, Entry>, pairs: seq<KeyEntry>)
    requires ValidStyle(ps) && IsRegistry(s, pairs, ls, ps) && (unique ==> NewKeys(kv, pairs))
    ensures ReadText(s, ls, ps, unique, kv) == Ok(AddAll(kv, pairs))
  {
    var l, n :| StreamOf(s, 1, l, ls) && IsPairs(l, pairs, Done(n), ps);
    LexIffGrammar(s, 1, l, ls);
    PairsAccepted(l, ps, unique, kv, pairs, Done(n));
  }

  lemma TextGrammatical(s: string, ls: LexerStyle, ps: ParserStyle, unique: bool, kv: map<string, Entry>)
    returns (pairs: seq<KeyEntry>)
    requires ValidStyle(ps) && ReadText(s, ls, ps, unique, kv).Ok?
    ensures IsRegistry(s, pairs, ls, ps) && (unique ==> NewKeys(kv, pairs))
    ensures ReadText(s, ls, ps, unique, kv) == Ok(AddAll(kv, pairs))
  {
    var l := Lex(s, 1, ls);
    pairs := PairsGrammatical(l, ps, unique, kv);
    var rest := ReadPairs(l, ps, unique, kv).rest;
    LexNoEnd(s, 1, ls);
    PairsNoEnd(l, pairs, rest, ps);
    LexIffGrammar(s, 1, l, ls);
    assert rest == Done(rest.line);
  }

  /** A text is accepted exactly if it is a registry to its end, with keys new and different if none may
      be redefined; and then its pairs are added in order.  Any other text is an error. */
  lemma TextIffGrammar(
      s: string, ls: LexerStyle, ps: ParserStyle, unique: bool, kv: map<string, Entry>, kv': map<string, Entry>)
    requires ValidStyle(ps)
    ensures ReadText(s, ls, ps, unique, kv) == Ok(kv') <==>
            exists pairs :: IsRegistry(s, pairs, ls, ps) && (unique ==> NewKeys(kv, pairs)) && kv' == AddAll(kv, pairs)
  {
    if ReadText(s, ls, ps, unique, kv).Ok? { var _ := TextGrammatical(s, ls, ps, unique, kv); }
    if exists pairs :: IsRegistry(s, pairs, ls, ps) && (unique ==> NewKeys(kv, pairs)) && kv' == AddAll(kv, pairs) {
      var pairs :| IsRegistry(s, pairs, ls, ps) && (unique ==> NewKeys(kv, pairs)) && kv' == AddAll(kv, pairs);
      TextAccepted(s, ls, ps, unique, kv, pairs);
    }
  }
}
