/**
 The comma policies compared: making commas optional accepts more and changes no meaning, and
 leaving separator commas out changes no meaning exactly when lists and expressions are delimited
 differently.
 */
module CommaPolicy {
  import opened Gaps
  import opened Lexicon
  import opened Lexing
  import opened Parsing
  import opened Rendering
  import opened Results

  // ---------------------------------------------------------------- required implies optional

  function Relaxed(ps: ParserStyle): ParserStyle { ps.(commas := CommaOptional) }

  lemma {:induction false} TermRelaxed(l: Stream, ps: ParserStyle)
    requires ValidStyle(ps) && ParseTerm(l, ps).Good?
    ensures ParseTerm(l, Relaxed(ps)) == ParseTerm(l, ps)
    decreases Length(l), 0
  {
    if l.head.tok == Ident && Head(l.tail) == ps.expr {
      assert Length(l.tail) == 1 + Length(l.tail.tail);
      ListRelaxed(l.tail.tail, ClosingToken(ps.expr), true, ps);
    } else if l.head.tok == ps.list {
      ListRelaxed(l.tail, ClosingToken(ps.list), true, ps);
    }
  }

  lemma {:induction false} ListRelaxed(l: Stream, close: Token, first: bool, ps: ParserStyle)
    requires ValidStyle(ps) && close != End && ParseList(l, close, first, ps).Good?
    ensures ParseList(l, close, first, Relaxed(ps)) == ParseList(l, close, first, ps)
    decreases Length(l), 1
  {
    if Head(l) != close {
      var m := Separator(l, first, ps).rest;
      assert Separator(l, first, Relaxed(ps)).rest == m;
      TermRelaxed(m, ps);
      ListRelaxed(ParseTerm(m, ps).rest, close, false, ps);
    }
  }

  /** Whatever is accepted with commas required is accepted with commas optional, with the same
      pairs. */
  lemma {:induction false} PairsRelaxed(l: Stream, ps: ParserStyle, unique: bool, kv: map<string, Entry>)
    requires ValidStyle(ps) && ReadPairs(l, ps, unique, kv).Good?
    ensures ReadPairs(l, Relaxed(ps), unique, kv) == ReadPairs(l, ps, unique, kv)
    decreases Length(l)
  {
    var r := ParsePair(l, ps);
    if r.Good? && r.value.Some? {
      TermRelaxed(l.tail.tail, ps);
      var (key, entry) := r.value.value;
      PairsRelaxed(r.rest, ps, unique, kv[key := entry]);
    }
  }

  // ---------------------------------------------------------------- deleting commas

  /** l' is l with some of the commas before r deleted. */
  predicate Thinned(l: Stream, l': Stream, r: Stream) {
    || (l == r && l' == r)
    || (l.More? && l.head.tok == Comma && Thinned(l.tail, l', r))
    || (l.More? && l'.More? && l.head == l'.head && Thinned(l.tail, l'.tail, r))
  }

  lemma {:induction false} ThinnedLength(l: Stream, l': Stream, r: Stream)
    requires Thinned(l, l', r)
    ensures Length(r) <= Length(l)
  {
    if l == r && l' == r {
    } else if l.head.tok == Comma && Thinned(l.tail, l', r) {
      ThinnedLength(l.tail, l', r);
    } else {
      ThinnedLength(l.tail, l'.tail, r);
    }
  }

  /** Short of r only commas can be missing. */
  lemma ThinnedStep(l: Stream, l': Stream, r: Stream)
    requires Thinned(l, l', r) && Length(r) < Length(l) && l.head.tok != Comma
    ensures l'.More? && l'.head == l.head && Thinned(l.tail, l'.tail, r)
  {
  }

  lemma ThinnedNothing(r: Stream, l': Stream)
    requires Thinned(r, l', r)
    ensures l' == r
  {
    if l' != r {
      if r.head.tok == Comma && Thinned(r.tail, l', r) {
        ThinnedLength(r.tail, l', r);
      } else {
        ThinnedLength(r.tail, l'.tail, r);
      }
    }
  }

  function SkipCommas(l: Stream): Stream {
    if l.More? && l.head.tok == Comma then SkipCommas(l.tail) else l
  }

  /** However many commas are deleted, what follows does not open an expression. */
  predicate NoOpener(l: Stream, ps: ParserStyle) {
    var m := SkipCommas(l);
    !m.Fault? && Head(m) != ps.expr
  }

  lemma {:induction false} ThinnedNoOpener(l: Stream, l': Stream, r: Stream, ps: ParserStyle)
    requires ValidStyle(ps) && Thinned(l, l', r) && NoOpener(l, ps)
    ensures !l'.Fault? && Head(l') != ps.expr
  {
    if l == r && l' == r {
    } else if l.head.tok == Comma && Thinned(l.tail, l', r) {
      ThinnedNoOpener(l.tail, l', r, ps);
    }
  }

  predicate StartsTerm(l: Stream, ps: ParserStyle) {
    Head(l) in {Number, Text, Ident, ps.list}
  }

  /** After an element of an accepted list no expression can open, once delimiters differ. */
  lemma ListNoOpener(l: Stream, close: Token, ps: ParserStyle)
    requires ValidStyle(ps) && ps.list != ps.expr && (close == ClosingToken(ps.list) || close == ClosingToken(ps.expr))
    requires ParseList(l, close, false, ps).Good?
    ensures NoOpener(l, ps)
  {
    if Head(l) != close {
      var m := Separator(l, false, ps).rest;
      assert StartsTerm(m, ps);
    }
  }

  /** With or without its comma, a separator leads to the next element. */
  lemma SeparatorThinned(l: Stream, l': Stream, r: Stream, m: Stream, close: Token, first: bool, ps: ParserStyle)
    returns (m': Stream)
    requires ValidStyle(ps) && ps.commas == CommaOptional
    requires close == ClosingToken(ps.list) || close == ClosingToken(ps.expr)
    requires Thinned(l, l', r) && Separator(l, first, ps) == Good((), m)
    requires ParseTerm(m, ps).Good? && Length(r) < Length(m)
    ensures Thinned(m, m', r) && !l'.Fault? && Head(l') != close && Separator(l', first, ps) == Good((), m')
  {
    assert StartsTerm(m, ps);
    if l == m {
      ThinnedStep(l, l', r);
      m' := l';
    } else if Thinned(m, l', r) {
      ThinnedStep(m, l', r);
      m' := l';
    } else {
      m' := l'.tail;
    }
  }

  /** A name that opens no expression still opens none. */
  lemma NameThinned(t: Stream, t': Stream, r: Stream, ps: ParserStyle)
    requires ValidStyle(ps) && Thinned(t, t', r) && (t == r || NoOpener(t, ps))
    requires !t.Fault? && Head(t) != ps.expr
    ensures !t'.Fault? && Head(t') != ps.expr
  {
    if t == r { ThinnedNothing(t, t'); } else { ThinnedNoOpener(t, t', r, ps); }
  }

  lemma {:induction false} TermThinned(l: Stream, l': Stream, r: Stream, ps: ParserStyle) returns (rest': Stream)
    requires ValidStyle(ps) && ps.commas == CommaOptional && ps.list != ps.expr
    requires ParseTerm(l, ps).Good? && Thinned(l, l', r) && Length(r) <= Length(ParseTerm(l, ps).rest)
    requires ParseTerm(l, ps).rest == r || NoOpener(ParseTerm(l, ps).rest, ps)
    ensures ParseTerm(l', ps) == Good(ParseTerm(l, ps).value, rest')
    ensures Thinned(ParseTerm(l, ps).rest, rest', r)
    decreases Length(l), 0
  {
    ThinnedStep(l, l', r);
    var t, t' := l.tail, l'.tail;
    if l.head.tok == Ident && Head(t) == ps.expr {
      assert Length(t) == 1 + Length(t.tail);
      ThinnedStep(t, t', r);
      rest' := ListThinned(t.tail, t'.tail, r, ClosingToken(ps.expr), true, ps);
    } else if l.head.tok == ps.list {
      rest' := ListThinned(t, t', r, ClosingToken(ps.list), true, ps);
    } else {
      rest' := t';
      if l.head.tok == Ident { NameThinned(t, t', r, ps); }
    }
  }

  lemma {:induction false} ListThinned(l: Stream, l': Stream, r: Stream, close: Token, first: bool, ps: ParserStyle)
    returns (rest': Stream)
    requires ValidStyle(ps) && ps.commas == CommaOptional && ps.list != ps.expr
    requires close == ClosingToken(ps.list) || close == ClosingToken(ps.expr)
    requires ParseList(l, close, first, ps).Good? && Thinned(l, l', r)
    requires Length(r) <= Length(ParseList(l, close, first, ps).rest)
    ensures ParseList(l', close, first, ps) == Good(ParseList(l, close, first, ps).value, rest')
    ensures Thinned(ParseList(l, close, first, ps).rest, rest', r)
    decreases Length(l), 1
  {
    if Head(l) == close {
      ThinnedStep(l, l', r);
      rest' := l'.tail;
    } else {
      var m := Separator(l, first, ps).rest;
      var e := ParseTerm(m, ps);
      var m' := SeparatorThinned(l, l', r, m, close, first, ps);
      ListNoOpener(e.rest, close, ps);
      var s' := TermThinned(m, m', r, ps);
      rest' := ListThinned(e.rest, s', r, close, false, ps);
    }
  }

  /** After a pair no expression can open, unless reading stops there. */
  lemma {:induction false} PairsEnd(l: Stream, ps: ParserStyle, unique: bool, kv: map<string, Entry>)
    requires ValidStyle(ps) && ReadPairs(l, ps, unique, kv).Good?
    ensures var r := ReadPairs(l, ps, unique, kv).rest;
            Length(r) <= Length(l) && (l == r || NoOpener(l, ps))
    decreases Length(l)
  {
    if Head(l) == Ident {
      var pair := ParsePair(l, ps);
      var (key, entry) := pair.value.value;
      PairsEnd(pair.rest, ps, unique, kv[key := entry]);
    }
  }

  /** The same for whole registries: deleting commas before r, where reading stops, changes nothing. */
  lemma {:induction false} PairsThinned(l: Stream, l': Stream, r: Stream, ps: ParserStyle, unique: bool, kv: map<string, Entry>)
    requires ValidStyle(ps) && ps.commas == CommaOptional && ps.list != ps.expr
    requires ReadPairs(l, ps, unique, kv).Good? && ReadPairs(l, ps, unique, kv).rest == r && Thinned(l, l', r)
    ensures ReadPairs(l', ps, unique, kv) == ReadPairs(l, ps, unique, kv)
    decreases Length(l)
  {
    if Head(l) != Ident {
      ThinnedNothing(r, l');
    } else {
      var term, rest := l.tail.tail, ParseTerm(l.tail.tail, ps).rest;
      var key, entry := l.head.text, Entry(ParseTerm(term, ps).value, l.head.line);
      var kv' := kv[key := entry];
      PairsEnd(rest, ps, unique, kv');
      ThinnedStep(l, l', r);
      ThinnedStep(l.tail, l'.tail, r);
      var rest' := TermThinned(term, l'.tail.tail, r, ps);
      PairsThinned(rest, rest', r, ps, unique, kv');
    }
  }

  // ---------------------------------------------------------------- when that is so

  /** Deleting separator commas leaves the meaning of every accepted term unchanged. */
  ghost predicate CommasDeletable(ps: ParserStyle)
    requires ValidStyle(ps)
  {
    forall l, l', v, r :: ParseTerm(l, ps) == Good(v, r) && Thinned(l, l', r) ==> ParseTerm(l', ps) == Good(v, r)
  }

  /** And of every accepted registry. */
  ghost predicate CommasDeletableInPairs(ps: ParserStyle)
    requires ValidStyle(ps)
  {
    forall l, l', unique, kv {:trigger ReadPairs(l, ps, unique, kv), ReadPairs(l', ps, unique, kv)} ::
      ReadPairs(l, ps, unique, kv).Good? && Thinned(l, l', ReadPairs(l, ps, unique, kv).rest) ==>
        ReadPairs(l', ps, unique, kv) == ReadPairs(l, ps, unique, kv)
  }

  function Close(ps: ParserStyle): Lexeme
    requires ValidStyle(ps)
  {
    Lexeme(ClosingToken(ps.list), "", 1)
  }

  function EmptyListEnd(ps: ParserStyle): Stream
    requires ValidStyle(ps)
  {
    More(Lexeme(ps.list, "", 1), More(Close(ps), More(Close(ps), Done(1))))
  }

  /** The tokens of {a, {}} and of {a {}}, in the brackets of ps. */
  function Separated(ps: ParserStyle): Stream
    requires ValidStyle(ps)
  {
    More(Lexeme(ps.list, "", 1), More(Lexeme(Ident, "a", 1), More(Lexeme(Comma, "", 1), EmptyListEnd(ps))))
  }

  function Joined(ps: ParserStyle): Stream
    requires ValidStyle(ps)
  {
    More(Lexeme(ps.list, "", 1), More(Lexeme(Ident, "a", 1), EmptyListEnd(ps)))
  }

  lemma EmptyListRead(l: Stream, close: Token, ps: ParserStyle)
    requires ValidStyle(ps) && close != End && Head(l) == close
    ensures ParseList(l, close, false, ps) == ParseList(l, close, true, ps) == Good([], l.tail)
    ensures ParseList(More(l.head, l), close, true, ps) == Good([], l)
  {
  }

  lemma SeparatedRead(ps: ParserStyle)
    requires ValidStyle(ps) && ps.commas == CommaOptional
    ensures ParseTerm(Separated(ps), ps) == Good(List([Str("a"), List([])]), Done(1))
  {
    var close, end := ClosingToken(ps.list), More(Close(ps), Done(1));
    var inner, named := EmptyListEnd(ps), Separated(ps).tail;
    EmptyListRead(end, close, ps);
    assert ParseTerm(inner, ps) == Good(List([]), end);
    ListStep(named.tail, inner, List([]), end, close, false, ps);
    ListStep(named, named, Str("a"), named.tail, close, true, ps);
    assert [Str("a")] + ([List([])] + []) == [Str("a"), List([])];
  }

  lemma JoinedRead(ps: ParserStyle)
    requires ValidStyle(ps) && ps.commas == CommaOptional && ps.list == ps.expr
    ensures ParseTerm(Joined(ps), ps) == Good(List([Expr("a", [])]), Done(1))
  {
    var close, end := ClosingToken(ps.list), More(Close(ps), Done(1));
    var bare := Joined(ps).tail;
    EmptyListRead(end, close, ps);
    assert ParseTerm(bare, ps) == Good(Expr("a", []), end);
    ListStep(bare, bare, Expr("a", []), end, close, true, ps);
    assert [Expr("a", [])] + [] == [Expr("a", [])];
  }

  lemma CommaThinned(ps: ParserStyle)
    requires ValidStyle(ps)
    ensures Thinned(Separated(ps), Joined(ps), Done(1))
  {
    assert Thinned(EmptyListEnd(ps), EmptyListEnd(ps), Done(1));
    assert Thinned(Separated(ps).tail.tail, EmptyListEnd(ps), Done(1));
  }

  /** With the same delimiters, a name and the list after it become an expression when the comma
      between them goes: in braces, {a, {}} is a list of two, {a {}} a list of one. */
  lemma SameDelimiters(ps: ParserStyle)
    requires ValidStyle(ps) && ps.commas == CommaOptional && ps.list == ps.expr
    ensures Thinned(Separated(ps), Joined(ps), Done(1))
    ensures ParseTerm(Separated(ps), ps) == Good(List([Str("a"), List([])]), Done(1))
    ensures ParseTerm(Joined(ps), ps) == Good(List([Expr("a", [])]), Done(1))
  {
    CommaThinned(ps);
    SeparatedRead(ps);
    JoinedRead(ps);
  }

  /** A pair with the given value. */
  function KeyFor(l: Stream): Stream { More(Lexeme(Ident, "k", 1), More(Lexeme(Assign, "", 1), l)) }

  lemma PairRead(l: Stream, v: Term, ps: ParserStyle)
    requires ValidStyle(ps) && ParseTerm(l, ps) == Good(v, Done(1))
    ensures ReadPairs(KeyFor(l), ps, true, map[]) == Good(map["k" := Entry(v, 1)], Done(1))
  {
    assert ParsePair(KeyFor(l), ps) == Good(Some(("k", Entry(v, 1))), Done(1));
  }

  lemma SameDelimitersInPairs(ps: ParserStyle)
    requires ValidStyle(ps) && ps.commas == CommaOptional && ps.list == ps.expr
    ensures var l, l' := KeyFor(Separated(ps)), KeyFor(Joined(ps));
      && ReadPairs(l, ps, true, map[]).Good?
      && Thinned(l, l', ReadPairs(l, ps, true, map[]).rest)
      && ReadPairs(l', ps, true, map[]) != ReadPairs(l, ps, true, map[])
  {
    SameDelimiters(ps);
    var v, v' := List([Str("a"), List([])]), List([Expr("a", [])]);
    PairRead(Separated(ps), v, ps);
    PairRead(Joined(ps), v', ps);
    assert map["k" := Entry(v, 1)]["k"] != map["k" := Entry(v', 1)]["k"];
    assert Thinned(KeyFor(Separated(ps)).tail, KeyFor(Joined(ps)).tail, Done(1));
  }

  lemma LexPiece(p: Piece, s: string, t: string, st: LexerStyle)
    requires ValidPiece(p) && (OpenEnded(p) ==> Stops(s)) && t == Spell(p, st) + s
    ensures Lex(t, 1, st) == More(Lexeme(p.tok, p.text, 1), Lex(s, 1, st))
  {
    PieceReadBack(p, s, 1, st);
  }

  lemma LexBlank(s: string, t: string, st: LexerStyle)
    requires t == " " + s
    ensures Lex(t, 1, st) == Lex(s, 1, st)
  {
    assert t == GapText([Blank(' ')]) + s;
    GapInvisible([Blank(' ')], t, 1, s, 1, st);
  }

  lemma LexName(name: char, s: string, t: string, st: LexerStyle)
    requires Letter(name) && Stops(s) && t == [name] + s
    ensures Lex(t, 1, st) == More(Lexeme(Ident, [name], 1), Lex(s, 1, st))
  {
    LexPiece(Piece(Ident, [name]), s, t, st);
  }

  lemma LexSign(tok: Token, c: char, s: string, t: string, st: LexerStyle)
    requires TokenChar(tok) == Some(c) && t == [c] + s
    ensures Lex(t, 1, st) == More(Lexeme(tok, "", 1), Lex(s, 1, st))
  {
    LexPiece(Piece(tok, ""), s, t, st);
  }

  lemma EndText(t: string, st: LexerStyle, ps: ParserStyle)
    requires ps.list == LeftBrace && ValidStyle(ps) && t == "{}}"
    ensures Lex(t, 1, st) == EmptyListEnd(ps)
  {
    LexSign(RightBrace, '}', t[3..], t[2..], st);
    LexSign(RightBrace, '}', t[2..], t[1..], st);
    LexSign(LeftBrace, '{', t[1..], t, st);
  }

  lemma BlankText(t: string, st: LexerStyle, ps: ParserStyle)
    requires ps.list == LeftBrace && ValidStyle(ps) && t == " {}}"
    ensures Lex(t, 1, st) == EmptyListEnd(ps)
  {
    EndText(t[1..], st, ps);
    LexBlank(t[1..], t, st);
  }

  lemma CommaText(t: string, st: LexerStyle, ps: ParserStyle)
    requires ps.list == LeftBrace && ValidStyle(ps) && t == ", {}}"
    ensures Lex(t, 1, st) == More(Lexeme(Comma, "", 1), EmptyListEnd(ps))
  {
    BlankText(t[1..], st, ps);
    LexSign(Comma, ',', t[1..], t, st);
  }

  lemma NameText(t: string, st: LexerStyle, ps: ParserStyle)
    requires ps.list == LeftBrace && ValidStyle(ps) && t == "a, {}}"
    ensures Lex(t, 1, st) == Separated(ps).tail
  {
    CommaText(t[1..], st, ps);
    LexName('a', t[1..], t, st);
  }

  lemma SeparatedText(t: string, st: LexerStyle, ps: ParserStyle)
    requires ps.list == LeftBrace && ValidStyle(ps) && t == "{a, {}}"
    ensures Lex(t, 1, st) == Separated(ps)
  {
    NameText(t[1..], st, ps);
    LexSign(LeftBrace, '{', t[1..], t, st);
  }

  lemma JoinedText(t: string, st: LexerStyle, ps: ParserStyle)
    requires ps.list == LeftBrace && ValidStyle(ps) && t == "{a {}}"
    ensures Lex(t, 1, st) == Joined(ps)
  {
    BlankText(t[2..], st, ps);
    LexName('a', t[2..], t[1..], st);
    LexSign(LeftBrace, '{', t[1..], t, st);
  }

  lemma LexKey(s: string, t: string, st: LexerStyle)
    requires t == "k=" + s
    ensures Lex(t, 1, st) == KeyFor(Lex(s, 1, st))
  {
    LexSign(Assign, '=', s, t[1..], st);
    LexName('k', t[1..], t, st);
  }

  lemma SeparatedPairText(t: string, st: LexerStyle, ps: ParserStyle)
    requires ps.list == LeftBrace && ValidStyle(ps) && t == "k={a, {}}"
    ensures Lex(t, 1, st) == KeyFor(Separated(ps))
  {
    SeparatedText(t[2..], st, ps);
    LexKey(t[2..], t, st);
  }

  lemma JoinedPairText(t: string, st: LexerStyle, ps: ParserStyle)
    requires ps.list == LeftBrace && ValidStyle(ps) && t == "k={a {}}"
    ensures Lex(t, 1, st) == KeyFor(Joined(ps))
  {
    JoinedText(t[2..], st, ps);
    LexKey(t[2..], t, st);
  }

  /** Such texts exist: with braces for both, the file k={a, {}} loses its meaning with its comma. */
  lemma SameDelimitersText(t: string, t': string, st: LexerStyle, ps: ParserStyle)
    requires ps == ParserStyle(CommaOptional, LeftBrace, LeftBrace)
    requires t == "k={a, {}}" && t' == "k={a {}}"
    ensures ReadText(t, st, ps, true, map[]) == Ok(map["k" := Entry(List([Str("a"), List([])]), 1)])
    ensures ReadText(t', st, ps, true, map[]) == Ok(map["k" := Entry(List([Expr("a", [])]), 1)])
  {
    SeparatedPairText(t, st, ps);
    JoinedPairText(t', st, ps);
    SameDelimiters(ps);
    PairRead(Separated(ps), List([Str("a"), List([])]), ps);
    PairRead(Joined(ps), List([Expr("a", [])]), ps);
  }

  /** With optional commas, they can be deleted exactly when list and expression delimiters differ. */
  lemma CommasDeletableIff(ps: ParserStyle)
    requires ValidStyle(ps) && ps.commas == CommaOptional
    ensures CommasDeletable(ps) <==> ps.list != ps.expr
    ensures CommasDeletableInPairs(ps) <==> ps.list != ps.expr
  {
    if ps.list != ps.expr {
      forall l, l', v, r | ParseTerm(l, ps) == Good(v, r) && Thinned(l, l', r)
        ensures ParseTerm(l', ps) == Good(v, r)
      {
        var rest' := TermThinned(l, l', r, ps);
        ThinnedNothing(r, rest');
      }
      forall l, l', unique, kv
        | ReadPairs(l, ps, unique, kv).Good? && Thinned(l, l', ReadPairs(l, ps, unique, kv).rest)
        ensures ReadPairs(l', ps, unique, kv) == ReadPairs(l, ps, unique, kv)
      {
        PairsThinned(l, l', ReadPairs(l, ps, unique, kv).rest, ps, unique, kv);
      }
    } else {
      SameDelimiters(ps);
      SameDelimitersInPairs(ps);
    }
  }
}
