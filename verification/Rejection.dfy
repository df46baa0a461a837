/**
 Where reading fails, and with which error: the token streams that begin like a term or a registry
 of module Grammar and cannot go on.
 */
module Rejection {
  import opened Grammar
  import opened Lexing
  import opened Parsing
  import opened Results
  import opened Scanning

  // ---------------------------------------------------------------- terms and lists

  /** The comma between elements, if there is one. */
  function AfterComma(l: Stream, first: bool): Stream {
    if !first && l.More? && l.head.tok == Comma then l.tail else l
  }

  predicate CommaMissing(l: Stream, first: bool, ps: ParserStyle) {
    !first && ps.commas == CommaRequired && !(l.More? && l.head.tok == Comma)
  }

  /** What begins at l is no term, because of e. */
  ghost predicate TermStops(l: Stream, e: ParseError, ps: ParserStyle)
    decreases Length(l), 0
  {
    match l
    case Fault(error, _) => e == Lexical(error)
    case Done(_) => e == TermExpected
    case More(h, t) =>
      if h.tok == Ident then
        || (t.Fault? && e == Lexical(t.error))
        || (t.More? && t.head.tok == ps.expr &&
            assert Length(t) == 1 + Length(t.tail); ListStops(t.tail, true, ps.expr, e, ps))
      else if h.tok == ps.list then ListStops(t, true, ps.list, e, ps)
      else h.tok != Number && h.tok != Text && e == TermExpected
  }

  /** At l neither an element of a list nor what closes open can follow, or else elements do up to
      where that is so. */
  ghost predicate ListStops(l: Stream, first: bool, open: Token, e: ParseError, ps: ParserStyle)
    decreases Length(l), 1
  {
    if l.Fault? then e == Lexical(l.error)
    else if l.More? && Matches(open, l.head.tok) then false
    else if CommaMissing(l, first, ps) then e == TokenExpected(Comma)
    else
      var m := AfterComma(l, first);
      TermStops(m, e, ps) ||
      exists v, r :: IsTerm(m, v, r, ps) && Length(r) < Length(m) && ListStops(r, false, open, e, ps)
  }

  lemma SeparatorStops(l: Stream, first: bool, ps: ParserStyle)
    ensures Separator(l, first, ps) ==
              if CommaMissing(l, first, ps) then Failed(TokenExpected(Comma)) else Good((), AfterComma(l, first))
  {
  }

  lemma OneTerm(m: Stream, ps: ParserStyle)
    requires ValidStyle(ps)
    ensures forall v, r :: IsTerm(m, v, r, ps) <==> ParseTerm(m, ps) == Good(v, r)
  {
    forall v, r ensures IsTerm(m, v, r, ps) <==> ParseTerm(m, ps) == Good(v, r) { TermIffGrammar(m, v, r, ps); }
  }

  /** Another element is expected at m, behind the separator. */
  predicate ElementDue(l: Stream, m: Stream, first: bool, open: Token, ps: ParserStyle) {
    && !l.Fault? && !(l.More? && Matches(open, l.head.tok))
    && !CommaMissing(l, first, ps) && m == AfterComma(l, first)
  }

  lemma ElementGood(
      l: Stream, m: Stream, v: Term, r: Stream, first: bool, open: Token, e: ParseError, ps: ParserStyle)
    requires ValidStyle(ps) && Opening(open) && ElementDue(l, m, first, open, ps)
    requires ParseTerm(m, ps) == Good(v, r) && !TermStops(m, e, ps)
    ensures ListStops(l, first, open, e, ps) <==> ListStops(r, false, open, e, ps)
    ensures ParseList(l, ClosingToken(open), first, ps) == Failed(e)
            <==> ParseList(r, ClosingToken(open), false, ps) == Failed(e)
  {
    OneTerm(m, ps);
    SeparatorStops(l, first, ps);
    ListStep(l, m, v, r, ClosingToken(open), first, ps);
  }

  lemma ElementBad(l: Stream, m: Stream, first: bool, open: Token, e: ParseError, ps: ParserStyle)
    requires ValidStyle(ps) && Opening(open) && ElementDue(l, m, first, open, ps)
    requires ParseTerm(m, ps).Failed? && (ParseTerm(m, ps) == Failed(e) <==> TermStops(m, e, ps))
    ensures ListStops(l, first, open, e, ps) <==> TermStops(m, e, ps)
    ensures ParseList(l, ClosingToken(open), first, ps) == Failed(ParseTerm(m, ps).error)
  {
    OneTerm(m, ps);
    SeparatorStops(l, first, ps);
  }

  /** The parser fails exactly where the grammar cannot go on, with that error. */
  lemma {:induction false} TermFailsIff(l: Stream, e: ParseError, ps: ParserStyle)
    requires ValidStyle(ps)
    ensures ParseTerm(l, ps) == Failed(e) <==> TermStops(l, e, ps)
    decreases Length(l), 0
  {
    if l.More? {
      if l.head.tok == Ident && l.tail.More? && l.tail.head.tok == ps.expr {
        assert Length(l.tail) == 1 + Length(l.tail.tail);
        ListFailsIff(l.tail.tail, true, ps.expr, e, ps);
      } else if l.head.tok == ps.list {
        ListFailsIff(l.tail, true, ps.list, e, ps);
      }
    }
  }

  lemma {:induction false} ListFailsIff(l: Stream, first: bool, open: Token, e: ParseError, ps: ParserStyle)
    requires ValidStyle(ps) && Opening(open)
    ensures ParseList(l, ClosingToken(open), first, ps) == Failed(e) <==> ListStops(l, first, open, e, ps)
    decreases Length(l), 1
  {
    var m := AfterComma(l, first);
    if ElementDue(l, m, first, open, ps) {
      TermFailsIff(m, e, ps);
      match ParseTerm(m, ps)
      case Good(v, r) =>
        ListFailsIff(r, false, open, e, ps);
        ElementGood(l, m, v, r, first, open, e, ps);
      case Failed(_) => ElementBad(l, m, first, open, e, ps);
    } else {
      SeparatorStops(l, first, ps);
    }
  }

  // ---------------------------------------------------------------- registries

  /** A pair begins at l, but it is none. */
  ghost predicate PairStops(l: Stream, e: ParseError, ps: ParserStyle) {
    match l
    case Fault(error, _) => e == Lexical(error)
    case Done(_) => false
    case More(h, t) =>
      h.tok == Ident &&
      if t.Fault? then e == Lexical(t.error)
      else if t.More? && t.head.tok == Assign then TermStops(t.tail, e, ps)
      else e == TokenExpected(Assign)
  }

  lemma PairFailsIff(l: Stream, e: ParseError, ps: ParserStyle)
    requires ValidStyle(ps)
    ensures ParsePair(l, ps) == Failed(e) <==> PairStops(l, e, ps)
  {
    if l.More? && l.tail.More? { TermFailsIff(l.tail.tail, e, ps); }
  }

  /** A pair stands at l, and redefines a key although that is not allowed. */
  ghost predicate Redefines(l: Stream, e: ParseError, ps: ParserStyle, unique: bool, kv: map<string, Entry>) {
    unique && e.Redefined? && e.key in kv && exists entry, r :: IsPair(l, (e.key, entry), r, ps)
  }

  /** Pairs stand at l, up to where something is wrong. */
  ghost predicate PairsStop(l: Stream, e: ParseError, ps: ParserStyle, unique: bool, kv: map<string, Entry>) {
    exists pairs, rest ::
      && IsPairs(l, pairs, rest, ps) && (unique ==> NewKeys(kv, pairs))
      && (PairStops(rest, e, ps) || Redefines(rest, e, ps, unique, AddAll(kv, pairs)))
  }

  lemma {:induction false} PairsFail(
      l: Stream, e: ParseError, ps: ParserStyle, unique: bool, kv: map<string, Entry>,
      pairs: seq<KeyEntry>, rest: Stream)
    requires ValidStyle(ps) && IsPairs(l, pairs, rest, ps) && (unique ==> NewKeys(kv, pairs))
    requires PairStops(rest, e, ps) || Redefines(rest, e, ps, unique, AddAll(kv, pairs))
    ensures ReadPairs(l, ps, unique, kv) == Failed(e)
    decreases |pairs|
  {
    if pairs != [] {
      var r :| IsPair(l, pairs[0], r, ps) && IsPairs(r, pairs[1..], rest, ps);
      PairIffGrammar(l, pairs[0], r, ps);
      NewKeysStep(kv, pairs);
      PairsFail(r, e, ps, unique, kv[pairs[0].0 := pairs[0].1], pairs[1..], rest);
    } else if PairStops(l, e, ps) {
      PairFailsIff(l, e, ps);
    } else {
      var entry, r :| IsPair(l, (e.key, entry), r, ps);
      PairIffGrammar(l, (e.key, entry), r, ps);
    }
  }

  lemma {:induction false} PairsFailed(l: Stream, ps: ParserStyle, unique: bool, kv: map<string, Entry>)
    returns (pairs: seq<KeyEntry>, rest: Stream)
    requires ValidStyle(ps) && ReadPairs(l, ps, unique, kv).Failed?
    ensures IsPairs(l, pairs, rest, ps) && (unique ==> NewKeys(kv, pairs))
    ensures var e := ReadPairs(l, ps, unique, kv).error;
      PairStops(rest, e, ps) || Redefines(rest, e, ps, unique, AddAll(kv, pairs))
    decreases Length(l)
  {
    var p := ParsePair(l, ps);
    pairs, rest := [], l;
    if p.Failed? {
      PairFailsIff(l, p.error, ps);
    } else {
      var (key, entry) := p.value.value;
      PairIffGrammar(l, (key, entry), p.rest, ps);
      if !(unique && key in kv) {
        var more;
        more, rest := PairsFailed(p.rest, ps, unique, kv[key := entry]);
        pairs := [(key, entry)] + more;
        assert pairs[1..] == more;
        NewKeysStep(kv, pairs);
      }
    }
  }

  /** Reading pairs fails exactly where the grammar cannot go on, with that error. */
  lemma PairsFailIff(l: Stream, e: ParseError, ps: ParserStyle, unique: bool, kv: map<string, Entry>)
    requires ValidStyle(ps)
    ensures ReadPairs(l, ps, unique, kv) == Failed(e) <==> PairsStop(l, e, ps, unique, kv)
  {
    if ReadPairs(l, ps, unique, kv) == Failed(e) {
      var _, _ := PairsFailed(l, ps, unique, kv);
    }
    if PairsStop(l, e, ps, unique, kv) {
      var pairs, rest :|
        && IsPairs(l, pairs, rest, ps) && (unique ==> NewKeys(kv, pairs))
        && (PairStops(rest, e, ps) || Redefines(rest, e, ps, unique, AddAll(kv, pairs)));
      PairsFail(l, e, ps, unique, kv, pairs, rest);
    }
  }

  /** Pairs stand at l, and then another token. */
  ghost predicate PairsEndEarly(l: Stream, ps: ParserStyle, unique: bool, kv: map<string, Entry>) {
    exists kv', rest: Stream :: rest.More? && Reads(l, ps, unique, kv, kv', rest)
  }

  lemma EndEarlyIff(l: Stream, ps: ParserStyle, unique: bool, kv: map<string, Entry>)
    requires ValidStyle(ps)
    ensures PairsEndEarly(l, ps, unique, kv) <==>
            ReadPairs(l, ps, unique, kv).Good? && ReadPairs(l, ps, unique, kv).rest.More?
  {
    var r := ReadPairs(l, ps, unique, kv);
    if r.Good? { PairsIffGrammar(l, ps, unique, kv, r.value, r.rest); }
    if PairsEndEarly(l, ps, unique, kv) {
      var kv', rest: Stream :| rest.More? && Reads(l, ps, unique, kv, kv', rest);
      PairsIffGrammar(l, ps, unique, kv, kv', rest);
    }
  }

  /** And so does reading a text; or else there are pairs, but they do not reach its end. */
  lemma TextFailsIff(
      s: string, e: ParseError, ls: LexerStyle, ps: ParserStyle, unique: bool, kv: map<string, Entry>)
    requires ValidStyle(ps)
    ensures ReadText(s, ls, ps, unique, kv) == Err(e) <==>
            exists l :: StreamOf(s, 1, l, ls) &&
              (PairsStop(l, e, ps, unique, kv)
               || (e == TokenExpected(End) && PairsEndEarly(l, ps, unique, kv)))
  {
    var l := Lex(s, 1, ls);
    PairsFailIff(l, e, ps, unique, kv);
    forall k ensures StreamOf(s, 1, k, ls) <==> k == l { LexIffGrammar(s, 1, k, ls); }
    EndEarlyIff(l, ps, unique, kv);
    if ReadPairs(l, ps, unique, kv).Good? {
      var pairs := PairsGrammatical(l, ps, unique, kv);
      LexNoEnd(s, 1, ls);
      PairsNoEnd(l, pairs, ReadPairs(l, ps, unique, kv).rest, ps);
    }
  }
}
