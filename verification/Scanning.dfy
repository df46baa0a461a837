/**
 The lexer, on every text: its next token, the end or the error is what the lexical grammar of
 Lexicon and Gaps says, and nothing else.
 */
module Scanning {
  import opened Gaps
  import opened Lexicon
  import opened Lexing
  import opened Numerals
  import opened Results

  // ---------------------------------------------------------------- quoted strings

  lemma {:induction false} StringConsumed(s: string, q: char, acc: string, body: string, text: string, rest: string)
    requires Encodes(body, text, q) && s == body + rest && q in {'"', '\''}
    ensures ScanString(s, q, acc) == ScanString(rest, q, acc + text)
  {
    if body == "" {
      assert s == rest && acc + text == acc;
    } else {
      var k := if body[0] == '\\' then 2 else 1;
      assert s[k..] == body[k..] + rest;
      assert acc + [text[0]] + text[1..] == acc + text;
      StringConsumed(s[k..], q, acc + [text[0]], body[k..], text[1..], rest);
    }
  }

  /** The string ends, or is wrong, at rest. */
  predicate StringStops(rest: string, q: char) {
    rest == "" || rest[0] == q || rest[0] == '\n' ||
    (rest[0] == '\\' && (|rest| == 1 || rest[1] !in {q, '\\', 'n'}))
  }

  lemma {:induction false} StringFound(s: string, q: char) returns (body: string, text: string, rest: string)
    requires q in {'"', '\''}
    ensures s == body + rest && Encodes(body, text, q) && StringStops(rest, q)
  {
    if StringStops(s, q) {
      body, text, rest := "", "", s;
    } else {
      var k := if s[0] == '\\' then 2 else 1;
      var c := if s[0] != '\\' then s[0] else if s[1] == 'n' then '\n' else s[1];
      body, text, rest := StringFound(s[k..], q);
      assert (s[..k] + body)[k..] == body && ([c] + text)[1..] == text;
      body, text := s[..k] + body, [c] + text;
    }
  }

  lemma StringEnds(rest: string, q: char, acc: string)
    requires StringStops(rest, q) && q in {'"', '\''}
    ensures ScanString(rest, q, acc) ==
              if rest == "" || rest[0] == '\n' then Unscannable(UnterminatedString)
              else if rest[0] == q then Value(acc, rest[1..])
              else Unscannable(BadEscape)
  {
  }

  // ---------------------------------------------------------------- what is written is read

  lemma {:induction false} WordEnds(t: string, rest: string)
    requires (forall c :: c in t ==> WordChar(c)) && (rest == "" || !WordChar(rest[0]))
    ensures WordLength(t + rest) == |t|
  {
    if t == "" {
      assert t + rest == rest;
    } else {
      assert (t + rest)[1..] == t[1..] + rest && t[0] in t;
      WordEnds(t[1..], rest);
    }
  }

  lemma WordWritten(t: string, rest: string, line: nat, st: LexerStyle)
    requires Word(t) && (rest == "" || !WordChar(rest[0]))
    ensures NoGapAt(t + rest, st) && TokenAt(t + rest, line, st) == Read(Ident, t, rest, line)
  {
    var s := t + rest;
    assert s[1..] == t[1..] + rest && s[0] == t[0];
    WordEnds(t[1..], rest);
    assert s[..|t|] == t && s[|t|..] == rest;
  }

  lemma NumberStarts(t: string, s: string)
    requires BeginsDecimal(t) && t != "" && t <= s
    ensures StartsNumber(s[0])
  {
    var more :| Decimal(t + more);
    DecimalStarts(t + more);
    assert s[0] == (t + more)[0];
  }

  lemma NoGapAtNumber(s: string, st: LexerStyle)
    requires s != "" && StartsNumber(s[0])
    ensures NoGapAt(s, st)
  {
  }

  lemma NumberAt(s: string, line: nat, st: LexerStyle)
    requires s != "" && StartsNumber(s[0])
    ensures NoGapAt(s, st) && TokenAt(s, line, st) == FromScan(Number, ScanNumber(s), line)
  {
    NoGapAtNumber(s, st);
    assert CharToken(s[0]).None?;
  }

  /** The longest beginning of a number is read, or is an error. */
  lemma NumberRead(t: string, rest: string, s: string)
    requires t != "" && s == t + rest && Longest(t, rest)
    ensures StartsNumber(s[0]) && ScanNumber(s) == if Decimal(t) then Value(t, rest) else Unscannable(BadNumber)
  {
    NumberStarts(t, s);
    NumberSplit(s, t, rest);
  }

  lemma NumberWritten(t: string, rest: string, s: string, line: nat, st: LexerStyle)
    requires Decimal(t) && Longest(t, rest) && s == t + rest
    ensures NoGapAt(s, st) && TokenAt(s, line, st) == Read(Number, t, rest, line)
  {
    DecimalStarts(t);
    NumberRead(t, rest, s);
    NumberAt(s, line, st);
  }

  lemma StringScanned(s: string, text: string, rest: string, line: nat, st: LexerStyle)
    requires Quoted(s, text, rest, Quote(st)) && StringStops(rest, Quote(st))
    ensures NoGapAt(s, st)
    ensures TokenAt(s, line, st) ==
              if rest == "" || rest[0] == '\n' then Bad(UnterminatedString, line)
              else if rest[0] == Quote(st) then Read(Text, text, rest[1..], line)
              else Bad(BadEscape, line)
  {
    var body := s[1..|s| - |rest|];
    assert s[1..] == body + rest && "" + text == text;
    StringConsumed(s[1..], Quote(st), "", body, text, rest);
    StringEnds(rest, Quote(st), text);
  }

  lemma QuotedPrefix(t: string, text: string, q: char, rest: string)
    requires Quoted(t, text, [q], q)
    ensures Quoted(t + rest, text, [q] + rest, q)
  {
    var s := t + rest;
    assert s == t[..|t| - 1] + ([q] + rest);
    assert s[1..|s| - |[q] + rest|] == t[1..|t| - 1];
  }

  lemma TextWritten(text: string, t: string, rest: string, line: nat, st: LexerStyle)
    requires Written(Text, text, t, rest, st)
    ensures NoGapAt(t + rest, st) && TokenAt(t + rest, line, st) == Read(Text, text, rest, line)
  {
    var more := [Quote(st)] + rest;
    QuotedPrefix(t, text, Quote(st), rest);
    assert more[1..] == rest;
    StringScanned(t + rest, text, more, line, st);
  }

  lemma SignWritten(tok: Token, t: string, rest: string, line: nat, st: LexerStyle)
    requires tok !in {Ident, Number, Text} && Written(tok, "", t, rest, st)
    ensures NoGapAt(t + rest, st) && TokenAt(t + rest, line, st) == Read(tok, "", rest, line)
  {
    assert |t| == 1 && (t + rest)[0] == t[0] && (t + rest)[1..] == rest;
  }

  /** A token is read as it is written, whatever follows it. */
  lemma TokenWritten(tok: Token, text: string, t: string, rest: string, line: nat, st: LexerStyle)
    requires Written(tok, text, t, rest, st)
    ensures NoGapAt(t + rest, st) && TokenAt(t + rest, line, st) == Read(tok, text, rest, line)
  {
    match tok
    case Ident => WordWritten(t, rest, line, st);
    case Number => NumberWritten(t, rest, t + rest, line, st);
    case Text => TextWritten(text, t, rest, line, st);
    case _ => SignWritten(tok, t, rest, line, st);
  }

  lemma NumberMalformed(t: string, rest: string, s: string, line: nat, st: LexerStyle)
    requires NoNumber(t, rest) && s == t + rest
    ensures NoGapAt(s, st) && TokenAt(s, line, st) == Bad(BadNumber, line)
  {
    NumberRead(t, rest, s);
    NumberAt(s, line, st);
  }

  lemma NumberMalformedAt(s: string, n: nat, line: nat, st: LexerStyle)
    requires n <= |s| && NoNumber(s[..n], s[n..])
    ensures NoGapAt(s, st) && TokenAt(s, line, st) == Bad(BadNumber, line)
  {
    assert s == s[..n] + s[n..];
    NumberMalformed(s[..n], s[n..], s, line, st);
  }

  lemma SignMalformed(e: LexError, s: string, line: nat, st: LexerStyle)
    requires e in {UnknownCharacter, BadCommentStart, BadCharacter} && Malformed(e, s, st)
    ensures NoGapAt(s, st) && TokenAt(s, line, st) == Bad(e, line)
  {
  }

  lemma StringMalformed(e: LexError, s: string, line: nat, st: LexerStyle)
    requires e.UnterminatedString? || e.BadEscape?
    requires Malformed(e, s, st)
    ensures NoGapAt(s, st) && TokenAt(s, line, st) == Bad(e, line)
  {
    var text, rest :| Quoted(s, text, rest, Quote(st)) &&
      if e.BadEscape? then WrongEscape(rest, Quote(st)) else rest == "" || rest[0] == '\n';
    StringScanned(s, text, rest, line, st);
  }

  /** What is malformed is an error. */
  lemma TokenMalformed(e: LexError, s: string, line: nat, st: LexerStyle)
    requires Malformed(e, s, st)
    ensures NoGapAt(s, st) && TokenAt(s, line, st) == Bad(e, line)
  {
    match e
    case UnterminatedString => StringMalformed(e, s, line, st);
    case BadEscape => StringMalformed(e, s, line, st);
    case BadNumber =>
      var n :| 0 <= n <= |s| && NoNumber(s[..n], s[n..]);
      NumberMalformedAt(s, n, line, st);
    case _ => SignMalformed(e, s, line, st);
  }

  // ---------------------------------------------------------------- what is read is written

  /** Whatever the lexer makes of a text that begins with no gap is what is written there. */
  ghost predicate Justified(r: Lexed, s: string, st: LexerStyle) {
    match r
    case Read(tok, text, rest, _) => exists t :: s == t + rest && Written(tok, text, t, rest, st)
    case Bad(e, _) => Malformed(e, s, st)
    case AtEnd(_) => false
  }

  lemma {:induction false} WordFound(s: string)
    ensures var n := WordLength(s);
      (forall c :: c in s[..n] ==> WordChar(c)) && (n < |s| ==> !WordChar(s[n]))
  {
    if s != "" && IsWordChar(s[0]) {
      WordFound(s[1..]);
      assert s[..WordLength(s)] == [s[0]] + s[1..][..WordLength(s[1..])];
    }
  }

  lemma WordAt(s: string, line: nat, st: LexerStyle)
    requires s != "" && Letter(s[0])
    ensures var n := 1 + WordLength(s[1..]); TokenAt(s, line, st) == Read(Ident, s[..n], s[n..], line)
  {
    assert CharToken(s[0]).None?;
  }

  lemma IdentFound(s: string, line: nat, st: LexerStyle)
    requires s != "" && Letter(s[0])
    ensures Justified(TokenAt(s, line, st), s, st)
  {
    var n := 1 + WordLength(s[1..]);
    var t, rest := s[..n], s[n..];
    WordFound(s[1..]);
    WordAt(s, line, st);
    assert t == [s[0]] + s[1..][..n - 1];
    assert Written(Ident, t, t, rest, st);
    assert s == t + rest;
  }

  lemma NumberLongest(s: string) returns (t: string, rest: string)
    requires s != "" && StartsNumber(s[0])
    ensures t != "" && s == t + rest && Longest(t, rest)
  {
    var n := Taken(s).0;
    t, rest := s[..n], s[n..];
    TakesLongest(s, t, rest);
    if n == 0 { RoundTaken(s, NOTHING_SEEN); }
  }

  lemma NumberFound(s: string, line: nat, st: LexerStyle)
    requires s != "" && StartsNumber(s[0])
    ensures Justified(TokenAt(s, line, st), s, st)
  {
    var t, rest := NumberLongest(s);
    NumberRead(t, rest, s);
    NumberAt(s, line, st);
    if Decimal(t) { assert Written(Number, t, t, rest, st); } else { assert NoNumber(s[..|t|], s[|t|..]); }
  }

  lemma QuotedAgain(s: string, q: char, body: string, text: string, rest: string)
    requires s != "" && s[0] == q && s[1..] == body + rest && Encodes(body, text, q)
    ensures Quoted(s, text, rest, q)
  {
    assert s[1..|s| - |rest|] == s[1..][..|body|] == body;
    assert s[|s| - |rest|..] == s[1..][|body|..] == rest;
  }

  lemma QuotedClosed(s: string, q: char, text: string, rest: string) returns (t: string)
    requires Quoted(s, text, rest, q) && rest != "" && rest[0] == q
    ensures s == t + rest[1..] && Quoted(t, text, [q], q)
  {
    var k := |s| - |rest|;
    t := s[..k + 1];
    assert s[k] == rest[0];
    assert s[k + 1..] == rest[1..];
    assert t[1..k] == s[1..k] && t[k..] == [q];
  }

  lemma TextFound(s: string, line: nat, st: LexerStyle)
    requires s != "" && s[0] == Quote(st)
    ensures Justified(TokenAt(s, line, st), s, st)
  {
    var q := Quote(st);
    var body, text, rest := StringFound(s[1..], q);
    QuotedAgain(s, q, body, text, rest);
    StringScanned(s, text, rest, line, st);
    if rest != "" && rest[0] == q {
      var t := QuotedClosed(s, q, text, rest);
      assert Written(Text, text, t, rest[1..], st);
    }
  }

  lemma SignFound(s: string, line: nat, st: LexerStyle)
    requires NoGapAt(s, st) && s[0] != Quote(st) && !Letter(s[0]) && !StartsNumber(s[0])
    ensures Justified(TokenAt(s, line, st), s, st)
  {
    assert s == [s[0]] + s[1..];
    var r := TokenAt(s, line, st);
    if r.Read? { assert Written(r.tok, "", [s[0]], s[1..], st); }
  }

  lemma TokenFound(s: string, line: nat, st: LexerStyle)
    requires NoGapAt(s, st)
    ensures Justified(TokenAt(s, line, st), s, st)
  {
    if Letter(s[0]) { IdentFound(s, line, st); }
    else if StartsNumber(s[0]) { NumberFound(s, line, st); }
    else if s[0] == Quote(st) { TextFound(s, line, st); }
    else { SignFound(s, line, st); }
  }

  // ---------------------------------------------------------------- the next token

  /** Behind the gap, s goes on with t and then rest. */
  ghost predicate Behind(gap: Spacing, t: string, rest: string, s: string, st: LexerStyle) {
    ValidGap(gap, st) && s == GapText(gap) + (t + rest)
  }

  ghost predicate Ends(s: string, st: LexerStyle) {
    exists gap, t :: Behind(gap, t, "", s, st) && (t == "" || Unfinished(t, st))
  }

  ghost predicate Begins(s: string, tok: Token, text: string, rest: string, lines: nat, st: LexerStyle) {
    exists gap, t :: Behind(gap, t, rest, s, st) && Written(tok, text, t, rest, st) && lines == Newlines(GapText(gap))
  }

  ghost predicate GoesWrong(s: string, e: LexError, lines: nat, st: LexerStyle) {
    exists gap, t :: Behind(gap, t, "", s, st) && Malformed(e, t, st) && lines == Newlines(GapText(gap))
  }

  /** What the lexical grammar says of s: a token behind a gap, nothing at all, or something wrong; and
      the line there. */
  ghost predicate Says(s: string, line: nat, r: Lexed, st: LexerStyle) {
    match r
    case Read(tok, text, rest, n) => n >= line && Begins(s, tok, text, rest, n - line, st)
    case AtEnd(n) => n == line + Newlines(s) && Ends(s, st)
    case Bad(e, n) => n >= line && GoesWrong(s, e, n - line, st)
  }

  lemma NoGapSkipped(t: string, n: nat, st: LexerStyle)
    requires NoGapAt(t, st)
    ensures Next(t, n, st) == TokenAt(t, n, st)
  {
    assert GapAt(t, n, st) == NoGap;
  }

  lemma NextAt(gap: Spacing, t: string, s: string, line: nat, n: nat, st: LexerStyle)
    requires ValidGap(gap, st) && s == GapText(gap) + t && n == line + Newlines(GapText(gap)) && NoGapAt(t, st)
    ensures Next(s, line, st) == TokenAt(t, n, st)
  {
    GapInvisible(gap, s, line, t, n, st);
    NoGapSkipped(t, n, st);
  }

  lemma NextWritten(
      gap: Spacing, tok: Token, text: string, t: string, rest: string, s: string, line: nat, n: nat, st: LexerStyle)
    requires Behind(gap, t, rest, s, st) && Written(tok, text, t, rest, st) && n == line + Newlines(GapText(gap))
    ensures Next(s, line, st) == Read(tok, text, rest, n)
  {
    TokenWritten(tok, text, t, rest, n, st);
    NextAt(gap, t + rest, s, line, n, st);
  }

  lemma NothingBehind(gap: Spacing, t: string, s: string, st: LexerStyle)
    ensures Behind(gap, t, "", s, st) <==> ValidGap(gap, st) && s == GapText(gap) + t
  {
    assert t + "" == t;
  }

  lemma NextMalformed(gap: Spacing, e: LexError, t: string, s: string, line: nat, n: nat, st: LexerStyle)
    requires Behind(gap, t, "", s, st) && Malformed(e, t, st) && n == line + Newlines(GapText(gap))
    ensures Next(s, line, st) == Bad(e, n)
  {
    NothingBehind(gap, t, s, st);
    TokenMalformed(e, t, n, st);
    NextAt(gap, t, s, line, n, st);
  }

  lemma NothingRead(t: string, n: nat, st: LexerStyle)
    requires t == "" || Unfinished(t, st)
    ensures Next(t, n, st) == AtEnd(n + Newlines(t))
  {
    if t != "" { GapCut(t, n, st); }
  }

  lemma NextEnds(gap: Spacing, t: string, s: string, line: nat, n: nat, st: LexerStyle)
    requires Behind(gap, t, "", s, st) && (t == "" || Unfinished(t, st)) && n == line + Newlines(s)
    ensures Next(s, line, st) == AtEnd(n)
  {
    NothingBehind(gap, t, s, st);
    var m := line + Newlines(GapText(gap));
    GapInvisible(gap, s, line, t, m, st);
    NothingRead(t, m, st);
    NewlinesAppend(GapText(gap), t);
  }

  lemma GrammarIsNext(s: string, line: nat, r: Lexed, st: LexerStyle)
    requires Says(s, line, r, st)
    ensures Next(s, line, st) == r
  {
    match r
    case Read(tok, text, rest, n) =>
      var gap, t :| Behind(gap, t, rest, s, st) && Written(tok, text, t, rest, st) && n - line == Newlines(GapText(gap));
      NextWritten(gap, tok, text, t, rest, s, line, n, st);
    case AtEnd(n) =>
      var gap, t :| Behind(gap, t, "", s, st) && (t == "" || Unfinished(t, st));
      NextEnds(gap, t, s, line, n, st);
    case Bad(e, n) =>
      var gap, t :| Behind(gap, t, "", s, st) && Malformed(e, t, st) && n - line == Newlines(GapText(gap));
      NextMalformed(gap, e, t, s, line, n, st);
  }

  lemma TokenInGrammar(gap: Spacing, t: string, s: string, line: nat, n: nat, st: LexerStyle)
    requires Behind(gap, t, "", s, st) && NoGapAt(t, st) && n == line + Newlines(GapText(gap))
    ensures Says(s, line, Next(s, line, st), st)
  {
    NothingBehind(gap, t, s, st);
    NextAt(gap, t, s, line, n, st);
    TokenFound(t, n, st);
    var r := TokenAt(t, n, st);
    if r.Read? {
      var w :| t == w + r.rest && Written(r.tok, r.text, w, r.rest, st);
      assert Behind(gap, w, r.rest, s, st);
    }
  }

  lemma NextInGrammar(s: string, line: nat, st: LexerStyle)
    ensures Says(s, line, Next(s, line, st), st)
  {
    var gap, t := GapsFound(s, st);
    NothingBehind(gap, t, s, st);
    if t == "" || Unfinished(t, st) {
      NextEnds(gap, t, s, line, line + Newlines(s), st);
    } else {
      TokenInGrammar(gap, t, s, line, line + Newlines(GapText(gap)), st);
    }
  }

  /** The lexer reads what the lexical grammar says, on every text, and nothing else. */
  lemma NextIffGrammar(s: string, line: nat, r: Lexed, st: LexerStyle)
    ensures Next(s, line, st) == r <==> Says(s, line, r, st)
  {
    NextInGrammar(s, line, st);
    if Says(s, line, r, st) { GrammarIsNext(s, line, r, st); }
  }

  // ---------------------------------------------------------------- whole texts

  /** l is what the lexical grammar makes of all of s. */
  ghost predicate StreamOf(s: string, line: nat, l: Stream, st: LexerStyle)
    decreases l
  {
    match l
    case Done(n) => Says(s, line, AtEnd(n), st)
    case Fault(e, n) => Says(s, line, Bad(e, n), st)
    case More(h, tail) =>
      exists rest :: Says(s, line, Read(h.tok, h.text, rest, h.line), st) && StreamOf(rest, h.line, tail, st)
  }

  lemma {:induction false} LexIffGrammar(s: string, line: nat, l: Stream, st: LexerStyle)
    ensures Lex(s, line, st) == l <==> StreamOf(s, line, l, st)
    decreases l
  {
    var r := Next(s, line, st);
    NextInGrammar(s, line, st);
    match l
    case Done(n) => NextIffGrammar(s, line, AtEnd(n), st);
    case Fault(e, n) => NextIffGrammar(s, line, Bad(e, n), st);
    case More(h, tail) =>
      if StreamOf(s, line, l, st) {
        var rest :| Says(s, line, Read(h.tok, h.text, rest, h.line), st) && StreamOf(rest, h.line, tail, st);
        NextIffGrammar(s, line, Read(h.tok, h.text, rest, h.line), st);
        LexIffGrammar(rest, h.line, tail, st);
      }
      if r.Read? { LexIffGrammar(r.rest, r.line, tail, st); }
  }
}
