/**
 Writing tokens: every way to lay out a sequence of tokens as text, with white space and comments
 between them, and the proof that the lexer reads exactly those tokens back.
 */
module Rendering {
  import opened Gaps
  import opened Lexicon
  import opened Lexing
  import opened Numerals
  import opened Results
  import opened Scanning

  // ---------------------------------------------------------------- tokens as text

  datatype Piece = Piece(tok: Token, text: string)

  predicate ValidPiece(p: Piece) {
    match p.tok
    case Ident => Word(p.text)
    case Number => Decimal(p.text)
    case Text => true
    case _ => TokenChar(p.tok).Some? && p.text == ""
  }

  function EscapeChar(c: char, quote: char): string {
    if c == quote then ['\\', quote]
    else if c == '\n' then "\\n"
    else if c == '\\' then "\\\\"
    else [c]
  }

  function Escape(s: string, quote: char): string {
    if s == "" then "" else EscapeChar(s[0], quote) + Escape(s[1..], quote)
  }

  function Spell(p: Piece, st: LexerStyle): string {
    match p.tok
    case Ident => p.text
    case Number => p.text
    case Text => [Quote(st)] + Escape(p.text, Quote(st)) + [Quote(st)]
    case _ => if TokenChar(p.tok).Some? then [TokenChar(p.tok).value] else ""
  }

  /** s cannot prolong a word or a number. */
  predicate Stops(s: string) { s == "" || !(WordChar(s[0]) || s[0] in ".+-") }

  predicate OpenEnded(p: Piece) { p.tok == Ident || p.tok == Number }

  lemma {:induction false} EscapeEncodes(v: string, q: char)
    requires q in {'"', '\''}
    ensures Encodes(Escape(v, q), v, q)
  {
    if v != "" {
      EscapeEncodes(v[1..], q);
      var e := EscapeChar(v[0], q);
      assert (e + Escape(v[1..], q))[|e|..] == Escape(v[1..], q);
    }
  }

  lemma DecimalChars(t: string)
    requires Decimal(t)
    ensures forall i :: 0 <= i < |t| ==> Digit(t[i]) || t[i] in ".+-eE"
  {
    var u := Unsigned(t);
    var k := FirstE(u);
    forall i | 0 <= i < |u| ensures Digit(u[i]) || u[i] in ".+-eE" {
      if i < k {
        assert u[..k][i] in u[..k];
      } else if i > k {
        var e := u[k + 1..];
        assert i > k + 1 || e == Unsigned(e) ==> u[i] in Unsigned(e);
      }
    }
    forall i | 0 <= i < |t| ensures Digit(t[i]) || t[i] in ".+-eE" {
      if u != t && i > 0 { assert t[i] == u[i - 1]; }
    }
  }

  lemma NumberStops(t: string, s: string)
    requires Decimal(t) && Stops(s)
    ensures Longest(t, s)
  {
    assert t + "" == t;
    if s != "" && BeginsDecimal(t + [s[0]]) {
      var more :| Decimal(t + [s[0]] + more);
      assert (t + [s[0]] + more)[|t|] == s[0];
      DecimalChars(t + [s[0]] + more);
    }
  }

  /** The spelling of a piece is that token, whatever follows that does not prolong it. */
  lemma PieceWritten(p: Piece, s: string, st: LexerStyle)
    requires ValidPiece(p) && (OpenEnded(p) ==> Stops(s))
    ensures Written(p.tok, p.text, Spell(p, st), s, st)
  {
    match p.tok
    case Number => NumberStops(p.text, s);
    case Text =>
      var q, t := Quote(st), Spell(p, st);
      EscapeEncodes(p.text, q);
      assert t[1..|t| - 1] == Escape(p.text, q) && t[|t| - 1..] == [q];
    case _ =>
  }

  /** Every token is read back as it was spelled, whatever follows it that does not prolong it. */
  lemma PieceReadBack(p: Piece, s: string, line: nat, st: LexerStyle)
    requires ValidPiece(p) && (OpenEnded(p) ==> Stops(s))
    ensures Next(Spell(p, st) + s, line, st) == Read(p.tok, p.text, s, line)
  {
    PieceWritten(p, s, st);
    TokenWritten(p.tok, p.text, Spell(p, st), s, line, st);
    NoGapSkipped(Spell(p, st) + s, line, st);
  }

  // ---------------------------------------------------------------- whole texts

  /** The pieces with gaps before, between and after them. */
  function Render(pieces: seq<Piece>, gaps: seq<Spacing>, st: LexerStyle): string
    requires |gaps| == |pieces| + 1
  {
    if pieces == [] then GapText(gaps[0])
    else GapText(gaps[0]) + (Spell(pieces[0], st) + Render(pieces[1..], gaps[1..], st))
  }

  /** Gaps are well formed, and there is one between words and numbers that would run together. */
  ghost predicate ValidSpacing(pieces: seq<Piece>, gaps: seq<Spacing>, st: LexerStyle) {
    && |gaps| == |pieces| + 1
    && (forall i :: 0 <= i < |gaps| ==> ValidGap(gaps[i], st))
    && forall i {:trigger gaps[i]} ::
         1 <= i < |pieces| && OpenEnded(pieces[i - 1]) && OpenEnded(pieces[i]) ==> gaps[i] != []
  }

  ghost predicate ValidPieces(pieces: seq<Piece>) { forall i :: 0 <= i < |pieces| ==> ValidPiece(pieces[i]) }

  ghost predicate ValidLayout(pieces: seq<Piece>, gaps: seq<Spacing>, st: LexerStyle) {
    ValidPieces(pieces) && ValidSpacing(pieces, gaps, st)
  }

  /** The tokens the pieces stand for, with their lines. */
  function Tokens(pieces: seq<Piece>, gaps: seq<Spacing>, line: nat): Stream
    requires |gaps| == |pieces| + 1
  {
    var n := line + Newlines(GapText(gaps[0]));
    if pieces == [] then Done(n)
    else More(Lexeme(pieces[0].tok, pieces[0].text, n), Tokens(pieces[1..], gaps[1..], n))
  }

  lemma GapStops(gap: Spacing, s: string, st: LexerStyle)
    requires gap != [] && ValidGap(gap, st)
    ensures Stops(GapText(gap) + s)
  {
    assert ValidItem(gap[0], st);
    assert (GapText(gap) + s)[0] == ItemText(gap[0])[0];
  }

  lemma RenderStops(pieces: seq<Piece>, gaps: seq<Spacing>, st: LexerStyle)
    requires ValidLayout(pieces, gaps, st)
    requires pieces != [] && OpenEnded(pieces[0]) ==> gaps[0] != []
    ensures Stops(Render(pieces, gaps, st))
  {
    if gaps[0] != [] {
      GapStops(gaps[0], if pieces == [] then "" else Spell(pieces[0], st) + Render(pieces[1..], gaps[1..], st), st);
      if pieces == [] { assert GapText(gaps[0]) + "" == GapText(gaps[0]); }
    } else if pieces != [] {
      assert ValidPiece(pieces[0]);
      assert Render(pieces, gaps, st)[0] == Spell(pieces[0], st)[0];
    }
  }

  lemma LayoutTail(pieces: seq<Piece>, gaps: seq<Spacing>, st: LexerStyle)
    requires ValidLayout(pieces, gaps, st) && pieces != []
    ensures ValidLayout(pieces[1..], gaps[1..], st)
    ensures OpenEnded(pieces[0]) ==> Stops(Render(pieces[1..], gaps[1..], st))
  {
    forall i | 1 <= i < |pieces[1..]| && OpenEnded(pieces[1..][i - 1]) && OpenEnded(pieces[1..][i])
      ensures gaps[1..][i] != []
    {
      assert OpenEnded(pieces[i]) && OpenEnded(pieces[i + 1]);
    }
    if OpenEnded(pieces[0]) { RenderStops(pieces[1..], gaps[1..], st); }
  }

  lemma PieceRead(gap: Spacing, p: Piece, s: string, line: nat, st: LexerStyle)
    requires ValidGap(gap, st) && ValidPiece(p) && (OpenEnded(p) ==> Stops(s))
    ensures Next(GapText(gap) + (Spell(p, st) + s), line, st)
            == Read(p.tok, p.text, s, line + Newlines(GapText(gap)))
  {
    var t, n := Spell(p, st) + s, line + Newlines(GapText(gap));
    GapInvisible(gap, GapText(gap) + t, line, t, n, st);
    PieceReadBack(p, s, n, st);
  }

  lemma EndRead(gap: Spacing, line: nat, st: LexerStyle)
    requires ValidGap(gap, st)
    ensures Next(GapText(gap), line, st) == AtEnd(line + Newlines(GapText(gap)))
  {
    assert GapText(gap) + "" == GapText(gap);
    GapInvisible(gap, GapText(gap), line, "", line + Newlines(GapText(gap)), st);
  }

  /** A way of reading the next token of a text. */
  type Reader = (string, nat) -> Lexed

  function ReaderOf(st: LexerStyle): Reader { (s: string, n: nat) => Next(s, n, st) }

  ghost predicate Inverts(next: Reader, st: LexerStyle) {
    && (forall gap, n: nat {:trigger next(GapText(gap), n)} ::
          ValidGap(gap, st) ==> next(GapText(gap), n) == AtEnd(n + Newlines(GapText(gap))))
    && (forall gap, p, s, n: nat {:trigger next(GapText(gap) + (Spell(p, st) + s), n)} ::
          ValidGap(gap, st) && ValidPiece(p) && (OpenEnded(p) ==> Stops(s)) ==>
            next(GapText(gap) + (Spell(p, st) + s), n) == Read(p.tok, p.text, s, n + Newlines(GapText(gap))))
  }

  lemma NextInverts(st: LexerStyle)
    ensures Inverts(ReaderOf(st), st)
  {
    forall gap, n: nat | ValidGap(gap, st)
      ensures ReaderOf(st)(GapText(gap), n) == AtEnd(n + Newlines(GapText(gap)))
    {
      EndRead(gap, n, st);
    }
    forall gap, p, s, n: nat | ValidGap(gap, st) && ValidPiece(p) && (OpenEnded(p) ==> Stops(s))
      ensures ReaderOf(st)(GapText(gap) + (Spell(p, st) + s), n)
              == Read(p.tok, p.text, s, n + Newlines(GapText(gap)))
    {
      PieceRead(gap, p, s, n, st);
    }
  }

  /** s is read piece by piece, and then ends. */
  ghost predicate ReadAs(next: Reader, s: string, pieces: seq<Piece>, gaps: seq<Spacing>, line: nat)
    requires |gaps| == |pieces| + 1
    decreases |pieces|
  {
    var n, r := line + Newlines(GapText(gaps[0])), next(s, line);
    if pieces == [] then r == AtEnd(n)
    else r.Read? && r.tok == pieces[0].tok && r.text == pieces[0].text && r.line == n
         && ReadAs(next, r.rest, pieces[1..], gaps[1..], n)
  }

  lemma FirstRead(next: Reader, pieces: seq<Piece>, gaps: seq<Spacing>, line: nat, st: LexerStyle)
    requires Inverts(next, st) && ValidLayout(pieces, gaps, st)
    ensures var n, r := line + Newlines(GapText(gaps[0])), next(Render(pieces, gaps, st), line);
      if pieces == [] then r == AtEnd(n)
      else r == Read(pieces[0].tok, pieces[0].text, Render(pieces[1..], gaps[1..], st), n)
  {
    assert ValidGap(gaps[0], st);
    if pieces != [] {
      assert ValidPiece(pieces[0]);
      LayoutTail(pieces, gaps, st);
    }
  }

  lemma {:induction false} RenderRead(next: Reader, pieces: seq<Piece>, gaps: seq<Spacing>, line: nat, st: LexerStyle)
    requires Inverts(next, st) && ValidLayout(pieces, gaps, st)
    ensures ReadAs(next, Render(pieces, gaps, st), pieces, gaps, line)
    decreases |pieces|
  {
    FirstRead(next, pieces, gaps, line, st);
    if pieces != [] {
      LayoutTail(pieces, gaps, st);
      RenderRead(next, pieces[1..], gaps[1..], line + Newlines(GapText(gaps[0])), st);
    }
  }

  type Streamer = (string, nat) -> Stream

  function LexerOf(st: LexerStyle): Streamer { (s: string, n: nat) => Lex(s, n, st) }

  // The stream is what reading again and again gives.
  ghost predicate Iterates(lex: Streamer, next: Reader) {
    forall s, n: nat {:trigger lex(s, n)} ::
      && (next(s, n).AtEnd? ==> lex(s, n) == Done(next(s, n).line))
      && (next(s, n).Read? ==>
            lex(s, n) == More(Lexeme(next(s, n).tok, next(s, n).text, next(s, n).line), lex(next(s, n).rest, next(s, n).line)))
  }

  lemma LexIterates(st: LexerStyle)
    ensures Iterates(LexerOf(st), ReaderOf(st))
  {
  }

  lemma {:induction false} ReadAsLexed(lex: Streamer, next: Reader, s: string, pieces: seq<Piece>, gaps: seq<Spacing>, line: nat)
    requires Iterates(lex, next)
    requires |gaps| == |pieces| + 1 && ReadAs(next, s, pieces, gaps, line)
    ensures lex(s, line) == Tokens(pieces, gaps, line)
    decreases |pieces|
  {
    if pieces != [] {
      ReadAsLexed(lex, next, next(s, line).rest, pieces[1..], gaps[1..], line + Newlines(GapText(gaps[0])));
    }
  }

  /** Lexing inverts rendering: every valid layout of tokens, in every comment and quote style, is
      lexed into just those tokens, each with the number of the line it stands on. */
  lemma LexInvertsRender(pieces: seq<Piece>, gaps: seq<Spacing>, line: nat, st: LexerStyle)
    requires ValidLayout(pieces, gaps, st)
    ensures Lex(Render(pieces, gaps, st), line, st) == Tokens(pieces, gaps, line)
  {
    NextInverts(st);
    RenderRead(ReaderOf(st), pieces, gaps, line, st);
    LexIterates(st);
    ReadAsLexed(LexerOf(st), ReaderOf(st), Render(pieces, gaps, st), pieces, gaps, line);
  }
}
