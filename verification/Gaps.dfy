/**
 White space and comments: what stands between tokens, in which form, and the proofs that the lexer
 skips just that.
 */
module Gaps {
  import opened Lexicon
  import opened Lexing
  import opened Results

  // ---------------------------------------------------------------- their form

  /** White space or a comment: to the end of a line, newline included, or a block. */
  datatype GapItem = Blank(c: char) | ToLineEnd(marker: string, body: string) | Block(body: string)

  type Spacing = seq<GapItem>

  predicate NoBlockEnd(s: string) { forall i :: 0 <= i < |s| - 1 ==> !(s[i] == '*' && s[i + 1] == '/') }

  predicate ValidItem(g: GapItem, st: LexerStyle) {
    match g
    case Blank(c) => Space(c)
    case ToLineEnd(marker, body) => marker in LineMarks(st) && '\n' !in body
    case Block(body) => st.comments == CComments && NoBlockEnd(body)
  }

  predicate ValidGap(gap: Spacing, st: LexerStyle) { forall g :: g in gap ==> ValidItem(g, st) }

  function ItemText(g: GapItem): string {
    match g
    case Blank(c) => [c]
    case ToLineEnd(marker, body) => marker + body + "\n"
    case Block(body) => "/*" + body + "*/"
  }

  function GapText(gap: Spacing): string {
    if gap == [] then "" else ItemText(gap[0]) + GapText(gap[1..])
  }

  // ---------------------------------------------------------------- one item

  lemma {:induction false} NewlinesAppend(a: string, b: string)
    ensures Newlines(a + b) == Newlines(a) + Newlines(b)
  {
    if a == "" {
      assert a + b == b;
    } else {
      assert (a + b)[1..] == a[1..] + b;
      NewlinesAppend(a[1..], b);
    }
  }

  lemma {:induction false} NoNewlines(a: string)
    requires '\n' !in a
    ensures Newlines(a) == 0
  {
    if a != "" { NoNewlines(a[1..]); }
  }

  lemma {:induction false} LineBody(body: string, s: string)
    requires '\n' !in body
    ensures AfterNewline(body + "\n" + s) == Some(s)
  {
    var t := body + "\n" + s;
    if body == "" {
      assert t[1..] == s;
    } else {
      assert t[1..] == body[1..] + "\n" + s;
      LineBody(body[1..], s);
    }
  }

  /** A block comment ends at its first asterisk-slash, whatever precedes that. */
  lemma {:induction false} BlockBody(body: string, s: string, line: nat)
    requires NoBlockEnd(body)
    ensures AfterBlock(body + "*/" + s, line) == (s, line + Newlines(body))
  {
    var t := body + "*/" + s;
    if body == "" {
      assert t[2..] == s;
    } else {
      assert t[1..] == body[1..] + "*/" + s;
      forall i | 0 <= i < |body[1..]| - 1 ensures !(body[1..][i] == '*' && body[1..][i + 1] == '/') {
        assert !(body[i + 1] == '*' && body[i + 2] == '/');
      }
      BlockBody(body[1..], s, if IsNewline(body[0]) then line + 1 else line);
    }
  }

  lemma LineSkipped(marker: string, body: string, s: string, line: nat, st: LexerStyle)
    requires ValidItem(ToLineEnd(marker, body), st)
    ensures GapAt(marker + body + "\n" + s, line, st) == Skip(s, line + 1)
    ensures Newlines(marker + body + "\n") == 1
  {
    var t := marker + body + "\n" + s;
    LineBody(marker[1..] + body, s);
    assert t[1..] == (marker[1..] + body) + "\n" + s;
    assert t[0] == marker[0] && (|marker| > 1 ==> t[1] == marker[1]);
    NoNewlines(marker + body);
    NewlinesAppend(marker + body, "\n");
  }

  lemma BlockSkipped(body: string, s: string, line: nat, st: LexerStyle)
    requires ValidItem(Block(body), st)
    ensures GapAt("/*" + body + "*/" + s, line, st) == Skip(s, line + Newlines(body))
    ensures Newlines("/*" + body + "*/") == Newlines(body)
  {
    BlockBody(body, s, line);
    assert ("/*" + body + "*/" + s)[2..] == body + "*/" + s;
    NewlinesAppend("/*", body);
    NewlinesAppend("/*" + body, "*/");
  }

  lemma GapItemSkipped(g: GapItem, s: string, line: nat, st: LexerStyle)
    requires ValidItem(g, st)
    ensures GapAt(ItemText(g) + s, line, st) == Skip(s, line + Newlines(ItemText(g)))
  {
    match g
    case Blank(c) => assert ([c] + s)[1..] == s;
    case ToLineEnd(marker, body) => LineSkipped(marker, body, s, line, st);
    case Block(body) => BlockSkipped(body, s, line, st);
  }

  // ---------------------------------------------------------------- a comment that never ends

  /** A comment that the end of the text cuts off. */
  predicate Unfinished(s: string, st: LexerStyle) {
    || (exists marker :: marker in LineMarks(st) && marker <= s && '\n' !in s)
    || (st.comments == CComments && "/*" <= s && NoBlockEnd(s[2..]))
  }

  lemma {:induction false} LineCut(s: string)
    requires '\n' !in s
    ensures AfterNewline(s) == None
  {
    if s != "" { LineCut(s[1..]); }
  }

  lemma {:induction false} BlockCut(s: string, line: nat)
    requires NoBlockEnd(s)
    ensures AfterBlock(s, line) == ("", line + Newlines(s))
  {
    if s != "" { BlockCut(s[1..], if IsNewline(s[0]) then line + 1 else line); }
  }

  lemma GapCut(s: string, line: nat, st: LexerStyle)
    requires Unfinished(s, st)
    ensures s != "" && SkipGaps(s, line, st) == Over(line + Newlines(s))
  {
    if '\n' !in s && exists marker :: marker in LineMarks(st) && marker <= s {
      NoNewlines(s);
      LineCut(s[1..]);
      if |s| > 1 { LineCut(s[2..]); }
    } else {
      BlockCut(s[2..], line);
      assert s == "/*" + s[2..];
      NewlinesAppend("/*", s[2..]);
    }
  }

  // ---------------------------------------------------------------- gaps are skipped

  lemma SkipOne(t: string, line: nat, s: string, n: nat, st: LexerStyle)
    requires t != "" && GapAt(t, line, st) == Skip(s, n)
    ensures SkipGaps(t, line, st) == SkipGaps(s, n, st)
  {
  }

  lemma ItemSkipped(g: GapItem, t: string, line: nat, s: string, n: nat, st: LexerStyle)
    requires ValidItem(g, st) && t == ItemText(g) + s && n == line + Newlines(ItemText(g))
    ensures SkipGaps(t, line, st) == SkipGaps(s, n, st)
  {
    GapItemSkipped(g, s, line, st);
    SkipOne(t, line, s, n, st);
  }

  lemma AppendTwice(a: string, b: string, s: string)
    ensures a + b + s == a + (b + s)
  {
  }

  lemma GapTail(gap: Spacing, s: string)
    requires gap != []
    ensures GapText(gap) + s == ItemText(gap[0]) + (GapText(gap[1..]) + s)
  {
    AppendTwice(ItemText(gap[0]), GapText(gap[1..]), s);
  }

  lemma GapTailLines(gap: Spacing)
    requires gap != []
    ensures Newlines(GapText(gap)) == Newlines(ItemText(gap[0])) + Newlines(GapText(gap[1..]))
  {
    NewlinesAppend(ItemText(gap[0]), GapText(gap[1..]));
  }

  lemma {:induction false} GapSkipped(gap: Spacing, t: string, line: nat, s: string, n: nat, st: LexerStyle)
    requires ValidGap(gap, st) && t == GapText(gap) + s && n == line + Newlines(GapText(gap))
    ensures SkipGaps(t, line, st) == SkipGaps(s, n, st)
    decreases |gap|
  {
    if gap == [] {
      assert t == s;
    } else {
      GapTail(gap, s);
      GapTailLines(gap);
      var rest, m := GapText(gap[1..]) + s, line + Newlines(ItemText(gap[0]));
      GapSkipped(gap[1..], rest, m, s, n, st);
      ItemSkipped(gap[0], t, line, rest, m, st);
    }
  }

  lemma NextAfterGaps(s: string, m: nat, t: string, n: nat, st: LexerStyle)
    requires SkipGaps(s, m, st) == SkipGaps(t, n, st)
    ensures Next(s, m, st) == Next(t, n, st)
  {
  }

  /** Gaps are invisible but for the lines they count: if t is s behind white space and comments of
      the selected style, in any number and order, both start with the same token and value. */
  lemma GapInvisible(gap: Spacing, t: string, line: nat, s: string, n: nat, st: LexerStyle)
    requires ValidGap(gap, st) && t == GapText(gap) + s && n == line + Newlines(GapText(gap))
    ensures Next(t, line, st) == Next(s, n, st)
  {
    GapSkipped(gap, t, line, s, n, st);
    NextAfterGaps(t, line, s, n, st);
  }

  // ---------------------------------------------------------------- what is skipped is a gap

  lemma {:induction false} LineFound(s: string) returns (body: string)
    ensures AfterNewline(s).None? ==> '\n' !in s
    ensures AfterNewline(s).Some? ==> s == body + "\n" + AfterNewline(s).value && '\n' !in body
  {
    body := "";
    if s != "" && !IsNewline(s[0]) {
      body := LineFound(s[1..]);
      body := [s[0]] + body;
    }
  }

  lemma {:induction false} BlockFound(s: string, line: nat) returns (body: string)
    ensures NoBlockEnd(body)
    ensures s == body + "*/" + AfterBlock(s, line).0 || (s == body && AfterBlock(s, line).0 == "")
  {
    if s == "" || s == "*" {
      body := s;
    } else if s[0] == '*' && s[1] == '/' {
      body := "";
    } else {
      var more := BlockFound(s[1..], if IsNewline(s[0]) then line + 1 else line);
      body := [s[0]] + more;
    }
  }

  /** What s begins with, up to rest, is white space or a comment; or all of s is a comment cut off. */
  ghost predicate Found(s: string, g: GapItem, rest: string, st: LexerStyle) {
    (ValidItem(g, st) && s == ItemText(g) + rest) || (rest == "" && Unfinished(s, st))
  }

  lemma LineCommentFound(s: string, line: nat, marker: string, st: LexerStyle) returns (g: GapItem)
    requires marker in LineMarks(st) && marker <= s
    ensures LineComment(s[|marker|..], line).Skip? ==> Found(s, g, LineComment(s[|marker|..], line).rest, st)
    ensures LineComment(s[|marker|..], line).CutOff? ==> Unfinished(s, st)
  {
    var body := LineFound(s[|marker|..]);
    g := ToLineEnd(marker, body);
    assert s == marker + s[|marker|..];
    if AfterNewline(s[|marker|..]).Some? {
      assert s == ItemText(g) + AfterNewline(s[|marker|..]).value;
    }
  }

  lemma BlockCommentFound(s: string, line: nat, st: LexerStyle) returns (g: GapItem)
    requires st.comments == CComments && "/*" <= s
    ensures Found(s, g, AfterBlock(s[2..], line).0, st)
  {
    var body := BlockFound(s[2..], line);
    g := Block(body);
    assert s == "/*" + s[2..];
    if s[2..] == body + "*/" + AfterBlock(s[2..], line).0 {
      assert s == ItemText(g) + AfterBlock(s[2..], line).0;
    }
  }

  lemma GapFound(s: string, line: nat, st: LexerStyle) returns (g: GapItem)
    requires s != ""
    ensures GapAt(s, line, st).Skip? ==> Found(s, g, GapAt(s, line, st).rest, st)
    ensures GapAt(s, line, st).CutOff? ==> Unfinished(s, st)
  {
    g := Blank(s[0]);
    if IsSpace(s[0]) {
      assert s == ItemText(g) + s[1..];
    } else if GapAt(s, line, st) != NoGap {
      if s[0] != '/' {
        assert s[..1] == [s[0]];
        assert [s[0]] == "#" || [s[0]] == "%";
        g := LineCommentFound(s, line, s[..1], st);
      } else if s[1] == '/' {
        assert s[..2] == "//";
        g := LineCommentFound(s, line, s[..2], st);
        assert AfterNewline(s[1..]) == AfterNewline(s[1..][1..]) && s[1..][1..] == s[2..];
      } else {
        g := BlockCommentFound(s, line, st);
      }
    }
  }

  /** No gap begins here. */
  predicate NoGapAt(s: string, st: LexerStyle) { s != "" && GapAt(s, 1, st) == NoGap }

  lemma GapPrepended(g: GapItem, more: Spacing, s: string, next: string, rest: string, st: LexerStyle)
    requires ValidItem(g, st) && ValidGap(more, st)
    requires s == ItemText(g) + next && next == GapText(more) + rest
    ensures ValidGap([g] + more, st) && s == GapText([g] + more) + rest
  {
    assert ([g] + more)[1..] == more;
    GapTail([g] + more, rest);
  }

  /** Every text begins with a gap, and then there is nothing, or a comment cut off, or a token. */
  lemma {:induction false} GapsFound(s: string, st: LexerStyle) returns (gap: Spacing, rest: string)
    ensures ValidGap(gap, st) && s == GapText(gap) + rest
    ensures rest == "" || Unfinished(rest, st) || NoGapAt(rest, st)
    decreases |s|
  {
    gap, rest := [], s;
    assert s == GapText([]) + s;
    if s != "" {
      var g := GapFound(s, 1, st);
      if GapAt(s, 1, st).Skip? && !Unfinished(s, st) {
        var next, more := GapAt(s, 1, st).rest, [];
        more, rest := GapsFound(next, st);
        GapPrepended(g, more, s, next, rest, st);
        gap := [g] + more;
      }
    }
  }
}
