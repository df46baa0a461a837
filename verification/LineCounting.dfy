/**
 Line numbers: after every token, and at the end of the input, the lexer's line has advanced by
 exactly the newlines it has consumed.
 */
module LineCounting {
  import opened Gaps
  import opened Lexing

  /** rest is what remains of s after a part with the given number of newlines. */
  ghost predicate Consumed(s: string, rest: string, lines: int) {
    |rest| <= |s| && s[|s| - |rest|..] == rest && Newlines(s[..|s| - |rest|]) == lines
  }

  lemma ConsumedTwice(s: string, t: string, u: string, m: int, n: int)
    requires Consumed(s, t, m) && Consumed(t, u, n)
    ensures Consumed(s, u, m + n)
  {
    var i, j := |s| - |t|, |t| - |u|;
    assert s[..i + j] == s[..i] + t[..j];
    NewlinesAppend(s[..i], t[..j]);
  }

  lemma ConsumedOne(s: string)
    requires s != ""
    ensures Consumed(s, s[1..], if IsNewline(s[0]) then 1 else 0)
  {
    assert s[..1] == [s[0]] && [s[0]][1..] == "";
  }

  lemma ConsumedChars(s: string, n: nat)
    requires n <= |s| && forall i :: 0 <= i < n ==> !IsNewline(s[i])
    ensures Consumed(s, s[n..], 0)
  {
    NoNewlines(s[..n]);
  }

  lemma {:induction false} LineCommentLines(s: string)
    ensures AfterNewline(s).Some? ==> Consumed(s, AfterNewline(s).value, 1)
    ensures AfterNewline(s).None? ==> Newlines(s) == 0
  {
    if s != "" {
      ConsumedOne(s);
      if !IsNewline(s[0]) {
        LineCommentLines(s[1..]);
        if AfterNewline(s).Some? { ConsumedTwice(s, s[1..], AfterNewline(s).value, 0, 1); }
      }
    }
  }

  lemma {:induction false} BlockCommentLines(s: string, line: nat)
    ensures Consumed(s, AfterBlock(s, line).0, AfterBlock(s, line).1 - line)
  {
    var r := AfterBlock(s, line);
    if s == "" {
    } else if s[0] == '*' && |s| > 1 && s[1] == '/' {
      ConsumedChars(s, 2);
    } else {
      ConsumedOne(s);
      if s[0] != '*' {
        var n: nat := line + if IsNewline(s[0]) then 1 else 0;
        BlockCommentLines(s[1..], n);
        ConsumedTwice(s, s[1..], r.0, n - line, r.1 - n);
      } else if |s| > 1 {
        BlockCommentLines(s[1..], line);
        ConsumedTwice(s, s[1..], r.0, 0, r.1 - line);
      }
    }
  }

  lemma LineGapLines(s: string, line: nat)
    requires s != "" && !IsNewline(s[0])
    ensures var g := LineComment(s[1..], line);
            if g.Skip? then Consumed(s, g.rest, 1) && g.line == line + 1
            else g.line == line == line + Newlines(s)
  {
    var g := LineComment(s[1..], line);
    LineCommentLines(s[1..]);
    ConsumedOne(s);
    if g.Skip? { ConsumedTwice(s, s[1..], g.rest, 0, 1); }
  }

  lemma BlockGapLines(s: string, line: nat)
    requires |s| > 1 && s[0] == '/' && s[1] == '*'
    ensures var r := AfterBlock(s[2..], line); Consumed(s, r.0, r.1 - line)
  {
    var r := AfterBlock(s[2..], line);
    ConsumedChars(s, 2);
    BlockCommentLines(s[2..], line);
    ConsumedTwice(s, s[2..], r.0, 0, r.1 - line);
  }

  lemma GapLines(s: string, line: nat, st: LexerStyle)
    requires s != ""
    ensures var g := GapAt(s, line, st);
            && (g.Skip? ==> Consumed(s, g.rest, g.line - line))
            && (g.CutOff? ==> g.line == line + Newlines(s))
  {
    if IsSpace(s[0]) {
      ConsumedOne(s);
    } else if s[0] == '/' && |s| > 1 && s[1] == '*' {
      BlockGapLines(s, line);
    } else {
      LineGapLines(s, line);
    }
  }

  lemma {:induction false} StartLines(s: string, line: nat, st: LexerStyle)
    ensures match SkipGaps(s, line, st)
            case TokenStarts(rest, n) => Consumed(s, rest, n - line)
            case Over(n) => n == line + Newlines(s)
    decreases |s|
  {
    if s != "" {
      var g := GapAt(s, line, st);
      GapLines(s, line, st);
      if g.Skip? {
        StartLines(g.rest, g.line, st);
        match SkipGaps(s, line, st)
        case TokenStarts(rest, n) => ConsumedTwice(s, g.rest, rest, g.line - line, n - g.line);
        case Over(n) =>
          assert s == s[..|s| - |g.rest|] + g.rest;
          NewlinesAppend(s[..|s| - |g.rest|], g.rest);
      }
    }
  }

  lemma {:induction false} StringLines(s: string, quote: char, acc: string)
    requires quote == '"' || quote == '\''
    ensures var r := ScanString(s, quote, acc); r.Value? ==> Consumed(s, r.rest, 0)
  {
    var r := ScanString(s, quote, acc);
    if r.Value? {
      if s[0] == quote {
        ConsumedChars(s, 1);
      } else if s[0] != '\\' {
        ConsumedChars(s, 1);
        StringLines(s[1..], quote, acc + [s[0]]);
        ConsumedTwice(s, s[1..], r.rest, 0, 0);
      } else {
        ConsumedChars(s, 2);
        StringLines(s[2..], quote, if s[1] == 'n' then acc + "\n" else acc + [s[1]]);
        ConsumedTwice(s, s[2..], r.rest, 0, 0);
      }
    }
  }

  lemma {:induction false} NumberChars(s: string, seen: Seen)
    ensures forall i :: 0 <= i < NumberLength(s, seen).0 ==> !IsNewline(s[i])
  {
    if NumberLength(s, seen).0 > 0 {
      var seen', k :=
        if s[0] == '.' then seen.(point := true)
        else if IsDigit(s[0]) then (if seen.mark then seen.(exponent := true) else seen.(mantissa := true))
        else seen.(mark := true),
        if s[0] != '.' && !IsDigit(s[0]) && |s| > 1 && IsSign(s[1]) then 2 else 1;
      NumberChars(s[k..], seen');
      forall i | 0 <= i < NumberLength(s, seen).0 ensures !IsNewline(s[i]) {
        if i >= k { assert s[i] == s[k..][i - k]; }
      }
    }
  }

  lemma {:induction false} WordCharsOnly(s: string)
    ensures forall i :: 0 <= i < WordLength(s) ==> !IsNewline(s[i])
  {
    if s != "" && IsWordChar(s[0]) {
      WordCharsOnly(s[1..]);
      forall i | 0 <= i < WordLength(s) ensures !IsNewline(s[i]) {
        if i > 0 { assert s[i] == s[1..][i - 1]; }
      }
    }
  }

  lemma NumberLines(s: string)
    requires s != "" && StartsNumber(s[0]) && ScanNumber(s).Value?
    ensures Consumed(s, ScanNumber(s).rest, 0)
  {
    var sign := if IsSign(s[0]) then 1 else 0;
    var n := NumberLength(s[sign..], NOTHING_SEEN).0;
    NumberChars(s[sign..], NOTHING_SEEN);
    forall i | 0 <= i < sign + n ensures !IsNewline(s[i]) {
      if i >= sign { assert s[i] == s[sign..][i - sign]; }
    }
    NumberNonempty(s[sign..], NOTHING_SEEN);
    ConsumedChars(s, sign + n);
  }

  /** No token spans lines. */
  lemma TokenLines(s: string, line: nat, st: LexerStyle)
    requires s != "" && !IsSpace(s[0])
    ensures var r := TokenAt(s, line, st); r.Read? ==> Consumed(s, r.rest, 0)
  {
    var r := TokenAt(s, line, st);
    if r.Read? {
      ConsumedOne(s);
      match r.tok
      case Text =>
        StringLines(s[1..], s[0], "");
        ConsumedTwice(s, s[1..], r.rest, 0, 0);
      case Number => NumberLines(s);
      case Ident =>
        WordCharsOnly(s[1..]);
        forall i | 0 <= i < 1 + WordLength(s[1..]) ensures !IsNewline(s[i]) {
          if i > 0 { assert s[i] == s[1..][i - 1]; }
        }
        ConsumedChars(s, 1 + WordLength(s[1..]));
      case _ =>
    }
  }

  lemma {:induction false} StartNotSpace(s: string, line: nat, st: LexerStyle)
    ensures var r := SkipGaps(s, line, st);
            r.TokenStarts? ==> !IsSpace(r.rest[0]) && GapAt(r.rest, r.line, st) == NoGap
    decreases |s|
  {
    if s != "" && GapAt(s, line, st).Skip? {
      StartNotSpace(GapAt(s, line, st).rest, GapAt(s, line, st).line, st);
    }
  }

  lemma TokenConsumed(s: string, line: nat, t: string, n: nat, st: LexerStyle)
    requires n >= line && Consumed(s, t, n - line) && t != "" && !IsSpace(t[0]) && GapAt(t, n, st) == NoGap
    ensures var r := TokenAt(t, n, st); r.Read? ==> Consumed(s, r.rest, n - line)
  {
    TokenLines(t, n, st);
    var r := TokenAt(t, n, st);
    if r.Read? { ConsumedTwice(s, t, r.rest, n - line, 0); }
  }

  /** The line number counts newlines: after a token read from line n, the line is n plus the
      newlines consumed; at the end of the input it counts all that were left. */
  lemma NextCountsLines(s: string, line: nat, st: LexerStyle)
    ensures match Next(s, line, st)
            case Read(_, _, rest, n) => Consumed(s, rest, n - line)
            case AtEnd(n) => n == line + Newlines(s)
            case Bad(_, _) => true
  {
    StartLines(s, line, st);
    StartNotSpace(s, line, st);
    var start := SkipGaps(s, line, st);
    if start.TokenStarts? { TokenConsumed(s, line, start.rest, start.line, st); }
  }

  /** The number of newlines before position k of s, plus one. */
  function LineOf(s: string, k: nat): nat
    requires k <= |s|
  {
    1 + Newlines(s[..k])
  }

  /** Each token of l, read from position k of s on, carries the line on which it ends, and the end
      of the input the last line. */
  ghost predicate LinesRight(l: Stream, s: string, k: nat, line: nat, st: LexerStyle)
    requires k <= |s|
    decreases |s| - k
  {
    match l
    case More(head, tail) =>
      var r := Next(s[k..], line, st);
      r.Read? &&
      var end := |s| - |r.rest|;
      k < end <= |s| && head.line == LineOf(s, end) && LinesRight(tail, s, end, head.line, st)
    case Done(n) => n == LineOf(s, |s|)
    case Fault(_, _) => true
  }

  /** A token moves the cursor to where it ends, and the line with it. */
  lemma LineFollows(s: string, k: nat, line: nat, st: LexerStyle)
    requires k <= |s| && line == LineOf(s, k)
    ensures match Next(s[k..], line, st)
            case Read(_, _, rest, n) =>
              k < |s| - |rest| && rest == s[|s| - |rest|..] && n == LineOf(s, |s| - |rest|)
            case AtEnd(n) => n == LineOf(s, |s|)
            case Bad(_, _) => true
  {
    NextCountsLines(s[k..], line, st);
    var r := Next(s[k..], line, st);
    if r.Read? {
      var end := |s| - |r.rest|;
      assert s[k..][..|s[k..]| - |r.rest|] == s[k..end];
      assert s[..end] == s[..k] + s[k..end];
      NewlinesAppend(s[..k], s[k..end]);
    } else if r.AtEnd? {
      assert s[..|s|] == s[..k] + s[k..];
      NewlinesAppend(s[..k], s[k..]);
    }
  }

  lemma LexStep(t: string, line: nat, st: LexerStyle)
    ensures var r := Next(t, line, st);
            Lex(t, line, st) ==
              if r.AtEnd? then Done(r.line) else if r.Bad? then Fault(r.error, r.line)
              else More(Lexeme(r.tok, r.text, r.line), Lex(r.rest, r.line, st))
  {
  }

  /** Over a whole text: each token carries one plus the number of newlines before its end, and the
      end of the text one plus all of them. */
  lemma {:induction false} StreamCountsLines(s: string, k: nat, line: nat, st: LexerStyle)
    requires k <= |s| && line == LineOf(s, k)
    ensures LinesRight(Lex(s[k..], line, st), s, k, line, st)
    decreases |s| - k
  {
    LineFollows(s, k, line, st);
    LexStep(s[k..], line, st);
    var r := Next(s[k..], line, st);
    if r.Read? {
      StreamCountsLines(s, |s| - |r.rest|, r.line, st);
    }
  }
}
