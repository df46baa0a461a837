/** The size-limited getline(): a line ends at a newline, which is dropped, or after `maxsize`
    characters, and then what follows is the next line. */
module GetLine {

  // ------------------------------------------------------------------ lines of a text

  // Where the line at the front of `text` ends.
  function LineEnd(text: string, maxsize: nat): (k: nat)
    ensures k <= maxsize && k <= |text|
    ensures forall i :: 0 <= i < k ==> text[i] != '\n'
    ensures k == maxsize || k == |text| || text[k] == '\n'
  {
    if maxsize == 0 || text == "" || text[0] == '\n' then 0 else 1 + LineEnd(text[1..], maxsize - 1)
  }

  lemma {:induction false} LineEndAt(text: string, maxsize: nat, k: nat)
    requires k <= maxsize && k <= |text| && forall i :: 0 <= i < k ==> text[i] != '\n'
    requires k == maxsize || k == |text| || text[k] == '\n'
    ensures LineEnd(text, maxsize) == k
  {
    if k > 0 {
      LineEndAt(text[1..], maxsize - 1, k - 1);
    }
  }

  // The line is there: it was not cut short by the end of the text.
  predicate Complete(text: string, maxsize: nat) {
    LineEnd(text, maxsize) == maxsize || LineEnd(text, maxsize) < |text|
  }

  // What is consumed with the line.
  function Consumed(text: string, maxsize: nat): (n: nat)
    ensures n <= |text|
    ensures maxsize > 0 && Complete(text, maxsize) ==> n > 0
  {
    var k := LineEnd(text, maxsize);
    if k < maxsize && k < |text| then k + 1 else k
  }

  // All complete lines of a text, and the rest.
  function Lines(text: string, maxsize: nat): (seq<string>, string)
    requires maxsize > 0
  {
    if !Complete(text, maxsize) then ([], text)
    else
      var (lines, rest) := Lines(text[Consumed(text, maxsize)..], maxsize);
      ([text[..LineEnd(text, maxsize)]] + lines, rest)
  }

  // The other direction: every line followed by a newline exactly when it is shorter than maxsize.
  function Terminated(line: string, maxsize: nat): string {
    line + if |line| < maxsize then "\n" else ""
  }

  function Unlines(lines: seq<string>, maxsize: nat): string {
    if lines == [] then "" else Terminated(lines[0], maxsize) + Unlines(lines[1..], maxsize)
  }

  predicate IsLine(s: string, maxsize: nat) { |s| <= maxsize && '\n' !in s }

  predicate AreLines(lines: seq<string>, rest: string, maxsize: nat) {
    && (forall i :: 0 <= i < |lines| ==> IsLine(lines[i], maxsize))
    && |rest| < maxsize && '\n' !in rest
  }

  // The first line and what comes after it.
  function First(text: string, maxsize: nat): string { text[..LineEnd(text, maxsize)] }

  function After(text: string, maxsize: nat): string { text[Consumed(text, maxsize)..] }

  lemma FirstLine(text: string, maxsize: nat)
    requires maxsize > 0
    ensures IsLine(First(text, maxsize), maxsize)
    ensures Complete(text, maxsize) ==> text == Terminated(First(text, maxsize), maxsize) + After(text, maxsize)
    ensures !Complete(text, maxsize) ==>
      First(text, maxsize) == text && After(text, maxsize) == "" && |text| < maxsize
  {
    var k := LineEnd(text, maxsize);
    if Complete(text, maxsize) && k < maxsize {
      assert text == text[..k] + [text[k]] + text[k + 1..];
    }
  }

  lemma LinesStep(text: string, maxsize: nat)
    requires maxsize > 0 && Complete(text, maxsize)
    ensures var (lines, rest) := Lines(After(text, maxsize), maxsize);
      Lines(text, maxsize) == ([First(text, maxsize)] + lines, rest)
  {
  }

  lemma UnlinesCons(line: string, lines: seq<string>, rest: string, maxsize: nat)
    ensures Unlines([line] + lines, maxsize) + rest == Terminated(line, maxsize) + (Unlines(lines, maxsize) + rest)
  {
    assert ([line] + lines)[1..] == lines;
  }

  /** Nothing is lost: the lines, each with the newline that ended it, and then the rest are the
      text.  No line is longer than maxsize. */
  lemma {:induction false} LinesLoseNothing(text: string, maxsize: nat)
    requires maxsize > 0
    ensures AreLines(Lines(text, maxsize).0, Lines(text, maxsize).1, maxsize)
    ensures Unlines(Lines(text, maxsize).0, maxsize) + Lines(text, maxsize).1 == text
    decreases |text|
  {
    FirstLine(text, maxsize);
    if Complete(text, maxsize) {
      LinesStep(text, maxsize);
      LinesLoseNothing(After(text, maxsize), maxsize);
      UnlinesCons(First(text, maxsize), Lines(After(text, maxsize), maxsize).0, Lines(text, maxsize).1, maxsize);
    }
  }

  // A line, and something after it, is cut where the line ends.
  lemma CutFirst(line: string, after: string, maxsize: nat)
    requires maxsize > 0 && IsLine(line, maxsize)
    ensures var text := Terminated(line, maxsize) + after;
      Complete(text, maxsize) && First(text, maxsize) == line && After(text, maxsize) == after
  {
    var text := Terminated(line, maxsize) + after;
    LineEndAt(text, maxsize, |line|);
    assert text[..|line|] == line;
    assert text[|Terminated(line, maxsize)|..] == after;
  }

  /** Conversely there is no other way to cut the text: lines written so are read back. */
  lemma {:induction false} LinesInvertUnlines(lines: seq<string>, rest: string, maxsize: nat)
    requires maxsize > 0 && AreLines(lines, rest, maxsize)
    ensures Lines(Unlines(lines, maxsize) + rest, maxsize) == (lines, rest)
  {
    if lines == [] {
      LineEndAt(rest, maxsize, |rest|);
      assert "" + rest == rest;
    } else {
      var after := Unlines(lines[1..], maxsize) + rest;
      assert lines == [lines[0]] + lines[1..];
      UnlinesCons(lines[0], lines[1..], rest, maxsize);
      CutFirst(lines[0], after, maxsize);
      LinesStep(Terminated(lines[0], maxsize) + after, maxsize);
      LinesInvertUnlines(lines[1..], rest, maxsize);
    }
  }

  // The lines of a text behind lines read before.
  ghost function Behind(done: seq<string>, text: string, maxsize: nat): (seq<string>, string)
    requires maxsize > 0
  {
    (done + Lines(text, maxsize).0, Lines(text, maxsize).1)
  }

  lemma BehindStep(done: seq<string>, text: string, maxsize: nat)
    requires maxsize > 0
    ensures Complete(text, maxsize) ==>
      Behind(done, text, maxsize) == Behind(done + [First(text, maxsize)], After(text, maxsize), maxsize)
    ensures !Complete(text, maxsize) ==> Behind(done, text, maxsize) == (done, text)
  {
    if Complete(text, maxsize) {
      LinesStep(text, maxsize);
      var more := Lines(After(text, maxsize), maxsize).0;
      assert done + [First(text, maxsize)] + more == done + ([First(text, maxsize)] + more);
    } else {
      assert done + [] == done;
    }
  }

  // ------------------------------------------------------------------ reading from a stream

  /** An input stream.  `failed` stands for failbit and eofbit, which getline() sets together. */
  class InputStream {
    const text: string
    var pos: nat
    var failed: bool

    ghost predicate Valid()
      reads this
    {
      pos <= |text|
    }

    ghost function Rest(): string
      requires Valid()
      reads this
    {
      text[pos..]
    }

    constructor (text: string)
      ensures Valid() && !failed && Rest() == text
    {
      this.text := text;
      pos, failed := 0, false;
    }

    /** `s` is the caller's string, left alone when the stream has already failed. */
    method GetLine(s: string, maxsize: nat) returns (line: string)
      requires Valid() && maxsize > 0
      modifies this
      ensures Valid()
      ensures old(failed) ==> failed && line == s && Rest() == old(Rest())
      ensures !old(failed) ==>
        && line == First(old(Rest()), maxsize)
        && (failed <==> !Complete(old(Rest()), maxsize))
        && Rest() == After(old(Rest()), maxsize)
    {
      if failed {
        return s;
      }
      line := "";
      ghost var start, all := pos, Rest();
      var i := 0;
      while i < maxsize
        invariant i <= maxsize && Valid() && !failed && pos == start + i
        invariant i <= |all| && line == all[..i] && Rest() == all[i..]
        invariant forall k :: 0 <= k < i ==> all[k] != '\n'
      {
        if pos == |text| {
          failed := true;
          LineEndAt(all, maxsize, i);
          return;
        }
        var c := text[pos];
        assert c == all[i];
        pos := pos + 1;
        if c == '\n' {
          LineEndAt(all, maxsize, i);
          return;
        }
        line := line + [c];
        i := i + 1;
      }
      LineEndAt(all, maxsize, i);
    }

    /** The loop around getline(): it ends, its results are the lines of the text, and the failing
        call leaves the unfinished line. */
    method ReadLines(maxsize: nat) returns (lines: seq<string>, rest: string)
      requires Valid() && !failed && maxsize > 0
      modifies this
      ensures Valid() && failed && Rest() == ""
      ensures (lines, rest) == Lines(old(Rest()), maxsize)
    {
      ghost var all := Rest();
      lines := [];
      FirstLine(all, maxsize);
      BehindStep([], all, maxsize);
      assert [] + Lines(all, maxsize).0 == Lines(all, maxsize).0;
      rest := GetLine("", maxsize);
      while !failed
        invariant Valid()
        invariant if failed then Lines(all, maxsize) == (lines, rest) && Rest() == ""
                  else Lines(all, maxsize) == Behind(lines + [rest], Rest(), maxsize)
        decreases !failed, |Rest()|
      {
        lines := lines + [rest];
        FirstLine(Rest(), maxsize);
        BehindStep(lines, Rest(), maxsize);
        rest := GetLine(rest, maxsize);
      }
    }
  }
}
