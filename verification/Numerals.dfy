/** The lexer's scanner for numbers accepts the decimal numbers, and takes as much as can begin one. */
module Numerals {
  import opened Lexicon
  import opened Lexing
  import opened Results

  // ---------------------------------------------------------------- what may follow what was seen

  /** The rest of a mantissa of which some has been seen. */
  predicate MantissaRest(m: string, seen: Seen) {
    && (forall c :: c in m ==> Digit(c) || c == '.')
    && (forall i, j :: 0 <= i < j < |m| ==> !(m[i] == '.' && m[j] == '.'))
    && (seen.point ==> '.' !in m)
    && (seen.mantissa || exists c :: c in m && Digit(c))
  }

  /** The rest of a decimal number of which some has been seen. */
  predicate Rest(s: string, seen: Seen) {
    if seen.mark then Digits(s) && (seen.exponent || s != "")
    else MantissaRest(s[..FirstE(s)], seen) && (FirstE(s) < |s| ==> Integer(s[FirstE(s) + 1..]))
  }

  lemma MantissaPoint(m: string, seen: Seen)
    ensures MantissaRest(['.'] + m, seen) <==> !seen.point && MantissaRest(m, seen.(point := true))
  {
    var n := ['.'] + m;
    if MantissaRest(n, seen) {
      assert n[0] in n;
      forall i | 0 <= i < |m| ensures m[i] != '.' { assert n[0] == '.' && n[i + 1] == m[i]; }
      forall c | c in m ensures c in n {}
    }
    if MantissaRest(m, seen.(point := true)) {
      forall i, j | 0 <= i < j < |n| ensures !(n[i] == '.' && n[j] == '.') { assert n[j] == m[j - 1]; }
      forall c | c in m ensures c in n {}
    }
  }

  lemma MantissaDigit(d: char, m: string, seen: Seen)
    requires Digit(d)
    ensures MantissaRest([d] + m, seen) <==> MantissaRest(m, seen.(mantissa := true))
  {
    var n := [d] + m;
    assert n[0] in n;
    forall c | c in m ensures c in n {}
    if MantissaRest(n, seen) {
      forall i, j | 0 <= i < j < |m| ensures !(m[i] == '.' && m[j] == '.') { assert n[i + 1] == m[i] && n[j + 1] == m[j]; }
    }
    if MantissaRest(m, seen.(mantissa := true)) {
      forall i, j | 0 <= i < j < |n| ensures !(n[i] == '.' && n[j] == '.') { assert n[j] == m[j - 1] && (i > 0 ==> n[i] == m[i - 1]); }
    }
  }

  lemma TailParts(s: string)
    requires s != "" && !IsE(s[0])
    ensures FirstE(s) == FirstE(s[1..]) + 1
    ensures s[..FirstE(s)] == [s[0]] + s[1..][..FirstE(s[1..])]
    ensures FirstE(s) < |s| ==> s[FirstE(s) + 1..] == s[1..][FirstE(s[1..]) + 1..]
  {
  }

  lemma PointRest(s: string, seen: Seen)
    requires s != "" && s[0] == '.' && !seen.mark
    ensures Rest(s, seen) <==> !seen.point && Rest(s[1..], seen.(point := true))
  {
    TailParts(s);
    MantissaPoint(s[1..][..FirstE(s[1..])], seen);
  }

  lemma DigitRest(s: string, seen: Seen)
    requires s != "" && Digit(s[0]) && !seen.mark
    ensures Rest(s, seen) <==> Rest(s[1..], seen.(mantissa := true))
  {
    TailParts(s);
    MantissaDigit(s[0], s[1..][..FirstE(s[1..])], seen);
  }

  lemma MarkRest(s: string, seen: Seen)
    requires s != "" && IsE(s[0]) && !seen.mark && !seen.exponent
    ensures var k := if |s| > 1 && IsSign(s[1]) then 2 else 1;
      Rest(s, seen) <==> seen.mantissa && Rest(s[k..], seen.(mark := true))
  {
    assert s[..0] == "";
    assert |s| > 1 ==> s[1..][0] == s[1] && s[1..][1..] == s[2..];
  }

  lemma OtherRest(s: string, seen: Seen)
    requires s != "" && !Digit(s[0]) && (seen.mark || (s[0] != '.' && !IsE(s[0])))
    ensures !Rest(s, seen)
  {
    if !seen.mark {
      assert s[0] in s[..FirstE(s)] by { assert s[..FirstE(s)][0] == s[0]; }
    } else {
      assert s[0] in s;
    }
  }

  /** One round of the scanner: how much it takes, and what it has then seen. */
  function Round(s: string, seen: Seen): Option<(nat, Seen)> {
    if s == "" then None
    else if s[0] == '.' && !seen.point && !seen.mark then Some((1, seen.(point := true)))
    else if IsDigit(s[0]) then
      Some((1, if seen.mark then seen.(exponent := true) else seen.(mantissa := true)))
    else if IsE(s[0]) && !seen.mark && seen.mantissa then
      Some((if |s| > 1 && IsSign(s[1]) then 2 else 1, seen.(mark := true)))
    else None
  }

  lemma RoundTaken(s: string, seen: Seen)
    ensures Round(s, seen).None? ==> NumberLength(s, seen) == (0, seen.mantissa && (seen.mark ==> seen.exponent))
    ensures Round(s, seen).Some? ==>
              var (k, next) := Round(s, seen).value;
              1 <= k <= |s| && NumberLength(s, seen) == Longer(k, NumberLength(s[k..], next))
  {
  }

  /** A round takes what a rest may begin with, and leaves a rest of what has then been seen. */
  lemma RoundRest(s: string, seen: Seen)
    requires s != ""
    requires (seen.exponent ==> seen.mark) && (seen.mark ==> seen.mantissa)
    ensures Rest(s, seen) <==>
              Round(s, seen).Some? && Rest(s[Round(s, seen).value.0..], Round(s, seen).value.1)
  {
    if s[0] == '.' && !seen.mark {
      PointRest(s, seen);
    } else if IsDigit(s[0]) {
      if !seen.mark { DigitRest(s, seen); }
      assert s == [s[0]] + s[1..];
    } else if IsE(s[0]) && !seen.mark {
      MarkRest(s, seen);
    } else {
      OtherRest(s, seen);
    }
  }

  /** The scanner takes all of s, and finds it complete, exactly if s is such a rest. */
  lemma {:induction false} WholeRest(s: string, seen: Seen)
    requires (seen.exponent ==> seen.mark) && (seen.mark ==> seen.mantissa)
    ensures NumberLength(s, seen) == (|s|, true) <==> Rest(s, seen)
  {
    RoundTaken(s, seen);
    if s == "" {
      assert s[..0] == "";
    } else {
      RoundRest(s, seen);
      if Round(s, seen).Some? {
        var (k, next) := Round(s, seen).value;
        WholeRest(s[k..], next);
      }
    }
  }

  // ---------------------------------------------------------------- whole numbers

  lemma DecimalStarts(t: string)
    requires Decimal(t)
    ensures t != "" && StartsNumber(t[0])
  {
    var u := Unsigned(t);
    var m := u[..FirstE(u)];
    assert m[0] in m && m[0] == u[0];
  }

  /** The scanner takes all of t exactly if t is a decimal number. */
  lemma WholeNumber(t: string)
    ensures t != "" && StartsNumber(t[0]) && ScanNumber(t) == Value(t, "") <==> Decimal(t)
  {
    var u := Unsigned(t);
    WholeRest(u, NOTHING_SEEN);
    if Decimal(t) { DecimalStarts(t); }
    if t != "" {
      assert u == t[if IsSign(t[0]) then 1 else 0..];
      assert t[..|t|] == t && t[|t|..] == "";
    }
  }

  // ---------------------------------------------------------------- where a number ends

  lemma SameRound(s: string, t: string, seen: Seen)
    requires s != "" && t != "" && t[0] == s[0]
    requires IsE(s[0]) ==> (|s| > 1 && IsSign(s[1]) <==> |t| > 1 && IsSign(t[1]))
    ensures Round(t, seen) == Round(s, seen)
  {
  }

  lemma TailTaken(s: string, t: string, n: nat, k: nat, x: string)
    requires 0 < k <= n <= |s| && t == s[..n] + x
    ensures t[k..] == s[k..][..n - k] + x && t[0] == s[0]
  {
  }

  /** The round that begins t is the one that begins s. */
  lemma RoundAgain(s: string, t: string, seen: Seen, x: string)
    requires Round(s, seen).Some? && t == s[..NumberLength(s, seen).0] + x
    requires x == "" || (|x| == 1 && IsDigit(x[0]))
    requires 0 < Round(s, seen).value.0 <= NumberLength(s, seen).0
    ensures Round(t, seen) == Round(s, seen)
  {
    var n := NumberLength(s, seen).0;
    assert t[0] == s[0];
    if n == 1 { assert |t| > 1 ==> t[1] == x[0]; } else { assert t[1] == s[1]; }
    SameRound(s, t, seen);
  }

  /** What is taken is taken again by itself; and if it is not complete, a digit (x) completes it. */
  lemma {:induction false} Completed(s: string, t: string, seen: Seen, x: string)
    requires (seen.exponent ==> seen.mark) && (seen.mark ==> seen.mantissa)
    requires x == "" || (|x| == 1 && IsDigit(x[0]) && !NumberLength(s, seen).1)
    requires t == s[..NumberLength(s, seen).0] + x
    ensures NumberLength(t, seen) == (|t|, NumberLength(s, seen).1 || x != "")
  {
    RoundTaken(s, seen);
    RoundTaken(t, seen);
    if Round(s, seen).Some? {
      var (k, next) := Round(s, seen).value;
      TailTaken(s, t, NumberLength(s, seen).0, k, x);
      RoundAgain(s, t, seen, x);
      Completed(s[k..], t[k..], next, x);
    } else if x != "" {
      assert t == x && t[1..] == "";
    }
  }

  /** Where the scanner stops it stops in any text that begins so. */
  lemma {:induction false} SameStop(s: string, t: string, seen: Seen)
    requires NumberLength(s, seen).0 < |s| && NumberLength(s, seen).0 < |t|
    requires forall i :: 0 <= i <= NumberLength(s, seen).0 ==> t[i] == s[i]
    ensures NumberLength(t, seen).0 == NumberLength(s, seen).0
  {
    RoundTaken(s, seen);
    RoundTaken(t, seen);
    assert t[0] == s[0];
    if Round(s, seen).Some? {
      var k := Round(s, seen).value.0;
      assert t[1] == s[1];
      forall i | 0 <= i <= NumberLength(s, seen).0 - k ensures t[k..][i] == s[k..][i] {
        assert t[i + k] == s[i + k];
      }
      SameStop(s[k..], t[k..], Round(s, seen).value.1);
    }
  }

  /** How much of s the scanner takes, the sign included. */
  function Taken(s: string): (r: (nat, bool))
    requires s != "" && StartsNumber(s[0])
    ensures r.0 <= |s|
  {
    var sign := if IsSign(s[0]) then 1 else 0;
    Longer(sign, NumberLength(s[sign..], NOTHING_SEEN))
  }

  lemma DecimalIsRest(t: string)
    ensures Decimal(t) <==> Rest(Unsigned(t), NOTHING_SEEN)
  {
  }

  lemma UnsignedPart(p: string, w: string)
    requires p == "" || (|p| == 1 && IsSign(p[0]))
    requires p == "" && w != "" ==> !IsSign(w[0])
    ensures Unsigned(p + w) == w
  {
  }

  /** w is a number after p, which is its sign if it has one, exactly if it is a rest after nothing. */
  lemma SignedRest(p: string, w: string)
    requires p == "" || (|p| == 1 && IsSign(p[0]))
    requires p == "" && w != "" ==> !IsSign(w[0])
    ensures Decimal(p + w) <==> Rest(w, NOTHING_SEEN)
  {
    UnsignedPart(p, w);
    DecimalIsRest(p + w);
  }

  lemma TakenSplit(s: string, p: string, u: string, n: nat)
    requires s != "" && StartsNumber(s[0]) && p == s[..if IsSign(s[0]) then 1 else 0] && u == s[|p|..]
    requires n == NumberLength(u, NOTHING_SEEN).0
    ensures s[..Taken(s).0] == p + u[..n]
    ensures p == "" ==> n > 0 && !IsSign(u[0])
  {
    RoundTaken(u, NOTHING_SEEN);
  }

  lemma AppendTwice(a: string, b: string, c: string)
    ensures a + (b + c) == a + b + c
  {
  }

  lemma BeginsWith(t: string, more: string, n: string)
    requires n == t + more && Decimal(n)
    ensures BeginsDecimal(t)
  {
  }

  /** What the scanner takes after the sign p, with a digit (x) where that is missing. */
  lemma TakenIsNumber(p: string, u: string, x: string, w: string)
    requires p == "" || (|p| == 1 && IsSign(p[0]))
    requires p == "" && w != "" ==> !IsSign(w[0])
    requires x == "" || (|x| == 1 && IsDigit(x[0]) && !NumberLength(u, NOTHING_SEEN).1)
    requires w == u[..NumberLength(u, NOTHING_SEEN).0] + x
    ensures Decimal(p + w) <==> NumberLength(u, NOTHING_SEEN).1 || x != ""
  {
    Completed(u, w, NOTHING_SEEN, x);
    WholeRest(w, NOTHING_SEEN);
    SignedRest(p, w);
  }

  /** What the scanner takes begins a number, and is one if the scanner finds it complete. */
  lemma TakenBegins(s: string)
    requires s != "" && StartsNumber(s[0])
    ensures BeginsDecimal(s[..Taken(s).0]) && (Decimal(s[..Taken(s).0]) <==> Taken(s).1)
  {
    var p := s[..if IsSign(s[0]) then 1 else 0];
    var u := s[|p|..];
    var (n, complete) := NumberLength(u, NOTHING_SEEN);
    var v, x := u[..n], if complete then "" else "0";
    TakenSplit(s, p, u, n);
    TakenIsNumber(p, u, "", v);
    TakenIsNumber(p, u, x, v + x);
    AppendTwice(p, v, x);
    BeginsWith(p + v, x, p + (v + x));
  }

  /** No number begins with what the scanner takes and one character more. */
  lemma TakenStops(s: string, t: string)
    requires s != "" && StartsNumber(s[0])
    requires Taken(s).0 < |s| && Taken(s).0 < |t| && t[..Taken(s).0 + 1] == s[..Taken(s).0 + 1]
    ensures !Decimal(t)
  {
    var sign := if IsSign(s[0]) then 1 else 0;
    var n := NumberLength(s[sign..], NOTHING_SEEN).0;
    forall i | 0 <= i <= sign + n ensures t[i] == s[i] {
      assert t[..sign + n + 1][i] == s[..sign + n + 1][i];
    }
    SameStop(s[sign..], t[sign..], NOTHING_SEEN);
    WholeNumber(t);
  }

  lemma PrefixPrefix(t: string, u: string, more: string)
    requires t <= u
    ensures u + more == t + (u[|t|..] + more)
  {
  }

  /** A beginning of a beginning of a number begins a number. */
  lemma BeginsEarlier(t: string, u: string)
    requires t <= u && BeginsDecimal(u)
    ensures BeginsDecimal(t)
  {
    var more :| Decimal(u + more);
    PrefixPrefix(t, u, more);
    BeginsWith(t, u[|t|..] + more, u + more);
  }

  lemma NothingLonger(s: string, t: string)
    requires s != "" && StartsNumber(s[0]) && t <= s && Taken(s).0 < |t|
    ensures !BeginsDecimal(t)
  {
    if BeginsDecimal(t) {
      var more :| Decimal(t + more);
      assert (t + more)[..Taken(s).0 + 1] == s[..Taken(s).0 + 1];
      TakenStops(s, t + more);
    }
  }

  /** The scanner takes the longest beginning of a number there is. */
  lemma TakesLongest(s: string, t: string, rest: string)
    requires s != "" && StartsNumber(s[0]) && s == t + rest
    ensures Longest(t, rest) <==> |t| == Taken(s).0
  {
    var all := s[..Taken(s).0];
    TakenBegins(s);
    if |t| < |all| {
      BeginsEarlier(t + [rest[0]], all);
    } else if |t| > |all| {
      NothingLonger(s, t);
    } else {
      assert t == all;
      if rest != "" { NothingLonger(s, t + [rest[0]]); }
    }
  }

  /** Reading a number takes the longest beginning of one, and fails exactly if that is not a number. */
  lemma NumberSplit(s: string, t: string, rest: string)
    requires s != "" && StartsNumber(s[0]) && s == t + rest
    ensures ScanNumber(s) == Value(t, rest) <==> Decimal(t) && Longest(t, rest)
    ensures Longest(t, rest) && !Decimal(t) ==> ScanNumber(s) == Unscannable(BadNumber)
  {
    TakesLongest(s, t, rest);
    TakenBegins(s);
    if |t| == Taken(s).0 {
      assert s[..|t|] == t && s[|t|..] == rest;
    }
  }
}
