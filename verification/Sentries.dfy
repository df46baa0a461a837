/** Counted sentries: `auto_resource` holding a pointer to a counter, as `increment_sentry` uses it.

    The claim that makes the counter worth reading is that it is the number of holders.  It is
    stated about an arbitrary set `all` of holders and an arbitrary counter `c`: what an operation
    does to the difference between the two, `Drift`. */
module Sentries {

  class Counter {
    var value: int

    constructor ()
      ensures value == 0
    {
      value := 0;
    }
  }

  class Sentry {
    var h: Counter?

    // Increments the counter it is made for, if there is one.
    constructor (c: Counter?)
      modifies c
      ensures h == c
      ensures c != null ==> c.value == old(c.value) + 1
    {
      h := c;
      new;
      if c != null {
        c.value := c.value + 1;
      }
    }

    constructor MovedFrom(other: Sentry)
      modifies other
      ensures h == old(other.h) && other.h == null
    {
      h := null;
      new;
      var released := other.Release();
      h := released;
    }

    method Release() returns (c: Counter?)
      modifies this
      ensures c == old(h) && h == null
    {
      c := h;
      h := null;
    }

    // `operator=`: takes the handle of `rhs` over without disposing of its own.
    method MoveAssign(rhs: Sentry)
      modifies this, rhs
      ensures h == old(rhs.h) && (rhs != this ==> rhs.h == null)
    {
      var released := rhs.Release();
      h := released;
    }

    method Dispose()
      modifies h
      ensures h != null ==> h.value == old(h.value) - 1
    {
      if h != null {
        h.value := h.value - 1;
      }
    }

    // `reset`: disposes of its own handle, then holds `c`, which is not initialized.
    method Reset(c: Counter?)
      modifies this, h
      ensures h == c
      ensures old(h) != null ==> old(h).value == old(h.value) - 1
    {
      Dispose();
      h := c;
    }

    // The destructor: the object is gone afterwards, which the cleared handle stands for.
    method Destroy()
      modifies this, h
      ensures h == null
      ensures old(h) != null ==> old(h).value == old(h.value) - 1
    {
      Dispose();
      h := null;
    }
  }

  ghost function Holders(all: set<Sentry>, c: Counter): set<Sentry>
    reads all
  {
    set s | s in all && s.h == c
  }

  // How far the counter is above the number of its holders.
  ghost function Drift(all: set<Sentry>, c: Counter): int
    reads all, c
  {
    c.value - |Holders(all, c)|
  }

  method Make(c: Counter, ghost all: set<Sentry>, ghost d: Counter) returns (s: Sentry)
    modifies c
    ensures fresh(s) && s.h == c
    ensures Drift(all + {s}, d) == old(Drift(all, d))
  {
    s := new Sentry(c);
    assert Holders(all + {s}, d) == old(Holders(all, d)) + if c == d then {s} else {};
  }

  lemma MovedHolder(holders: set<Sentry>, from: Sentry, to: Sentry)
    requires from in holders && to !in holders
    ensures |holders - {from} + {to}| == |holders|
  {
  }

  method MoveOut(other: Sentry, ghost all: set<Sentry>, ghost d: Counter) returns (s: Sentry)
    requires other in all
    modifies other
    ensures fresh(s) && s.h == old(other.h) && other.h == null
    ensures Drift(all + {s}, d) == old(Drift(all, d))
  {
    ghost var before := Holders(all, d);
    s := new Sentry.MovedFrom(other);
    if s.h == d {
      MovedHolder(before, other, s);
      assert Holders(all + {s}, d) == before - {other} + {s};
    } else {
      assert Holders(all + {s}, d) == before;
    }
  }

  method Drop(s: Sentry, ghost all: set<Sentry>, ghost d: Counter)
    requires s in all
    modifies s, s.h
    ensures s.h == null
    ensures Drift(all, d) == old(Drift(all, d))
  {
    s.Destroy();
    assert Holders(all, d) == old(Holders(all, d)) - {s};
  }

  lemma Without(holders: set<Sentry>, s: Sentry)
    ensures |holders - {s}| == |holders| - if s in holders then 1 else 0
  {
    if s !in holders { assert holders - {s} == holders; }
  }

  // Who holds the counter after an assignment, if `lhs` or `rhs` did before.
  lemma HoldersAssigned(before: set<Sentry>, after: set<Sentry>, lhs: Sentry, rhs: Sentry)
    requires lhs != rhs && rhs !in after
    requires lhs in after <==> rhs in before
    requires forall s :: s != lhs && s != rhs ==> (s in after <==> s in before)
    ensures |after| == |before| - if lhs in before then 1 else 0
  {
    assert after - {lhs} == before - {lhs} - {rhs};
    Without(after, lhs);
    Without(before, lhs);
    Without(before - {lhs}, rhs);
  }

  /** Move assignment keeps the counter equal to the number of its holders exactly when the holder
      assigned to did not hold it, or is the one assigned from.  Otherwise the count stays one too
      high for good. */
  method Assign(lhs: Sentry, rhs: Sentry, ghost all: set<Sentry>, ghost d: Counter)
    requires lhs in all && rhs in all
    modifies lhs, rhs
    ensures lhs.h == old(rhs.h) && (rhs != lhs ==> rhs.h == null)
    ensures Drift(all, d) == old(Drift(all, d)) <==> lhs == rhs || old(lhs.h) != d
    ensures Drift(all, d) != old(Drift(all, d)) ==> Drift(all, d) == old(Drift(all, d)) + 1
  {
    ghost var before := Holders(all, d);
    lhs.MoveAssign(rhs);
    if lhs == rhs {
      assert Holders(all, d) == before;
    } else {
      HoldersAssigned(before, Holders(all, d), lhs, rhs);
    }
  }

  // ------------------------------------------------------------------ whole runs

  // What a program does with sentries for one counter, which it numbers in the order of their making;
  // an operation on a sentry that was never made does nothing.
  datatype Op = Make | MoveFrom(i: nat) | Drop(i: nat) | Assign(to: nat, from: nat)

  // Which sentries hold the counter, before and after an operation.
  function After(held: seq<bool>, op: Op): seq<bool> {
    match op
    case Make => held + [true]
    case MoveFrom(i) => if i < |held| then held[i := false] + [held[i]] else held
    case Drop(i) => if i < |held| then held[i := false] else held
    case Assign(to, from) => if to < |held| && from < |held| then held[from := false][to := held[from]] else held
  }

  // An assignment to another sentry that holds the counter: the count will be one too high.
  predicate Overwrites(held: seq<bool>, op: Op) {
    op.Assign? && op.to < |held| && op.from < |held| && op.to != op.from && held[op.to]
  }

  // Which sentries hold the counter after a program, and how many of its assignments overwrote one.
  function Outcome(ops: seq<Op>): (seq<bool>, nat) {
    if ops == [] then ([], 0)
    else
      var (held, overwrites) := Outcome(ops[..|ops| - 1]);
      (After(held, ops[|ops| - 1]), overwrites + if Overwrites(held, ops[|ops| - 1]) then 1 else 0)
  }

  lemma OutcomeGrows(ops: seq<Op>, k: nat)
    requires k < |ops|
    ensures var (held, overwrites) := Outcome(ops[..k]);
      Outcome(ops[..k + 1]) == (After(held, ops[k]), overwrites + if Overwrites(held, ops[k]) then 1 else 0)
  {
    assert ops[..k + 1][..k] == ops[..k];
  }

  function Objects(all: seq<Sentry>): set<Sentry> { set s | s in all }

  // Different sentries, of which those and only those marked hold the counter.
  ghost predicate Marked(all: seq<Sentry>, c: Counter, held: seq<bool>)
    reads Objects(all)
  {
    && |all| == |held|
    && (forall i, j :: 0 <= i < j < |all| ==> all[i] != all[j])
    && forall i :: 0 <= i < |all| ==> all[i].h == if held[i] then c else null
  }

  method Perform(c: Counter, all: seq<Sentry>, op: Op, ghost held: seq<bool>) returns (after: seq<Sentry>)
    requires Marked(all, c, held)
    modifies c, Objects(all)
    ensures all <= after && (forall s :: s in after && s !in all ==> fresh(s))
    ensures Marked(after, c, After(held, op))
    ensures Drift(Objects(after), c) == old(Drift(Objects(all), c)) + (if Overwrites(held, op) then 1 else 0)
  {
    after := all;
    if op.Make? {
      var s := Make(c, Objects(all), c);
      after := all + [s];
      assert Objects(after) == Objects(all) + {s};
    } else if op.MoveFrom? && op.i < |all| {
      var s := MoveOut(all[op.i], Objects(all), c);
      after := all + [s];
      assert Objects(after) == Objects(all) + {s};
    } else if op.Drop? && op.i < |all| {
      Drop(all[op.i], Objects(all), c);
    } else if op.Assign? && op.to < |all| && op.from < |all| {
      Assign(all[op.to], all[op.from], Objects(all), c);
    }
  }

  function Trues(held: seq<bool>): nat {
    if held == [] then 0 else Trues(held[..|held| - 1]) + if held[|held| - 1] then 1 else 0
  }

  lemma {:induction false} MarkedHolders(all: seq<Sentry>, c: Counter, held: seq<bool>)
    requires Marked(all, c, held)
    ensures |Holders(Objects(all), c)| == Trues(held)
  {
    if all == [] {
      assert Holders(Objects(all), c) == {};
    } else {
      var n := |all| - 1;
      MarkedHolders(all[..n], c, held[..n]);
      assert Objects(all) == Objects(all[..n]) + {all[n]};
      assert all[n] !in Objects(all[..n]);
      assert Holders(Objects(all), c) == Holders(Objects(all[..n]), c) + if held[n] then {all[n]} else {};
    }
  }

  /** Any program: the sentries that hold the counter are those its operations leave holding it, and
      the counter has grown by their number and by one for every assignment that overwrote one. */
  method RunAll(c: Counter, ops: seq<Op>) returns (all: seq<Sentry>)
    modifies c
    ensures forall s :: s in all ==> fresh(s)
    ensures Marked(all, c, Outcome(ops).0)
    ensures c.value == old(c.value) + |Holders(Objects(all), c)| + Outcome(ops).1
    ensures c.value == old(c.value) + Trues(Outcome(ops).0) + Outcome(ops).1
  {
    all := [];
    assert Holders(Objects(all), c) == {};
    for k := 0 to |ops|
      invariant forall s :: s in all ==> fresh(s)
      invariant Marked(all, c, Outcome(ops[..k]).0)
      invariant Drift(Objects(all), c) == old(c.value) + Outcome(ops[..k]).1
    {
      OutcomeGrows(ops, k);
      all := Perform(c, all, ops[k], Outcome(ops[..k]).0);
    }
    assert ops[..|ops|] == ops;
    MarkedHolders(all, c, Outcome(ops).0);
  }

  // Operation k of a program overwrites a holder.
  predicate OverwritesAt(ops: seq<Op>, k: nat)
    requires k < |ops|
  {
    Overwrites(Outcome(ops[..k]).0, ops[k])
  }

  lemma OverwritesBefore(ops: seq<Op>, n: nat, k: nat)
    requires k < n <= |ops|
    ensures OverwritesAt(ops[..n], k) == OverwritesAt(ops, k)
  {
    assert ops[..n][..k] == ops[..k];
  }

  /** The counter is the number of its holders after every part of a program exactly if no assignment
      overwrites another holder. */
  lemma {:induction false} CountIsRight(ops: seq<Op>)
    ensures Outcome(ops).1 == 0 <==> forall k: nat :: k < |ops| ==> !OverwritesAt(ops, k)
  {
    if ops != [] {
      var n := |ops| - 1;
      CountIsRight(ops[..n]);
      forall k: nat | k < n { OverwritesBefore(ops, n, k); }
      assert Outcome(ops).1 == Outcome(ops[..n]).1 + if OverwritesAt(ops, n) then 1 else 0;
    }
  }

  /** The shortest program that breaks it: two sentries on one counter, one assigned to the other, both
      destroyed.  Nobody holds the counter, and it is 1. */
  method LeakOne() returns (c: Counter)
    ensures fresh(c) && c.value == 1
  {
    c := new Counter();
    var a := new Sentry(c);
    var b := new Sentry(c);
    b.MoveAssign(a);
    a.Destroy();
    b.Destroy();
  }

  /** The way of a connection's sentry: a temporary, the constructor's parameter, the member of the
      function object, and the copy of that in the thread.  The three it leaves behind are
      destroyed, and the thread's copy is the one holder. */
  method HandOver(c: Counter) returns (inThread: Sentry)
    modifies c
    ensures fresh(inThread) && inThread.h == c && c.value == old(c.value) + 1
  {
    var temporary := new Sentry(c);
    var parameter := new Sentry.MovedFrom(temporary);
    var member := new Sentry.MovedFrom(parameter);
    parameter.Destroy();
    temporary.Destroy();
    inThread := new Sentry.MovedFrom(member);
    member.Destroy();
  }

  /** If the thread cannot be started its copy is destroyed as well, and the count is what it was. */
  method HandOverFails(c: Counter)
    modifies c
    ensures c.value == old(c.value)
  {
    var inThread := HandOver(c);
    inThread.Destroy();
  }
}
