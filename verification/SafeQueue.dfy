/**
 The multi-producer, multi-consumer blocking queue: one mutex, two condition variables, and
 notifications issued after the mutex has been released.

 The protocol is a transition system.  Any number of threads run push() and pop(); every region
 of those two functions that executes without interruption is one labelled step.  Class Queue
 gives the same regions in imperative form.
 */
module SafeQueue {
  import opened Counting
  import opened Results

  /** Where a thread stands.  Push* and Pop* are positions inside push() and pop():
      Lock    wants the mutex for the first time
      Hold    owns the mutex and is about to test the loop condition
      Wait    sleeps in the wait set of a condition variable
      Woken   has left the wait set and wants the mutex back
      Done    has moved its element and still owns the mutex
      Notify  has released the mutex and has yet to notify. */
  datatype Pc =
    | Idle
    | PushLock | PushHold | PushWait | PushWoken | PushDone | PushNotify
    | PopLock | PopHold | PopWait | PopWoken | PopDone | PopNotify

  /** bound is None for an unbounded queue.  reg[t] is the argument of t's push() until it is
      enqueued, or the element t's pop() has taken until it is returned.  The last six fields
      record what happened: elements in the order in which they were pushed and popped under the
      lock and by whom, and for each thread what it passed to push() and got from pop(). */
  datatype State<T> = State(
    bound: Option<nat>,
    q: seq<T>,
    owner: Option<nat>,
    pc: seq<Pc>,
    reg: seq<Option<T>>,
    pushed: seq<T>,
    pushedBy: seq<nat>,
    popped: seq<T>,
    poppedBy: seq<nat>,
    issued: seq<seq<T>>,
    received: seq<seq<T>>)

  datatype Step<T> =
    | CallPush(t: nat, x: T)
    | CallPop(t: nat)
    | Acquire(t: nat)
    | Try(t: nat)                        // loop test, then either wait() or the queue operation
    | Unlock(t: nat)
    | Notify(t: nat, wake: Option<nat>)  // notify_one() and return to the caller
    | Spurious(t: nat)

  predicate Holding(p: Pc) { p in {PushHold, PushDone, PopHold, PopDone} }

  predicate WantsLock(p: Pc) { p in {PushLock, PushWoken, PopLock, PopWoken} }

  predicate Waiting(p: Pc) { p == PushWait || p == PopWait }

  /** In push(), element not yet enqueued. */
  predicate PrePush(p: Pc) { p in {PushLock, PushHold, PushWait, PushWoken} }

  /** In pop(), element taken but not yet returned. */
  predicate PostPop(p: Pc) { p == PopDone || p == PopNotify }

  predicate InPush(p: Pc) { PrePush(p) || p == PushDone || p == PushNotify }

  predicate PrePop(p: Pc) { p in {PopLock, PopHold, PopWait, PopWoken} }

  predicate InPop(p: Pc) { PrePop(p) || PostPop(p) }

  predicate Full<T>(s: State<T>) { s.bound.Some? && |s.q| == s.bound.value }

  /** The wait set that a thread at p notifies, if it notifies one. */
  function Target<T>(s: State<T>, p: Pc): Option<Pc> {
    if p == PushNotify then Some(PopWait)
    else if p == PopNotify && s.bound.Some? then Some(PushWait)
    else None
  }

  function Woken(p: Pc): Pc { if p == PushWait then PushWoken else PopWoken }

  predicate Enabled<T>(s: State<T>, a: Step<T>) {
    && a.t < |s.pc|
    && match a
       case CallPush(t, _) => s.pc[t] == Idle
       case CallPop(t) => s.pc[t] == Idle
       case Acquire(t) => WantsLock(s.pc[t]) && s.owner == None
       case Try(t) => s.pc[t] == PushHold || s.pc[t] == PopHold
       case Unlock(t) => s.pc[t] == PushDone || s.pc[t] == PopDone
       case Notify(t, wake) =>
         && (s.pc[t] == PushNotify || s.pc[t] == PopNotify)
         && var target := Target(s, s.pc[t]);
            if target == None || target.value !in s.pc then wake == None
            else wake.Some? && wake.value < |s.pc| && s.pc[wake.value] == target.value
       case Spurious(t) => Waiting(s.pc[t])
  }

  ghost predicate Shape<T>(s: State<T>) {
    && |s.reg| == |s.issued| == |s.received| == |s.pc|
    && |s.pushedBy| == |s.pushed|
    && |s.poppedBy| == |s.popped|
  }

  /** PushHold or PopHold: the loop condition sends t to sleep, releasing the mutex, or lets it
      move its element. */
  function TryStep<T>(s: State<T>, t: nat): State<T>
    requires Shape(s) && t < |s.pc| && (s.pc[t] == PushHold ==> s.reg[t].Some?)
  {
    if s.pc[t] == PushHold then
      if Full(s) then s.(pc := s.pc[t := PushWait], owner := None)
      else
        var x := s.reg[t].value;
        s.(pc := s.pc[t := PushDone], q := s.q + [x],
           pushed := s.pushed + [x], pushedBy := s.pushedBy + [t])
    else
      if s.q == [] then s.(pc := s.pc[t := PopWait], owner := None)
      else
        s.(pc := s.pc[t := PopDone], q := s.q[1..], reg := s.reg[t := Some(s.q[0])],
           popped := s.popped + [s.q[0]], poppedBy := s.poppedBy + [t])
  }

  /** The call returns; a popper hands out its element. */
  function ReturnStep<T>(s: State<T>, t: nat): State<T>
    requires Shape(s) && t < |s.pc| && (s.pc[t] == PopNotify ==> s.reg[t].Some?)
  {
    s.(pc := s.pc[t := Idle],
       received := if s.pc[t] == PopNotify
                   then s.received[t := s.received[t] + [s.reg[t].value]] else s.received)
  }

  function WakeStep<T>(s: State<T>, t: nat): State<T>
    requires t < |s.pc|
  {
    s.(pc := s.pc[t := Woken(s.pc[t])])
  }

  ghost predicate RegOk<T>(s: State<T>)
    requires Shape(s)
  {
    forall t :: 0 <= t < |s.pc| && (PrePush(s.pc[t]) || PostPop(s.pc[t])) ==> s.reg[t].Some?
  }

  ghost function Do<T>(s: State<T>, a: Step<T>): State<T>
    requires Shape(s) && RegOk(s) && Enabled(s, a)
  {
    match a
    case CallPush(t, x) =>
      s.(pc := s.pc[t := PushLock], reg := s.reg[t := Some(x)],
         issued := s.issued[t := s.issued[t] + [x]])
    case CallPop(t) => s.(pc := s.pc[t := PopLock])
    case Acquire(t) =>
      s.(pc := s.pc[t := if s.pc[t] == PushLock || s.pc[t] == PushWoken then PushHold else PopHold],
         owner := Some(t))
    case Try(t) => TryStep(s, t)
    case Unlock(t) =>
      s.(pc := s.pc[t := if s.pc[t] == PushDone then PushNotify else PopNotify], owner := None)
    case Notify(t, wake) =>
      var returned := ReturnStep(s, t);
      if wake == None then returned else WakeStep(returned, wake.value)
    case Spurious(t) => WakeStep(s, t)
  }

  /** A queue no thread has used yet. */
  function Init<T>(bound: Option<nat>, threads: nat): State<T> {
    State(bound, [], None, seq(threads, _ => Idle), seq(threads, _ => None), [], [], [], [],
          seq(threads, _ => []), seq(threads, _ => []))
  }

  // ---------------------------------------------------------------- invariants

  /** The elements of xs that thread t contributed, in order. */
  function By<T>(who: seq<nat>, xs: seq<T>, t: nat): seq<T>
    requires |who| == |xs|
  {
    if xs == [] then []
    else
      var n := |xs| - 1;
      By(who[..n], xs[..n], t) + if who[n] == t then [xs[n]] else []
  }

  /** The mutex excludes: exactly its owner is inside a critical section. */
  ghost predicate Exclusive<T>(s: State<T>) {
    && (s.owner.Some? ==> s.owner.value < |s.pc|)
    && forall t :: 0 <= t < |s.pc| ==> (Holding(s.pc[t]) <==> s.owner == Some(t))
  }

  /** What was popped, followed by what is queued, is what was pushed; and the queue respects its
      bound although the code tests only for equality with it. */
  ghost predicate Linear<T>(s: State<T>) {
    && s.popped + s.q == s.pushed
    && (s.bound.Some? ==> 1 <= s.bound.value && |s.q| <= s.bound.value)
    && (s.bound.None? ==> PushWait !in s.pc && PushWoken !in s.pc)
  }

  ghost predicate OrderedFor<T>(s: State<T>, t: nat)
    requires Shape(s) && RegOk(s) && t < |s.pc|
  {
    && By(s.pushedBy, s.pushed, t) + (if PrePush(s.pc[t]) then [s.reg[t].value] else []) == s.issued[t]
    && s.received[t] + (if PostPop(s.pc[t]) then [s.reg[t].value] else []) == By(s.poppedBy, s.popped, t)
  }

  /** Each thread's elements are pushed in its program order, and each thread is handed exactly
      the elements it took. */
  ghost predicate Ordered<T>(s: State<T>)
    requires Shape(s) && RegOk(s)
  {
    forall t :: 0 <= t < |s.pc| ==> OrderedFor(s, t)
  }

  /** How many threads are at each position. */
  type Tally = Pc -> nat

  ghost function TallyOf(pc: seq<Pc>): Tally { p => Count(pc, p) }

  /** Pushers that have enqueued but not yet notified, and poppers that will look at the queue
      again without being notified. */
  ghost function PopCredit(c: Tally): nat {
    c(PushDone) + c(PushNotify) + c(PopLock) + c(PopHold) + c(PopWoken)
  }

  ghost function PushCredit(c: Tally): nat {
    c(PopDone) + c(PopNotify) + c(PushLock) + c(PushHold) + c(PushWoken)
  }

  /** No wakeup is lost: elements never outnumber those who will still see to them while a popper
      sleeps, and likewise free slots while a pusher sleeps. */
  ghost predicate Attended(bound: Option<nat>, length: nat, c: Tally) {
    && (c(PopWait) > 0 ==> length <= PopCredit(c))
    && (c(PushWait) > 0 && bound.Some? ==> bound.value - length <= PushCredit(c))
  }

  ghost predicate NoLostWakeup<T>(s: State<T>) { Attended(s.bound, |s.q|, TallyOf(s.pc)) }

  ghost predicate Inv<T>(s: State<T>) {
    Shape(s) && RegOk(s) && Exclusive(s) && Linear(s) && Ordered(s) && NoLostWakeup(s)
  }

  // ---------------------------------------------------------------- every step keeps them

  ghost predicate Mutex<T>(s: State<T>) { Shape(s) && RegOk(s) && Exclusive(s) }

  lemma TryKeepsMutex<T>(s: State<T>, t: nat)
    requires Mutex(s) && Enabled(s, Try(t))
    ensures Mutex(TryStep(s, t))
  {
  }

  lemma NotifyKeepsMutex<T>(s: State<T>, t: nat, wake: Option<nat>)
    requires Mutex(s) && Enabled(s, Notify(t, wake))
    ensures Mutex(ReturnStep(s, t))
    ensures wake.Some? ==> Mutex(WakeStep(ReturnStep(s, t), wake.value))
  {
  }

  lemma AcquireKeepsMutex<T>(s: State<T>, t: nat)
    requires Mutex(s) && Enabled<T>(s, Acquire(t))
    ensures Mutex(Do<T>(s, Acquire(t)))
  {
  }

  lemma StepKeepsMutex<T>(s: State<T>, a: Step<T>)
    requires Mutex(s) && Enabled(s, a)
    ensures Mutex(Do(s, a))
  {
    match a
    case Try(t) => TryKeepsMutex(s, t);
    case Notify(t, wake) => NotifyKeepsMutex(s, t, wake);
    case Acquire(t) => AcquireKeepsMutex(s, t);
    case _ =>
  }

  lemma NeverWaitsUnbounded<T>(s: State<T>, a: Step<T>)
    requires Shape(s) && RegOk(s) && Linear(s) && Enabled(s, a) && s.bound.None?
    ensures PushWait !in Do(s, a).pc && PushWoken !in Do(s, a).pc
  {
    var s' := Do(s, a);
    forall t | 0 <= t < |s'.pc| ensures s'.pc[t] != PushWait && s'.pc[t] != PushWoken {
      assert s.pc[t] in s.pc;
    }
  }

  lemma TryKeepsLinear<T>(s: State<T>, t: nat)
    requires Shape(s) && RegOk(s) && Linear(s) && Enabled(s, Try(t))
    ensures var s' := TryStep(s, t); s'.popped + s'.q == s'.pushed && (s.bound.Some? ==> |s'.q| <= s.bound.value)
  {
    if s.pc[t] == PushHold && !Full(s) {
      assert s.popped + (s.q + [s.reg[t].value]) == s.pushed + [s.reg[t].value];
    }
  }

  lemma StepKeepsLinear<T>(s: State<T>, a: Step<T>)
    requires Shape(s) && RegOk(s) && Linear(s) && Enabled(s, a)
    ensures Linear(Do(s, a))
  {
    if s.bound.None? { NeverWaitsUnbounded(s, a); }
    if a.Try? { TryKeepsLinear(s, a.t); }
  }

  lemma BySnoc<T>(who: seq<nat>, xs: seq<T>, u: nat, x: T, t: nat)
    requires |who| == |xs|
    ensures By(who + [u], xs + [x], t) == By(who, xs, t) + if u == t then [x] else []
  {
    assert (who + [u])[..|xs|] == who && (xs + [x])[..|xs|] == xs;
  }

  lemma TryPushKeepsOrdered<T>(s: State<T>, u: nat, t: nat)
    requires Shape(s) && RegOk(s) && t < |s.pc| && OrderedFor(s, t) && u < |s.pc| && s.pc[u] == PushHold
    requires Shape(TryStep(s, u)) && RegOk(TryStep(s, u))
    ensures OrderedFor(TryStep(s, u), t)
  {
    if !Full(s) { BySnoc(s.pushedBy, s.pushed, u, s.reg[u].value, t); }
  }

  lemma TryPopKeepsOrdered<T>(s: State<T>, u: nat, t: nat)
    requires Shape(s) && RegOk(s) && t < |s.pc| && OrderedFor(s, t) && u < |s.pc| && s.pc[u] == PopHold
    requires Shape(TryStep(s, u)) && RegOk(TryStep(s, u))
    ensures OrderedFor(TryStep(s, u), t)
  {
    if s.q != [] { BySnoc(s.poppedBy, s.popped, u, s.q[0], t); }
  }

  lemma NotifyKeepsOrdered<T>(s: State<T>, u: nat, wake: Option<nat>, t: nat)
    requires Shape(s) && RegOk(s) && t < |s.pc| && OrderedFor(s, t) && Enabled(s, Notify(u, wake))
    requires Shape(Do(s, Notify(u, wake))) && RegOk(Do(s, Notify(u, wake)))
    ensures OrderedFor(Do(s, Notify(u, wake)), t)
  {
  }

  lemma OtherKeepsOrdered<T>(s: State<T>, a: Step<T>, t: nat)
    requires Shape(s) && RegOk(s) && t < |s.pc| && OrderedFor(s, t) && Enabled(s, a) && !a.Try? && !a.Notify?
    requires Shape(Do(s, a)) && RegOk(Do(s, a))
    ensures OrderedFor(Do(s, a), t)
  {
  }

  lemma StepKeepsOrdered<T>(s: State<T>, a: Step<T>, t: nat)
    requires Shape(s) && RegOk(s) && t < |s.pc| && OrderedFor(s, t) && Enabled(s, a)
    requires Shape(Do(s, a)) && RegOk(Do(s, a))
    ensures OrderedFor(Do(s, a), t)
  {
    match a
    case Try(u) => if s.pc[u] == PushHold { TryPushKeepsOrdered(s, u, t); } else { TryPopKeepsOrdered(s, u, t); }
    case Notify(u, wake) => NotifyKeepsOrdered(s, u, wake, t);
    case _ => OtherKeepsOrdered(s, a, t);
  }

  ghost predicate Moved(c: Tally, c': Tally, from: Pc, to: Pc) {
    && c(from) >= 1
    && forall x :: c'(x) == c(x) - (if from == x then 1 else 0) + (if to == x then 1 else 0)
  }

  lemma TallyAfter(pc: seq<Pc>, t: nat, p: Pc)
    requires t < |pc|
    ensures Moved(TallyOf(pc), TallyOf(pc[t := p]), pc[t], p)
  {
    forall x { CountUpdate(pc, t, p, x); }
    CountUpdate(pc, t, p, pc[t]);
  }

  /** Where the loop test leads: back to sleep, or past the queue operation. */
  predicate Tries(bound: Option<nat>, n: int, n': int, from: Pc, to: Pc) {
    || (from == PushHold && to == PushWait && bound == Some(n) && n' == n)
    || (from == PushHold && to == PushDone && n' == n + 1)
    || (from == PopHold && to == PopWait && n == n' == 0)
    || (from == PopHold && to == PopDone && n' == n - 1)
  }

  lemma TryAttends(bound: Option<nat>, n: nat, n': nat, c: Tally, c': Tally, from: Pc, to: Pc)
    requires Attended(bound, n, c) && Moved(c, c', from, to) && Tries(bound, n, n', from, to)
    ensures Attended(bound, n', c')
  {
  }

  lemma PopperWoken(c: Tally, c': Tally, c'': Tally)
    requires Moved(c, c', PushNotify, Idle) && Moved(c', c'', PopWait, PopWoken)
    ensures PopCredit(c'') == PopCredit(c) && PushCredit(c'') == PushCredit(c)
    ensures c''(PopWait) <= c(PopWait) && c''(PushWait) == c(PushWait)
  {
  }

  lemma PusherWoken(c: Tally, c': Tally, c'': Tally)
    requires Moved(c, c', PopNotify, Idle) && Moved(c', c'', PushWait, PushWoken)
    ensures PopCredit(c'') == PopCredit(c) && PushCredit(c'') == PushCredit(c)
    ensures c''(PopWait) == c(PopWait) && c''(PushWait) <= c(PushWait)
  {
  }

  /** A notification wakes a sleeper: the notifier's credit passes to it. */
  lemma WakeAttends(bound: Option<nat>, n: nat, c: Tally, c': Tally, c'': Tally, from: Pc, sleeper: Pc)
    requires Attended(bound, n, c) && Moved(c, c', from, Idle) && Moved(c', c'', sleeper, Woken(sleeper))
    requires (from == PushNotify && sleeper == PopWait) || (from == PopNotify && sleeper == PushWait)
    ensures Attended(bound, n, c'')
  {
    if from == PushNotify { PopperWoken(c, c', c''); } else { PusherWoken(c, c', c''); }
  }

  /** Or nobody of that kind sleeps. */
  lemma NoSleeperAttends(bound: Option<nat>, n: nat, c: Tally, c': Tally, from: Pc)
    requires Attended(bound, n, c) && Moved(c, c', from, Idle)
    requires || (from == PushNotify && c'(PopWait) == 0)
             || (from == PopNotify && (bound.None? || c'(PushWait) == 0))
    ensures Attended(bound, n, c')
  {
  }

  lemma TryTries<T>(s: State<T>, t: nat)
    requires Shape(s) && RegOk(s) && Linear(s) && Enabled(s, Try(t))
    ensures var s' := TryStep(s, t);
            s'.pc == s.pc[t := s'.pc[t]] && s'.bound == s.bound && Tries(s.bound, |s.q|, |s'.q|, s.pc[t], s'.pc[t])
  {
  }

  lemma TryKeepsWakeups<T>(s: State<T>, s': State<T>, t: nat, to: Pc)
    requires t < |s.pc| && NoLostWakeup(s)
    requires s'.pc == s.pc[t := to] && s'.bound == s.bound && Tries(s.bound, |s.q|, |s'.q|, s.pc[t], to)
    ensures NoLostWakeup(s')
  {
    TallyAfter(s.pc, t, to);
    TryAttends(s.bound, |s.q|, |s'.q|, TallyOf(s.pc), TallyOf(s'.pc), s.pc[t], to);
  }

  lemma WakeKeepsWakeups<T>(s: State<T>, t: nat, w: nat)
    requires Shape(s) && RegOk(s) && NoLostWakeup(s) && Enabled(s, Notify(t, Some(w)))
    ensures NoLostWakeup(WakeStep(ReturnStep(s, t), w))
  {
    var pc := s.pc[t := Idle];
    TallyAfter(s.pc, t, Idle);
    TallyAfter(pc, w, Woken(pc[w]));
    WakeAttends(s.bound, |s.q|, TallyOf(s.pc), TallyOf(pc), TallyOf(pc[w := Woken(pc[w])]), s.pc[t], pc[w]);
  }

  lemma NoSleeperKeepsWakeups(bound: Option<nat>, n: nat, pc: seq<Pc>, t: nat)
    requires t < |pc| && Attended(bound, n, TallyOf(pc))
    requires || (pc[t] == PushNotify && PopWait !in pc)
             || (pc[t] == PopNotify && (bound.None? || PushWait !in pc))
    ensures Attended(bound, n, TallyOf(pc[t := Idle]))
  {
    var pc' := pc[t := Idle];
    TallyAfter(pc, t, Idle);
    CountZero(pc', PopWait);
    CountZero(pc', PushWait);
    NoSleeperAttends(bound, n, TallyOf(pc), TallyOf(pc'), pc[t]);
  }

  lemma OtherAttends(bound: Option<nat>, n: nat, c: Tally, c': Tally, from: Pc, to: Pc)
    requires Attended(bound, n, c) && Moved(c, c', from, to)
    requires || (from == Idle && (to == PushLock || to == PopLock))
             || (from in {PushLock, PushWoken} && to == PushHold)
             || (from in {PopLock, PopWoken} && to == PopHold)
             || (from == PushDone && to == PushNotify) || (from == PopDone && to == PopNotify)
             || (from == PushWait && to == PushWoken) || (from == PopWait && to == PopWoken)
    ensures Attended(bound, n, c')
  {
  }

  lemma OtherKeepsWakeups<T>(s: State<T>, a: Step<T>)
    requires Shape(s) && RegOk(s) && NoLostWakeup(s) && Enabled(s, a) && !a.Try? && !a.Notify?
    ensures NoLostWakeup(Do(s, a))
  {
    var s', t := Do(s, a), a.t;
    TallyAfter(s.pc, t, s'.pc[t]);
    OtherAttends(s.bound, |s.q|, TallyOf(s.pc), TallyOf(s'.pc), s.pc[t], s'.pc[t]);
  }

  lemma StepKeepsInv<T>(s: State<T>, a: Step<T>)
    requires Inv(s) && Enabled(s, a)
    ensures Inv(Do(s, a))
  {
    StepKeepsMutex(s, a);
    StepKeepsLinear(s, a);
    forall t: nat | t < |s.pc| { StepKeepsOrdered(s, a, t); }
    match a
    case Try(t) =>
      TryTries(s, t);
      TryKeepsWakeups(s, TryStep(s, t), t, TryStep(s, t).pc[t]);
    case Notify(t, None) => NoSleeperKeepsWakeups(s.bound, |s.q|, s.pc, t);
    case Notify(t, Some(w)) => WakeKeepsWakeups(s, t, w);
    case _ => OtherKeepsWakeups(s, a);
  }

  // ---------------------------------------------------------------- whole runs

  /** run leads from s to s'. */
  ghost predicate Runs<T>(s: State<T>, run: seq<Step<T>>, s': State<T>)
    decreases |run|
  {
    if run == [] then s' == s
    else Shape(s) && RegOk(s) && Enabled(s, run[0]) && Runs(Do(s, run[0]), run[1..], s')
  }

  ghost predicate Reachable<T(!new)>(bound: Option<nat>, threads: nat, s: State<T>) {
    exists run :: Runs(Init(bound, threads), run, s)
  }

  lemma InitInv<T>(bound: Option<nat>, threads: nat)
    requires bound.Some? ==> 1 <= bound.value
    ensures Inv<T>(Init(bound, threads))
  {
    var s := Init<T>(bound, threads);
    CountZero(s.pc, PopWait);
    CountZero(s.pc, PushWait);
  }

  lemma {:induction false} RunKeepsInv<T>(s: State<T>, run: seq<Step<T>>, s': State<T>)
    requires Inv(s) && Runs(s, run, s')
    ensures Inv(s')
    decreases |run|
  {
    if run != [] {
      StepKeepsInv(s, run[0]);
      RunKeepsInv(Do(s, run[0]), run[1..], s');
    }
  }

  lemma ReachableInv<T(!new)>(bound: Option<nat>, threads: nat, s: State<T>)
    requires bound.Some? ==> 1 <= bound.value
    requires Reachable(bound, threads, s)
    ensures Inv(s)
  {
    var run :| Runs(Init<T>(bound, threads), run, s);
    InitInv<T>(bound, threads);
    RunKeepsInv(Init(bound, threads), run, s);
  }

  lemma {:induction false} ByPrefix<T>(who: seq<nat>, xs: seq<T>, k: nat, t: nat)
    requires |who| == |xs| && k <= |xs|
    ensures By(who[..k], xs[..k], t) <= By(who, xs, t)
  {
    if k < |xs| {
      var n := |xs| - 1;
      ByPrefix(who[..n], xs[..n], k, t);
      assert who[..n][..k] == who[..k] && xs[..n][..k] == xs[..k];
    } else {
      assert who[..k] == who && xs[..k] == xs;
    }
  }

  /** In every reachable state the queue is a FIFO between the order in which elements were pushed
      under the lock and the order in which they were popped; it is within its bound; and what has
      been popped of a producer's elements is an initial part of that producer's own sequence. */
  lemma Linearizable<T(!new)>(bound: Option<nat>, threads: nat, s: State<T>, producer: nat)
    requires bound.Some? ==> 1 <= bound.value
    requires Reachable(bound, threads, s) && producer < |s.pc|
    ensures s.popped + s.q == s.pushed && |s.pushedBy| == |s.pushed| && |s.issued| == |s.pc|
    ensures s.bound.Some? ==> |s.q| <= s.bound.value
    ensures By(s.pushedBy[..|s.popped|], s.popped, producer) <= s.issued[producer]
  {
    ReachableInv(bound, threads, s);
    assert OrderedFor(s, producer);
    ByPrefix(s.pushedBy, s.pushed, |s.popped|, producer);
    assert s.pushed[..|s.popped|] == s.popped;
  }

  // ---------------------------------------------------------------- progress

  /** Steps of calls in progress that owe nothing to chance. */
  predicate Internal<T>(a: Step<T>) { a.Acquire? || a.Try? || a.Unlock? || a.Notify? }

  predicate AtRest(p: Pc) { p == Idle || Waiting(p) }

  /** Every thread is outside the queue or asleep in it. */
  predicate Quiescent<T>(s: State<T>) { forall t :: 0 <= t < |s.pc| ==> AtRest(s.pc[t]) }

  ghost predicate CanMove<T(!new)>(s: State<T>) { exists a: Step<T> :: Internal(a) && Enabled(s, a) }

  lemma NotifyEnabled<T(!new)>(s: State<T>, t: nat)
    requires t < |s.pc| && (s.pc[t] == PushNotify || s.pc[t] == PopNotify)
    ensures CanMove(s)
  {
    var target := Target(s, s.pc[t]);
    if target.Some? && target.value in s.pc {
      var w: nat :| w < |s.pc| && s.pc[w] == target.value;
      assert Enabled(s, Notify(t, Some(w))) && Internal<T>(Notify(t, Some(w)));
    } else {
      assert Enabled(s, Notify(t, None)) && Internal<T>(Notify(t, None));
    }
  }

  /** While some thread is neither outside nor asleep, some call can go on: the mutex is never the
      obstacle. */
  lemma BusyThreadOrOwnerCanMove<T(!new)>(s: State<T>, t: nat)
    requires Inv(s) && t < |s.pc| && !AtRest(s.pc[t])
    ensures CanMove(s)
  {
    var u := if s.owner.Some? then s.owner.value else t;
    if s.pc[u] == PushHold || s.pc[u] == PopHold {
      assert Enabled(s, Try(u)) && Internal<T>(Try(u));
    } else if s.pc[u] == PushDone || s.pc[u] == PopDone {
      assert Enabled(s, Unlock(u)) && Internal<T>(Unlock(u));
    } else if s.pc[u] == PushNotify || s.pc[u] == PopNotify {
      NotifyEnabled(s, u);
    } else {
      assert Enabled(s, Acquire(u)) && Internal<T>(Acquire(u));
    }
  }

  lemma NobodyAttends(bound: Option<nat>, n: nat, c: Tally)
    requires Attended(bound, n, c) && forall p :: !AtRest(p) ==> c(p) == 0
    ensures c(PopWait) > 0 ==> n == 0
    ensures c(PushWait) > 0 && bound.Some? ==> n >= bound.value
  {
  }

  lemma QuiescentCounts<T>(s: State<T>)
    requires Linear(s) && NoLostWakeup(s) && Quiescent(s)
    ensures PopWait in s.pc ==> s.q == []
    ensures PushWait in s.pc ==> Full(s)
  {
    var c := TallyOf(s.pc);
    forall p ensures c(p) == 0 <==> p !in s.pc { CountZero(s.pc, p); }
    NobodyAttends(s.bound, |s.q|, c);
  }

  /** What the outside decides it decides freely: a thread outside the queue may call push() with any
      element, or pop(), whatever the queue holds and the others do; a sleeper may wake by itself; and
      a notification may choose any thread in the wait set. */
  lemma CallersAreFree<T>(s: State<T>, t: nat, x: T, u: nat)
    requires t < |s.pc| && u < |s.pc|
    ensures s.pc[t] == Idle ==> Enabled(s, CallPush(t, x)) && Enabled<T>(s, CallPop(t))
    ensures Waiting(s.pc[t]) ==> Enabled<T>(s, Spurious(t))
    ensures s.pc[t] == PushNotify && s.pc[u] == PopWait ==> Enabled<T>(s, Notify(t, Some(u)))
    ensures s.pc[t] == PopNotify && s.pc[u] == PushWait && s.bound.Some? ==> Enabled<T>(s, Notify(t, Some(u)))
  {
  }

  /** No deadlock and no lost wakeup, for any number of threads and any bound: a reachable state in
      which no call can go on by itself is one in which every thread is outside the queue or
      asleep, a popper sleeps only on an empty queue and a pusher only on a full one; so poppers
      and pushers never sleep together. */
  lemma StuckOnlyForAReason<T(!new)>(bound: Option<nat>, threads: nat, s: State<T>)
    requires bound.Some? ==> 1 <= bound.value
    requires Reachable(bound, threads, s) && !CanMove(s)
    ensures Quiescent(s)
    ensures PopWait in s.pc ==> s.q == []
    ensures PushWait in s.pc ==> Full(s)
    ensures !(PopWait in s.pc && PushWait in s.pc)
  {
    ReachableInv(bound, threads, s);
    forall t | 0 <= t < |s.pc| ensures AtRest(s.pc[t]) {
      if !AtRest(s.pc[t]) { BusyThreadOrOwnerCanMove(s, t); }
    }
    QuiescentCounts(s);
  }

  /** What a thread at p may still cost, counting the thread its notification may wake. */
  function Weight(p: Pc): nat {
    match p
    case Idle => 0
    case PushNotify | PopNotify => 3
    case PushDone | PopDone => 4
    case PushWait | PopWait => 4
    case PushHold | PopHold => 5
    case PushLock | PushWoken | PopLock | PopWoken => 6
  }

  function Work(pc: seq<Pc>): nat {
    if pc == [] then 0 else Work(pc[..|pc| - 1]) + Weight(pc[|pc| - 1])
  }

  lemma {:induction false} WorkAfter(pc: seq<Pc>, t: nat, p: Pc)
    requires t < |pc|
    ensures Work(pc[t := p]) == Work(pc) - Weight(pc[t]) + Weight(p)
  {
    var n := |pc| - 1;
    if t == n {
      assert pc[t := p][..n] == pc[..n];
    } else {
      assert pc[t := p][..n] == pc[..n][t := p];
      WorkAfter(pc[..n], t, p);
    }
  }

  lemma WakeWorks(pc: seq<Pc>, t: nat, w: nat)
    requires t < |pc| && (pc[t] == PushNotify || pc[t] == PopNotify)
    requires w < |pc| && Waiting(pc[w])
    ensures Work(pc[t := Idle][w := Woken(pc[w])]) < Work(pc)
  {
    WorkAfter(pc, t, Idle);
    WorkAfter(pc[t := Idle], w, Woken(pc[w]));
  }

  lemma InternalStepMoves<T>(s: State<T>, a: Step<T>)
    requires Shape(s) && RegOk(s) && Internal(a) && Enabled(s, a) && !(a.Notify? && a.wake.Some?)
    ensures var s' := Do(s, a); s'.pc == s.pc[a.t := s'.pc[a.t]] && Weight(s'.pc[a.t]) < Weight(s.pc[a.t])
  {
  }

  lemma InternalStepWorks<T>(s: State<T>, a: Step<T>)
    requires Shape(s) && RegOk(s) && Internal(a) && Enabled(s, a)
    ensures Work(Do(s, a).pc) < Work(s.pc)
  {
    if a.Notify? && a.wake.Some? {
      WakeWorks(s.pc, a.t, a.wake.value);
    } else {
      InternalStepMoves(s, a);
      WorkAfter(s.pc, a.t, Do(s, a).pc[a.t]);
    }
  }

  lemma {:induction false} WorkBound(pc: seq<Pc>)
    ensures Work(pc) <= 6 * |pc|
  {
    if pc != [] { WorkBound(pc[..|pc| - 1]); }
  }

  /** Under every scheduler, calls in progress settle: with no new calls and no spurious wakeups at
      most six steps a thread are left, so that within them a stuck state (StuckOnlyForAReason) is
      reached. */
  lemma {:induction false} CallsSettle<T>(s: State<T>, run: seq<Step<T>>, s': State<T>)
    requires Runs(s, run, s') && forall a :: a in run ==> Internal(a)
    ensures |run| + Work(s'.pc) <= Work(s.pc) <= 6 * |s.pc|
    decreases |run|
  {
    WorkBound(s.pc);
    if run != [] {
      assert run[0] in run && forall a :: a in run[1..] ==> a in run;
      InternalStepWorks(s, run[0]);
      CallsSettle(Do(s, run[0]), run[1..], s');
    }
  }

  // ---------------------------------------------------------------- steps as seen by clients

  predicate Inner<T>(a: Step<T>) { Internal(a) || a.Spurious? }

  predicate Pops<T>(s: State<T>, a: Step<T>) { a.Try? && a.t < |s.pc| && s.pc[a.t] == PopHold && s.q != [] }

  predicate Pushes<T>(s: State<T>, a: Step<T>) { a.Try? && a.t < |s.pc| && s.pc[a.t] == PushHold && !Full(s) }

  /** What a step inside the queue may do to a thread's position and register. */
  predicate Moves<T(==)>(pc: Pc, reg: Option<T>, pc': Pc, reg': Option<T>) {
    || (pc' == pc && reg' == reg)
    || (PrePush(pc) && PrePush(pc') && reg' == reg)
    || (InPush(pc) && InPush(pc') && !PrePush(pc') && reg' == reg)
    || (PrePop(pc) && PrePop(pc') && reg' == reg)
    || (PrePop(pc) && PostPop(pc'))
    || (PostPop(pc) && PostPop(pc') && reg' == reg)
    || ((pc == PushNotify || pc == PopNotify) && pc' == Idle && reg' == reg)
  }

  lemma TryMoves<T>(s: State<T>, u: nat, t: nat)
    requires Shape(s) && RegOk(s) && Enabled(s, Try(u)) && t < |s.pc|
    ensures var s' := TryStep(s, u); Shape(s') && |s'.pc| == |s.pc| && Moves(s.pc[t], s.reg[t], s'.pc[t], s'.reg[t])
    ensures s.pc[t] != Idle ==> TryStep(s, u).pc[t] != Idle
    ensures PrePush(s.pc[t]) && !PrePush(TryStep(s, u).pc[t]) <==> Pushes(s, Try(u)) && u == t
    ensures PrePop(s.pc[t]) && PostPop(TryStep(s, u).pc[t]) <==> Pops(s, Try(u)) && u == t
  {
  }

  lemma NotifyMoves<T>(s: State<T>, u: nat, wake: Option<nat>, t: nat)
    requires Shape(s) && RegOk(s) && Enabled(s, Notify(u, wake)) && t < |s.pc|
    ensures var s' := Do(s, Notify(u, wake));
            Shape(s') && |s'.pc| == |s.pc| && Moves(s.pc[t], s.reg[t], s'.pc[t], s'.reg[t])
    ensures s.pc[t] != Idle ==> (Do(s, Notify(u, wake)).pc[t] == Idle <==> u == t)
    ensures PrePush(s.pc[t]) ==> PrePush(Do(s, Notify(u, wake)).pc[t])
    ensures PrePop(s.pc[t]) ==> !PostPop(Do(s, Notify(u, wake)).pc[t])
  {
  }

  lemma InnerMoves<T>(s: State<T>, a: Step<T>, t: nat)
    requires Shape(s) && RegOk(s) && Enabled(s, a) && Inner(a) && t < |s.pc|
    ensures var s' := Do(s, a); Shape(s') && |s'.pc| == |s.pc| && Moves(s.pc[t], s.reg[t], s'.pc[t], s'.reg[t])
    ensures s.pc[t] != Idle ==> (Do(s, a).pc[t] == Idle <==> a.Notify? && a.t == t)
    ensures PrePush(s.pc[t]) && !PrePush(Do(s, a).pc[t]) <==> Pushes(s, a) && a.t == t
    ensures PrePop(s.pc[t]) && PostPop(Do(s, a).pc[t]) <==> Pops(s, a) && a.t == t
  {
    match a
    case Try(u) => TryMoves(s, u, t);
    case Notify(u, wake) => NotifyMoves(s, u, wake, t);
    case _ =>
  }

  lemma InnerLogs<T>(s: State<T>, a: Step<T>)
    requires Shape(s) && RegOk(s) && Enabled(s, a) && Inner(a)
    ensures var s' := Do(s, a);
            && s'.pushed == s.pushed + (if Pushes(s, a) then [s.reg[a.t].value] else [])
            && s'.popped == s.popped + (if Pops(s, a) then [s.q[0]] else [])
            && s'.bound == s.bound
    ensures Pops(s, a) ==> Do(s, a).reg[a.t] == Some(s.q[0])
    ensures |Do(s, a).q| == |s.q| + (if Pushes(s, a) then 1 else 0) - (if Pops(s, a) then 1 else 0)
  {
  }

  // ---------------------------------------------------------------- the queue as an object

  datatype ConstructionError = LimitOnUnbounded | CapacityBelowOne

  const LONG_MAX: int := 0x7FFF_FFFF_FFFF_FFFF

  /** The constructor's argument checks, in the order the code makes them. */
  function Bound(bounded: bool, capacity: int): (r: Result<Option<nat>, ConstructionError>)
    ensures r.Ok? ==> (r.value.Some? <==> bounded) && (r.value.Some? ==> 1 <= r.value.value == capacity)
    ensures r.Err? <==> capacity < 1 || (!bounded && capacity != LONG_MAX)
  {
    if !bounded && capacity != LONG_MAX then Err(LimitOnUnbounded)
    else if capacity < 1 then Err(CapacityBelowOne)
    else Ok(if bounded then Some(capacity) else None)
  }

  /** What a thread can rely on outside the protocol: its own elements are in the queue's history
      but for the one it is pushing, and it has been handed what it took but for the one it is about
      to return. */
  ghost predicate Settled<T>(s: State<T>, t: nat)
    requires Shape(s) && t < |s.pc|
  {
    && (!PrePush(s.pc[t]) ==> By(s.pushedBy, s.pushed, t) == s.issued[t])
    && (!PostPop(s.pc[t]) ==> s.received[t] == By(s.poppedBy, s.popped, t))
  }

  /** Nobody but t is inside a critical section. */
  ghost predicate Alone<T>(s: State<T>, t: nat) {
    forall u: nat :: u < |s.pc| && u != t ==> !Holding(s.pc[u])
  }

  lemma InvSettles<T>(s: State<T>, t: nat)
    requires Inv(s) && t < |s.pc|
    ensures Settled(s, t)
    ensures PrePush(s.pc[t]) ==> By(s.pushedBy, s.pushed, t) + [s.reg[t].value] == s.issued[t]
    ensures Holding(s.pc[t]) ==> Alone(s, t)
    ensures s.owner == None ==> Alone(s, |s.pc|)
  {
    assert OrderedFor(s, t);
  }

  lemma PushOrSleep<T>(s: State<T>, t: nat)
    requires Inv(s) && t < |s.pc| && s.pc[t] == PushHold
    ensures var s' := Do(s, Try(t)); |s'.pc| == |s.pc| && |s'.pushedBy| == |s'.pushed| && |s'.issued| == |s.pc|
    ensures var s' := Do(s, Try(t)); s'.pc[t] == if Full(s) then PushWait else PushDone
    ensures var s' := Do(s, Try(t)); s'.pc[t] == PushWait ==> Full(s') && s'.owner == None && Alone(s', |s.pc|)
    ensures var s' := Do(s, Try(t)); s'.pc[t] == PushDone ==>
              && s'.popped + s'.q == s'.pushed == s.pushed + [s.reg[t].value]
              && By(s'.pushedBy, s'.pushed, t) == s'.issued[t] && (s.bound.Some? ==> |s'.q| <= s.bound.value)
  {
    StepKeepsInv(s, Try(t));
    InvSettles(Do(s, Try(t)), t);
  }

  lemma PopOrSleep<T>(s: State<T>, t: nat)
    requires Inv(s) && t < |s.pc| && s.pc[t] == PopHold
    ensures var s' := Do(s, Try(t)); |s'.pc| == |s'.reg| == |s.pc| && s'.pc[t] == if s.q == [] then PopWait else PopDone
    ensures var s' := Do(s, Try(t));
      s'.pc[t] == PopWait ==> s'.popped == s'.pushed && s'.owner == None && Alone(s', |s.pc|)
    ensures var s' := Do(s, Try(t)); s'.pc[t] == PopDone ==>
      && |s.popped| < |s'.pushed| && s'.reg[t] == Some(s'.pushed[|s.popped|])
      && s'.popped == s.popped + [s'.pushed[|s.popped|]] && s'.popped <= s'.pushed
  {
    StepKeepsInv(s, Try(t));
    InvSettles(Do(s, Try(t)), t);
    assert s.pushed == s.popped + s.q;
  }

  lemma ReturnSettles<T>(s: State<T>, t: nat, wake: Option<nat>)
    requires Inv(s) && Enabled<T>(s, Notify(t, wake))
    ensures var s' := Do(s, Notify(t, wake)); Inv(s') && s'.pc[t] == Idle && Settled(s', t)
  {
    StepKeepsInv(s, Notify(t, wake));
    InvSettles(Do(s, Notify(t, wake)), t);
  }

  /** The shared object.  Each method is one uninterrupted region of push() or pop(), run by thread
      t; the protocol above says in which order they interleave.  Each keeps the whole invariant
      and says what t may conclude from it. */
  class Queue<T> {
    const bound: Option<nat>
    var q: seq<T>
    var owner: Option<nat>
    var pc: seq<Pc>
    var reg: seq<Option<T>>
    ghost var pushed: seq<T>
    ghost var pushedBy: seq<nat>
    ghost var popped: seq<T>
    ghost var poppedBy: seq<nat>
    ghost var issued: seq<seq<T>>
    ghost var received: seq<seq<T>>

    ghost function View(): State<T>
      reads this
    {
      State(bound, q, owner, pc, reg, pushed, pushedBy, popped, poppedBy, issued, received)
    }

    ghost predicate Valid()
      reads this
    {
      Inv(View())
    }

    constructor (bound: Option<nat>, threads: nat)
      requires bound.Some? ==> 1 <= bound.value
      ensures Valid() && View() == Init(bound, threads)
    {
      this.bound := bound;
      q, owner := [], None;
      pc, reg := seq(threads, _ => Idle), seq(threads, _ => None);
      pushed, pushedBy, popped, poppedBy := [], [], [], [];
      issued, received := seq(threads, _ => []), seq(threads, _ => []);
      new;
      InitInv<T>(bound, threads);
    }

    /** push() is called: x is the only element of t that is not yet in the queue's history. */
    method EnterPush(t: nat, x: T)
      requires Valid() && Enabled(View(), CallPush(t, x))
      modifies this
      ensures View() == Do(old(View()), CallPush(t, x)) && Valid()
      ensures By(pushedBy, pushed, t) + [x] == issued[t]
    {
      StepKeepsInv(View(), CallPush(t, x));
      pc, reg := pc[t := PushLock], reg[t := Some(x)];
      issued := issued[t := issued[t] + [x]];
      InvSettles(View(), t);
    }

    /** pop() is called: t has been handed everything it took before. */
    method EnterPop(t: nat)
      requires Valid() && Enabled(View(), CallPop(t))
      modifies this
      ensures View() == Do(old(View()), CallPop(t)) && Valid()
      ensures received[t] == By(poppedBy, popped, t)
    {
      StepKeepsInv(View(), CallPop(t));
      pc := pc[t := PopLock];
      InvSettles(View(), t);
    }

    /** The mutex is acquired: every other thread is outside its critical sections. */
    method Lock(t: nat)
      requires Valid() && Enabled(View(), Acquire(t))
      modifies this
      ensures View() == Do(old(View()), Acquire(t)) && Valid()
      ensures Holding(pc[t]) && Alone(View(), t)
    {
      StepKeepsInv(View(), Acquire(t));
      owner := Some(t);
      if pc[t] == PushLock || pc[t] == PushWoken {
        pc := pc[t := PushHold];
      } else {
        pc := pc[t := PopHold];
      }
      InvSettles(View(), t);
    }

    method EnqueueOrSleep(t: nat)
      requires Shape(View()) && t < |pc| && pc[t] == PushHold && reg[t].Some?
      modifies this
      ensures View() == TryStep(old(View()), t)
    {
      if bound.Some? && |q| == bound.value {
        pc, owner := pc[t := PushWait], None;
      } else {
        q := q + [reg[t].value];
        pc := pc[t := PushDone];
        pushed, pushedBy := pushed + [reg[t].value], pushedBy + [t];
      }
    }

    /** push()'s loop test under the lock: wait on has_space, or enqueue.  Either the queue is full
        and the mutex free, or all of t's elements are in, the last of them at the back, and the
        bound is respected. */
    method PushOrWait(t: nat)
      requires Valid() && t < |pc| && pc[t] == PushHold
      modifies this
      ensures View() == Do(old(View()), Try(t)) && Valid()
      ensures pc[t] == PushWait || pc[t] == PushDone
      ensures pc[t] == PushWait ==> Full(View()) && owner == None && Alone(View(), |pc|)
      ensures pc[t] == PushDone ==>
        && popped + q == pushed == old(pushed) + [old(reg[t]).value]
        && By(pushedBy, pushed, t) == issued[t] && (bound.Some? ==> |q| <= bound.value)
    {
      StepKeepsInv(View(), Try(t));
      PushOrSleep(View(), t);
      EnqueueOrSleep(t);
    }

    method DequeueOrSleep(t: nat)
      requires Shape(View()) && t < |pc| && pc[t] == PopHold
      modifies this
      ensures View() == TryStep(old(View()), t)
    {
      if q == [] {
        pc, owner := pc[t := PopWait], None;
      } else {
        popped, poppedBy := popped + [q[0]], poppedBy + [t];
        q, pc, reg := q[1..], pc[t := PopDone], reg[t := Some(q[0])];
      }
    }

    /** pop()'s loop test under the lock: wait on has_data, or take the front element.  Either all
        that was ever pushed has been popped and the mutex is free, or t has the element pushed
        first of those not yet popped. */
    method PopOrWait(t: nat)
      requires Valid() && t < |pc| && pc[t] == PopHold
      modifies this
      ensures View() == Do(old(View()), Try(t)) && Valid()
      ensures pc[t] == PopWait || pc[t] == PopDone
      ensures pc[t] == PopWait ==> popped == pushed && owner == None && Alone(View(), |pc|)
      ensures pc[t] == PopDone ==>
        && |old(popped)| < |pushed| && reg[t] == Some(pushed[|old(popped)|])
        && popped == old(popped) + [pushed[|old(popped)|]] && popped <= pushed
    {
      StepKeepsInv(View(), Try(t));
      PopOrSleep(View(), t);
      DequeueOrSleep(t);
    }

    /** The mutex is released before the notification: any thread that wants it can have it. */
    method Release(t: nat)
      requires Valid() && Enabled(View(), Unlock(t))
      modifies this
      ensures View() == Do(old(View()), Unlock(t)) && Valid()
      ensures Alone(View(), |pc|)
      ensures forall u: nat :: u < |pc| && WantsLock(pc[u]) ==> Enabled(View(), Acquire(u))
    {
      StepKeepsInv(View(), Unlock(t));
      pc, owner := pc[t := if pc[t] == PushDone then PushNotify else PopNotify], None;
      InvSettles(View(), t);
    }

    method ChooseSleeper(t: nat) returns (wake: Option<nat>)
      requires t < |pc| && (pc[t] == PushNotify || pc[t] == PopNotify)
      ensures Enabled(View(), Notify(t, wake))
    {
      var sleeper := if pc[t] == PushNotify then PopWait else PushWait;
      if (pc[t] == PushNotify || bound.Some?) && sleeper in pc {
        var w: nat :| w < |pc| && pc[w] == sleeper;
        wake := Some(w);
      } else {
        wake := None;
      }
    }

    method Leave(t: nat, wake: Option<nat>)
      requires Shape(View()) && RegOk(View()) && Enabled(View(), Notify(t, wake))
      modifies this
      ensures View() == Do(old(View()), Notify(t, wake))
    {
      if pc[t] == PopNotify {
        received := received[t := received[t] + [reg[t].value]];
      }
      if wake.Some? {
        pc := pc[t := Idle][wake.value := Woken(pc[wake.value])];
      } else {
        pc := pc[t := Idle];
      }
    }

    /** notify_one() wakes one sleeper of its choice if there is one; then the call returns.  All
        that t ever passed to push() is then in the queue's history, and all it ever took has been
        handed out. */
    method NotifyOne(t: nat) returns (wake: Option<nat>)
      requires Valid() && t < |pc| && (pc[t] == PushNotify || pc[t] == PopNotify)
      modifies this
      ensures Enabled(old(View()), Notify(t, wake))
      ensures View() == Do(old(View()), Notify(t, wake)) && Valid()
      ensures pc[t] == Idle && Settled(View(), t)
    {
      wake := ChooseSleeper(t);
      ReturnSettles(View(), t, wake);
      Leave(t, wake);
    }

    /** A condition variable may wake a sleeper for no reason; the protocol takes no harm. */
    method WakeSpuriously(t: nat)
      requires Valid() && Enabled(View(), Spurious(t))
      modifies this
      ensures View() == Do(old(View()), Spurious(t)) && Valid()
      ensures WantsLock(pc[t]) && Settled(View(), t) == Settled(old(View()), t)
    {
      StepKeepsInv(View(), Spurious(t));
      pc := pc[t := Woken(pc[t])];
    }
  }
}
