/**
 The thread pool: workers that pop jobs from an unbounded queue and run them, dispatch(), and the
 destructor, which pushes one stop item for each worker and then joins them all.

 A pool state is a queue state (module SafeQueue) together with what each thread does outside the
 queue.  Threads below `workers` run the worker loop; the others are clients, one of which may run
 the destructor.  A job may dispatch further jobs while it runs, until the destructor is called: no
 dispatch(), from a job either, overlaps the destructor.  Without workers nothing is ever queued, and
 dispatch() is DispatchDirectly.
 */
module ThreadPool {
  import opened Counting
  import opened Results
  import Q = SafeQueue

  /** A queue entry: a job, or the request that one worker return. */
  datatype Item<J> = Job(job: J) | Stop

  /** Loop: in the worker loop, inside or about to call pop().  Running: executing a job. */
  datatype Mode<J> = Client | Loop | Running(job: J) | Exited

  /** Progress of the destructor: not called, pushing its stop items, joining the workers one by
      one, returned. */
  datatype Closing = Open | Pushing(stops: nat) | Joining(joined: nat) | Closed

  /** jobs is the length of the queue's push log when the destructor starts; finished lists the
      jobs in the order in which they complete. */
  datatype Pool<J> = Pool(
    workers: nat,
    queue: Q.State<Item<J>>,
    mode: seq<Mode<J>>,
    closer: nat,
    closing: Closing,
    jobs: nat,
    finished: seq<J>)

  datatype Step<J> =
    | Dispatch(t: nat, job: J)
    | Destroy(t: nat)
    | PushStop
    | StartJoin
    | Join
    | Return
    | CallPop(t: nat)
    | Inner(a: Q.Step<Item<J>>)   // a step inside push() or pop()
    | Finish(t: nat)

  predicate Enabled<J>(p: Pool<J>, s: Step<J>)
    requires |p.mode| == |p.queue.pc|
  {
    var pc := p.queue.pc;
    match s
    case Dispatch(t, _) =>
      p.closing == Open && p.workers > 0 && t < |pc| && pc[t] == Q.Idle && (p.mode[t].Client? || p.mode[t].Running?)
    case Destroy(t) =>
      && p.closing == Open && t < |pc| && pc[t] == Q.Idle && p.mode[t].Client?
      && forall u :: 0 <= u < |pc| ==> !Q.InPush(pc[u])   // no dispatch() overlaps the destructor
    case PushStop =>
      p.closing.Pushing? && p.closing.stops < p.workers && p.closer < |pc| && pc[p.closer] == Q.Idle
    case StartJoin =>
      p.closing == Pushing(p.workers) && p.closer < |pc| && pc[p.closer] == Q.Idle
    case Join =>
      && p.closing.Joining? && p.closing.joined < p.workers && p.closing.joined < |pc|
      && p.mode[p.closing.joined].Exited?
    case Return => p.closing == Joining(p.workers)
    case CallPop(t) => t < |pc| && pc[t] == Q.Idle && p.mode[t].Loop?
    case Inner(a) => Q.Inner(a) && Q.Enabled(p.queue, a)
    case Finish(t) => t < |pc| && pc[t] == Q.Idle && p.mode[t].Running?
  }

  /** What a worker does with the item pop() returned. */
  function Receive<J>(item: Item<J>): Mode<J> {
    match item
    case Stop => Exited
    case Job(j) => Running(j)
  }

  ghost function InnerStep<J>(p: Pool<J>, a: Q.Step<Item<J>>): Pool<J>
    requires |p.mode| == |p.queue.pc|
    requires Q.Shape(p.queue) && Q.RegOk(p.queue) && Q.Enabled(p.queue, a)
  {
    p.(queue := Q.Do(p.queue, a),
       mode := if a.Notify? && p.queue.pc[a.t] == Q.PopNotify
               then p.mode[a.t := Receive(p.queue.reg[a.t].value)] else p.mode)
  }

  ghost function Do<J>(p: Pool<J>, s: Step<J>): Pool<J>
    requires |p.mode| == |p.queue.pc|
    requires Q.Shape(p.queue) && Q.RegOk(p.queue) && Enabled(p, s)
  {
    match s
    case Dispatch(t, j) => p.(queue := Q.Do(p.queue, Q.CallPush(t, Job(j))))
    case Destroy(t) => p.(closer := t, closing := Pushing(0), jobs := |p.queue.pushed|)
    case PushStop =>
      p.(queue := Q.Do(p.queue, Q.CallPush(p.closer, Stop)), closing := Pushing(p.closing.stops + 1))
    case StartJoin => p.(closing := Joining(0))
    case Join => p.(closing := Joining(p.closing.joined + 1))
    case Return => p.(closing := Closed)
    case CallPop(t) => p.(queue := Q.Do(p.queue, Q.CallPop(t)))
    case Inner(a) => InnerStep(p, a)
    case Finish(t) => p.(mode := p.mode[t := Loop], finished := p.finished + [p.mode[t].job])
  }

  /** A pool with its worker threads started, and some clients. */
  function Init<J>(workers: nat, clients: nat): Pool<J> {
    Pool(workers, Q.Init(None, workers + clients),
         seq(workers + clients, t => if t < workers then Loop else Client), 0, Open, 0, [])
  }

  // ---------------------------------------------------------------- invariants

  function Items<J>(jobs: seq<J>): seq<Item<J>> { seq(|jobs|, i requires 0 <= i < |jobs| => Job(jobs[i])) }

  /** The item a thread has popped and not yet dealt with: an exited worker keeps its stop item. */
  function HandOf<J>(mode: Mode<J>, pc: Q.Pc, reg: Option<Item<J>>): Option<Item<J>> {
    if Q.PostPop(pc) then reg
    else match mode
      case Running(j) => Some(Job(j))
      case Exited => Some(Stop)
      case _ => None
  }

  function Hand<J>(p: Pool<J>, t: nat): Option<Item<J>>
    requires |p.mode| == |p.queue.pc| == |p.queue.reg| && t < |p.mode|
  {
    HandOf(p.mode[t], p.queue.pc[t], p.queue.reg[t])
  }

  function Hands<J>(p: Pool<J>): seq<Option<Item<J>>>
    requires |p.mode| == |p.queue.pc| == |p.queue.reg|
  {
    seq(|p.mode|, t requires 0 <= t < |p.mode| => Hand(p, t))
  }

  ghost predicate Framed<J>(p: Pool<J>) {
    && Q.Inv(p.queue) && p.queue.bound.None?
    && |p.mode| == |p.queue.pc|
    && p.workers <= |p.mode|
    && (p.closing != Open ==> p.closer < |p.mode| && p.mode[p.closer].Client?)
  }

  /** Where a thread may be in the queue, given what it does outside, and what it may push. */
  predicate Fits<J>(worker: bool, open: bool, pushingStops: bool, mode: Mode<J>, pc: Q.Pc, reg: Option<Item<J>>) {
    && (mode.Client? <==> !worker)
    && (pc == Q.Idle || if mode.Loop? then Q.InPop(pc) else !mode.Exited? && Q.InPush(pc))
    && (!open && Q.InPush(pc) ==> pushingStops)
    && (Q.PrePush(pc) || Q.PostPop(pc) ==> reg.Some?)
    && (Q.PrePush(pc) ==> (reg.value.Job? <==> open))
  }

  ghost predicate ThreadOk<J>(p: Pool<J>, t: nat)
    requires Framed(p) && t < |p.mode|
  {
    Fits(t < p.workers, p.closing == Open, t == p.closer && p.closing.Pushing?,
         p.mode[t], p.queue.pc[t], p.queue.reg[t])
  }

  /** Stop items that the destructor has pushed. */
  ghost function StopsPushed<J>(p: Pool<J>): int
    requires Framed(p)
  {
    (match p.closing case Open => 0 case Pushing(k) => k case _ => p.workers)
    - (if p.closing != Open && Q.PrePush(p.queue.pc[p.closer]) then 1 else 0)
  }

  /** All jobs precede all stop items in the queue's push log. */
  ghost predicate Sorted<J>(p: Pool<J>)
    requires Framed(p)
  {
    var jobs := if p.closing == Open then |p.queue.pushed| else p.jobs;
    && jobs <= |p.queue.pushed|
    && (forall i :: 0 <= i < |p.queue.pushed| ==> (p.queue.pushed[i].Job? <==> i < jobs))
    && (p.closing.Pushing? ==> p.closing.stops <= p.workers)
    && |p.queue.pushed| - jobs == StopsPushed(p)
  }

  /** The workers joined so far have returned. */
  ghost predicate Joined<J>(p: Pool<J>)
    requires Framed(p)
  {
    var joined := if p.closing.Joining? then p.closing.joined else if p.closing.Closed? then p.workers else 0;
    joined <= p.workers && forall w :: 0 <= w < joined ==> p.mode[w].Exited?
  }

  /** Everything popped is finished or in some thread's hand, with multiplicity. */
  ghost predicate Accounted<J(!new)>(p: Pool<J>)
    requires Framed(p)
  {
    forall x: Item<J> :: Count(p.queue.popped, x) == Count(Items(p.finished), x) + Count(Hands(p), Some(x))
  }

  /** A single worker deals with the items one at a time, in the order popped. */
  ghost predicate InOrder<J>(p: Pool<J>)
    requires Framed(p)
  {
    p.workers == 1 ==>
      p.queue.popped == Items(p.finished) + if Hand(p, 0).Some? then [Hand(p, 0).value] else []
  }

  /** The items thread t has popped are jobs, then at most one stop item, which it keeps. */
  ghost predicate OneStop<J>(p: Pool<J>, t: nat)
    requires Framed(p) && t < |p.mode|
  {
    var taken := Q.By(p.queue.poppedBy, p.queue.popped, t);
    && (Hand(p, t) == Some(Stop) ==> taken != [])
    && forall i :: 0 <= i < |taken| ==>
         (taken[i].Stop? <==> i == |taken| - 1 && Hand(p, t) == Some(Stop))
  }

  /** Without workers the queue is never touched. */
  ghost predicate Unused<J>(p: Pool<J>) {
    p.workers == 0 ==> p.queue.pushed == [] && forall t :: 0 <= t < |p.queue.pc| ==> p.queue.pc[t] == Q.Idle
  }

  ghost predicate Inv<J(!new)>(p: Pool<J>) {
    && Framed(p)
    && (forall t :: 0 <= t < |p.mode| ==> ThreadOk(p, t))
    && (forall t :: 0 <= t < |p.mode| ==> OneStop(p, t))
    && Sorted(p)
    && Joined(p)
    && Accounted(p)
    && InOrder(p)
    && Unused(p)
  }

  // ---------------------------------------------------------------- every step keeps them

  ghost predicate Threads<J>(p: Pool<J>) {
    Framed(p) && forall t :: 0 <= t < |p.mode| ==> ThreadOk(p, t)
  }

  lemma InnerKeepsFrame<J>(p: Pool<J>, a: Q.Step<Item<J>>)
    requires Threads(p) && Enabled(p, Inner(a))
    ensures Framed(InnerStep(p, a))
  {
    Q.StepKeepsInv(p.queue, a);
    assert ThreadOk(p, a.t);
  }

  lemma StepKeepsFrame<J>(p: Pool<J>, s: Step<J>)
    requires Threads(p) && Enabled(p, s)
    ensures Framed(Do(p, s))
  {
    match s
    case Dispatch(t, j) => Q.StepKeepsInv(p.queue, Q.CallPush(t, Job(j)));
    case PushStop => Q.StepKeepsInv(p.queue, Q.CallPush(p.closer, Stop));
    case CallPop(t) => Q.StepKeepsInv(p.queue, Q.CallPop(t));
    case Inner(a) => InnerKeepsFrame(p, a);
    case Finish(t) => assert ThreadOk(p, t);
    case _ =>
  }

  lemma MoveFits<J>(worker: bool, open: bool, pushingStops: bool,
                       mode: Mode<J>, pc: Q.Pc, reg: Option<Item<J>>, pc': Q.Pc, reg': Option<Item<J>>)
    requires Fits(worker, open, pushingStops, mode, pc, reg) && Q.Moves(pc, reg, pc', reg')
    requires Q.PostPop(pc') ==> reg'.Some?
    ensures Fits(worker, open, pushingStops,
                 if pc == Q.PopNotify && pc' == Q.Idle then Receive(reg.value) else mode, pc', reg')
  {
  }

  lemma InnerKeepsThread<J>(p: Pool<J>, a: Q.Step<Item<J>>, t: nat)
    requires Threads(p) && Enabled(p, Inner(a)) && Framed(InnerStep(p, a)) && t < |p.mode|
    ensures ThreadOk(InnerStep(p, a), t)
  {
    var q' := Q.Do(p.queue, a);
    Q.InnerMoves(p.queue, a, t);
    assert ThreadOk(p, t);
    MoveFits(t < p.workers, p.closing == Open, t == p.closer && p.closing.Pushing?,
             p.mode[t], p.queue.pc[t], p.queue.reg[t], q'.pc[t], q'.reg[t]);
  }

  lemma StepKeepsThread<J>(p: Pool<J>, s: Step<J>, t: nat)
    requires Threads(p) && Enabled(p, s) && Framed(Do(p, s)) && t < |p.mode|
    ensures ThreadOk(Do(p, s), t)
  {
    assert ThreadOk(p, t);
    if s.Inner? {
      InnerKeepsThread(p, s.a, t);
    }
  }

  lemma StepKeepsThreads<J>(p: Pool<J>, s: Step<J>)
    requires Threads(p) && Enabled(p, s)
    ensures Threads(Do(p, s))
  {
    StepKeepsFrame(p, s);
    forall t: nat | t < |p.mode| { StepKeepsThread(p, s, t); }
  }

  // The destructor's thread leaves the waiting part of push() exactly when its stop item is pushed.
  lemma StopsAfter<J>(p: Pool<J>, a: Q.Step<Item<J>>)
    requires Threads(p) && Enabled(p, Inner(a)) && Framed(InnerStep(p, a)) && p.closing != Open
    ensures Q.Pushes(p.queue, a) ==> a.t == p.closer
    ensures StopsPushed(InnerStep(p, a)) == StopsPushed(p) + (if Q.Pushes(p.queue, a) then 1 else 0)
  {
    Q.InnerMoves(p.queue, a, p.closer);
    assert ThreadOk(p, a.t) && ThreadOk(p, p.closer);
  }

  lemma InnerKeepsSorted<J>(p: Pool<J>, a: Q.Step<Item<J>>)
    requires Threads(p) && Sorted(p) && Enabled(p, Inner(a)) && Framed(InnerStep(p, a))
    ensures Sorted(InnerStep(p, a))
  {
    Q.InnerLogs(p.queue, a);
    assert ThreadOk(p, a.t);
    if p.closing != Open {
      StopsAfter(p, a);
    }
  }

  lemma StepKeepsSorted<J>(p: Pool<J>, s: Step<J>)
    requires Threads(p) && Sorted(p) && Enabled(p, s) && Framed(Do(p, s))
    ensures Sorted(Do(p, s))
  {
    if s.Inner? {
      InnerKeepsSorted(p, s.a);
    } else if p.closing != Open {
      assert ThreadOk(p, p.closer);
    }
  }

  lemma InnerKeepsJoined<J>(p: Pool<J>, a: Q.Step<Item<J>>)
    requires Threads(p) && Joined(p) && Enabled(p, Inner(a)) && Framed(InnerStep(p, a))
    ensures Joined(InnerStep(p, a))
  {
    assert ThreadOk(p, a.t);
  }

  lemma FinishKeepsJoined<J>(p: Pool<J>, t: nat)
    requires Threads(p) && Joined(p) && Enabled<J>(p, Finish(t)) && Framed(Do(p, Finish(t)))
    ensures Joined(Do(p, Finish(t)))
  {
  }

  lemma JoinKeepsJoined<J>(p: Pool<J>)
    requires Framed(p) && Joined(p) && Enabled<J>(p, Join) && Framed(Do(p, Join))
    ensures Joined(Do(p, Join))
  {
  }

  lemma OtherKeepsJoined<J>(p: Pool<J>, s: Step<J>)
    requires Framed(p) && Joined(p) && Enabled(p, s) && Framed(Do(p, s)) && !s.Inner? && !s.Finish? && !s.Join?
    ensures Joined(Do(p, s))
  {
    assert Do(p, s).mode == p.mode;
  }

  lemma StepKeepsJoined<J>(p: Pool<J>, s: Step<J>)
    requires Threads(p) && Joined(p) && Enabled(p, s) && Framed(Do(p, s))
    ensures Joined(Do(p, s))
  {
    match s
    case Inner(a) => InnerKeepsJoined(p, a);
    case Finish(t) => FinishKeepsJoined(p, t);
    case Join => JoinKeepsJoined(p);
    case _ => OtherKeepsJoined(p, s);
  }

  /** Items change hands only when popped and when a job completes. */
  lemma MoveKeepsHand<J>(mode: Mode<J>, pc: Q.Pc, reg: Option<Item<J>>, pc': Q.Pc, reg': Option<Item<J>>)
    requires Q.Moves(pc, reg, pc', reg') && !(Q.PrePop(pc) && Q.PostPop(pc'))
    requires Q.PostPop(pc) ==> reg.Some?
    ensures HandOf(if pc == Q.PopNotify && pc' == Q.Idle then Receive(reg.value) else mode, pc', reg')
            == HandOf(mode, pc, reg)
  {
  }

  lemma InnerHand<J>(p: Pool<J>, a: Q.Step<Item<J>>, t: nat)
    requires Threads(p) && Enabled(p, Inner(a)) && Framed(InnerStep(p, a)) && t < |p.mode|
    ensures Hand(InnerStep(p, a), t) == if Q.Pops(p.queue, a) && t == a.t then Some(p.queue.q[0]) else Hand(p, t)
    ensures Q.Pops(p.queue, a) && t == a.t ==> Hand(p, t) == None
  {
    var q' := Q.Do(p.queue, a);
    Q.InnerMoves(p.queue, a, t);
    Q.InnerLogs(p.queue, a);
    assert ThreadOk(p, t);
    if !(Q.Pops(p.queue, a) && t == a.t) {
      MoveKeepsHand(p.mode[t], p.queue.pc[t], p.queue.reg[t], q'.pc[t], q'.reg[t]);
    }
  }

  lemma InnerHands<J>(p: Pool<J>, a: Q.Step<Item<J>>)
    requires Threads(p) && Enabled(p, Inner(a)) && Framed(InnerStep(p, a))
    ensures Hands(InnerStep(p, a))
            == if Q.Pops(p.queue, a) then Hands(p)[a.t := Some(p.queue.q[0])] else Hands(p)
    ensures Q.Pops(p.queue, a) ==> Hand(p, a.t) == None
  {
    forall t: nat | t < |p.mode| { InnerHand(p, a, t); }
  }

  lemma InnerKeepsAccounted<J(!new)>(p: Pool<J>, a: Q.Step<Item<J>>, x: Item<J>)
    requires Threads(p) && Accounted(p) && Enabled(p, Inner(a)) && Framed(InnerStep(p, a))
    ensures var p' := InnerStep(p, a);
            Count(p'.queue.popped, x) == Count(Items(p'.finished), x) + Count(Hands(p'), Some(x))
  {
    Q.InnerLogs(p.queue, a);
    InnerHands(p, a);
    if Q.Pops(p.queue, a) {
      CountSnoc(p.queue.popped, p.queue.q[0], x);
      CountUpdate(Hands(p), a.t, Some(p.queue.q[0]), Some(x));
    }
  }

  lemma FinishKeepsAccounted<J(!new)>(p: Pool<J>, t: nat, x: Item<J>)
    requires Threads(p) && Accounted(p) && Enabled(p, Finish(t)) && Framed(Do(p, Finish(t)))
    ensures var p' := Do(p, Finish(t));
            Count(p'.queue.popped, x) == Count(Items(p'.finished), x) + Count(Hands(p'), Some(x))
  {
    var p' := Do(p, Finish(t));
    assert Items(p'.finished) == Items(p.finished) + [Job(p.mode[t].job)];
    assert Hands(p') == Hands(p)[t := None];
    CountSnoc(Items(p.finished), Job(p.mode[t].job), x);
    CountUpdate(Hands(p), t, None, Some(x));
  }

  /** Steps that neither pop nor complete a job leave every hand as it was. */
  lemma OtherHands<J>(p: Pool<J>, s: Step<J>)
    requires Threads(p) && Enabled(p, s) && Framed(Do(p, s)) && !s.Inner? && !s.Finish?
    ensures Hands(Do(p, s)) == Hands(p) && Do(p, s).queue.popped == p.queue.popped
    ensures Do(p, s).finished == p.finished && Do(p, s).workers == p.workers
  {
  }

  lemma StepKeepsAccounted<J(!new)>(p: Pool<J>, s: Step<J>)
    requires Threads(p) && Accounted(p) && Enabled(p, s) && Framed(Do(p, s))
    ensures Accounted(Do(p, s))
  {
    match s
    case Inner(a) => forall x { InnerKeepsAccounted(p, a, x); }
    case Finish(t) => forall x { FinishKeepsAccounted(p, t, x); }
    case _ => OtherHands(p, s);
  }

  lemma InnerKeepsOrder<J(!new)>(p: Pool<J>, a: Q.Step<Item<J>>)
    requires Threads(p) && InOrder(p) && Enabled(p, Inner(a)) && Framed(InnerStep(p, a))
    ensures InOrder(InnerStep(p, a))
  {
    assert ThreadOk(p, a.t);
    InnerHand(p, a, 0);
    Q.InnerLogs(p.queue, a);
  }

  lemma FinishKeepsOrder<J(!new)>(p: Pool<J>, t: nat)
    requires Threads(p) && InOrder(p) && Enabled(p, Finish(t)) && Framed(Do(p, Finish(t)))
    ensures InOrder(Do(p, Finish(t)))
  {
    assert ThreadOk(p, t);
    assert Items(Do(p, Finish(t)).finished) == Items(p.finished) + [Job(p.mode[t].job)];
  }

  lemma StepKeepsOrder<J(!new)>(p: Pool<J>, s: Step<J>)
    requires Threads(p) && InOrder(p) && Enabled(p, s) && Framed(Do(p, s))
    ensures InOrder(Do(p, s))
  {
    match s
    case Inner(a) => InnerKeepsOrder(p, a);
    case Finish(t) => FinishKeepsOrder(p, t);
    case _ =>
      OtherHands(p, s);
      assert Hands(p)[0] == Hands(Do(p, s))[0];
  }

  lemma InnerKeepsOneStop<J>(p: Pool<J>, a: Q.Step<Item<J>>, t: nat)
    requires Threads(p) && Enabled(p, Inner(a)) && Framed(InnerStep(p, a))
    requires t < |p.mode| && OneStop(p, t)
    ensures OneStop(InnerStep(p, a), t)
  {
    InnerHand(p, a, t);
    Q.InnerLogs(p.queue, a);
    if Q.Pops(p.queue, a) {
      Q.BySnoc(p.queue.poppedBy, p.queue.popped, a.t, p.queue.q[0], t);
    }
  }

  lemma StepKeepsOneStop<J>(p: Pool<J>, s: Step<J>, t: nat)
    requires Threads(p) && Enabled(p, s) && Framed(Do(p, s)) && t < |p.mode| && OneStop(p, t)
    ensures OneStop(Do(p, s), t)
  {
    match s
    case Inner(a) => InnerKeepsOneStop(p, a, t);
    case Finish(_) =>
    case _ =>
      OtherHands(p, s);
      assert Hands(p)[t] == Hands(Do(p, s))[t];
  }

  lemma UnusedSteps<J>(p: Pool<J>, s: Step<J>)
    requires Threads(p) && Sorted(p) && Unused(p) && Enabled(p, s) && p.workers == 0
    ensures s.Destroy? || s.StartJoin? || s.Return?
  {
    assert s.CallPop? ==> ThreadOk(p, s.t);
    assert s.Finish? ==> ThreadOk(p, s.t);
  }

  lemma StepKeepsUnused<J>(p: Pool<J>, s: Step<J>)
    requires Threads(p) && Sorted(p) && Unused(p) && Enabled(p, s)
    ensures Unused(Do(p, s))
  {
    if p.workers == 0 { UnusedSteps(p, s); }
  }

  lemma StepKeepsInv<J(!new)>(p: Pool<J>, s: Step<J>)
    requires Inv(p) && Enabled(p, s)
    ensures Inv(Do(p, s))
  {
    StepKeepsThreads(p, s);
    forall t: nat | t < |p.mode| { StepKeepsOneStop(p, s, t); }
    StepKeepsSorted(p, s);
    StepKeepsJoined(p, s);
    StepKeepsAccounted(p, s);
    StepKeepsOrder(p, s);
    StepKeepsUnused(p, s);
  }

  // ---------------------------------------------------------------- whole runs

  ghost predicate Runs<J>(p: Pool<J>, run: seq<Step<J>>, p': Pool<J>)
    decreases |run|
  {
    if run == [] then p' == p
    else
      && |p.mode| == |p.queue.pc| && Q.Shape(p.queue) && Q.RegOk(p.queue)
      && Enabled(p, run[0]) && Runs(Do(p, run[0]), run[1..], p')
  }

  ghost predicate Reachable<J(!new)>(workers: nat, clients: nat, p: Pool<J>) {
    exists run :: Runs(Init(workers, clients), run, p)
  }

  lemma InitFramed<J(!new)>(workers: nat, clients: nat)
    ensures Framed(Init<J>(workers, clients))
  {
    Q.InitInv<Item<J>>(None, workers + clients);
  }

  lemma InitThreads<J(!new)>(workers: nat, clients: nat, t: nat)
    requires Framed(Init<J>(workers, clients)) && t < workers + clients
    ensures ThreadOk(Init<J>(workers, clients), t) && OneStop(Init<J>(workers, clients), t)
    ensures Hand(Init<J>(workers, clients), t) == None
  {
  }

  lemma InitAccounted<J(!new)>(workers: nat, clients: nat, x: Item<J>)
    requires Framed(Init<J>(workers, clients))
    requires forall t :: 0 <= t < workers + clients ==> Hands(Init<J>(workers, clients))[t] == None
    ensures Count(Hands(Init<J>(workers, clients)), Some(x)) == 0
  {
    CountZero(Hands(Init<J>(workers, clients)), Some(x));
  }

  lemma InitInv<J(!new)>(workers: nat, clients: nat)
    ensures Inv<J>(Init(workers, clients))
  {
    var p := Init<J>(workers, clients);
    InitFramed<J>(workers, clients);
    forall t: nat | t < |p.mode| { InitThreads<J>(workers, clients, t); }
    forall x: Item<J> { InitAccounted<J>(workers, clients, x); }
  }

  lemma {:induction false} RunKeepsInv<J(!new)>(p: Pool<J>, run: seq<Step<J>>, p': Pool<J>)
    requires Inv(p) && Runs(p, run, p')
    ensures Inv(p') && p'.workers == p.workers
    decreases |run|
  {
    if run != [] {
      StepKeepsInv(p, run[0]);
      RunKeepsInv(Do(p, run[0]), run[1..], p');
    }
  }

  lemma ReachableInv<J(!new)>(workers: nat, clients: nat, p: Pool<J>)
    requires Reachable(workers, clients, p)
    ensures Inv(p) && p.workers == workers
  {
    var run :| Runs(Init<J>(workers, clients), run, p);
    InitInv<J>(workers, clients);
    RunKeepsInv(Init(workers, clients), run, p);
  }

  // ---------------------------------------------------------------- what shutdown guarantees

  lemma ItemsAreJobs<J>(jobs: seq<J>)
    ensures Count(Items(jobs), Stop) == 0
  {
    CountZero(Items(jobs), Stop);
  }

  lemma OnlyStops<J>(items: seq<Item<J>>)
    requires forall i :: 0 <= i < |items| ==> items[i] == Stop
    ensures Count(items, Stop) == |items|
  {
    CountExactly(items, |items|, Stop);
  }

  lemma StopsAmong<J>(pushed: seq<Item<J>>, jobs: nat)
    requires jobs <= |pushed| && forall i :: 0 <= i < |pushed| ==> (pushed[i].Job? <==> i < jobs)
    ensures Count(pushed[..jobs], Stop) == 0 && Count(pushed, Stop) == |pushed| - jobs
  {
    CountZero(pushed[..jobs], Stop);
    OnlyStops(pushed[jobs..]);
    CountAppend(pushed[..jobs], pushed[jobs..], Stop);
    assert pushed == pushed[..jobs] + pushed[jobs..];
  }

  /** The stop items still queued are one for each worker that has not popped its own. */
  lemma StopsQueued<J(!new)>(p: Pool<J>)
    requires Inv(p) && p.closing != Open
    ensures Count(p.queue.q, Stop) == StopsPushed(p) - Count(Hands(p), Some(Stop))
    ensures Count(p.queue.pushed[..p.jobs], Stop) == 0
  {
    StopsAmong(p.queue.pushed, p.jobs);
    CountAppend(p.queue.popped, p.queue.q, Stop);
    ItemsAreJobs(p.finished);
  }

  lemma ClosedHands<J(!new)>(p: Pool<J>)
    requires Inv(p) && p.closing.Closed?
    ensures forall t :: 0 <= t < |p.mode| ==>
              && Hands(p)[t] == (if t < p.workers then Some(Stop) else None)
              && !Q.PrePush(p.queue.pc[t]) && !Q.PostPop(p.queue.pc[t])
  {
    forall t | 0 <= t < |p.mode|
      ensures Hands(p)[t] == (if t < p.workers then Some(Stop) else None)
              && !Q.PrePush(p.queue.pc[t]) && !Q.PostPop(p.queue.pc[t])
    {
      assert ThreadOk(p, t);
    }
  }

  /** The destructor leaves nothing behind in the queue. */
  lemma ClosedQueueEmpty<J(!new)>(p: Pool<J>)
    requires Inv(p) && p.closing.Closed?
    ensures p.queue.q == []
  {
    ClosedHands(p);
    CountExactly(Hands(p), p.workers, Some(Stop));
    StopsQueued(p);
    CountZero(p.queue.q, Stop);
    assert p.queue.q != [] ==> p.queue.q[|p.queue.q| - 1] == p.queue.pushed[|p.queue.pushed| - 1];
  }

  lemma CountedAhead<J(!new)>(pushed: seq<Item<J>>, jobs: nat, x: Item<J>)
    requires jobs <= |pushed| && x.Job? && forall i :: jobs <= i < |pushed| ==> pushed[i].Stop?
    ensures Count(pushed, x) == Count(pushed[..jobs], x)
  {
    assert pushed == pushed[..jobs] + pushed[jobs..];
    CountAppend(pushed[..jobs], pushed[jobs..], x);
    CountZero(pushed[jobs..], x);
  }

  lemma ClosedCounts<J(!new)>(p: Pool<J>, x: Item<J>)
    requires Inv(p) && p.closing.Closed?
    ensures Count(Items(p.finished), x) == Count(p.queue.pushed[..p.jobs], x)
  {
    ClosedQueueEmpty(p);
    ClosedHands(p);
    StopsQueued(p);
    ItemsAreJobs(p.finished);
    if x.Job? {
      assert p.queue.popped == p.queue.pushed;
      CountedAhead(p.queue.pushed, p.jobs, x);
      CountZero(Hands(p), Some(x));
    }
  }

  /** A pool whose destructor has returned has finished exactly the jobs queued ahead of the stop
      items, as often as they were queued. */
  lemma ClosedFinished<J(!new)>(p: Pool<J>)
    requires Inv(p) && p.closing.Closed?
    ensures p.queue.q == [] && multiset(Items(p.finished)) == multiset(p.queue.pushed[..p.jobs])
  {
    ClosedQueueEmpty(p);
    forall x: Item<J> ensures multiset(Items(p.finished))[x] == multiset(p.queue.pushed[..p.jobs])[x] {
      ClosedCounts(p, x);
      CountIsMultiplicity(Items(p.finished), x);
      CountIsMultiplicity(p.queue.pushed[..p.jobs], x);
    }
  }

  /** When the destructor returns, on every schedule: everything dispatched had been queued ahead of
      the stop items, every job has run to completion exactly once, every worker has returned having
      taken jobs and then exactly one stop item, and the queue is empty. */
  lemma ShutdownIsComplete<J(!new)>(workers: nat, clients: nat, p: Pool<J>)
    requires Reachable(workers, clients, p) && p.closing.Closed?
    ensures p.jobs <= |p.queue.pushed| && p.queue.q == []
    ensures multiset(Items(p.finished)) == multiset(p.queue.pushed[..p.jobs])
    ensures forall i :: p.jobs <= i < |p.queue.pushed| ==> p.queue.pushed[i] == Stop
    ensures |p.queue.pushed| == p.jobs + p.workers
    ensures |p.mode| == |p.queue.issued| == |p.queue.received| && |p.queue.pushedBy| == |p.queue.pushed|
    ensures forall t :: 0 <= t < |p.mode| ==> Q.By(p.queue.pushedBy, p.queue.pushed, t) == p.queue.issued[t]
    ensures forall w :: 0 <= w < p.workers && w < |p.mode| ==>
              && p.mode[w].Exited? && p.queue.received[w] != []
              && forall i :: 0 <= i < |p.queue.received[w]| ==>
                   (p.queue.received[w][i].Stop? <==> i == |p.queue.received[w]| - 1)
  {
    ReachableInv(workers, clients, p);
    ClosedFinished(p);
    ClosedHands(p);
    forall t | 0 <= t < |p.mode|
      ensures Q.By(p.queue.pushedBy, p.queue.pushed, t) == p.queue.issued[t]
      ensures p.queue.received[t] == Q.By(p.queue.poppedBy, p.queue.popped, t)
    {
      assert Q.OrderedFor(p.queue, t);
    }
    forall w | 0 <= w < p.workers
      ensures p.queue.received[w] != []
      ensures forall i :: 0 <= i < |p.queue.received[w]| ==>
                (p.queue.received[w][i].Stop? <==> i == |p.queue.received[w]| - 1)
    {
      assert OneStop(p, w) && Hands(p)[w] == Some(Stop);
    }
  }

  // ---------------------------------------------------------------- a single worker

  /** A job maps a state to a new one, and may throw.  run(s, j).0 is what it leaves behind in either
      case; a worker stores the exception away, direct execution passes it on. */
  function Effect<S, J>(run: (S, J) -> (S, bool), s: S, jobs: seq<J>): S {
    if jobs == [] then s else run(Effect(run, s, jobs[..|jobs| - 1]), jobs[|jobs| - 1]).0
  }

  predicate Throws<S, J>(run: (S, J) -> (S, bool), s: S, jobs: seq<J>, i: nat)
    requires i < |jobs|
  {
    run(Effect(run, s, jobs[..i]), jobs[i]).1
  }

  /** The first `done` jobs have been executed: all of them, or those up to the first that throws. */
  predicate Stops<S, J>(run: (S, J) -> (S, bool), s: S, jobs: seq<J>, done: nat) {
    && done <= |jobs|
    && (forall i: nat :: i < done - 1 ==> !Throws(run, s, jobs, i))
    && (done < |jobs| ==> done > 0 && Throws(run, s, jobs, done - 1))
  }

  /** A client of a pool without workers: each dispatch() executes its job on the spot, and an
      exception ends the client's loop. */
  method DispatchDirectly<S, J>(run: (S, J) -> (S, bool), s: S, jobs: seq<J>) returns (r: S, done: nat)
    ensures Stops(run, s, jobs, done) && r == Effect(run, s, jobs[..done])
  {
    r, done := s, 0;
    var thrown := false;
    while done < |jobs| && !thrown
      invariant done <= |jobs| && r == Effect(run, s, jobs[..done])
      invariant forall i: nat :: i < done - 1 ==> !Throws(run, s, jobs, i)
      invariant if done > 0 then thrown == Throws(run, s, jobs, done - 1) else !thrown
      decreases |jobs| - done, !thrown
    {
      var (next, threw) := run(r, jobs[done]);
      assert jobs[..done + 1][..done] == jobs[..done];
      r, thrown, done := next, threw, done + 1;
    }
  }

  lemma ItemsInjective<J>(a: seq<J>, b: seq<J>)
    requires Items(a) == Items(b)
    ensures a == b
  {
    assert |a| == |Items(a)| == |b|;
    forall i | 0 <= i < |a| ensures a[i] == b[i] {
      assert Items(a)[i] == Items(b)[i];
    }
  }

  /** With one worker jobs complete in the order in which they were queued, at every moment, and
      the next one starts only when the last has completed. */
  lemma SingleWorkerIsSerial<J(!new)>(clients: nat, p: Pool<J>)
    requires Reachable(1, clients, p)
    ensures |p.mode| == |p.queue.pc| == |p.queue.reg| > 0
    ensures Items(p.finished) + (if p.mode[0].Running? then [Job(p.mode[0].job)] else []) <= p.queue.pushed
    ensures forall t :: 0 <= t < |p.mode| && p.mode[t].Running? ==> t == 0
  {
    ReachableInv(1, clients, p);
    assert ThreadOk(p, 0);
    forall t | 0 <= t < |p.mode| && p.mode[t].Running? ensures t == 0 { assert ThreadOk(p, t); }
  }

  /** When its destructor returns, a single worker has executed the jobs dispatched, in that order.
      A pool without workers executes the same ones, with the same effect, exactly if none but the
      last of them throws. */
  lemma SingleWorkerActsDirectly<S, J(!new)>(
      clients: nat, p: Pool<J>, dispatched: seq<J>, run: (S, J) -> (S, bool), s: S, done: nat)
    requires Reachable(1, clients, p) && p.closing.Closed?
    requires p.jobs <= |p.queue.pushed| && Items(dispatched) == p.queue.pushed[..p.jobs]
    requires Stops(run, s, dispatched, done)
    ensures p.finished == dispatched
    ensures dispatched[..done] == p.finished <==> forall i: nat :: i < |dispatched| - 1 ==> !Throws(run, s, dispatched, i)
  {
    ReachableInv(1, clients, p);
    ClosedQueueEmpty(p);
    ClosedHands(p);
    assert Hands(p)[0] == Some(Stop);
    assert p.queue.pushed == Items(p.finished) + [Stop];
    assert |Items(p.finished)| == p.jobs;
    ItemsInjective(p.finished, dispatched);
    assert dispatched[..|dispatched|] == dispatched;
  }

  // ---------------------------------------------------------------- shutdown terminates

  predicate AllStopsCalled<J>(p: Pool<J>) { p.closing.Joining? || p.closing.Closed? }

  /** Once all stop items are in the queue, no worker looking for an item finds it empty. */
  lemma NoWorkerStarves<J(!new)>(p: Pool<J>, w: nat)
    requires Inv(p) && AllStopsCalled(p) && w < p.workers && Q.PrePop(p.queue.pc[w])
    ensures p.queue.q != []
  {
    assert ThreadOk(p, w) && ThreadOk(p, p.closer);
    forall t | p.workers <= t < |p.mode| ensures Hands(p)[t] != Some(Stop) {
      assert ThreadOk(p, t);
    }
    CountBelow(Hands(p), p.workers, w, Some(Stop));
    StopsQueued(p);
    CountZero(p.queue.q, Stop);
  }

  ghost predicate CanMove<J(!new)>(p: Pool<J>)
    requires |p.mode| == |p.queue.pc|
  {
    exists s: Step<J> :: Enabled(p, s) && !(s.Inner? && s.a.Spurious?)
  }

  lemma NobodySleeps<J(!new)>(p: Pool<J>, t: nat)
    requires Inv(p) && AllStopsCalled(p) && Q.Quiescent(p.queue) && t < |p.mode|
    ensures p.queue.pc[t] == Q.Idle
  {
    assert ThreadOk(p, t) && Q.AtRest(p.queue.pc[t]);
    if p.queue.pc[t] == Q.PopWait {
      Q.QuiescentCounts(p.queue);
      NoWorkerStarves(p, t);
    }
  }

  lemma PushingNeverStuck<J(!new)>(p: Pool<J>)
    requires Inv(p) && p.closing.Pushing? && Q.Quiescent(p.queue)
    ensures CanMove(p)
  {
    assert ThreadOk(p, p.closer) && Q.AtRest(p.queue.pc[p.closer]);
    assert p.queue.pc[p.closer] in p.queue.pc;
    if p.closing.stops < p.workers {
      assert Enabled<J>(p, PushStop);
    } else {
      assert Enabled<J>(p, StartJoin);
    }
  }

  lemma JoiningNeverStuck<J(!new)>(p: Pool<J>)
    requires Inv(p) && p.closing.Joining? && Q.Quiescent(p.queue)
    ensures CanMove(p)
  {
    if p.closing.joined == p.workers {
      assert Enabled<J>(p, Return);
    } else {
      var w := p.closing.joined;
      NobodySleeps(p, w);
      assert ThreadOk(p, w);
      match p.mode[w]
      case Loop => assert Enabled<J>(p, CallPop(w));
      case Running(_) => assert Enabled<J>(p, Finish(w));
      case Exited => assert Enabled<J>(p, Join);
    }
  }

  /** From its call until the destructor has returned, some step that owes nothing to chance can be
      taken. */
  lemma ShutdownNeverStuck<J(!new)>(p: Pool<J>)
    requires Inv(p) && p.closing != Open && p.closing != Closed
    ensures CanMove(p)
  {
    if !Q.Quiescent(p.queue) {
      var t :| 0 <= t < |p.mode| && !Q.AtRest(p.queue.pc[t]);
      Q.BusyThreadOrOwnerCanMove(p.queue, t);
      var a :| Q.Internal(a) && Q.Enabled(p.queue, a);
      assert Enabled(p, Inner(a));
    } else if p.closing.Pushing? {
      PushingNeverStuck(p);
    } else {
      JoiningNeverStuck(p);
    }
  }

  function Burden<J>(mode: Mode<J>): nat { if mode.Running? then 8 else 0 }

  /** What a thread may still cost if nothing new is dispatched.  A thread that pushes may be running
      a job, with which it goes on afterwards. */
  function Load<J>(mode: Mode<J>, pc: Q.Pc): nat {
    match pc
    case PushLock => 12 + Burden(mode)
    case PushWoken => 12 + Burden(mode)
    case PushHold => 11 + Burden(mode)
    case PushWait => 10 + Burden(mode)
    case PushDone => 4 + Burden(mode)
    case PushNotify => 3 + Burden(mode)
    case PopDone => 10
    case PopNotify => 9
    case PopLock => 6
    case PopWoken => 6
    case PopHold => 5
    case PopWait => 4
    case Idle => if mode.Loop? then 7 else Burden(mode)
  }

  function Loads<J>(p: Pool<J>): seq<nat>
    requires |p.mode| == |p.queue.pc|
  {
    seq(|p.mode|, t requires 0 <= t < |p.mode| => Load(p.mode[t], p.queue.pc[t]))
  }

  function Sum(xs: seq<nat>): nat {
    if xs == [] then 0 else Sum(xs[..|xs| - 1]) + xs[|xs| - 1]
  }

  lemma {:induction false} SumUpdate(xs: seq<nat>, i: nat, y: nat)
    requires i < |xs|
    ensures Sum(xs[i := y]) == Sum(xs) - xs[i] + y
  {
    var n := |xs| - 1;
    if i == n {
      assert xs[i := y][..n] == xs[..n];
    } else {
      assert xs[i := y][..n] == xs[..n][i := y];
      SumUpdate(xs[..n], i, y);
    }
  }

  /** What the destructor itself may still do. */
  function Ahead(workers: int, c: Closing): int {
    match c
    case Open => 0
    case Pushing(k) => 13 * (workers - k) + workers + 2
    case Joining(j) => workers - j + 1
    case Closed => 0
  }

  function Remaining<J>(p: Pool<J>): int
    requires |p.mode| == |p.queue.pc|
  {
    Sum(Loads(p)) + 6 * |p.queue.q| + Ahead(p.workers, p.closing)
  }

  predicate Wakes<J>(s: Step<J>) { s.Inner? && s.a.Notify? && s.a.wake.Some? }

  /** Steps other than those with which a client begins something new. */
  predicate Onward<J>(s: Step<J>) { !s.Dispatch? && !s.Destroy? }

  predicate BySurprise<J>(s: Step<J>) { s.Inner? && s.a.Spurious? }

  lemma LoadsAfter<J>(p: Pool<J>, p': Pool<J>, t: nat)
    requires t < |p.mode| == |p.queue.pc| == |p'.mode| == |p'.queue.pc|
    requires p'.queue.pc == p.queue.pc[t := p'.queue.pc[t]] && p'.mode == p.mode[t := p'.mode[t]]
    ensures Sum(Loads(p')) == Sum(Loads(p)) - Load(p.mode[t], p.queue.pc[t]) + Load(p'.mode[t], p'.queue.pc[t])
  {
    assert Loads(p') == Loads(p)[t := Load(p'.mode[t], p'.queue.pc[t])];
    SumUpdate(Loads(p), t, Load(p'.mode[t], p'.queue.pc[t]));
  }

  lemma DestructorShrinks<J(!new)>(p: Pool<J>, s: Step<J>)
    requires Inv(p) && p.closing != Open && Enabled(p, s) && (s.StartJoin? || s.Join? || s.Return?)
    ensures Remaining(Do(p, s)) + 1 <= Remaining(p)
  {
    assert Loads(Do(p, s)) == Loads(p);
  }

  lemma PushStopShrinks<J(!new)>(p: Pool<J>)
    requires Inv(p) && Enabled<J>(p, PushStop)
    ensures Remaining(Do(p, PushStop)) + 1 <= Remaining(p)
  {
    assert ThreadOk(p, p.closer);
    LoadsAfter(p, Do(p, PushStop), p.closer);
  }

  lemma CallPopShrinks<J(!new)>(p: Pool<J>, t: nat)
    requires Inv(p) && Enabled<J>(p, CallPop(t))
    ensures Remaining(Do(p, CallPop(t))) + 1 <= Remaining(p)
  {
    LoadsAfter(p, Do(p, CallPop(t)), t);
  }

  lemma FinishShrinks<J(!new)>(p: Pool<J>, t: nat)
    requires Inv(p) && Enabled<J>(p, Finish(t))
    ensures Remaining(Do(p, Finish(t))) + 1 <= Remaining(p)
  {
    LoadsAfter(p, Do(p, Finish(t)), t);
  }

  lemma OuterShrinks<J(!new)>(p: Pool<J>, s: Step<J>)
    requires Inv(p) && Enabled(p, s) && !s.Inner? && Onward(s)
    ensures Remaining(Do(p, s)) + 1 <= Remaining(p)
  {
    if s.PushStop? {
      PushStopShrinks(p);
    } else if s.CallPop? {
      CallPopShrinks(p, s.t);
    } else if s.Finish? {
      FinishShrinks(p, s.t);
    } else {
      DestructorShrinks(p, s);
    }
  }

  lemma InnerTouchesOne<J(!new)>(p: Pool<J>, a: Q.Step<Item<J>>)
    requires Inv(p) && Enabled(p, Inner(a)) && !Wakes<J>(Inner(a))
    ensures var t, p' := a.t, InnerStep(p, a);
            && t < |p.mode| == |p'.mode| == |p'.queue.pc|
            && p'.queue.pc == p.queue.pc[t := p'.queue.pc[t]] && p'.mode == p.mode[t := p'.mode[t]]
  {
    assert ThreadOk(p, a.t);
  }

  lemma TryCosts<J(!new)>(p: Pool<J>, t: nat)
    requires Inv(p) && Enabled(p, Inner(Q.Try(t)))
    ensures var p' := InnerStep(p, Q.Try(t));
            && |p'.mode| == |p'.queue.pc| && t < |p.mode|
            && Load(p'.mode[t], p'.queue.pc[t]) + 6 * |p'.queue.q| + 1 <= Load(p.mode[t], p.queue.pc[t]) + 6 * |p.queue.q|
  {
    assert p.queue.pc[t] in p.queue.pc;
  }

  lemma NotifyCosts<J(!new)>(p: Pool<J>, t: nat)
    requires Inv(p) && Enabled(p, Inner(Q.Notify(t, None)))
    ensures var p' := InnerStep(p, Q.Notify(t, None));
            && |p'.mode| == |p'.queue.pc| && t < |p.mode| && p'.queue.q == p.queue.q
            && Load(p'.mode[t], p'.queue.pc[t]) + 1 <= Load(p.mode[t], p.queue.pc[t])
  {
    assert ThreadOk(p, t);
  }

  lemma OtherCosts<J(!new)>(p: Pool<J>, a: Q.Step<Item<J>>)
    requires Inv(p) && Enabled(p, Inner(a)) && !a.Notify? && !a.Try?
    ensures var p' := InnerStep(p, a);
            && |p'.mode| == |p'.queue.pc| && a.t < |p.mode| && p'.queue.q == p.queue.q
            && Load(p'.mode[a.t], p'.queue.pc[a.t]) + 1
               <= Load(p.mode[a.t], p.queue.pc[a.t]) + (if a.Spurious? then 3 else 0)
  {
    assert ThreadOk(p, a.t);
  }

  lemma InnerCosts<J(!new)>(p: Pool<J>, a: Q.Step<Item<J>>)
    requires Inv(p) && Enabled(p, Inner(a)) && !Wakes<J>(Inner(a))
    ensures var p' := InnerStep(p, a);
            && |p'.mode| == |p'.queue.pc| && a.t < |p.mode|
            && Load(p'.mode[a.t], p'.queue.pc[a.t]) + 6 * |p'.queue.q| + 1
               <= Load(p.mode[a.t], p.queue.pc[a.t]) + 6 * |p.queue.q| + (if a.Spurious? then 3 else 0)
  {
    if a.Try? {
      TryCosts(p, a.t);
    } else if a.Notify? {
      NotifyCosts(p, a.t);
    } else {
      OtherCosts(p, a);
    }
  }

  /** Only pushes wake anybody, and only poppers sleep: the queue is unbounded. */
  lemma WakeTouchesTwo<J(!new)>(p: Pool<J>, a: Q.Step<Item<J>>)
    requires Inv(p) && Enabled(p, Inner(a)) && Wakes<J>(Inner(a))
    ensures var t, w, p' := a.t, a.wake.value, InnerStep(p, a);
            && t < |p.queue.pc| && w < |p.queue.pc| && t != w
            && p.queue.pc[t] == Q.PushNotify && p.queue.pc[w] == Q.PopWait && !p.mode[t].Loop?
            && p' == p.(queue := p'.queue) && p'.queue.pc == p.queue.pc[t := Q.Idle][w := Q.PopWoken]
            && p'.queue.q == p.queue.q
  {
    assert ThreadOk(p, a.t);
    assert p.queue.pc[a.wake.value] in p.queue.pc;
  }

  lemma TwoLoads<J>(p: Pool<J>, p': Pool<J>, t: nat, w: nat)
    requires |p.mode| == |p.queue.pc| && t < |p.queue.pc| && w < |p.queue.pc| && t != w
    requires p.queue.pc[t] == Q.PushNotify && p.queue.pc[w] == Q.PopWait && !p.mode[t].Loop?
    requires p'.mode == p.mode && p'.queue.pc == p.queue.pc[t := Q.Idle][w := Q.PopWoken]
    ensures Sum(Loads(p')) == Sum(Loads(p)) - 1
  {
    var half := p.(queue := p.queue.(pc := p.queue.pc[t := Q.Idle]));
    LoadsAfter(p, half, t);
    LoadsAfter(half, p', w);
  }

  lemma WakeShrinks<J(!new)>(p: Pool<J>, a: Q.Step<Item<J>>)
    requires Inv(p) && Enabled(p, Inner(a)) && Wakes<J>(Inner(a))
    ensures var p' := InnerStep(p, a); |p'.mode| == |p'.queue.pc| && Remaining(p') + 1 <= Remaining(p)
  {
    WakeTouchesTwo(p, a);
    TwoLoads(p, InnerStep(p, a), a.t, a.wake.value);
  }

  lemma InnerShrinks<J(!new)>(p: Pool<J>, a: Q.Step<Item<J>>)
    requires Inv(p) && Enabled(p, Inner(a)) && Framed(InnerStep(p, a))
    ensures Remaining(InnerStep(p, a)) + 1 <= Remaining(p) + (if a.Spurious? then 3 else 0)
  {
    if Wakes<J>(Inner(a)) {
      WakeShrinks(p, a);
    } else {
      InnerTouchesOne(p, a);
      InnerCosts(p, a);
      LoadsAfter(p, InnerStep(p, a), a.t);
    }
  }

  lemma StepShrinks<J(!new)>(p: Pool<J>, s: Step<J>)
    requires Inv(p) && Enabled(p, s) && Framed(Do(p, s)) && Onward(s)
    ensures Remaining(Do(p, s)) + 1 <= Remaining(p) + (if BySurprise(s) then 3 else 0)
  {
    if s.Inner? { InnerShrinks(p, s.a); } else { OuterShrinks(p, s); }
  }

  function Surprises<J>(run: seq<Step<J>>): nat {
    if run == [] then 0 else (if BySurprise(run[0]) then 1 else 0) + Surprises(run[1..])
  }

  lemma RemainingNat<J>(p: Pool<J>)
    requires Framed(p) && Joined(p) && Sorted(p)
    ensures Remaining(p) >= 0
  {
  }

  /** From the call of the destructor on every schedule is finite: apart from three for each spurious
      wakeup at most Remaining steps are left.  As the destructor is never stuck before it returns
      (ShutdownNeverStuck), it returns. */
  lemma {:induction false} ShutdownTerminates<J(!new)>(p: Pool<J>, run: seq<Step<J>>, p': Pool<J>)
    requires Inv(p) && p.closing != Open && Runs(p, run, p')
    ensures |run| <= Remaining(p) + 3 * Surprises(run)
    ensures Inv(p') && p'.closing != Open && (CanMove(p') || p'.closing == Closed)
    decreases |run|
  {
    RemainingNat(p);
    if run == [] {
      if p.closing != Closed { ShutdownNeverStuck(p); }
    } else {
      StepKeepsInv(p, run[0]);
      StepShrinks(p, run[0]);
      ShutdownTerminates(Do(p, run[0]), run[1..], p');
    }
  }

  // ---------------------------------------------------------------- the open pool works

  /** Some step can be taken that neither begins something new nor owes anything to chance. */
  ghost predicate CanWork<J(!new)>(p: Pool<J>)
    requires |p.mode| == |p.queue.pc|
  {
    exists s: Step<J> :: Onward(s) && Enabled(p, s) && !BySurprise(s)
  }

  /** Everything any thread has dispatched is in the queue's history. */
  ghost predicate NothingPending<J>(p: Pool<J>) {
    |p.queue.pushedBy| == |p.queue.pushed| && |p.queue.issued| == |p.mode| &&
    forall t :: 0 <= t < |p.mode| ==> Q.By(p.queue.pushedBy, p.queue.pushed, t) == p.queue.issued[t]
  }

  /** Everything dispatched has been pushed, popped and completed, each as often. */
  ghost predicate AllDone<J(!new)>(p: Pool<J>) {
    p.queue.q == [] && NothingPending(p) && multiset(Items(p.finished)) == multiset(p.queue.pushed)
  }

  lemma ExitedTookStop<J(!new)>(p: Pool<J>, t: nat)
    requires Inv(p) && t < |p.mode| && p.queue.pc[t] == Q.Idle
    ensures p.mode[t].Exited? ==> Stop in p.queue.popped
  {
    assert p.mode[t].Exited? ==> Hands(p)[t] == Some(Stop) && Hands(p)[t] in Hands(p);
    CountZero(Hands(p), Some(Stop));
    CountZero(p.queue.popped, Stop);
  }

  lemma OpenHasNoStop<J(!new)>(p: Pool<J>)
    requires Inv(p) && p.closing == Open
    ensures Stop !in p.queue.popped
  {
    assert p.queue.pushed == p.queue.popped + p.queue.q;
    forall i | 0 <= i < |p.queue.popped| ensures p.queue.popped[i].Job? {
      assert p.queue.pushed[i].Job?;
    }
  }

  /** No worker leaves an open pool. */
  lemma NotExited<J(!new)>(p: Pool<J>, t: nat)
    requires Inv(p) && p.closing == Open && t < |p.mode| && p.queue.pc[t] == Q.Idle
    ensures !p.mode[t].Exited?
  {
    ExitedTookStop(p, t);
    OpenHasNoStop(p);
  }

  lemma IdleWorkerWorks<J(!new)>(p: Pool<J>, t: nat)
    requires Inv(p) && p.closing == Open && t < p.workers && p.queue.pc[t] == Q.Idle
    ensures CanWork(p)
  {
    assert ThreadOk(p, t);
    NotExited(p, t);
    if p.mode[t].Loop? {
      assert Enabled<J>(p, CallPop(t)) && Onward<J>(CallPop(t));
    } else {
      assert Enabled<J>(p, Finish(t)) && Onward<J>(Finish(t));
    }
  }

  lemma StuckThread<J(!new)>(p: Pool<J>, t: nat)
    requires Inv(p) && p.closing == Open && !CanWork(p) && Q.Quiescent(p.queue) && t < |p.mode|
    ensures if t < p.workers then p.queue.pc[t] == Q.PopWait else p.queue.pc[t] == Q.Idle
  {
    assert ThreadOk(p, t) && Q.AtRest(p.queue.pc[t]);
    assert p.queue.pc[t] in p.queue.pc;
    if t < p.workers && p.queue.pc[t] == Q.Idle { IdleWorkerWorks(p, t); }
  }

  lemma NothingInHands<J(!new)>(p: Pool<J>, x: Item<J>)
    requires Inv(p) && forall t :: 0 <= t < |p.mode| ==> Hands(p)[t] == None
    ensures Count(p.queue.popped, x) == Count(Items(p.finished), x)
  {
    CountZero(Hands(p), Some(x));
  }

  lemma SameMultiset<X(!new)>(a: seq<X>, b: seq<X>)
    requires forall x :: Count(a, x) == Count(b, x)
    ensures multiset(a) == multiset(b)
  {
    forall x: X ensures multiset(a)[x] == multiset(b)[x] {
      CountIsMultiplicity(a, x);
      CountIsMultiplicity(b, x);
    }
  }

  lemma BusyCanWork<J(!new)>(p: Pool<J>, t: nat)
    requires Inv(p) && t < |p.mode|
    ensures !Q.AtRest(p.queue.pc[t]) ==> CanWork(p)
  {
    if !Q.AtRest(p.queue.pc[t]) {
      Q.BusyThreadOrOwnerCanMove(p.queue, t);
      var a :| Q.Internal(a) && Q.Enabled(p.queue, a);
      assert Enabled(p, Inner(a)) && Onward(Inner(a)) && !BySurprise(Inner(a));
    }
  }

  lemma StuckIsQuiescent<J(!new)>(p: Pool<J>)
    requires Inv(p) && !CanWork(p)
    ensures Q.Quiescent(p.queue)
  {
    forall t: nat | t < |p.mode| { BusyCanWork(p, t); }
  }

  lemma StuckQueueEmpty<J(!new)>(p: Pool<J>)
    requires Inv(p) && p.closing == Open && !CanWork(p) && Q.Quiescent(p.queue)
    ensures p.queue.q == []
  {
    if p.workers > 0 {
      StuckThread(p, 0);
      assert p.queue.pc[0] in p.queue.pc;
      Q.QuiescentCounts(p.queue);
    }
  }

  /** While anything dispatched to an open pool is not completed, queued or running or on its way into
      the queue, some step can be taken that is neither a new dispatch nor a spurious wakeup. */
  lemma OpenStuckIsDone<J(!new)>(p: Pool<J>)
    requires Inv(p) && p.closing == Open && !CanWork(p)
    ensures AllDone(p)
  {
    StuckIsQuiescent(p);
    StuckQueueEmpty(p);
    forall t: nat | t < |p.mode| ensures Hands(p)[t] == None && Q.By(p.queue.pushedBy, p.queue.pushed, t) == p.queue.issued[t] {
      StuckThread(p, t);
      assert ThreadOk(p, t);
      Q.InvSettles(p.queue, t);
    }
    assert p.queue.popped == p.queue.pushed;
    forall x { NothingInHands(p, x); }
    SameMultiset(Items(p.finished), p.queue.pushed);
  }

  lemma OnwardStaysOpen<J(!new)>(p: Pool<J>, s: Step<J>)
    requires Inv(p) && p.closing == Open && Enabled(p, s) && Onward(s)
    ensures Do(p, s).closing == Open
  {
  }

  /** Without new dispatches an open pool comes to rest on every schedule: apart from three for each
      spurious wakeup at most Remaining steps are left, and it rests only when all is done. */
  lemma {:induction false} OpenSettles<J(!new)>(p: Pool<J>, run: seq<Step<J>>, p': Pool<J>)
    requires Inv(p) && p.closing == Open && Runs(p, run, p') && forall s :: s in run ==> Onward(s)
    ensures |run| <= Remaining(p) + 3 * Surprises(run)
    ensures Inv(p') && p'.closing == Open && (CanWork(p') || AllDone(p'))
    decreases |run|
  {
    RemainingNat(p);
    if run == [] {
      if !CanWork(p) { OpenStuckIsDone(p); }
    } else {
      assert run[0] in run && forall s :: s in run[1..] ==> s in run;
      StepKeepsInv(p, run[0]);
      StepShrinks(p, run[0]);
      OnwardStaysOpen(p, run[0]);
      OpenSettles(Do(p, run[0]), run[1..], p');
    }
  }

  lemma RunsOne<J(!new)>(p: Pool<J>, s: Step<J>, run: seq<Step<J>>, p': Pool<J>)
    requires Inv(p) && Enabled(p, s) && Runs(Do(p, s), run, p')
    ensures Runs(p, [s] + run, p')
  {
    assert ([s] + run)[1..] == run;
  }

  lemma ClosingWorks<J(!new)>(p: Pool<J>)
    requires Inv(p) && p.closing != Open && CanMove(p)
    ensures CanWork(p)
  {
    var s: Step<J> :| Enabled(p, s) && !(s.Inner? && s.a.Spurious?);
    assert Onward(s);
  }

  lemma StaysOpenOrNot<J(!new)>(p: Pool<J>, s: Step<J>)
    requires Inv(p) && Enabled(p, s) && Onward(s)
    ensures Do(p, s).closing == Open <==> p.closing == Open
  {
  }

  /** And it can: from every state of the pool some run without new dispatches and without spurious
      wakeups leads to where nothing is left to do: all done, or the destructor returned. */
  lemma {:induction false} CanSettle<J(!new)>(p: Pool<J>) returns (run: seq<Step<J>>, p': Pool<J>)
    requires Inv(p)
    ensures Runs(p, run, p') && (forall s :: s in run ==> Onward(s) && !BySurprise(s)) && Inv(p')
    ensures if p.closing == Open then p'.closing == Open && AllDone(p') else p'.closing == Closed
    decreases Remaining(p)
  {
    run, p' := [], p;
    if CanWork(p) {
      var s :| Onward(s) && Enabled(p, s) && !BySurprise(s);
      StepKeepsInv(p, s);
      StepShrinks(p, s);
      RemainingNat(p);
      RemainingNat(Do(p, s));
      StaysOpenOrNot(p, s);
      run, p' := CanSettle(Do(p, s));
      RunsOne(p, s, run, p');
      run := [s] + run;
    } else if p.closing == Open {
      OpenStuckIsDone(p);
    } else if p.closing != Closed {
      ShutdownNeverStuck(p);
      ClosingWorks(p);
    }
  }

  /** Who may begin something new, and when: in an open pool with workers an idle client and a thread
      that runs a job may dispatch, and an idle client may destroy the pool once no dispatch() is in
      progress. */
  lemma NewWorkIsAccepted<J(!new)>(p: Pool<J>, t: nat, job: J)
    requires Inv(p) && p.closing == Open && t < |p.mode| && p.queue.pc[t] == Q.Idle
    ensures p.workers > 0 && (t >= p.workers || p.mode[t].Running?) ==> Enabled(p, Step.Dispatch(t, job))
    ensures t >= p.workers && (forall u :: 0 <= u < |p.mode| ==> !Q.InPush(p.queue.pc[u])) ==> Enabled<J>(p, Destroy(t))
  {
    assert ThreadOk(p, t);
  }

  // ---------------------------------------------------------------- the pool as an object

  lemma DispatchPends<J(!new)>(p: Pool<J>, t: nat, job: J)
    requires Inv(p) && Enabled(p, Step.Dispatch(t, job))
    ensures Q.By(p.queue.pushedBy, p.queue.pushed, t) == p.queue.issued[t]
    ensures forall i :: 0 <= i < |p.queue.pushed| ==> p.queue.pushed[i].Job?
  {
    Q.InvSettles(p.queue, t);
  }

  lemma DestroyFindsAll<J(!new)>(p: Pool<J>, t: nat)
    requires Inv(p) && Enabled(p, Destroy(t))
    ensures NothingPending(p)
  {
    forall u: nat | u < |p.mode| { Q.InvSettles(p.queue, u); }
  }

  lemma DestroyBegins<J(!new)>(p: Pool<J>, t: nat)
    requires Inv(p) && Enabled(p, Destroy(t))
    ensures var p' := Do(p, Destroy(t)); Inv(p') && p'.jobs == |p'.queue.pushed| && NothingPending(p')
  {
    StepKeepsInv(p, Destroy(t));
    DestroyFindsAll(p, t);
  }

  lemma StopPends<J(!new)>(p: Pool<J>)
    requires Inv(p) && Enabled<J>(p, PushStop)
    ensures Q.Inv(p.queue) && Q.Enabled(p.queue, Q.CallPush(p.closer, Stop))
    ensures |p.queue.pushed| == p.jobs + p.closing.stops
    ensures forall i :: 0 <= i < |p.queue.pushed| ==> (p.queue.pushed[i].Stop? <==> i >= p.jobs)
  {
  }

  lemma TakenIsLegal<J(!new)>(p: Pool<J>, t: nat)
    requires Inv(p) && t < |p.mode| && p.queue.pc[t] == Q.PopNotify
    ensures Q.Inv(p.queue) && p.queue.reg[t].Some?
    ensures p.queue.reg[t].value in p.queue.popped && p.queue.popped <= p.queue.pushed
    ensures p.queue.reg[t] == Some(Stop) ==> p.closing != Open
  {
    assert ThreadOk(p, t) && Hands(p)[t] == p.queue.reg[t];
    var x := p.queue.reg[t].value;
    CountZero(Hands(p), Some(x));
    CountZero(p.queue.popped, x);
    assert Hands(p)[t] in Hands(p);
    assert p.queue.pushed == p.queue.popped + p.queue.q;
    if p.closing == Open {
      var i :| 0 <= i < |p.queue.popped| && p.queue.popped[i] == x;
      assert p.queue.pushed[i].Job?;
    }
  }

  ghost predicate JoinedHoldStops<J>(p: Pool<J>, joined: nat) {
    && joined <= |p.mode| == |p.queue.pc| == |p.queue.reg|
    && forall w :: 0 <= w < joined ==> p.mode[w].Exited? && Hand(p, w) == Some(Stop)
  }

  lemma JoinedKeepStops<J(!new)>(p: Pool<J>)
    requires Inv(p) && p.closing.Joining?
    ensures JoinedHoldStops(p, p.closing.joined)
  {
    forall w | 0 <= w < p.closing.joined ensures p.mode[w].Exited? && Hand(p, w) == Some(Stop) {
      assert ThreadOk(p, w);
    }
  }

  lemma FinishedWasPushed<J(!new)>(p: Pool<J>, j: J)
    requires Inv(p)
    ensures Count(Items(p.finished), Job(j)) <= Count(p.queue.pushed, Job(j))
  {
    CountAppend(p.queue.popped, p.queue.q, Job(j));
  }

  /** The pool over its queue object.  As in class Queue each method is one uninterrupted region,
      keeps the whole invariant and says what its caller may conclude; steps inside push() and pop()
      other than a pop()'s return are those of the queue itself. */
  class ThreadPool<J(!new)> {
    const workers: nat
    const tasks: Q.Queue<Item<J>>
    var mode: seq<Mode<J>>
    var closer: nat
    var closing: Closing
    ghost var jobs: nat
    ghost var finished: seq<J>

    ghost function View(): Pool<J>
      reads this, tasks
    {
      Pool(workers, tasks.View(), mode, closer, closing, jobs, finished)
    }

    ghost predicate Valid()
      reads this, tasks
    {
      Inv(View())
    }

    /** Starts the workers one by one. */
    constructor (workers: nat, clients: nat)
      ensures fresh(tasks) && View() == Init(workers, clients) && Valid()
    {
      this.workers := workers;
      tasks := new Q.Queue<Item<J>>(None, workers + clients);
      var started: seq<Mode<J>> := [];
      for i := 0 to workers
        invariant |started| == i && forall k :: 0 <= k < i ==> started[k] == Loop
      {
        started := started + [Loop];
      }
      mode := started + seq(clients, _ => Client);
      closer, closing, jobs, finished := 0, Open, 0, [];
      new;
      InitInv<J>(workers, clients);
    }

    /** dispatch(): the job is the only one of t that is not yet in the queue's history, which holds
        nothing but jobs. */
    method Dispatch(t: nat, job: J)
      requires Valid() && Enabled(View(), Step.Dispatch(t, job))
      modifies tasks
      ensures View() == Do(old(View()), Step.Dispatch(t, job)) && Valid()
      ensures Q.By(tasks.pushedBy, tasks.pushed, t) + [Job(job)] == tasks.issued[t]
      ensures forall i :: 0 <= i < |tasks.pushed| ==> tasks.pushed[i].Job?
    {
      StepKeepsInv(View(), Step.Dispatch(t, job));
      DispatchPends(View(), t, job);
      tasks.EnterPush(t, Job(job));
    }

    /** The destructor is called: all that was ever dispatched is already in the queue's history. */
    method BeginDestroy(t: nat)
      requires Valid() && Enabled(View(), Destroy(t))
      modifies this
      ensures View() == Do(old(View()), Destroy(t)) && Valid()
      ensures jobs == |tasks.pushed| && NothingPending(View())
    {
      ghost var p := View();
      DestroyBegins(p, t);
      closer, closing, jobs := t, Pushing(0), |tasks.pushed|;
    }

    method CallStop()
      requires tasks.Valid() && Q.Enabled(tasks.View(), Q.CallPush(closer, Stop)) && closing.Pushing?
      modifies this`closing, tasks
      ensures tasks.View() == Q.Do(old(tasks.View()), Q.CallPush(closer, Stop))
      ensures closing == Pushing(old(closing).stops + 1)
    {
      tasks.EnterPush(closer, Stop);
      closing := Pushing(closing.stops + 1);
    }

    /** One round of the destructor's first loop.  The history is that of the jobs followed by the
        stop items pushed before this one. */
    method PushNextStop()
      requires Valid() && Enabled(View(), PushStop)
      modifies this, tasks
      ensures View() == Do(old(View()), PushStop) && Valid()
      ensures |tasks.pushed| == jobs + old(closing).stops
      ensures forall i :: 0 <= i < |tasks.pushed| ==> (tasks.pushed[i].Stop? <==> i >= jobs)
    {
      StepKeepsInv(View(), PushStop);
      StopPends(View());
      CallStop();
    }

    /** The first loop is over: there is one stop item for each worker. */
    method BeginJoin()
      requires Valid() && Enabled(View(), StartJoin)
      modifies this
      ensures View() == Do(old(View()), StartJoin) && Valid()
      ensures |tasks.pushed| == jobs + workers
    {
      StepKeepsInv(View(), StartJoin);
      closing := Joining(0);
    }

    /** One round of the destructor's second loop: returns once worker number joined has, which then
        keeps its one stop item. */
    method JoinNext()
      requires Valid() && Enabled(View(), Join)
      modifies this
      ensures View() == Do(old(View()), Join) && Valid()
      ensures JoinedHoldStops(View(), closing.joined)
    {
      StepKeepsInv(View(), Join);
      closing := Joining(closing.joined + 1);
      JoinedKeepStops(View());
    }

    /** The destructor returns: the queue is empty, and the jobs finished are those dispatched, each
        as often. */
    method EndDestroy()
      requires Valid() && Enabled(View(), Return)
      modifies this
      ensures View() == Do(old(View()), Return) && Valid()
      ensures tasks.q == [] && multiset(Items(finished)) == multiset(tasks.pushed[..jobs])
    {
      StepKeepsInv(View(), Return);
      closing := Closed;
      ClosedFinished(View());
    }

    method AskForItem(t: nat)
      requires Valid() && Enabled(View(), CallPop(t))
      modifies tasks
      ensures View() == Do(old(View()), CallPop(t)) && Valid()
    {
      StepKeepsInv(View(), CallPop(t));
      tasks.EnterPop(t);
    }

    method PopReturns(t: nat) returns (wake: Option<nat>)
      requires tasks.Valid() && t < |mode| == |tasks.pc| && tasks.pc[t] == Q.PopNotify && tasks.reg[t].Some?
      modifies this`mode, tasks
      ensures Q.Enabled(old(tasks.View()), Q.Notify(t, wake))
      ensures tasks.View() == Q.Do(old(tasks.View()), Q.Notify(t, wake))
      ensures mode == old(mode)[t := Receive(old(tasks.reg[t]).value)]
    {
      var item := tasks.reg[t].value;
      wake := tasks.NotifyOne(t);
      if item.Stop? {
        mode := mode[t := Exited];
      } else {
        mode := mode[t := Running(item.job)];
      }
    }

    /** pop() returns to the worker loop, which leaves on a stop item and else starts the job.  A
        worker leaves only once the destructor has been called; a job it starts was dispatched. */
    method TakeItem(t: nat) returns (wake: Option<nat>)
      requires Valid() && t < |mode| && tasks.pc[t] == Q.PopNotify
      modifies this, tasks
      ensures Enabled(old(View()), Inner(Q.Notify(t, wake)))
      ensures View() == Do(old(View()), Inner(Q.Notify(t, wake))) && Valid()
      ensures mode[t].Exited? || mode[t].Running?
      ensures mode[t].Exited? ==> closing != Open
      ensures mode[t].Running? ==> Job(mode[t].job) in tasks.popped && tasks.popped <= tasks.pushed
    {
      TakenIsLegal(View(), t);
      wake := PopReturns(t);
      StepKeepsInv(old(View()), Inner(Q.Notify(t, wake)));
    }

    /** A job completes; none ever does so more often than it was pushed. */
    method CompleteJob(t: nat)
      requires Valid() && Enabled(View(), Finish(t))
      modifies this
      ensures View() == Do(old(View()), Finish(t)) && Valid()
      ensures forall j :: Count(Items(finished), Job(j)) <= Count(tasks.pushed, Job(j))
    {
      StepKeepsInv(View(), Finish(t));
      finished := finished + [mode[t].job];
      mode := mode[t := Loop];
      forall j { FinishedWasPushed(View(), j); }
    }
  }
}
