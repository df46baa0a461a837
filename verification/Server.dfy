/** The life of a server: an accept thread that detaches one thread for each connection, a running
    flag that anybody may clear, and a status object that is local to the accept thread although
    every connection thread refers to it.  Only the count of sentries keeps that sound.

    The threads are interleaved step by step.  A step is one access to shared state (the flag, the
    counters) or one call into code outside the model (accepting, the handler, reading a line),
    whose outcome is arbitrary. */
module Server {

  // The accept thread.
  datatype Pc =
    | AtFlag                  // about to test the running flag
    | Accepting               // waiting for a connection, with a timeout
    | Accepted                // has a connection, about to count it in the total
    | Counted                 // about to make the sentry
    | Starting                // holds the sentry, starting the connection's thread
    | Looking                 // the accept loop has ended: about to read connections_current
    | Sleeping                // it was not zero
    | Returned                // the status object is gone

  // A connection, from the making of its sentry on.
  datatype ConnPc =
    | Launching               // the sentry is still in the hands of the accept thread
    | Fresh                   // the thread runs: about to test the flag
    | Greeting                // in the welcome writer
    | Testing                 // about to test the flag before reading a line
    | Reading                 // in getline()
    | Handling                // in the handler
    | Caught                  // a shutdown exception escaped, about to clear the flag
    | Lingering               // reading until the client closes
    | Finished                // operator() has returned, the sentry is still there
    | Gone                    // the sentry is destroyed

  // How a call into user code ends; Quit is the handler's false.
  datatype Outcome = Normal | Quit | Failure | Shutdown

  // `calls` is the number of handler calls started.
  datatype Conn = Conn(pc: ConnPc, calls: nat)

  // `current` and `total` are the counters of the status object; `accepts` is the number of
  // connections accepted.
  datatype State = State(
    linger: bool,             // shutdown_wait_for_client_close
    running: bool,
    pc: Pc,
    conns: seq<Conn>,
    current: int,
    total: nat,
    accepts: nat)

  datatype Step =
    | TestFlag
    | Accept
    | NoConnection            // timeout, or an error and a pause
    | CountTotal
    | MakeSentry
    | Launch
    | Abort                   // an exception on the way to a running thread
    | Look
    | Wake
    | ClearFlag               // shutdown() called by anybody
    | Begin(i: nat)
    | Greet(i: nat, outcome: Outcome)
    | TestInThread(i: nat)
    | ReadLine(i: nat, got: bool)
    | Handle(i: nat, outcome: Outcome)
    | RequestShutdown(i: nat)
    | Drain(i: nat, closed: bool)
    | Leave(i: nat)

  predicate At(s: State, i: nat, pc: ConnPc) { i < |s.conns| && s.conns[i].pc == pc }

  predicate Enabled(s: State, a: Step) {
    match a
    case TestFlag => s.pc == AtFlag
    case Accept => s.pc == Accepting
    case NoConnection => s.pc == Accepting
    case CountTotal => s.pc == Accepted
    case MakeSentry => s.pc == Counted
    case Launch => s.pc == Starting && s.conns != []
    case Abort => s.pc == Accepted || s.pc == Counted || (s.pc == Starting && s.conns != [])
    case Look => s.pc == Looking
    case Wake => s.pc == Sleeping
    case ClearFlag => true
    case Begin(i) => At(s, i, Fresh)
    case Greet(i, outcome) => At(s, i, Greeting) && outcome != Quit
    case TestInThread(i) => At(s, i, Testing)
    case ReadLine(i, _) => At(s, i, Reading)
    case Handle(i, _) => At(s, i, Handling)
    case RequestShutdown(i) => At(s, i, Caught)
    case Drain(i, _) => At(s, i, Lingering)
    case Leave(i) => At(s, i, Finished)
  }

  // Connection i goes on at pc.
  function Goes(s: State, i: nat, pc: ConnPc): State
    requires i < |s.conns|
  {
    s.(conns := s.conns[i := s.conns[i].(pc := pc)])
  }

  // Where a connection thread goes on after user code has returned or thrown.
  function After(outcome: Outcome): ConnPc {
    match outcome
    case Normal => Testing
    case Quit => Finished
    case Failure => Finished
    case Shutdown => Caught
  }

  // A line is there: the handler is called.
  function Call(s: State, i: nat): State
    requires i < |s.conns|
  {
    s.(conns := s.conns[i := Conn(Handling, s.conns[i].calls + 1)])
  }

  function Do(s: State, a: Step): State
    requires Enabled(s, a)
  {
    match a
    case TestFlag => s.(pc := if s.running then Accepting else Looking)
    case Accept => s.(pc := Accepted, accepts := s.accepts + 1)
    case NoConnection => s.(pc := AtFlag)
    case CountTotal => s.(pc := Counted, total := s.total + 1)
    case MakeSentry =>
      s.(pc := Starting, current := s.current + 1, conns := s.conns + [Conn(Launching, 0)])
    case Launch => Goes(s, |s.conns| - 1, Fresh).(pc := AtFlag)
    case Abort =>
      if s.pc == Starting
      then Goes(s, |s.conns| - 1, Gone).(pc := AtFlag, current := s.current - 1)
      else s.(pc := AtFlag)
    case Look => s.(pc := if s.current == 0 then Returned else Sleeping)
    case Wake => s.(pc := Looking)
    case ClearFlag => s.(running := false)
    case Begin(i) => Goes(s, i, if s.running then Greeting else Finished)
    case Greet(i, outcome) => Goes(s, i, After(outcome))
    case TestInThread(i) => Goes(s, i, if s.running then Reading else Finished)
    case ReadLine(i, got) => if got then Call(s, i) else Goes(s, i, Finished)
    case Handle(i, outcome) => Goes(s, i, After(outcome))
    case RequestShutdown(i) => Goes(s, i, if s.linger then Lingering else Finished).(running := false)
    case Drain(i, closed) => if closed then Goes(s, i, Finished) else s
    case Leave(i) => Goes(s, i, Gone).(current := s.current - 1)
  }

  function Init(linger: bool): State {
    State(linger, true, AtFlag, [], 0, 0, 0)
  }

  ghost predicate Runs(s: State, run: seq<Step>, s': State)
    decreases |run|
  {
    if run == [] then s' == s
    else Enabled(s, run[0]) && Runs(Do(s, run[0]), run[1..], s')
  }

  lemma RunsOne(s: State, a: Step, run: seq<Step>, s': State)
    requires Enabled(s, a) && Runs(Do(s, a), run, s')
    ensures Runs(s, [a] + run, s')
  {
    assert ([a] + run)[1..] == run;
  }

  ghost predicate Reachable(s: State) {
    exists linger, run :: Runs(Init(linger), run, s)
  }

  // ---------------------------------------------------------------- totals over connections

  function Total(conns: seq<Conn>, f: ConnPc -> nat): nat {
    if conns == [] then 0 else Total(conns[..|conns| - 1], f) + f(conns[|conns| - 1].pc)
  }

  lemma {:induction false} TotalUpdate(conns: seq<Conn>, i: nat, c: Conn, f: ConnPc -> nat)
    requires i < |conns|
    ensures Total(conns[i := c], f) == Total(conns, f) - f(conns[i].pc) + f(c.pc)
  {
    var n := |conns| - 1;
    if i == n {
      assert conns[i := c][..n] == conns[..n];
    } else {
      assert conns[i := c][..n] == conns[..n][i := c];
      TotalUpdate(conns[..n], i, c, f);
    }
  }

  lemma TotalSnoc(conns: seq<Conn>, c: Conn, f: ConnPc -> nat)
    ensures Total(conns + [c], f) == Total(conns, f) + f(c.pc)
  {
    assert (conns + [c])[..|conns|] == conns;
  }

  lemma {:induction false} TotalZero(conns: seq<Conn>, f: ConnPc -> nat)
    ensures Total(conns, f) == 0 <==> forall i :: 0 <= i < |conns| ==> f(conns[i].pc) == 0
  {
    if conns != [] {
      var n := |conns| - 1;
      TotalZero(conns[..n], f);
      assert forall i :: 0 <= i < n ==> conns[..n][i] == conns[i];
    }
  }

  // A connection holds a sentry until the sentry is destroyed.
  function Holds(pc: ConnPc): nat { if pc == Gone then 0 else 1 }

  function Live(s: State): nat { Total(s.conns, Holds) }

  // ---------------------------------------------------------------- invariants

  predicate LoopEnded(s: State) { s.pc == Looking || s.pc == Sleeping || s.pc == Returned }

  // Only the last connection may still be in the hands of the accept thread, and only while a
  // thread is being started for it.
  predicate HandOver(s: State) {
    && (s.pc == Starting ==> s.conns != [])
    && forall i :: 0 <= i < |s.conns| ==> (s.conns[i].pc == Launching <==> s.pc == Starting && i == |s.conns| - 1)
  }

  predicate Totals(s: State) {
    && |s.conns| + (if s.pc == Counted then 1 else 0) <= s.total
    && s.total + (if s.pc == Accepted then 1 else 0) <= s.accepts
  }

  predicate Inv(s: State) {
    && s.current == Live(s)
    && HandOver(s)
    && (LoopEnded(s) ==> !s.running)
    && (s.pc == Returned ==> s.current == 0)
    && Totals(s)
  }

  // The connection a step is about.
  function Subject(s: State, a: Step): int {
    match a
    case Launch => |s.conns| - 1
    case Abort => if s.pc == Starting then |s.conns| - 1 else -1
    case Begin(i) => i
    case Greet(i, _) => i
    case TestInThread(i) => i
    case ReadLine(i, _) => i
    case Handle(i, _) => i
    case RequestShutdown(i) => i
    case Drain(i, _) => i
    case Leave(i) => i
    case _ => -1
  }

  /** Every step moves one connection, adds one, or leaves them all alone. */
  lemma OneConnection(s: State, a: Step, f: ConnPc -> nat)
    requires Enabled(s, a)
    ensures var i, s' := Subject(s, a), Do(s, a);
            if a.MakeSentry? then
              s'.conns == s.conns + [Conn(Launching, 0)] && Total(s'.conns, f) == Total(s.conns, f) + f(Launching)
            else if i == -1 then s'.conns == s.conns
            else 0 <= i < |s.conns| == |s'.conns| && s'.conns == s.conns[i := s'.conns[i]]
                 && Total(s'.conns, f) == Total(s.conns, f) - f(s.conns[i].pc) + f(s'.conns[i].pc)
  {
    var i := Subject(s, a);
    if a.MakeSentry? {
      TotalSnoc(s.conns, Conn(Launching, 0), f);
    } else if i != -1 {
      TotalUpdate(s.conns, i, Do(s, a).conns[i], f);
    }
  }

  lemma AcceptKeepsHandOver(s: State, a: Step)
    requires HandOver(s) && Enabled(s, a) && (a.MakeSentry? || a.Launch? || a.Abort?)
    ensures HandOver(Do(s, a))
  {
  }

  lemma OtherKeepsHandOver(s: State, a: Step)
    requires HandOver(s) && Enabled(s, a) && !a.MakeSentry? && !a.Launch? && !a.Abort?
    ensures HandOver(Do(s, a))
  {
  }

  lemma StepKeepsCount(s: State, a: Step)
    requires HandOver(s) && s.current == Live(s) && Enabled(s, a)
    ensures Do(s, a).current == Live(Do(s, a))
  {
    OneConnection(s, a, Holds);
  }

  lemma StepKeepsTotals(s: State, a: Step)
    requires Totals(s) && Enabled(s, a)
    ensures Totals(Do(s, a))
  {
  }

  lemma StepKeepsInv(s: State, a: Step)
    requires Inv(s) && Enabled(s, a)
    ensures Inv(Do(s, a))
  {
    if a.MakeSentry? || a.Launch? || a.Abort? { AcceptKeepsHandOver(s, a); } else { OtherKeepsHandOver(s, a); }
    StepKeepsCount(s, a);
    StepKeepsTotals(s, a);
    if s.pc == Returned {
      TotalZero(s.conns, Holds);
    }
  }

  lemma {:induction false} RunKeepsInv(s: State, run: seq<Step>, s': State)
    requires Inv(s) && Runs(s, run, s')
    ensures Inv(s')
    decreases |run|
  {
    if run != [] {
      StepKeepsInv(s, run[0]);
      RunKeepsInv(Do(s, run[0]), run[1..], s');
    }
  }

  lemma ReachableInv(s: State)
    requires Reachable(s)
    ensures Inv(s)
  {
    var linger, run :| Runs(Init(linger), run, s);
    RunKeepsInv(Init(linger), run, s);
  }

  // ---------------------------------------------------------------- the count is sound

  // A connection thread that may still read or change the status object.
  predicate UsesStatus(pc: ConnPc) { pc != Gone }

  /** `connections_current` is the number of live sentries, and when the accept thread has returned
      there are none: no connection is in the handler or will look at the status object. */
  lemma SentriesProtectTheStatus(s: State)
    requires Reachable(s)
    ensures s.current == Live(s)
    ensures s.pc == Returned ==> forall i :: 0 <= i < |s.conns| ==> !UsesStatus(s.conns[i].pc)
  {
    ReachableInv(s);
    TotalZero(s.conns, Holds);
  }

  /** Nothing happens after the return: every further run is made of calls to shutdown(). */
  lemma {:induction false} ReturnIsFinal(s: State, run: seq<Step>, s': State)
    requires Inv(s) && s.pc == Returned && Runs(s, run, s')
    ensures s' == s && forall a :: a in run ==> a == ClearFlag
    decreases |run|
  {
    TotalZero(s.conns, Holds);
    if run != [] {
      StepKeepsInv(s, run[0]);
      ReturnIsFinal(Do(s, run[0]), run[1..], s');
      assert run == [run[0]] + run[1..];
    }
  }

  /** Once the accept loop has ended it does not start again, and the count never grows. */
  lemma {:induction false} CountOnlyFalls(s: State, run: seq<Step>, s': State)
    requires Inv(s) && LoopEnded(s) && Runs(s, run, s')
    ensures LoopEnded(s') && |s'.conns| == |s.conns| && 0 <= s'.current <= s.current
    decreases |run|
  {
    if run != [] {
      StepKeepsInv(s, run[0]);
      CountOnlyFalls(Do(s, run[0]), run[1..], s');
    }
  }

  // ---------------------------------------------------------------- shutdown

  // What the accept thread, and a connection, may still start when the flag is down.
  function AcceptsLeft(pc: Pc): nat { if pc == Accepting then 1 else 0 }

  function ConnsLeft(pc: Pc): nat { if pc == Accepting || pc == Accepted || pc == Counted then 1 else 0 }

  function CallsLeft(pc: ConnPc): nat { if pc == Reading then 1 else 0 }

  lemma DownStepCalls(s: State, a: Step)
    requires Enabled(s, a) && !s.running
    ensures var s' := Do(s, a);
      && |s.conns| <= |s'.conns|
      && (forall i :: 0 <= i < |s.conns| ==>
            s'.conns[i].calls + CallsLeft(s'.conns[i].pc) <= s.conns[i].calls + CallsLeft(s.conns[i].pc))
      && (forall i :: |s.conns| <= i < |s'.conns| ==> s'.conns[i].calls + CallsLeft(s'.conns[i].pc) == 0)
  {
  }

  lemma DownStep(s: State, a: Step)
    requires Enabled(s, a) && !s.running
    ensures var s' := Do(s, a);
      && !s'.running
      && s'.accepts + AcceptsLeft(s'.pc) <= s.accepts + AcceptsLeft(s.pc)
      && |s'.conns| + ConnsLeft(s'.pc) <= |s.conns| + ConnsLeft(s.pc)
  {
  }

  // Handler calls that connection i has started, none before it exists.
  function Calls(s: State, i: nat): nat { if i < |s.conns| then s.conns[i].calls else 0 }

  function CallsDue(s: State, i: nat): nat { if i < |s.conns| then CallsLeft(s.conns[i].pc) else 0 }

  /** After shutdown() the flag stays down for ever; at most one more connection is accepted, and it
      never reaches the handler; every other connection starts at most one more handler call. */
  lemma {:induction false} AfterShutdown(s: State, run: seq<Step>, s': State)
    requires !s.running && Runs(s, run, s')
    ensures !s'.running
    ensures s'.accepts + AcceptsLeft(s'.pc) <= s.accepts + AcceptsLeft(s.pc) <= s.accepts + 1
    ensures |s'.conns| + ConnsLeft(s'.pc) <= |s.conns| + ConnsLeft(s.pc) <= |s.conns| + 1
    ensures forall i :: i >= 0 ==> Calls(s', i) + CallsDue(s', i) <= Calls(s, i) + CallsDue(s, i) <= Calls(s, i) + 1
    ensures forall i :: |s.conns| <= i < |s'.conns| ==> s'.conns[i].calls == 0
    decreases |run|
  {
    if run != [] {
      DownStep(s, run[0]);
      DownStepCalls(s, run[0]);
      AfterShutdown(Do(s, run[0]), run[1..], s');
      assert forall i :: |s.conns| <= i < |s'.conns| ==> Calls(s', i) == s'.conns[i].calls;
    }
  }

  // Steps that only wait: for the count to fall, for the client to close; or that repeat shutdown().
  predicate Waits(s: State, a: Step) {
    (a.Look? && s.current != 0) || (a.Drain? && !a.closed) || a.ClearFlag?
  }

  function Waiting(s: State, run: seq<Step>): nat
    decreases |run|
  {
    if run == [] || !Enabled(s, run[0]) then 0
    else (if Waits(s, run[0]) then 1 else 0) + Waiting(Do(s, run[0]), run[1..])
  }

  // What a connection, and the accept thread, may still do when the flag is down.
  function Steps(pc: ConnPc): nat {
    match pc
    case Gone => 0
    case Finished => 1
    case Lingering | Testing | Fresh => 2
    case Caught | Launching => 3
    case Handling | Greeting => 4
    case Reading => 5
  }

  function AcceptSteps(pc: Pc): nat {
    match pc
    case Returned => 0
    case Looking => 1
    case Sleeping => 2
    case AtFlag => 2
    case Starting => 3
    case Counted => 7
    case Accepted => 8
    case Accepting => 9
  }

  function Remaining(s: State): nat { Total(s.conns, Steps) + AcceptSteps(s.pc) }

  // What a step costs the one connection it is about, and the accept thread.
  lemma DownStepCosts(s: State, a: Step)
    requires HandOver(s) && Enabled(s, a) && !s.running
    ensures var i, s' := Subject(s, a), Do(s, a);
      && (0 <= i < |s.conns| ==> i < |s'.conns|)
      && (if a.MakeSentry? then Steps(Launching) else if 0 <= i < |s.conns| then Steps(s'.conns[i].pc) else 0)
         + AcceptSteps(s'.pc) + 1
         <= (if 0 <= i < |s.conns| then Steps(s.conns[i].pc) else 0)
            + AcceptSteps(s.pc) + (if Waits(s, a) then 2 else 0)
  {
  }

  lemma DownStepShrinks(s: State, a: Step)
    requires HandOver(s) && Enabled(s, a) && !s.running
    ensures Remaining(Do(s, a)) + 1 <= Remaining(s) + (if Waits(s, a) then 2 else 0)
  {
    DownStepCosts(s, a);
    OneConnection(s, a, Steps);
  }

  // A step the thread of connection i can take.
  function NextOf(s: State, i: nat): (a: Step)
    requires i < |s.conns| && s.conns[i].pc != Gone && s.conns[i].pc != Launching
    ensures Enabled(s, a) && !Waits(s, a)
  {
    match s.conns[i].pc
    case Fresh => Begin(i)
    case Greeting => Greet(i, Normal)
    case Testing => TestInThread(i)
    case Reading => ReadLine(i, false)
    case Handling => Handle(i, Quit)
    case Caught => RequestShutdown(i)
    case Lingering => Drain(i, true)
    case Finished => Leave(i)
  }

  /** Until the accept thread has returned, some step that is not mere waiting can be taken. */
  lemma ShutdownNeverStuck(s: State) returns (a: Step)
    requires Inv(s) && s.pc != Returned
    ensures Enabled(s, a) && !Waits(s, a)
  {
    a := Launch;
    if s.pc == AtFlag {
      a := TestFlag;
    } else if s.pc == Accepting {
      a := NoConnection;
    } else if s.pc == Accepted {
      a := CountTotal;
    } else if s.pc == Counted {
      a := MakeSentry;
    } else if s.pc == Sleeping {
      a := Wake;
    } else if s.pc == Looking {
      if s.current == 0 {
        a := Look;
      } else {
        TotalZero(s.conns, Holds);
        var i :| 0 <= i < |s.conns| && s.conns[i].pc != Gone;
        a := NextOf(s, i);
      }
    }
  }

  /** Shutdown terminates: apart from two steps for each time something merely waits, at most
      `Remaining` steps are left, and until the accept thread has returned there always is one. */
  lemma {:induction false} ShutdownTerminates(s: State, run: seq<Step>, s': State)
    requires Inv(s) && !s.running && Runs(s, run, s')
    ensures |run| + Remaining(s') <= Remaining(s) + 2 * Waiting(s, run)
    ensures s'.pc == Returned || exists a :: Enabled(s', a) && !Waits(s', a)
    decreases |run|
  {
    if run == [] {
      if s.pc != Returned { var a := ShutdownNeverStuck(s); }
    } else {
      StepKeepsInv(s, run[0]);
      DownStep(s, run[0]);
      DownStepShrinks(s, run[0]);
      ShutdownTerminates(Do(s, run[0]), run[1..], s');
    }
  }

  /** And the return can be reached: from every state with the flag down some run leads there. */
  lemma {:induction false} CanReturn(s: State) returns (run: seq<Step>, s': State)
    requires Inv(s) && !s.running
    ensures Runs(s, run, s') && s'.pc == Returned
    decreases Remaining(s)
  {
    run, s' := [], s;
    if s.pc != Returned {
      var a := ShutdownNeverStuck(s);
      StepKeepsInv(s, a);
      DownStep(s, a);
      DownStepShrinks(s, a);
      run, s' := CanReturn(Do(s, a));
      RunsOne(s, a, run, s');
      run := [a] + run;
    }
  }

  // ---------------------------------------------------------------- what a connection lives through

  // Connection i is in a state in which it owes the server a shutdown, or the flag is down already.
  predicate OwesShutdown(s: State, i: nat) {
    i < |s.conns| && (s.running ==> s.conns[i].pc == Caught)
  }

  lemma StepKeepsDebt(s: State, a: Step, i: nat)
    requires Inv(s) && Enabled(s, a) && OwesShutdown(s, i)
    ensures OwesShutdown(Do(s, a), i)
  {
  }

  lemma {:induction false} RunKeepsDebt(s: State, run: seq<Step>, s': State, i: nat)
    requires Inv(s) && Runs(s, run, s') && OwesShutdown(s, i)
    ensures OwesShutdown(s', i)
    decreases |run|
  {
    if run != [] {
      StepKeepsInv(s, run[0]);
      StepKeepsDebt(s, run[0], i);
      RunKeepsDebt(Do(s, run[0]), run[1..], s', i);
    }
  }

  /** A shutdown exception, from the handler or from the welcome writer, takes the server down: on no
      schedule is its connection gone before the flag is. */
  lemma ShutdownExceptionCounts(s: State, i: nat, fromHandler: bool, run: seq<Step>, s': State)
    requires Inv(s) && Enabled(s, if fromHandler then Handle(i, Shutdown) else Greet(i, Shutdown))
    requires Runs(Do(s, if fromHandler then Handle(i, Shutdown) else Greet(i, Shutdown)), run, s') && At(s', i, Gone)
    ensures !s'.running
  {
    var a := if fromHandler then Handle(i, Shutdown) else Greet(i, Shutdown);
    StepKeepsInv(s, a);
    RunKeepsDebt(Do(s, a), run, s', i);
  }

  // Connection i will not call the handler again.
  predicate Over(s: State, i: nat) {
    i < |s.conns| && s.conns[i].pc in {Caught, Lingering, Finished, Gone}
  }

  lemma StepKeepsOver(s: State, a: Step, i: nat)
    requires HandOver(s) && Enabled(s, a) && Over(s, i)
    ensures Over(Do(s, a), i) && Do(s, a).conns[i].calls == s.conns[i].calls
  {
  }

  lemma {:induction false} RunKeepsOver(s: State, run: seq<Step>, s': State, i: nat)
    requires Inv(s) && Runs(s, run, s') && Over(s, i)
    ensures Over(s', i) && s'.conns[i].calls == s.conns[i].calls
    decreases |run|
  {
    if run != [] {
      StepKeepsInv(s, run[0]);
      StepKeepsOver(s, run[0], i);
      RunKeepsOver(Do(s, run[0]), run[1..], s', i);
    }
  }

  // Steps after which connection i never calls the handler again.
  predicate Ends(s: State, a: Step, i: nat) {
    match a
    case Begin(j) => j == i && !s.running
    case Greet(j, outcome) => j == i && outcome != Normal
    case TestInThread(j) => j == i && !s.running
    case ReadLine(j, got) => j == i && !got
    case Handle(j, outcome) => j == i && outcome != Normal
    case _ => false
  }

  /** The handler's false, an exception of either kind, a line that did not come, and a flag found
      down all end the connection: it never calls the handler again. */
  lemma EndsForGood(s: State, a: Step, i: nat, run: seq<Step>, s': State)
    requires Inv(s) && Enabled(s, a) && Ends(s, a, i) && Runs(Do(s, a), run, s')
    ensures i < |s'.conns| && i < |s.conns| && s'.conns[i].calls == s.conns[i].calls
  {
    StepKeepsInv(s, a);
    RunKeepsOver(Do(s, a), run, s', i);
  }

  // With the flag up, a connection that is not over can be served a line.
  predicate Alive(s: State, i: nat) {
    i < |s.conns| && s.conns[i].pc in {Fresh, Greeting, Testing, Reading}
  }

  // The steps that serve it.
  function Serving(pc: ConnPc, i: nat): seq<Step> {
    match pc
    case Fresh => [Begin(i), Greet(i, Normal), TestInThread(i), ReadLine(i, true)]
    case Greeting => [Greet(i, Normal), TestInThread(i), ReadLine(i, true)]
    case Testing => [TestInThread(i), ReadLine(i, true)]
    case _ => [ReadLine(i, true)]
  }

  lemma {:induction false} CanBeServed(s: State, i: nat) returns (s': State)
    requires Alive(s, i) && s.running
    ensures Runs(s, Serving(s.conns[i].pc, i), s') && At(s', i, Handling) && s'.running
    ensures s'.conns[i].calls == s.conns[i].calls + 1
    decreases |Serving(s.conns[i].pc, i)|
  {
    var run := Serving(s.conns[i].pc, i);
    var next := Do(s, run[0]);
    if |run| == 1 {
      s' := next;
      assert Runs(next, run[1..], s');
    } else {
      assert run[1..] == Serving(next.conns[i].pc, i);
      s' := CanBeServed(next, i);
    }
  }

  /** As long as the flag is up, a connection whose handler has come back with true, whose welcome has
      been written, or whose thread has just started, can have its next line handled. */
  lemma GoesOnServing(s: State, a: Step, i: nat) returns (run: seq<Step>, s': State)
    requires Inv(s) && Enabled(s, a) && s.running
    requires a == Handle(i, Normal) || a == Greet(i, Normal) || a == Begin(i) || a == TestInThread(i)
    ensures Runs(Do(s, a), run, s') && At(s', i, Handling) && i < |s.conns| && s'.conns[i].calls == s.conns[i].calls + 1
  {
    run := Serving(Do(s, a).conns[i].pc, i);
    s' := CanBeServed(Do(s, a), i);
  }

  // What the accept thread does to take on a connection.
  function Accepts(pc: Pc): seq<Step> {
    match pc
    case AtFlag => [TestFlag, Accept, CountTotal, MakeSentry, Launch]
    case Accepting => [Accept, CountTotal, MakeSentry, Launch]
    case Accepted => [CountTotal, MakeSentry, Launch]
    case Counted => [MakeSentry, Launch]
    case _ => [Launch]
  }

  lemma AcceptStep(s: State)
    requires Inv(s) && s.running
    ensures Enabled(s, Accepts(s.pc)[0])
    ensures var next := Do(s, Accepts(s.pc)[0]);
      && Inv(next) && next.running
      && (s.pc == Starting ==> next.pc == AtFlag && next.conns != [] && next.conns[|next.conns| - 1].pc == Fresh)
      && (s.pc != Starting ==> Accepts(next.pc) == Accepts(s.pc)[1..])
      && (next.pc == Starting ==> next.conns == s.conns + [Conn(Launching, 0)])
      && (s.pc != Counted ==> |next.conns| == |s.conns|)
      && (s.pc == Starting ==> next.conns[|next.conns| - 1].calls == s.conns[|s.conns| - 1].calls)
  {
    StepKeepsInv(s, Accepts(s.pc)[0]);
  }

  lemma {:induction false} CanAccept(s: State) returns (s': State)
    requires Inv(s) && s.running
    ensures Runs(s, Accepts(s.pc), s') && Inv(s') && s'.running && s'.pc == AtFlag
    ensures s'.conns != [] && s'.conns[|s'.conns| - 1] == Conn(Fresh, s'.conns[|s'.conns| - 1].calls)
    ensures s.pc != Starting ==> |s'.conns| == |s.conns| + 1 && s'.conns[|s.conns|].calls == 0
    ensures s.pc == Starting ==> |s'.conns| == |s.conns| && s'.conns[|s.conns| - 1].calls == s.conns[|s.conns| - 1].calls
    decreases |Accepts(s.pc)|
  {
    AcceptStep(s);
    var run := Accepts(s.pc);
    var next := Do(s, run[0]);
    if s.pc == Starting {
      s' := next;
      assert Runs(next, run[1..], s');
    } else {
      s' := CanAccept(next);
    }
  }

  lemma {:induction false} RunsBoth(s: State, run: seq<Step>, t: State, more: seq<Step>, s': State)
    requires Runs(s, run, t) && Runs(t, more, s')
    ensures Runs(s, run + more, s')
    decreases |run|
  {
    if run == [] {
      assert run + more == more;
    } else {
      assert (run + more)[1..] == run[1..] + more;
      RunsBoth(Do(s, run[0]), run[1..], t, more, s');
    }
  }

  lemma {:induction false} ServingKeepsOthers(s: State, i: nat, pc: ConnPc, s': State)
    requires Alive(s, i) && s.conns[i].pc == pc && Runs(s, Serving(pc, i), s') && s.running
    ensures |s'.conns| == |s.conns|
    decreases |Serving(pc, i)|
  {
    var run := Serving(pc, i);
    var next := Do(s, run[0]);
    if |run| > 1 {
      assert run[1..] == Serving(next.conns[i].pc, i);
      ServingKeepsOthers(next, i, next.conns[i].pc, s');
    }
  }

  /** Whatever has happened, as long as the flag is up the server can accept a connection and have its
      first line handled. */
  lemma ServerServes(s: State) returns (run: seq<Step>, s': State)
    requires Inv(s) && s.running
    ensures Runs(s, run, s') && s'.conns != [] && s'.conns[|s'.conns| - 1].pc == Handling
    ensures s.pc != Starting ==> |s'.conns| == |s.conns| + 1 && s'.conns[|s.conns|] == Conn(Handling, 1)
  {
    var t := CanAccept(s);
    var i := |t.conns| - 1;
    s' := CanBeServed(t, i);
    run := Accepts(s.pc) + Serving(Fresh, i);
    RunsBoth(s, Accepts(s.pc), t, Serving(Fresh, i), s');
    ServingKeepsOthers(t, i, Fresh, s');
  }

  // Connection i reads on until its client closes.
  predicate WaitsForClient(s: State, i: nat) { At(s, i, Lingering) }

  lemma StepKeepsWaiting(s: State, a: Step, i: nat)
    requires HandOver(s) && Enabled(s, a) && WaitsForClient(s, i) && a != Drain(i, true)
    ensures WaitsForClient(Do(s, a), i)
  {
  }

  lemma {:induction false} LingersUntilClosed(s: State, run: seq<Step>, s': State, i: nat)
    requires Inv(s) && Runs(s, run, s') && WaitsForClient(s, i) && Drain(i, true) !in run
    ensures WaitsForClient(s', i)
    decreases |run|
  {
    if run != [] {
      assert run[0] in run && forall a :: a in run[1..] ==> a in run;
      StepKeepsInv(s, run[0]);
      StepKeepsWaiting(s, run[0], i);
      LingersUntilClosed(Do(s, run[0]), run[1..], s', i);
    }
  }

  /** After a shutdown exception the connection waits for its client to close exactly if it was told
      to: if so it is not gone before that, and if not it can go at once. */
  lemma LingersIfTold(s: State, i: nat, run: seq<Step>, s': State)
    requires Inv(s) && Enabled(s, RequestShutdown(i))
    ensures s.linger && Runs(Do(s, RequestShutdown(i)), run, s') && At(s', i, Gone) ==> Drain(i, true) in run
    ensures !s.linger ==>
      var t := Do(s, RequestShutdown(i)); Enabled(t, Leave(i)) && At(Do(t, Leave(i)), i, Gone)
  {
    var t := Do(s, RequestShutdown(i));
    StepKeepsInv(s, RequestShutdown(i));
    if s.linger && Runs(t, run, s') && Drain(i, true) !in run {
      LingersUntilClosed(t, run, s', i);
    }
  }

  /** What the outside decides it decides freely: the handler and the welcome writer may end in any
      way, a line may come or not, a client may close or not, and anybody may call shutdown(). */
  lemma OutcomesAreFree(s: State, i: nat, outcome: Outcome, yes: bool)
    requires i < |s.conns|
    ensures Enabled(s, ClearFlag)
    ensures match s.conns[i].pc
            case Handling => Enabled(s, Handle(i, outcome))
            case Greeting => outcome != Quit ==> Enabled(s, Greet(i, outcome))
            case Reading => Enabled(s, ReadLine(i, yes))
            case Lingering => Enabled(s, Drain(i, yes))
            case _ => true
    ensures s.pc == Accepting ==> Enabled(s, Accept) && Enabled(s, NoConnection)
  {
  }

  // ---------------------------------------------------------------- the server as an object

  // What a connection thread needs before it touches the status object: that is not gone.
  predicate StatusAlive(s: State) { s.pc != Returned }

  lemma UserKeepsStatus(s: State, i: nat)
    requires Inv(s) && i < |s.conns| && s.conns[i].pc != Gone
    ensures StatusAlive(s) && s.current >= 1
  {
    TotalZero(s.conns, Holds);
  }

  // What the accept thread may conclude from a count of zero.
  predicate NobodyLeft(s: State) { forall i :: 0 <= i < |s.conns| ==> s.conns[i].pc == Gone }

  lemma ZeroMeansNobody(s: State)
    requires Inv(s) && s.current == 0
    ensures NobodyLeft(s)
  {
    TotalZero(s.conns, Holds);
  }

  /** A flag that can only change from true to false. */
  class RunningFlag {
    var running: bool

    constructor ()
      ensures running
    {
      running := true;
    }

    method Shutdown()
      modifies this
      ensures !running
    {
      running := false;
    }
  }

  /** The accept thread's status object, its connections, and the flag it shares with the outside.
      Each method is one step of one thread; it keeps the whole invariant and says what that thread
      may conclude.  For a connection thread that is that the status object is still there. */
  class ServerThread {
    const linger: bool
    const flag: RunningFlag
    var pc: Pc
    var conns: seq<Conn>
    var current: int
    var total: nat
    var accepts: nat

    ghost function View(): State
      reads this, flag
    {
      State(linger, flag.running, pc, conns, current, total, accepts)
    }

    ghost predicate Valid()
      reads this, flag
    {
      Inv(View())
    }

    constructor (linger: bool, flag: RunningFlag)
      requires flag.running
      ensures this.flag == flag && Valid() && View() == Init(linger)
    {
      this.linger, this.flag := linger, flag;
      pc, conns, current, total, accepts := AtFlag, [], 0, 0, 0;
    }

    // The condition of the accept loop, which is left only for good: the flag is down.
    method CheckFlag()
      requires Valid() && pc == AtFlag
      modifies this`pc
      ensures View() == Do(old(View()), TestFlag) && Valid()
      ensures LoopEnded(View()) ==> !flag.running
    {
      StepKeepsInv(View(), TestFlag);
      pc := if flag.running then Accepting else Looking;
    }

    // Waits for a connection; a timeout or an error leads back to the loop's condition.  Either way
    // no connection is counted that has no sentry.
    method AcceptOne() returns (accepted: bool)
      requires Valid() && pc == Accepting
      modifies this
      ensures View() == Do(old(View()), if accepted then Accept else NoConnection) && Valid()
      ensures current == Live(View()) && |conns| <= total < accepts + if accepted then 0 else 1
    {
      accepted := *;
      StepKeepsInv(View(), if accepted then Accept else NoConnection);
      if accepted {
        pc, accepts := Accepted, accepts + 1;
      } else {
        pc := AtFlag;
      }
    }

    // The total counts at least the connections that have, or ever had, a sentry, and this one.
    method CountConnection()
      requires Valid() && pc == Accepted
      modifies this
      ensures View() == Do(old(View()), CountTotal) && Valid()
      ensures |conns| < total <= accepts
    {
      StepKeepsInv(View(), CountTotal);
      pc, total := Counted, total + 1;
    }

    // The sentry is counted while no thread exists that could read the count.
    method TakeSentry()
      requires Valid() && pc == Counted
      modifies this
      ensures View() == Do(old(View()), MakeSentry) && Valid()
      ensures current == Live(View()) >= 1
      ensures forall i :: 0 <= i < |conns| ==> (conns[i].pc == Launching <==> i == |conns| - 1)
    {
      StepKeepsInv(View(), MakeSentry);
      current := current + 1;
      conns := conns + [Conn(Launching, 0)];
      pc := Starting;
      UserKeepsStatus(View(), |conns| - 1);
    }

    method MoveTo(i: nat, to: ConnPc)
      requires i < |conns|
      modifies this`conns
      ensures View() == Goes(old(View()), i, to)
    {
      conns := conns[i := conns[i].(pc := to)];
    }

    // Starts and detaches the thread; on an exception the sentry is destroyed at once.  No sentry is
    // left in the hands of the accept thread.
    method StartThread() returns (started: bool)
      requires Valid() && pc == Starting
      modifies this
      ensures View() == Do(old(View()), if started then Launch else Abort) && Valid()
      ensures current == Live(View()) && forall i :: 0 <= i < |conns| ==> conns[i].pc != Launching
    {
      started := *;
      StepKeepsInv(View(), if started then Launch else Abort);
      if started {
        MoveTo(|conns| - 1, Fresh);
      } else {
        MoveTo(|conns| - 1, Gone);
        current := current - 1;
      }
      pc := AtFlag;
    }

    // An exception before there is a sentry: the count is what it was.
    method GiveUp()
      requires Valid() && (pc == Accepted || pc == Counted)
      modifies this`pc
      ensures View() == Do(old(View()), Abort) && Valid()
      ensures current == Live(View())
    {
      StepKeepsInv(View(), Abort);
      pc := AtFlag;
    }

    // One round of the loop that waits for the connections to exit: it ends only when every thread
    // has destroyed its sentry.
    method LookAtCount()
      requires Valid() && pc == Looking
      modifies this`pc
      ensures View() == Do(old(View()), Look) && Valid()
      ensures pc == Returned <==> NobodyLeft(View())
    {
      StepKeepsInv(View(), Look);
      var count := current;
      if count == 0 {
        ZeroMeansNobody(View());
        pc := Returned;
      } else {
        pc := Sleeping;
        TotalZero(conns, Holds);
      }
    }

    // The flag is still down.
    method WakeUp()
      requires Valid() && pc == Sleeping
      modifies this`pc
      ensures View() == Do(old(View()), Wake) && Valid()
      ensures !flag.running
    {
      StepKeepsInv(View(), Wake);
      pc := Looking;
    }

    // The thread of connection i starts running; with the flag down it is done.
    method BeginConnection(i: nat)
      requires Valid() && Enabled(View(), Begin(i))
      modifies this`conns
      ensures View() == Do(old(View()), Begin(i)) && Valid() && StatusAlive(View())
      ensures !flag.running ==> Calls(View(), i) + CallsDue(View(), i) == Calls(old(View()), i)
    {
      StepKeepsInv(View(), Begin(i));
      if !flag.running {
        MoveTo(i, Finished);
      } else {
        MoveTo(i, Greeting);
      }
      UserKeepsStatus(View(), i);
    }

    // How a connection goes on after a call into user code.
    method Resume(i: nat, outcome: Outcome)
      requires i < |conns|
      modifies this`conns
      ensures View() == Goes(old(View()), i, After(outcome))
    {
      if outcome == Normal {
        MoveTo(i, Testing);
      } else if outcome == Shutdown {
        MoveTo(i, Caught);
      } else {
        MoveTo(i, Finished);
      }
    }

    // The welcome writer, if there is one, and what may be thrown around it.
    method WriteWelcome(i: nat, outcome: Outcome)
      requires Valid() && Enabled(View(), Greet(i, outcome))
      modifies this`conns
      ensures View() == Do(old(View()), Greet(i, outcome)) && Valid() && StatusAlive(View())
    {
      StepKeepsInv(View(), Greet(i, outcome));
      Resume(i, outcome);
      UserKeepsStatus(View(), i);
    }

    // The first half of the condition of handle_connection()'s loop: once the flag is down no
    // further line is read.
    method CheckFlagInThread(i: nat)
      requires Valid() && Enabled(View(), TestInThread(i))
      modifies this`conns
      ensures View() == Do(old(View()), TestInThread(i)) && Valid() && StatusAlive(View())
      ensures !flag.running ==> Calls(View(), i) + CallsDue(View(), i) == Calls(old(View()), i)
    {
      StepKeepsInv(View(), TestInThread(i));
      if flag.running {
        MoveTo(i, Reading);
      } else {
        MoveTo(i, Finished);
      }
      UserKeepsStatus(View(), i);
    }

    method CallHandler(i: nat)
      requires i < |conns|
      modifies this`conns
      ensures View() == Call(old(View()), i)
    {
      conns := conns[i := Conn(Handling, conns[i].calls + 1)];
    }

    // The second half: with a line the handler is called, with a status object that is there.
    method GetLine(i: nat) returns (got: bool)
      requires Valid() && At(View(), i, Reading)
      modifies this`conns
      ensures View() == Do(old(View()), ReadLine(i, got)) && Valid() && StatusAlive(View())
      ensures Calls(View(), i) == Calls(old(View()), i) + (if got then 1 else 0) && CallsDue(View(), i) == 0
    {
      got := *;
      StepKeepsInv(View(), ReadLine(i, got));
      if got {
        CallHandler(i);
      } else {
        MoveTo(i, Finished);
      }
      UserKeepsStatus(View(), i);
    }

    // The handler comes back with true or false, or throws; all the while the status was there.
    method HandleLine(i: nat, outcome: Outcome)
      requires Valid() && Enabled(View(), Handle(i, outcome))
      modifies this`conns
      ensures View() == Do(old(View()), Handle(i, outcome)) && Valid() && StatusAlive(View())
      ensures CallsDue(View(), i) == 0
    {
      StepKeepsInv(View(), Handle(i, outcome));
      Resume(i, outcome);
      UserKeepsStatus(View(), i);
    }

    // The handler of the shutdown exception: the flag is down, and no handler call is due here.
    method CatchShutdown(i: nat)
      requires Valid() && Enabled(View(), RequestShutdown(i))
      modifies this`conns, flag
      ensures View() == Do(old(View()), RequestShutdown(i)) && Valid() && StatusAlive(View())
      ensures !flag.running && CallsDue(View(), i) == 0
    {
      StepKeepsInv(View(), RequestShutdown(i));
      flag.Shutdown();
      if linger {
        MoveTo(i, Lingering);
      } else {
        MoveTo(i, Finished);
      }
      UserKeepsStatus(View(), i);
    }

    method ReadUntilClosed(i: nat) returns (closed: bool)
      requires Valid() && At(View(), i, Lingering)
      modifies this`conns
      ensures View() == Do(old(View()), Drain(i, closed)) && Valid() && StatusAlive(View())
    {
      closed := *;
      StepKeepsInv(View(), Drain(i, closed));
      if closed {
        MoveTo(i, Finished);
      }
      UserKeepsStatus(View(), i);
    }

    // The destructor of the thread's function object destroys the sentry: the last access to the
    // status object, which is there for it, and the count is right again.
    method LeaveThread(i: nat)
      requires Valid() && Enabled(View(), Leave(i))
      modifies this`conns, this`current
      ensures View() == Do(old(View()), Leave(i)) && Valid() && StatusAlive(View())
      ensures current == Live(View()) == Live(old(View())) - 1 >= 0
    {
      StepKeepsInv(View(), Leave(i));
      UserKeepsStatus(View(), i);
      MoveTo(i, Gone);
      current := current - 1;
    }
  }
}
