/**
 * The stop tests of the service container, replayed on the controlled
 * container: each test becomes a method that performs the test's calls and
 * returns what the test asserts about; its postcondition is the assertion.
 * The lemmas compute, for any futures already allocated, what draining the
 * work queue leaves behind at each step of those calls.
 */
module ContainerScenarios {
  import opened Wrappers
  import opened ContainerModel
  import opened ServiceContainer

  const Service1: Name := "service1"
  const Service2: Name := "service2"

  /** A container whose only content is the future table `fs` and one started entry `e`. */
  function Single(e: Entry, fs: seq<Completion>, q: seq<StopActionJob>): ContainerState {
    ContainerState([e], [], q, fs, [])
  }

  /** Installing a service without dependencies into an empty registry starts it. */
  lemma {:induction false} InstallOneStarts(fs: seq<Completion>, n: Name, svc: Service)
    ensures Drain(Install(ContainerState([], [], [], fs, []), n, {}, svc).0)
         == Single(Entry(n, {}, svc, Started, |fs|, []), fs + [CompletedNormally], [])
  {
    var s1 := Install(ContainerState([], [], [], fs, []), n, {}, svc).0;
    var e := Entry(n, {}, svc, Pending, |fs|, []);
    var t1 := Single(e, fs + [Incomplete], []);
    assert RunJob(s1.(work := []), s1.work[0]) == t1;
    assert Ready(t1.entries, 0);
    assert FindReady(t1.entries) == Some(0);
    var t2 := Single(e.(phase := Started), fs + [CompletedNormally], []);
    assert (fs + [Incomplete])[|fs| := CompletedNormally] == fs + [CompletedNormally];
    assert Advance(t1, 0) == t2;
    assert !Ready(t2.entries, 0);
    assert FindReady(t2.entries) == None;
    assert Drain(t2) == t2;
    assert Drain(t1) == Drain(t2);
    assert Drain(s1) == Drain(t1);
  }

  /** Removing the only, started, entry: the worker invokes its `stop` at once. */
  lemma {:induction false} RemoveOneStops(e: Entry, fs: seq<Completion>)
    requires e.phase == Started && e.deps == {} && e.removeFutures == []
    ensures Drain(RemoveService(Single(e, fs, []), e.name).0)
         == Drain(StopEntry(Single(e.(removeFutures := [|fs|]), fs + [Incomplete], []), 0))
  {
    var s1 := RemoveService(Single(e, fs, []), e.name).0;
    var t1 := Single(e.(removeFutures := [|fs|]), fs + [Incomplete], []);
    assert IndexOf([e], e.name) == Some(0);
    assert s1.work[0] == RemoveJob(e.name, |fs|);
    assert e.removeFutures + [|fs|] == [|fs|];
    assert [e][0 := e.(removeFutures := [|fs|])] == [e.(removeFutures := [|fs|])];
    assert RunJob(s1.(work := []), s1.work[0]) == t1;
    assert Ready(t1.entries, 0);
    assert FindReady(t1.entries) == Some(0);
  }

  /** An entry whose stop is in flight, alone in the registry, makes the worker idle. */
  lemma StoppingIsIdle(e: Entry, fs: seq<Completion>, q: seq<StopActionJob>)
    requires e.phase.Stopping?
    ensures Drain(Single(e, fs, q)) == Single(e, fs, q)
  {
    assert !Ready([e], 0);
    assert FindReady([e]) == None;
  }

  /** A completed stop of the only entry unregisters it and completes its remove future normally. */
  lemma {:induction false} StopCompletionRemoves(e: Entry, fs: seq<Completion>, r: FutureId, x: seq<Action>)
    requires e.phase.Stopping? && e.removeFutures == [r] && r < |fs| && fs[r] == Incomplete
    ensures Drain(ContainerState([e], [StopCompletedJob(e.name)], [], fs, x)).entries == []
    ensures Drain(ContainerState([e], [StopCompletedJob(e.name)], [], fs, x)).futures == fs[r := CompletedNormally]
    ensures Drain(ContainerState([e], [StopCompletedJob(e.name)], [], fs, x)).executed == x
  {
    var s := ContainerState([e], [StopCompletedJob(e.name)], [], fs, x);
    var t := RunJob(s.(work := []), StopCompletedJob(e.name));
    assert IndexOf([e], e.name) == Some(0);
    assert t == Unregister(s.(work := []), 0);
    assert t.futures == ResolveAll(fs, [r], CompletedNormally);
    assert t.entries == [] && t.futures == fs[r := CompletedNormally];
    assert FindReady(t.entries) == None;
    assert Drain(t) == t;
  }

  /** Completing the future the only entry's stop waits on queues that stop's completion. */
  lemma CompleteAwaited(e: Entry, fs: seq<Completion>, f: FutureId, c: Completion)
    requires e.phase == Stopping(OnFuture(f)) && f < |fs| && fs[f] == Incomplete && c != Incomplete
    ensures CompleteFuture(Single(e, fs, []), f, c) == ContainerState([e], [StopCompletedJob(e.name)], [], fs[f := c], [])
  {
    assert Waiters([e], f) == [StopCompletedJob(e.name)];
  }

  // ---------------------------------------------------------------------------
  // The tests

  /** The given part of the single-service tests: install `svc` and drain. */
  method InstallStarted(svc: Service, supplied: nat) returns (c: ControlledServiceContainer)
    requires supplied <= 1
    ensures fresh(c)
    ensures c.State() == Single(Entry(Service1, {}, svc, Started, supplied, []),
                                Repeat(Incomplete, supplied) + [CompletedNormally], [])
  {
    c := new ControlledServiceContainer();
    if supplied == 1 {
      var f := c.NewFuture();
    }
    var fs := Repeat(Incomplete, supplied);
    assert c.State() == ContainerState([], [], [], fs, []);
    var installFuture := c.Install(Service1, {}, svc);
    InstallOneStarts(fs, Service1, svc);
    c.DoWorkUntilDone();
  }

  /** The single-service prefix of the tests: install `svc`, drain, remove it, drain. */
  method InstallAndRemove(svc: Service, supplied: nat)
    returns (c: ControlledServiceContainer, removeFuture: FutureId)
    requires supplied <= 1
    ensures fresh(c)
    ensures removeFuture == supplied + 1
    ensures c.State() == Drain(StopEntry(
      Single(Entry(Service1, {}, svc, Started, supplied, [supplied + 1]),
             Repeat(Incomplete, supplied) + [CompletedNormally, Incomplete], []), 0))
  {
    c := InstallStarted(svc, supplied);
    var fs := Repeat(Incomplete, supplied) + [CompletedNormally];
    var e := Entry(Service1, {}, svc, Started, supplied, []);
    ghost var s2 := Single(e, fs, []);
    removeFuture := c.RemoveService(Service1);
    assert c.State() == RemoveService(s2, Service1).0;
    RemoveOneStops(e, fs);
    c.DoWorkUntilDone();
    assert fs + [Incomplete] == Repeat(Incomplete, supplied) + [CompletedNormally, Incomplete];
  }

  function Repeat(x: Completion, n: nat): (r: seq<Completion>)
    ensures |r| == n && forall k | 0 <= k < n :: r[k] == x
  {
    if n == 0 then [] else Repeat(x, n - 1) + [x]
  }

  /** Executing the one queued stop action runs it and queues its stop's completion. */
  lemma RunQueuedAction(e: Entry, fs: seq<Completion>, a: Action)
    ensures ExecuteAsyncActions(Single(e, fs, [StopActionJob(e.name, a)]))
         == ContainerState([e], [StopCompletedJob(e.name)], [], fs, [a])
  {
    assert ActionsOf([StopActionJob(e.name, a)]) == [a];
    assert CompletionsOf([StopActionJob(e.name, a)]) == [StopCompletedJob(e.name)];
  }

  /** `stop` on a service without action or future: it waits on the fresh future 2, held in its field. */
  lemma StopFreshWaits()
    ensures StopEntry(Single(Entry(Service1, {}, AsyncStopService(None, None), Started, 0, [1]),
                             [CompletedNormally, Incomplete], []), 0)
         == Single(Entry(Service1, {}, AsyncStopService(None, Some(2)), Stopping(OnFuture(2)), 0, [1]),
                   [CompletedNormally, Incomplete, Incomplete], [])
  {
  }

  /** `stop` on a service with the incomplete supplied future 0: it waits on that future. */
  lemma StopSuppliedWaits()
    ensures StopEntry(Single(Entry(Service1, {}, AsyncStopService(None, Some(0)), Started, 1, [2]),
                             [Incomplete, CompletedNormally, Incomplete], []), 0)
         == Single(Entry(Service1, {}, AsyncStopService(None, Some(0)), Stopping(OnFuture(0)), 1, [2]),
                   [Incomplete, CompletedNormally, Incomplete], [])
  {
  }

  /** `stop` on a service with an action: the action is queued and the stop waits on it. */
  lemma StopActionQueued(action: Action)
    ensures StopEntry(Single(Entry(Service1, {}, AsyncStopService(Some(action), None), Started, 0, [1]),
                             [CompletedNormally, Incomplete], []), 0)
         == Single(Entry(Service1, {}, AsyncStopService(Some(action), None), Stopping(OnAction(action)), 0, [1]),
                   [CompletedNormally, Incomplete], [StopActionJob(Service1, action)])
  {
  }

  /** The stopping entry of the tests whose service gets a fresh future from `async()`. */
  const FreshStopping := Entry(Service1, {}, AsyncStopService(None, Some(2)), Stopping(OnFuture(2)), 0, [1])

  /** The stopping entry of the tests that supply future 0. */
  const SuppliedStopping := Entry(Service1, {}, AsyncStopService(None, Some(0)), Stopping(OnFuture(0)), 1, [2])

  /** The stopping entry of the tests whose service hands `action` to `run`. */
  function ActionStopping(action: Action): Entry {
    Entry(Service1, {}, AsyncStopService(Some(action), None), Stopping(OnAction(action)), 0, [1])
  }

  /** Install and remove a service without action or future: its stop waits on the fresh future 2. */
  method RemoveWithFreshFuture() returns (c: ControlledServiceContainer, removeFuture: FutureId)
    ensures fresh(c) && removeFuture == 1
    ensures c.State() == Single(FreshStopping, [CompletedNormally, Incomplete, Incomplete], [])
  {
    c, removeFuture := InstallAndRemove(AsyncStopService(None, None), 0);
    assert Repeat(Incomplete, 0) + [CompletedNormally, Incomplete] == [CompletedNormally, Incomplete];
    StopFreshWaits();
    StoppingIsIdle(FreshStopping, [CompletedNormally, Incomplete, Incomplete], []);
  }

  /** Install and remove a service holding the supplied future 0: its stop waits on it. */
  method RemoveWithSuppliedFuture() returns (c: ControlledServiceContainer, removeFuture: FutureId)
    ensures fresh(c) && removeFuture == 2
    ensures c.State() == Single(SuppliedStopping, [Incomplete, CompletedNormally, Incomplete], [])
  {
    c, removeFuture := InstallAndRemove(AsyncStopService(None, Some(0)), 1);
    assert Repeat(Incomplete, 1) + [CompletedNormally, Incomplete] == [Incomplete, CompletedNormally, Incomplete];
    StopSuppliedWaits();
    StoppingIsIdle(SuppliedStopping, [Incomplete, CompletedNormally, Incomplete], []);
  }

  /** Install and remove a service holding `action`: the action is queued, the stop waits on it. */
  method RemoveWithAction(action: Action) returns (c: ControlledServiceContainer, removeFuture: FutureId)
    ensures fresh(c) && removeFuture == 1
    ensures c.State() == Single(ActionStopping(action), [CompletedNormally, Incomplete], [StopActionJob(Service1, action)])
  {
    c, removeFuture := InstallAndRemove(AsyncStopService(Some(action), None), 0);
    assert Repeat(Incomplete, 0) + [CompletedNormally, Incomplete] == [CompletedNormally, Incomplete];
    StopActionQueued(action);
    StoppingIsIdle(ActionStopping(action), [CompletedNormally, Incomplete], [StopActionJob(Service1, action)]);
  }

  // shouldWaitForAsyncStop
  method ShouldWaitForAsyncStop() returns (removeCompleted: bool)
    ensures !removeCompleted
  {
    var c, removeFuture := RemoveWithFreshFuture();
    removeCompleted := c.IsCompletedNormally(removeFuture);
  }

  // shouldContinueOnAsyncStopComplete
  method ShouldContinueOnAsyncStopComplete() returns (removeCompleted: bool)
    ensures removeCompleted
  {
    var c, removeFuture := RemoveWithFreshFuture();
    assert c.entries == [FreshStopping] && c.entries[0].service == AsyncStopService(None, Some(2));
    var future := c.ServiceFuture(Service1);
    assert future == Some(2);
    c.CompleteFuture(future.value, CompletedNormally);
    CompleteAwaited(FreshStopping, [CompletedNormally, Incomplete, Incomplete], 2, CompletedNormally);
    c.DoWorkUntilDone();
    StopCompletionRemoves(FreshStopping, [CompletedNormally, Incomplete, CompletedNormally], 1, []);
    removeCompleted := c.IsCompletedNormally(removeFuture);
  }

  // shouldWaitOnSuppliedFuture
  method ShouldWaitOnSuppliedFuture() returns (removeCompleted: bool)
    ensures !removeCompleted
  {
    var c, removeFuture := RemoveWithSuppliedFuture();
    removeCompleted := c.IsCompletedNormally(removeFuture);
  }

  /** Completes the supplied future 0 as `outcome`, as the test does through `service.future`, and drains. */
  method CompleteSuppliedAndDrain(c: ControlledServiceContainer, outcome: Completion)
    requires outcome != Incomplete
    requires c.State() == Single(SuppliedStopping, [Incomplete, CompletedNormally, Incomplete], [])
    modifies c
    ensures c.entries == [] && |c.futures| == 3 && c.futures[2] == CompletedNormally
  {
    assert c.entries == [SuppliedStopping] && c.entries[0].service == AsyncStopService(None, Some(0));
    var future := c.ServiceFuture(Service1);
    assert future == Some(0);
    c.CompleteFuture(future.value, outcome);
    CompleteAwaited(SuppliedStopping, [Incomplete, CompletedNormally, Incomplete], 0, outcome);
    c.DoWorkUntilDone();
    StopCompletionRemoves(SuppliedStopping, [outcome, CompletedNormally, Incomplete], 2, []);
  }

  // shouldContineOnSuppliedFuture
  method ShouldContinueOnSuppliedFuture() returns (removeCompleted: bool)
    ensures removeCompleted
  {
    var c, removeFuture := RemoveWithSuppliedFuture();
    CompleteSuppliedAndDrain(c, CompletedNormally);
    removeCompleted := c.IsCompletedNormally(removeFuture);
  }

  // shouldContineOnSuppliedFutureCompletedExceptionally
  method ShouldContinueOnSuppliedFutureCompletedExceptionally() returns (removeCompleted: bool)
    ensures removeCompleted
  {
    var c, removeFuture := RemoveWithSuppliedFuture();
    CompleteSuppliedAndDrain(c, CompletedExceptionally);
    removeCompleted := c.IsCompletedNormally(removeFuture);
  }

  /** Executes the queued actions, counts the runs of `action`, and drains. */
  method ExecuteAndDrain(c: ControlledServiceContainer, action: Action) returns (runs: nat)
    requires c.State() == Single(ActionStopping(action), [CompletedNormally, Incomplete], [StopActionJob(Service1, action)])
    modifies c
    ensures runs == 1 && c.entries == [] && |c.futures| == 2 && c.futures[1] == CompletedNormally
  {
    c.ExecuteAsyncActions();
    RunQueuedAction(ActionStopping(action), [CompletedNormally, Incomplete], action);
    runs := c.TimesRun(action);
    c.DoWorkUntilDone();
    StopCompletionRemoves(ActionStopping(action), [CompletedNormally, Incomplete], 1, [action]);
  }

  // shouldContinueOnAction
  method ShouldContinueOnAction() returns (removeCompleted: bool, runs: nat)
    ensures runs == 1 && removeCompleted
  {
    var action := Action(0, false);
    var c, removeFuture := RemoveWithAction(action);
    runs := ExecuteAndDrain(c, action);
    removeCompleted := c.IsCompletedNormally(removeFuture);
  }

  // shouldContinueOnExceptionFromAction
  method ShouldContinueOnExceptionFromAction() returns (removeCompleted: bool, runs: nat)
    ensures runs == 1 && removeCompleted
  {
    var action := Action(0, true);
    var c, removeFuture := RemoveWithAction(action);
    runs := ExecuteAndDrain(c, action);
    removeCompleted := c.IsCompletedNormally(removeFuture);
  }

  // shouldWaitForAction
  method ShouldWaitForAction() returns (removeCompleted: bool, runs: nat)
    ensures !removeCompleted && runs == 0
  {
    var action := Action(0, false);
    var c, removeFuture := RemoveWithAction(action);
    runs := c.TimesRun(action);
    removeCompleted := c.IsCompletedNormally(removeFuture);
  }

  // ---------------------------------------------------------------------------
  // service1 depends on service2

  /** service1 (an AsyncStopService) declares service2 (a mock) as its dependency. */
  function Dependent(svc: Service, phase: Phase, removeFutures: seq<FutureId>): Entry {
    Entry(Service1, {Service2}, svc, phase, 0, removeFutures)
  }

  function Dependency(phase: Phase, removeFutures: seq<FutureId>): Entry {
    Entry(Service2, {}, MockService, phase, 1, removeFutures)
  }

  /** Both install jobs register their services, pending, in install order. */
  lemma {:induction false} InstallBothQueues(svc: Service)
    ensures Drain(Install(Install(EmptyContainer, Service1, {Service2}, svc).0, Service2, {}, MockService).0)
         == Drain(ContainerState([Dependent(svc, Pending, []), Dependency(Pending, [])], [], [], [Incomplete, Incomplete], []))
  {
    assert Service1 != Service2;
    var s := Install(Install(EmptyContainer, Service1, {Service2}, svc).0, Service2, {}, MockService).0;
    var p1 := Dependent(svc, Pending, []);
    var t1 := ContainerState([p1], [s.work[1]], [], [Incomplete, Incomplete], []);
    assert RunJob(s.(work := s.work[1..]), s.work[0]) == t1;
    assert IndexOf([p1], Service2) == None;
    assert RunJob(t1.(work := []), t1.work[0]) == ContainerState([p1, Dependency(Pending, [])], [], [], [Incomplete, Incomplete], []);
  }

  /**
   * The dependency starts first, then the dependent: the first settle
   * transition starts service2 while service1 stays pending, and draining
   * ends with both started.
   */
  lemma {:induction false} BothStartInOrder(svc: Service)
    ensures var t := ContainerState([Dependent(svc, Pending, []), Dependency(Pending, [])], [], [], [Incomplete, Incomplete], []);
      && !Ready(t.entries, 0)
      && FindReady(t.entries) == Some(1)
      && Advance(t, 1) == ContainerState([Dependent(svc, Pending, []), Dependency(Started, [])], [], [], [Incomplete, CompletedNormally], [])
    ensures Drain(ContainerState([Dependent(svc, Pending, []), Dependency(Pending, [])], [], [], [Incomplete, Incomplete], []))
         == ContainerState([Dependent(svc, Started, []), Dependency(Started, [])], [], [], [CompletedNormally, CompletedNormally], [])
  {
    assert Service1 != Service2;
    var p1 := Dependent(svc, Pending, []);
    var t2 := ContainerState([p1, Dependency(Pending, [])], [], [], [Incomplete, Incomplete], []);
    assert !IsStarted(t2.entries, Service2);
    assert !Ready(t2.entries, 0) && Ready(t2.entries, 1);
    assert FindReady(t2.entries) == Some(1);
    var t3 := ContainerState([p1, Dependency(Started, [])], [], [], [Incomplete, CompletedNormally], []);
    assert Advance(t2, 1) == t3;
    assert t3.entries[1].name == Service2 && t3.entries[1].phase == Started;
    assert IsStarted(t3.entries, Service2);
    assert Ready(t3.entries, 0);
    assert FindReady(t3.entries) == Some(0);
    var t4 := ContainerState([Dependent(svc, Started, []), Dependency(Started, [])], [], [], [CompletedNormally, CompletedNormally], []);
    assert Advance(t3, 0) == t4;
    assert !Ready(t4.entries, 0) && !Ready(t4.entries, 1);
    assert FindReady(t4.entries) == None;
    assert Drain(t4) == t4;
    assert Drain(t3) == Drain(t4);
  }

  /** Installing the dependent first and its dependency second starts the dependency, then the dependent. */
  lemma InstallBothStarts(svc: Service)
    ensures Drain(Install(Install(EmptyContainer, Service1, {Service2}, svc).0, Service2, {}, MockService).0)
         == ContainerState([Dependent(svc, Started, []), Dependency(Started, [])], [], [], [CompletedNormally, CompletedNormally], [])
  {
    InstallBothQueues(svc);
    BothStartInOrder(svc);
  }

  /** Both remove jobs attach their futures to the still started services. */
  lemma {:induction false} RemoveBothQueues()
    ensures (var started := ContainerState([Dependent(AsyncStopService(None, None), Started, []), Dependency(Started, [])],
                                           [], [], [CompletedNormally, CompletedNormally], []);
             Drain(RemoveService(RemoveService(started, Service1).0, Service2).0)
             == Drain(ContainerState([Dependent(AsyncStopService(None, None), Started, [2]), Dependency(Started, [3])],
                                     [], [], [CompletedNormally, CompletedNormally, Incomplete, Incomplete], [])))
  {
    assert Service1 != Service2;
    var svc := AsyncStopService(None, None);
    var started := ContainerState([Dependent(svc, Started, []), Dependency(Started, [])],
                                  [], [], [CompletedNormally, CompletedNormally], []);
    var s := RemoveService(RemoveService(started, Service1).0, Service2).0;
    var fs := [CompletedNormally, CompletedNormally, Incomplete, Incomplete];
    assert s.futures == fs;
    assert IndexOf(started.entries, Service1) == Some(0);
    var t1 := ContainerState([Dependent(svc, Started, [2]), Dependency(Started, [])], [s.work[1]], [], fs, []);
    assert s.work == [RemoveJob(Service1, 2), RemoveJob(Service2, 3)];
    assert started.entries[0].removeFutures + [2] == [2];
    assert started.entries[0 := started.entries[0].(removeFutures := [2])] == t1.entries;
    assert RunJob(s.(work := s.work[1..]), s.work[0]) == t1;
    assert IndexOf(t1.entries, Service2) == Some(1);
    var t2 := ContainerState([Dependent(svc, Started, [2]), Dependency(Started, [3])], [], [], fs, []);
    assert t1.entries[1].removeFutures + [3] == [3];
    assert t1.entries[1 := t1.entries[1].(removeFutures := [3])] == t2.entries;
    assert RunJob(t1.(work := []), t1.work[0]) == t2;
  }

  /** The dependent's stop begins and waits on a fresh future; the dependency may not begin its stop. */
  lemma {:induction false} DependentStopsFirst()
    ensures Drain(ContainerState([Dependent(AsyncStopService(None, None), Started, [2]), Dependency(Started, [3])],
                                 [], [], [CompletedNormally, CompletedNormally, Incomplete, Incomplete], []))
         == ContainerState([Dependent(AsyncStopService(None, Some(4)), Stopping(OnFuture(4)), [2]), Dependency(Started, [3])],
                           [], [], [CompletedNormally, CompletedNormally, Incomplete, Incomplete, Incomplete], [])
  {
    assert Service1 != Service2;
    var fs := [CompletedNormally, CompletedNormally, Incomplete, Incomplete];
    var t2 := ContainerState([Dependent(AsyncStopService(None, None), Started, [2]), Dependency(Started, [3])], [], [], fs, []);
    assert Ready(t2.entries, 0);
    assert FindReady(t2.entries) == Some(0);
    var t3 := ContainerState([Dependent(AsyncStopService(None, Some(4)), Stopping(OnFuture(4)), [2]), Dependency(Started, [3])],
                             [], [], fs + [Incomplete], []);
    assert Advance(t2, 0) == t3;
    assert !DependentsCleared(t3.entries, Service2);
    assert !Ready(t3.entries, 0) && !Ready(t3.entries, 1);
    assert FindReady(t3.entries) == None;
    assert Drain(t3) == t3;
  }

  /**
   * Removing both at once: the dependent's stop begins and waits on the
   * future `async()` handed out; the dependency cannot begin to stop.
   */
  lemma RemoveBothWaits()
    ensures (var started := ContainerState([Dependent(AsyncStopService(None, None), Started, []), Dependency(Started, [])],
                                           [], [], [CompletedNormally, CompletedNormally], []);
             Drain(RemoveService(RemoveService(started, Service1).0, Service2).0)
             == ContainerState([Dependent(AsyncStopService(None, Some(4)), Stopping(OnFuture(4)), [2]), Dependency(Started, [3])],
                               [], [], [CompletedNormally, CompletedNormally, Incomplete, Incomplete, Incomplete], []))
  {
    RemoveBothQueues();
    DependentStopsFirst();
  }

  /** Completing the dependent's stop future unregisters the dependent and completes its remove future normally. */
  lemma {:induction false} DependentUnregisters(c: Completion)
    requires c != Incomplete
    ensures (var waiting := ContainerState([Dependent(AsyncStopService(None, Some(4)), Stopping(OnFuture(4)), [2]), Dependency(Started, [3])],
                                           [], [], [CompletedNormally, CompletedNormally, Incomplete, Incomplete, Incomplete], []);
             Drain(CompleteFuture(waiting, 4, c))
             == Drain(ContainerState([Dependency(Started, [3])], [], [], [CompletedNormally, CompletedNormally, CompletedNormally, Incomplete, c], [])))
  {
    assert Service1 != Service2;
    var q1 := Dependent(AsyncStopService(None, Some(4)), Stopping(OnFuture(4)), [2]);
    var q2 := Dependency(Started, [3]);
    var waiting := ContainerState([q1, q2], [], [], [CompletedNormally, CompletedNormally, Incomplete, Incomplete, Incomplete], []);
    var s := CompleteFuture(waiting, 4, c);
    assert [q1, q2][1..] == [q2] && [q2][1..] == [];
    assert Waiters([q2], 4) == [];
    assert Waiters([q1, q2], 4) == [StopCompletedJob(Service1)];
    var fs := [CompletedNormally, CompletedNormally, Incomplete, Incomplete, c];
    assert s == ContainerState([q1, q2], [StopCompletedJob(Service1)], [], fs, []);
    assert IndexOf([q1, q2], Service1) == Some(0);
    var t1 := RunJob(s.(work := []), StopCompletedJob(Service1));
    assert t1 == Unregister(s.(work := []), 0);
    assert t1.entries == [q2];
    assert t1.futures == ResolveAll(fs, [2], CompletedNormally);
    assert t1 == ContainerState([q2], [], [], [CompletedNormally, CompletedNormally, CompletedNormally, Incomplete, c], []);
    assert Drain(s) == Drain(t1);
  }

  /** With its dependent gone, the dependency's stop runs and its remove future completes normally. */
  lemma {:induction false} DependencyStopsLast(c: Completion)
    requires c != Incomplete
    ensures Drain(ContainerState([Dependency(Started, [3])], [], [], [CompletedNormally, CompletedNormally, CompletedNormally, Incomplete, c], []))
         == ContainerState([], [], [], [CompletedNormally, CompletedNormally, CompletedNormally, CompletedNormally, c], [])
  {
    var q2 := Dependency(Started, [3]);
    var fs := [CompletedNormally, CompletedNormally, CompletedNormally, Incomplete, c];
    var t1 := ContainerState([q2], [], [], fs, []);
    assert Ready(t1.entries, 0);
    assert FindReady(t1.entries) == Some(0);
    var t2 := Advance(t1, 0);
    assert t2 == Unregister(t1, 0);
    assert t2.futures == ResolveAll(fs, [3], CompletedNormally);
    assert t2.entries == [] && t2.futures == fs[3 := CompletedNormally];
    assert FindReady(t2.entries) == None;
    assert Drain(t2) == t2;
  }

  /**
   * Once the dependent's stop future completes, either way, both stops
   * finish, the dependent's first, and both remove futures complete normally.
   */
  lemma DependentStopCompletes(c: Completion)
    requires c != Incomplete
    ensures (var waiting := ContainerState([Dependent(AsyncStopService(None, Some(4)), Stopping(OnFuture(4)), [2]), Dependency(Started, [3])],
                                           [], [], [CompletedNormally, CompletedNormally, Incomplete, Incomplete, Incomplete], []);
             var r := Drain(CompleteFuture(waiting, 4, c));
             r.entries == [] && |r.futures| == 5 && r.futures[2] == CompletedNormally && r.futures[3] == CompletedNormally)
  {
    DependentUnregisters(c);
    DependencyStopsLast(c);
  }

  /** The given and first when of both concurrent-stop tests. */
  method InstallBothAndRemoveBoth() returns (c: ControlledServiceContainer, remove1: FutureId, remove2: FutureId)
    ensures fresh(c) && remove1 == 2 && remove2 == 3
    ensures c.State() == ContainerState(
      [Dependent(AsyncStopService(None, Some(4)), Stopping(OnFuture(4)), [2]), Dependency(Started, [3])],
      [], [], [CompletedNormally, CompletedNormally, Incomplete, Incomplete, Incomplete], [])
  {
    var svc := AsyncStopService(None, None);
    c := new ControlledServiceContainer();
    var install1 := c.Install(Service1, {Service2}, svc);
    var install2 := c.Install(Service2, {}, MockService);
    InstallBothStarts(svc);
    c.DoWorkUntilDone();
    remove1 := c.RemoveService(Service1);
    remove2 := c.RemoveService(Service2);
    RemoveBothWaits();
    c.DoWorkUntilDone();
  }

  // shouldWaitOnConcurrentStop
  method ShouldWaitOnConcurrentStop() returns (service1Removed: bool, service2Removed: bool)
    ensures !service1Removed && !service2Removed
  {
    var c, remove1, remove2 := InstallBothAndRemoveBoth();
    service1Removed := c.IsCompletedNormally(remove1);
    service2Removed := c.IsCompletedNormally(remove2);
  }

  // shouldContinueConcurrentStop
  method ShouldContinueConcurrentStop() returns (service1Removed: bool, service2Removed: bool)
    ensures service1Removed && service2Removed
  {
    var c, remove1, remove2 := InstallBothAndRemoveBoth();
    assert |c.entries| == 2 && c.entries[1].service == MockService;
    assert c.entries[0].name == Service1 && c.entries[0].service == AsyncStopService(None, Some(4));
    var future := c.ServiceFuture(Service1);
    assert future == Some(4);
    c.CompleteFuture(future.value, CompletedNormally);
    DependentStopCompletes(CompletedNormally);
    c.DoWorkUntilDone();
    service1Removed := c.IsCompletedNormally(remove1);
    service2Removed := c.IsCompletedNormally(remove2);
  }
}
