/**
 * Properties of the stop protocol that hold for every container state:
 * reverse-dependency ordering, failures of stop futures are swallowed,
 * and draining an idle container changes nothing.
 */
module ContainerProperties {
  import opened Wrappers
  import opened ContainerModel

  // ---------------------------------------------------------------------------
  // Ordering invariant

  /** No two registered entries share a name. */
  ghost predicate UniqueNames(es: seq<Entry>) {
    forall i, j | 0 <= i < |es| && 0 <= j < |es| && i != j :: es[i].name != es[j].name
  }

  /**
   * Every dependency of a started or stopping entry is registered and
   * started: a service is not started before its dependencies, and a
   * dependency does not begin to stop while a dependent is still there.
   */
  ghost predicate DependenciesHeld(es: seq<Entry>) {
    forall i, d | 0 <= i < |es| && es[i].phase != Pending && d in es[i].deps :: IsStarted(es, d)
  }

  ghost predicate Inv(s: ContainerState) {
    UniqueNames(s.entries) && DependenciesHeld(s.entries)
  }

  lemma InvEmpty()
    ensures Inv(EmptyContainer)
  {
  }

  /** Replacing an entry by one with the same name and dependencies, along an allowed phase change. */
  lemma {:induction false} HeldAfterUpdate(es: seq<Entry>, i: nat, e: Entry)
    requires i < |es| && e.name == es[i].name && e.deps == es[i].deps
    requires DependenciesHeld(es) && UniqueNames(es)
    requires || e.phase == es[i].phase
             || (es[i].phase == Pending && e.phase == Started && DependenciesStarted(es, es[i]))
             || (es[i].phase == Started && e.phase.Stopping? && DependentsCleared(es, es[i].name))
    ensures DependenciesHeld(es[i := e]) && UniqueNames(es[i := e])
  {
    var es' := es[i := e];
    forall k, d | 0 <= k < |es'| && es'[k].phase != Pending && d in es'[k].deps
      ensures IsStarted(es', d)
    {
      if k == i && es[i].phase == Pending {
        assert d in es[i].deps;
        assert IsStarted(es, d);
      } else {
        assert es[k].phase != Pending && d in es[k].deps;
        assert IsStarted(es, d);
      }
      var j :| 0 <= j < |es| && es[j].name == d && es[j].phase == Started;
      assert es'[k].deps == es[k].deps;
      // a started entry begins to stop only once no entry depends on it
      assert j == i ==> e.phase == Started;
      if j == i {
        assert es'[i].name == d && es'[i].phase == Started;
      } else {
        assert es'[j] == es[j];
      }
    }
  }

  /** Removing an entry that is not started, or whose dependents have cleared. */
  lemma {:induction false} HeldAfterDelete(es: seq<Entry>, i: nat)
    requires i < |es|
    requires DependenciesHeld(es) && UniqueNames(es)
    requires es[i].phase != Started || DependentsCleared(es, es[i].name)
    ensures DependenciesHeld(Delete(es, i)) && UniqueNames(Delete(es, i))
  {
    var es' := Delete(es, i);
    assert forall k :: 0 <= k < |es'| ==> es'[k] == es[if k < i then k else k + 1];
    forall k, d | 0 <= k < |es'| && es'[k].phase != Pending && d in es'[k].deps
      ensures IsStarted(es', d)
    {
      var k0 := if k < i then k else k + 1;
      assert es[k0].phase != Pending && d in es[k0].deps;
      assert IsStarted(es, d);
      var j :| 0 <= j < |es| && es[j].name == d && es[j].phase == Started;
      assert j != i;
      var j' := if j < i then j else j - 1;
      assert es'[j'] == es[j];
    }
  }

  lemma {:induction false} InvRunJob(s: ContainerState, j: Job)
    requires Inv(s)
    ensures Inv(RunJob(s, j))
  {
    match j
    case InstallJob(n, deps, svc, f) =>
      if IndexOf(s.entries, n).None? {
        var es' := s.entries + [Entry(n, deps, svc, Pending, f, [])];
        forall k, d | 0 <= k < |es'| && es'[k].phase != Pending && d in es'[k].deps
          ensures IsStarted(es', d)
        {
          assert es'[k] == s.entries[k];
          assert IsStarted(s.entries, d);
          var w :| 0 <= w < |s.entries| && s.entries[w].name == d && s.entries[w].phase == Started;
          assert es'[w] == s.entries[w];
        }
      }
    case RemoveJob(n, f) =>
      if IndexOf(s.entries, n).Some? {
        var i := IndexOf(s.entries, n).value;
        var e := s.entries[i];
        HeldAfterUpdate(s.entries, i, e.(removeFutures := e.removeFutures + [f]));
      }
    case StopCompletedJob(n) =>
      if IndexOf(s.entries, n).Some? {
        var i := IndexOf(s.entries, n).value;
        if s.entries[i].phase.Stopping? {
          HeldAfterDelete(s.entries, i);
        }
      }
  }

  lemma {:induction false} InvAdvance(s: ContainerState, i: nat)
    requires Inv(s) && i < |s.entries| && Ready(s.entries, i)
    ensures Inv(Advance(s, i))
  {
    var e := s.entries[i];
    if e.phase == Pending {
      HeldAfterUpdate(s.entries, i, e.(phase := Started));
    } else {
      var (call, svc) := Stop(e.service, |s.futures|);
      match call
      case NoCall => HeldAfterDelete(s.entries, i);
      case Run(a) => HeldAfterUpdate(s.entries, i, e.(phase := Stopping(OnAction(a))));
      case AsyncSupplied(f) =>
        HeldAfterDelete(s.entries, i);
        HeldAfterUpdate(s.entries, i, e.(phase := Stopping(OnFuture(f))));
      case AsyncFresh =>
        HeldAfterUpdate(s.entries, i, e.(service := svc, phase := Stopping(OnFuture(|s.futures|))));
    }
  }

  /** Draining the work queue keeps the ordering invariant. */
  lemma {:induction false} InvDrain(s: ContainerState)
    requires Inv(s)
    ensures Inv(Drain(s))
    decreases |s.work|, Potential(s.entries)
  {
    if s.work != [] {
      InvRunJob(s.(work := s.work[1..]), s.work[0]);
      InvDrain(RunJob(s.(work := s.work[1..]), s.work[0]));
    } else if FindReady(s.entries).Some? {
      var i := FindReady(s.entries).value;
      InvAdvance(s, i);
      InvDrain(Advance(s, i));
    }
  }

  /** The operations callers perform from outside the worker keep the ordering invariant. */
  lemma InvRequests(s: ContainerState, n: Name, deps: set<Name>, svc: Service, f: FutureId, c: Completion)
    requires Inv(s) && c != Incomplete
    ensures Inv(Install(s, n, deps, svc).0)
    ensures Inv(RemoveService(s, n).0)
    ensures Inv(NewFuture(s).0)
    ensures Inv(CompleteFuture(s, f, c))
    ensures Inv(ExecuteAsyncActions(s))
  {
  }

  /**
   * Reverse-dependency ordering: while a started or stopping dependent is
   * registered, each of its dependencies is registered and started, so it
   * has neither begun nor finished stopping.
   */
  lemma DependencyOutlivesDependent(s: ContainerState, i: nat, j: nat)
    requires Inv(s) && i < |s.entries| && j < |s.entries|
    requires s.entries[i].phase != Pending && s.entries[j].name in s.entries[i].deps
    ensures s.entries[j].phase == Started
  {
    var d := s.entries[j].name;
    assert IsStarted(s.entries, d);
    var w :| 0 <= w < |s.entries| && s.entries[w].name == d && s.entries[w].phase == Started;
    assert w == j;
  }

  // ---------------------------------------------------------------------------
  // A stop in flight waits for its completion

  /** Some entry registered under `n` has its stop in flight, waiting on `w`. */
  ghost predicate HasStopping(es: seq<Entry>, n: Name, w: Wait) {
    exists k | 0 <= k < |es| :: es[k].name == n && es[k].phase == Stopping(w)
  }

  lemma HasStoppingAfterUpdate(es: seq<Entry>, i: nat, x: Entry, n: Name, w: Wait)
    requires i < |es| && HasStopping(es, n, w)
    requires es[i].name == n && es[i].phase == Stopping(w) ==> x.name == n && x.phase == Stopping(w)
    ensures HasStopping(es[i := x], n, w)
  {
    var k :| 0 <= k < |es| && es[k].name == n && es[k].phase == Stopping(w);
    assert es[i := x][k].name == n && es[i := x][k].phase == Stopping(w);
  }

  lemma HasStoppingAfterDelete(es: seq<Entry>, i: nat, n: Name, w: Wait)
    requires i < |es| && HasStopping(es, n, w)
    requires !(es[i].name == n && es[i].phase == Stopping(w))
    ensures HasStopping(Delete(es, i), n, w)
  {
    var k :| 0 <= k < |es| && es[k].name == n && es[k].phase == Stopping(w);
    var k' := if k < i then k else k - 1;
    assert Delete(es, i)[k'] == es[k];
  }

  lemma {:induction false} HasStoppingAfterRunJob(s: ContainerState, j: Job, n: Name, w: Wait)
    requires HasStopping(s.entries, n, w) && j != StopCompletedJob(n)
    ensures HasStopping(RunJob(s, j).entries, n, w)
  {
    match j
    case InstallJob(m, deps, svc, f) =>
      if IndexOf(s.entries, m).None? {
        var k :| 0 <= k < |s.entries| && s.entries[k].name == n && s.entries[k].phase == Stopping(w);
        assert RunJob(s, j).entries[k] == s.entries[k];
      }
    case RemoveJob(m, f) =>
      if IndexOf(s.entries, m).Some? {
        var i := IndexOf(s.entries, m).value;
        HasStoppingAfterUpdate(s.entries, i, s.entries[i].(removeFutures := s.entries[i].removeFutures + [f]), n, w);
      }
    case StopCompletedJob(m) =>
      if IndexOf(s.entries, m).Some? && s.entries[IndexOf(s.entries, m).value].phase.Stopping? {
        HasStoppingAfterDelete(s.entries, IndexOf(s.entries, m).value, n, w);
      }
  }

  lemma {:induction false} HasStoppingAfterAdvance(s: ContainerState, i: nat, n: Name, w: Wait)
    requires i < |s.entries| && Ready(s.entries, i) && HasStopping(s.entries, n, w)
    ensures HasStopping(Advance(s, i).entries, n, w)
  {
    var e := s.entries[i];
    if e.phase == Pending {
      HasStoppingAfterUpdate(s.entries, i, e.(phase := Started), n, w);
    } else {
      var call := Stop(e.service, |s.futures|).0;
      HasStoppingAfterDelete(s.entries, i, n, w);
      match call
      case NoCall =>
      case Run(a) => HasStoppingAfterUpdate(s.entries, i, e.(phase := Stopping(OnAction(a))), n, w);
      case AsyncSupplied(f) => HasStoppingAfterUpdate(s.entries, i, e.(phase := Stopping(OnFuture(f))), n, w);
      case AsyncFresh =>
        HasStoppingAfterUpdate(s.entries, i, Advance(s, i).entries[i], n, w);
    }
  }

  /**
   * A stop in flight waits: whatever else the queued jobs and the settle
   * passes do, an entry whose stop waits on `w` stays registered, and still
   * waiting, through `doWorkUntilDone` unless its own stop completion is
   * queued.
   */
  lemma {:induction false} StopInFlightWaits(s: ContainerState, n: Name, w: Wait)
    requires HasStopping(s.entries, n, w) && StopCompletedJob(n) !in s.work
    ensures HasStopping(Drain(s).entries, n, w)
    decreases |s.work|, Potential(s.entries)
  {
    if s.work != [] {
      assert s.work == [s.work[0]] + s.work[1..];
      HasStoppingAfterRunJob(s.(work := s.work[1..]), s.work[0], n, w);
      StopInFlightWaits(RunJob(s.(work := s.work[1..]), s.work[0]), n, w);
    } else if FindReady(s.entries).Some? {
      var i := FindReady(s.entries).value;
      HasStoppingAfterAdvance(s, i, n, w);
      StopInFlightWaits(Advance(s, i), n, w);
    }
  }

  /** Entry `e` holds future `g`: as one of its remove futures, or as its install future while pending. */
  predicate Holds(e: Entry, g: FutureId) {
    g in e.removeFutures || (e.phase == Pending && e.installFuture == g)
  }

  /**
   * Future `g` is a remove future of an entry registered under `n` whose stop
   * waits on `w`, and no entry other than such a one holds `g`.
   */
  ghost predicate Attached(es: seq<Entry>, n: Name, w: Wait, g: FutureId) {
    && (exists k | 0 <= k < |es| :: es[k].name == n && es[k].phase == Stopping(w) && g in es[k].removeFutures)
    && (forall k | 0 <= k < |es| && Holds(es[k], g) :: es[k].name == n && es[k].phase == Stopping(w))
  }

  lemma AttachedAfterUpdate(es: seq<Entry>, i: nat, x: Entry, n: Name, w: Wait, g: FutureId)
    requires i < |es| && Attached(es, n, w, g)
    requires es[i].name == n && es[i].phase == Stopping(w) && g in es[i].removeFutures ==>
      x.name == n && x.phase == Stopping(w) && g in x.removeFutures
    requires Holds(x, g) ==> x.name == n && x.phase == Stopping(w)
    ensures Attached(es[i := x], n, w, g)
  {
    var k :| 0 <= k < |es| && es[k].name == n && es[k].phase == Stopping(w) && g in es[k].removeFutures;
    assert es[i := x][k].name == n && es[i := x][k].phase == Stopping(w) && g in es[i := x][k].removeFutures;
  }

  lemma AttachedAfterDelete(es: seq<Entry>, i: nat, n: Name, w: Wait, g: FutureId)
    requires i < |es| && Attached(es, n, w, g) && !Holds(es[i], g)
    ensures Attached(Delete(es, i), n, w, g)
  {
    var k :| 0 <= k < |es| && es[k].name == n && es[k].phase == Stopping(w) && g in es[k].removeFutures;
    var k' := if k < i then k else k - 1;
    assert Delete(es, i)[k'] == es[k];
    forall m | 0 <= m < |Delete(es, i)| && Holds(Delete(es, i)[m], g)
      ensures Delete(es, i)[m].name == n && Delete(es, i)[m].phase == Stopping(w)
    {
      assert Delete(es, i)[m] == es[if m < i then m else m + 1];
    }
  }

  lemma AttachedAfterAppend(es: seq<Entry>, x: Entry, n: Name, w: Wait, g: FutureId)
    requires Attached(es, n, w, g) && !Holds(x, g)
    ensures Attached(es + [x], n, w, g)
  {
    var k :| 0 <= k < |es| && es[k].name == n && es[k].phase == Stopping(w) && g in es[k].removeFutures;
    assert (es + [x])[k] == es[k];
  }

  /** An open future nothing else holds: no queued install or remove carries it. */
  ghost predicate RemoveOpen(s: ContainerState, n: Name, w: Wait, g: FutureId) {
    && Attached(s.entries, n, w, g)
    && g < |s.futures| && s.futures[g] == Incomplete
  }

  lemma {:induction false} RemoveOpenAfterRunJob(s: ContainerState, j: Job, n: Name, w: Wait, g: FutureId)
    requires RemoveOpen(s, n, w, g) && j != StopCompletedJob(n)
    requires !j.StopCompletedJob? ==> j.future != g
    ensures RemoveOpen(RunJob(s, j), n, w, g)
  {
    match j
    case InstallJob(m, deps, svc, f) =>
      if IndexOf(s.entries, m).None? {
        AttachedAfterAppend(s.entries, Entry(m, deps, svc, Pending, f, []), n, w, g);
      }
    case RemoveJob(m, f) =>
      if IndexOf(s.entries, m).Some? {
        var i := IndexOf(s.entries, m).value;
        var x := s.entries[i].(removeFutures := s.entries[i].removeFutures + [f]);
        assert Holds(x, g) ==> Holds(s.entries[i], g);
        AttachedAfterUpdate(s.entries, i, x, n, w, g);
      }
    case StopCompletedJob(m) =>
      if IndexOf(s.entries, m).Some? && s.entries[IndexOf(s.entries, m).value].phase.Stopping? {
        var i := IndexOf(s.entries, m).value;
        assert !Holds(s.entries[i], g);
        AttachedAfterDelete(s.entries, i, n, w, g);
      }
  }

  lemma {:induction false} RemoveOpenAfterAdvance(s: ContainerState, i: nat, n: Name, w: Wait, g: FutureId)
    requires i < |s.entries| && Ready(s.entries, i) && RemoveOpen(s, n, w, g)
    ensures RemoveOpen(Advance(s, i), n, w, g)
  {
    var e := s.entries[i];
    // a ready entry is pending or started, so it does not hold `g`
    assert !Holds(e, g);
    if e.phase == Pending {
      AttachedAfterUpdate(s.entries, i, e.(phase := Started), n, w, g);
    } else {
      var call := Stop(e.service, |s.futures|).0;
      match call
      case NoCall => AttachedAfterDelete(s.entries, i, n, w, g);
      case Run(a) => AttachedAfterUpdate(s.entries, i, e.(phase := Stopping(OnAction(a))), n, w, g);
      case AsyncSupplied(f) =>
        if IsCompleted(s.futures, f) {
          AttachedAfterDelete(s.entries, i, n, w, g);
        } else {
          AttachedAfterUpdate(s.entries, i, e.(phase := Stopping(OnFuture(f))), n, w, g);
        }
      case AsyncFresh =>
        AttachedAfterUpdate(s.entries, i, Advance(s, i).entries[i], n, w, g);
    }
  }

  /**
   * A remove future waits for the stop: a remove future attached to an entry
   * whose stop is in flight stays open, and attached, through
   * `doWorkUntilDone`, unless that entry's stop completion is queued or
   * another entry or queued request holds the same future.
   */
  lemma {:induction false} RemoveWaitsForStop(s: ContainerState, n: Name, w: Wait, g: FutureId)
    requires Attached(s.entries, n, w, g) && g < |s.futures| && s.futures[g] == Incomplete
    requires StopCompletedJob(n) !in s.work
    requires forall j | j in s.work && !j.StopCompletedJob? :: j.future != g
    ensures Attached(Drain(s).entries, n, w, g)
    ensures g < |Drain(s).futures| && Drain(s).futures[g] == Incomplete
    decreases |s.work|, Potential(s.entries)
  {
    if s.work != [] {
      assert s.work == [s.work[0]] + s.work[1..];
      RemoveOpenAfterRunJob(s.(work := s.work[1..]), s.work[0], n, w, g);
      RemoveWaitsForStop(RunJob(s.(work := s.work[1..]), s.work[0]), n, w, g);
    } else if FindReady(s.entries).Some? {
      var i := FindReady(s.entries).value;
      RemoveOpenAfterAdvance(s, i, n, w, g);
      RemoveWaitsForStop(Advance(s, i), n, w, g);
    }
  }

  /** A normally completed future stays so through `doWorkUntilDone`: futures complete at most once. */
  lemma {:induction false} NormalStaysThroughDrain(s: ContainerState, g: FutureId)
    requires g < |s.futures| && s.futures[g] == CompletedNormally
    ensures g < |Drain(s).futures| && Drain(s).futures[g] == CompletedNormally
    decreases |s.work|, Potential(s.entries)
  {
    if s.work != [] {
      var t := RunJob(s.(work := s.work[1..]), s.work[0]);
      assert t.futures[g] == CompletedNormally;
      NormalStaysThroughDrain(t, g);
    } else if FindReady(s.entries).Some? {
      var i := FindReady(s.entries).value;
      assert Advance(s, i).futures[g] == CompletedNormally;
      NormalStaysThroughDrain(Advance(s, i), g);
    }
  }

  /**
   * Once the stop completion of an entry whose stop is in flight is queued,
   * `doWorkUntilDone` unregisters it and completes its open remove future
   * normally, whatever the other queued jobs and settle steps do.
   */
  lemma {:induction false} RemoveCompletesOnQueue(s: ContainerState, n: Name, w: Wait, g: FutureId)
    requires Inv(s) && RemoveOpen(s, n, w, g)
    requires StopCompletedJob(n) in s.work
    requires forall j | j in s.work && !j.StopCompletedJob? :: j.future != g
    ensures g < |Drain(s).futures| && Drain(s).futures[g] == CompletedNormally
    decreases |s.work|
  {
    var j := s.work[0];
    var s' := s.(work := s.work[1..]);
    assert s.work == [j] + s.work[1..];
    assert Inv(s') && RemoveOpen(s', n, w, g);
    InvRunJob(s', j);
    if j == StopCompletedJob(n) {
      var k :| 0 <= k < |s.entries| && s.entries[k].name == n && s.entries[k].phase == Stopping(w) && g in s.entries[k].removeFutures;
      assert IndexOf(s.entries, n) == Some(k);
      assert RunJob(s', j) == Unregister(s', k);
      NormalStaysThroughDrain(RunJob(s', j), g);
    } else {
      RemoveOpenAfterRunJob(s', j, n, w, g);
      RemoveCompletesOnQueue(RunJob(s', j), n, w, g);
    }
  }

  /**
   * A remove request completes after its stop future does: completing the
   * future an entry's stop waits on, normally or exceptionally, and then
   * `doWorkUntilDone` completes that entry's open remove future normally.
   */
  lemma RemoveCompletesAfterStop(s: ContainerState, n: Name, f: FutureId, g: FutureId, c: Completion)
    requires c != Incomplete && Inv(s)
    requires RemoveOpen(s, n, OnFuture(f), g) && g != f
    requires f < |s.futures| && s.futures[f] == Incomplete
    requires forall j | j in s.work && !j.StopCompletedJob? :: j.future != g
    ensures g < |Drain(CompleteFuture(s, f, c)).futures|
    ensures Drain(CompleteFuture(s, f, c)).futures[g] == CompletedNormally
  {
    var t := CompleteFuture(s, f, c);
    InvRequests(s, n, {}, MockService, f, c);
    var k :| 0 <= k < |s.entries| && s.entries[k].name == n && s.entries[k].phase == Stopping(OnFuture(f)) && g in s.entries[k].removeFutures;
    assert StopCompletedJob(n) in Waiters(s.entries, f);
    assert t.work == s.work + Waiters(s.entries, f);
    forall j | j in t.work && !j.StopCompletedJob?
      ensures j.future != g
    {
      assert j in s.work;
    }
    RemoveCompletesOnQueue(t, n, OnFuture(f), g);
  }

  /**
   * A remove request completes after its stop action runs:
   * `executeAsyncActions` and then `doWorkUntilDone` complete the open
   * remove future of the entry whose action was queued, normally.
   */
  lemma RemoveCompletesAfterAction(s: ContainerState, n: Name, a: Action, g: FutureId)
    requires Inv(s) && RemoveOpen(s, n, OnAction(a), g)
    requires StopActionJob(n, a) in s.asyncActions
    requires forall j | j in s.work && !j.StopCompletedJob? :: j.future != g
    ensures g < |Drain(ExecuteAsyncActions(s)).futures|
    ensures Drain(ExecuteAsyncActions(s)).futures[g] == CompletedNormally
  {
    var t := ExecuteAsyncActions(s);
    InvRequests(s, n, {}, MockService, 0, CompletedNormally);
    var q := s.asyncActions;
    var i :| 0 <= i < |q| && q[i] == StopActionJob(n, a);
    assert t.work[|s.work| + i] == CompletionsOf(q)[i] == StopCompletedJob(n);
    forall j | j in t.work && !j.StopCompletedJob?
      ensures j.future != g
    {
      assert j in s.work;
    }
    RemoveCompletesOnQueue(t, n, OnAction(a), g);
  }

  // ---------------------------------------------------------------------------
  // Queued jobs run before settle steps

  /**
   * `doWorkUntilDone` empties the work queue before any settle step: a remove
   * followed by a reinstall of the same started service finds the name still
   * registered, so the reinstall fails while the removal completes.
   */
  lemma ReinstallBehindRemoveFails()
    ensures var s := ContainerState([Entry("n", {}, MockService, Started, 0, [])],
                                    [RemoveJob("n", 1), InstallJob("n", {}, MockService, 2)], [],
                                    [CompletedNormally, Incomplete, Incomplete], []);
      Drain(s) == ContainerState([], [], [], [CompletedNormally, CompletedNormally, CompletedExceptionally], [])
  {
    var e := Entry("n", {}, MockService, Started, 0, []);
    var s := ContainerState([e], [RemoveJob("n", 1), InstallJob("n", {}, MockService, 2)], [],
                            [CompletedNormally, Incomplete, Incomplete], []);
    var t := ContainerState([e.(removeFutures := [1])], [], [], [CompletedNormally, Incomplete, CompletedExceptionally], []);
    assert IndexOf(s.entries, "n") == Some(0);
    assert e.removeFutures + [1] == [1];
    var s1 := RunJob(s.(work := [InstallJob("n", {}, MockService, 2)]), RemoveJob("n", 1));
    assert s1 == t.(work := [InstallJob("n", {}, MockService, 2)], futures := s.futures);
    assert IndexOf(s1.entries, "n") == Some(0);
    assert RunJob(s1.(work := []), InstallJob("n", {}, MockService, 2)) == t;
    assert Drain(s) == Drain(s1);
    assert Drain(s) == Drain(t);
    assert Ready(t.entries, 0) && FindReady(t.entries) == Some(0);
    assert Advance(t, 0) == Unregister(t, 0);
    var u := ContainerState([], [], [], [CompletedNormally, CompletedNormally, CompletedExceptionally], []);
    assert Delete(t.entries, 0) == [];
    assert Unregister(t, 0) == u;
    assert Drain(u) == u;
  }

  // ---------------------------------------------------------------------------
  // A failed stop future is swallowed

  /** Two states that differ at most in how the completed future `f` completed. */
  ghost predicate AgreeBut(s: ContainerState, t: ContainerState, f: FutureId) {
    && s.entries == t.entries && s.work == t.work
    && s.asyncActions == t.asyncActions && s.executed == t.executed
    && |s.futures| == |t.futures|
    && IsCompleted(s.futures, f) && IsCompleted(t.futures, f)
    && forall g | 0 <= g < |s.futures| && g != f :: s.futures[g] == t.futures[g]
  }

  ghost predicate FuturesAgreeBut(a: seq<Completion>, b: seq<Completion>, f: FutureId) {
    && |a| == |b| && IsCompleted(a, f) && IsCompleted(b, f)
    && forall g | 0 <= g < |a| && g != f :: a[g] == b[g]
  }

  lemma {:induction false} AgreeResolveAll(a: seq<Completion>, b: seq<Completion>, f: FutureId, ids: seq<FutureId>, c: Completion)
    requires c != Incomplete && FuturesAgreeBut(a, b, f)
    ensures FuturesAgreeBut(ResolveAll(a, ids, c), ResolveAll(b, ids, c), f)
    decreases |ids|
  {
    if ids != [] {
      AgreeResolveAll(Resolve(a, ids[0], c), Resolve(b, ids[0], c), f, ids[1..], c);
    }
  }

  lemma {:induction false} AgreeRunJob(s: ContainerState, t: ContainerState, f: FutureId, j: Job)
    requires AgreeBut(s, t, f)
    ensures AgreeBut(RunJob(s, j), RunJob(t, j), f)
  {
    match j
    case InstallJob(n, deps, svc, g) =>
    case RemoveJob(n, g) =>
    case StopCompletedJob(n) =>
      if IndexOf(s.entries, n).Some? {
        var i := IndexOf(s.entries, n).value;
        AgreeResolveAll(s.futures, t.futures, f, s.entries[i].removeFutures, CompletedNormally);
      }
  }

  lemma {:induction false} AgreeAdvance(s: ContainerState, t: ContainerState, f: FutureId, i: nat)
    requires AgreeBut(s, t, f) && i < |s.entries| && Ready(s.entries, i)
    ensures AgreeBut(Advance(s, i), Advance(t, i), f)
  {
    var e := s.entries[i];
    if e.phase == Started {
      AgreeResolveAll(s.futures, t.futures, f, e.removeFutures, CompletedNormally);
      var (call, svc) := Stop(e.service, |s.futures|);
      if call.AsyncFresh? {
        var a := Advance(s, i).futures;
        var b := Advance(t, i).futures;
        assert a == s.futures + [Incomplete] && b == t.futures + [Incomplete];
        assert forall g | 0 <= g < |a| && g != f :: a[g] == b[g];
      }
    }
  }

  lemma {:induction false} AgreeDrain(s: ContainerState, t: ContainerState, f: FutureId)
    requires AgreeBut(s, t, f)
    ensures AgreeBut(Drain(s), Drain(t), f)
    decreases |s.work|, Potential(s.entries)
  {
    if s.work != [] {
      AgreeRunJob(s.(work := s.work[1..]), t.(work := t.work[1..]), f, s.work[0]);
      AgreeDrain(RunJob(s.(work := s.work[1..]), s.work[0]), RunJob(t.(work := t.work[1..]), t.work[0]), f);
    } else if FindReady(s.entries).Some? {
      var i := FindReady(s.entries).value;
      AgreeAdvance(s, t, f, i);
      AgreeDrain(Advance(s, i), Advance(t, i), f);
    }
  }

  /**
   * Completing a future exceptionally instead of normally changes nothing
   * the container does afterwards: after draining, the registry, the queues
   * and every other future (every remove future among them) are the same.
   */
  lemma StopFailureSwallowed(s: ContainerState, f: FutureId)
    requires f < |s.futures| && s.futures[f] == Incomplete
    ensures AgreeBut(Drain(CompleteFuture(s, f, CompletedNormally)), Drain(CompleteFuture(s, f, CompletedExceptionally)), f)
  {
    AgreeDrain(CompleteFuture(s, f, CompletedNormally), CompleteFuture(s, f, CompletedExceptionally), f);
  }

  // ---------------------------------------------------------------------------
  // Draining is idempotent

  /** Once the worker is idle, draining again makes no transition and runs no action. */
  lemma DrainIdempotent(s: ContainerState)
    ensures Drain(Drain(s)) == Drain(s)
  {
    var r := Drain(s);
    assert r.work == [] && FindReady(r.entries).None?;
  }
}
