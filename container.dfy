/**
 * The controlled service container the stop tests drive: one worker, run
 * step by step by its caller. Each method changes the container's fields
 * exactly as the matching function of ContainerModel says.
 */
module ServiceContainer {
  import opened Wrappers
  import opened ContainerModel

  class ControlledServiceContainer {
    var entries: seq<Entry>
    var work: seq<Job>
    var asyncActions: seq<StopActionJob>
    var futures: seq<Completion>
    var executed: seq<Action>

    function State(): ContainerState
      reads this
    {
      ContainerState(entries, work, asyncActions, futures, executed)
    }

    constructor ()
      ensures State() == EmptyContainer
    {
      entries, work, asyncActions, futures, executed := [], [], [], [], [];
    }

    /** `new CompletableFuture<>()`, for a future a test supplies to a service. */
    method NewFuture() returns (f: FutureId)
      modifies this
      ensures (State(), f) == ContainerModel.NewFuture(old(State()))
    {
      f := |futures|;
      futures := futures + [Incomplete];
    }

    /** `createService(n, svc).dependency(d)*.install()`. */
    method Install(n: Name, deps: set<Name>, svc: Service) returns (f: FutureId)
      modifies this
      ensures (State(), f) == ContainerModel.Install(old(State()), n, deps, svc)
    {
      f := |futures|;
      futures := futures + [Incomplete];
      work := work + [InstallJob(n, deps, svc, f)];
    }

    /** `removeService(n)`. */
    method RemoveService(n: Name) returns (f: FutureId)
      modifies this
      ensures (State(), f) == ContainerModel.RemoveService(old(State()), n)
    {
      f := |futures|;
      futures := futures + [Incomplete];
      work := work + [RemoveJob(n, f)];
    }

    /** `future.complete(null)` or `future.completeExceptionally(e)` from outside the worker. */
    method CompleteFuture(f: FutureId, c: Completion)
      requires c != Incomplete
      modifies this
      ensures State() == ContainerModel.CompleteFuture(old(State()), f, c)
    {
      if f < |futures| && futures[f] == Incomplete {
        futures := futures[f := c];
        work := work + Waiters(entries, f);
      }
    }

    /**
     * Whether future `f` has completed normally, as AssertJ's `isCompleted`
     * checks; its negation is `isNotCompleted` (still open, or failed).
     */
    method IsCompletedNormally(f: FutureId) returns (completed: bool)
      ensures completed <==> f < |futures| && futures[f] == CompletedNormally
    {
      completed := f < |futures| && futures[f] == CompletedNormally;
    }

    /** How many times action `a` has run, as Mockito's `verify(action).run()` counts. */
    method TimesRun(a: Action) returns (n: nat)
      ensures n == multiset(executed)[a]
    {
      n := 0;
      var k := 0;
      while k < |executed|
        invariant 0 <= k <= |executed|
        invariant n == multiset(executed[..k])[a]
      {
        assert executed[..k + 1] == executed[..k] + [executed[k]];
        if executed[k] == a {
          n := n + 1;
        }
        k := k + 1;
      }
      assert executed[..k] == executed;
    }

    /** The `future` field of the service registered under `n`, as the test reads it. */
    method ServiceFuture(n: Name) returns (f: Option<FutureId>)
      ensures f.Some? <==> exists i | 0 <= i < |entries| ::
        entries[i].name == n && entries[i].service.AsyncStopService? && entries[i].service.future.Some?
      ensures f.Some? ==> exists i | 0 <= i < |entries| ::
        entries[i].name == n && entries[i].service.AsyncStopService? && entries[i].service.future == f
    {
      f := None;
      var i := 0;
      while i < |entries|
        invariant 0 <= i <= |entries|
        invariant f.None? ==> forall k | 0 <= k < i :: !(entries[k].name == n && entries[k].service.AsyncStopService? && entries[k].service.future.Some?)
        invariant f.Some? ==> exists k | 0 <= k < i :: entries[k].name == n && entries[k].service.AsyncStopService? && entries[k].service.future == f
      {
        var e := entries[i];
        if f.None? && e.name == n && e.service.AsyncStopService? && e.service.future.Some? {
          f := e.service.future;
        }
        i := i + 1;
      }
    }

    /** Removal finished: the entry leaves the registry, its remove futures complete normally. */
    method UnregisterAt(i: nat)
      requires i < |entries|
      modifies this
      ensures State() == ContainerModel.Unregister(old(State()), i)
    {
      var ids := entries[i].removeFutures;
      entries := Delete(entries, i);
      var k := 0;
      while k < |ids|
        invariant 0 <= k <= |ids|
        invariant ResolveAll(futures, ids[k..], CompletedNormally) == ResolveAll(old(futures), ids, CompletedNormally)
        invariant entries == Delete(old(entries), i)
        invariant work == old(work) && asyncActions == old(asyncActions) && executed == old(executed)
      {
        futures := Resolve(futures, ids[k], CompletedNormally);
        k := k + 1;
      }
    }

    /** Executes one job taken off the work queue. */
    method RunJob(j: Job)
      modifies this
      ensures State() == ContainerModel.RunJob(old(State()), j)
    {
      match j
      case InstallJob(n, deps, svc, f) =>
        if IndexOf(entries, n).Some? {
          futures := Resolve(futures, f, CompletedExceptionally);
        } else {
          entries := entries + [Entry(n, deps, svc, Pending, f, [])];
        }
      case RemoveJob(n, f) =>
        var found := IndexOf(entries, n);
        if found.None? {
          futures := Resolve(futures, f, CompletedExceptionally);
        } else {
          var e := entries[found.value];
          entries := entries[found.value := e.(removeFutures := e.removeFutures + [f])];
        }
      case StopCompletedJob(n) =>
        var found := IndexOf(entries, n);
        if found.Some? && entries[found.value].phase.Stopping? {
          UnregisterAt(found.value);
        }
    }

    /** Starts ready entry `i`, or invokes its service's `stop` and reacts to the stop-context call. */
    method AdvanceEntry(i: nat)
      requires i < |entries| && Ready(entries, i)
      modifies this
      ensures State() == Advance(old(State()), i)
    {
      var e := entries[i];
      if e.phase == Pending {
        entries := entries[i := e.(phase := Started)];
        futures := Resolve(futures, e.installFuture, CompletedNormally);
      } else {
        var issued := |futures|;
        var (call, svc) := Stop(e.service, issued);
        match call
        case NoCall =>
          UnregisterAt(i);
        case Run(a) =>
          entries := entries[i := e.(phase := Stopping(OnAction(a)))];
          asyncActions := asyncActions + [StopActionJob(e.name, a)];
        case AsyncSupplied(f) =>
          if IsCompleted(futures, f) {
            UnregisterAt(i);
          } else {
            entries := entries[i := e.(phase := Stopping(OnFuture(f)))];
          }
        case AsyncFresh =>
          futures := futures + [Incomplete];
          entries := entries[i := e.(service := svc, phase := Stopping(OnFuture(issued)))];
      }
    }

    /**
     * `doWorkUntilDone`: runs queued jobs in FIFO order and, whenever the
     * queue is empty, the first transition a registered entry is ready for;
     * returns once neither is left.
     */
    method DoWorkUntilDone()
      modifies this
      ensures State() == Drain(old(State()))
      ensures Idle(State())
    {
      while true
        invariant Drain(State()) == Drain(old(State()))
        decreases |work|, Potential(entries)
      {
        if work != [] {
          var j := work[0];
          work := work[1..];
          RunJob(j);
        } else {
          var ready := FindReady(entries);
          if ready.None? {
            break;
          }
          AdvanceEntry(ready.value);
        }
      }
    }

    /** `executeAsyncActions`: runs every action queued by `stopContext.run`, in order. */
    method ExecuteAsyncActions()
      modifies this
      ensures State() == ContainerModel.ExecuteAsyncActions(old(State()))
    {
      var q := asyncActions;
      asyncActions := [];
      var k := 0;
      while k < |q|
        invariant 0 <= k <= |q|
        invariant executed == old(executed) + ActionsOf(q[..k])
        invariant work == old(work) + CompletionsOf(q[..k])
        invariant entries == old(entries) && futures == old(futures) && asyncActions == []
      {
        // the action runs; whether it returns or throws, its stop has completed
        assert q[..k + 1][..k] == q[..k];
        executed := executed + [q[k].action];
        work := work + [StopCompletedJob(q[k].name)];
        k := k + 1;
      }
      assert q[..k] == q;
    }
  }
}
