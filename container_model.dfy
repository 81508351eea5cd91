/**
 * The service container's stop protocol as a state machine on values.
 *
 * A single worker owns a registry of service entries, a FIFO work queue of
 * jobs (install requests, remove requests, stop completions) and a second
 * FIFO queue of actions that services handed to `stopContext.run`.  Futures
 * are single-assignment cells held in one table and named by their index.
 * Every operation the controlled container offers (install, remove, drain
 * the work queue, execute the queued stop actions, complete a future from
 * outside) is a function from state to state here; the class in
 * container.dfy runs them step by step.
 */
module ContainerModel {
  import opened Wrappers

  type Name = string
  type FutureId = nat

  /** The state of a CompletableFuture: it is completed at most once. */
  datatype Completion = Incomplete | CompletedNormally | CompletedExceptionally

  /**
   * A Runnable given to `stopContext.run`; `throws` says whether its `run()`
   * throws. The container swallows the exception, so no operation reads
   * `throws`: a throwing action has the same effect as one that returns.
   */
  datatype Action = Action(id: nat, throws: bool)

  /**
   * The services of the tests: a Mockito mock of `Service` (its `stop` does
   * nothing), and `AsyncStopService` with its two fields `action` and
   * `future` (null is None).
   */
  datatype Service =
    | MockService
    | AsyncStopService(action: Option<Action>, future: Option<FutureId>)

  /** The stop-context method a service's `stop` calls. */
  datatype StopCall = NoCall | Run(action: Action) | AsyncSupplied(future: FutureId) | AsyncFresh

  /** What an entry whose stop is in flight waits for. */
  datatype Wait = OnAction(action: Action) | OnFuture(future: FutureId)

  /** Pending: installed, not started. A removed entry leaves the registry. */
  datatype Phase = Pending | Started | Stopping(wait: Wait)

  datatype Entry = Entry(
    name: Name,
    deps: set<Name>,
    service: Service,
    phase: Phase,
    installFuture: FutureId,
    removeFutures: seq<FutureId>)

  /** The work queue's items. */
  datatype Job =
    | InstallJob(name: Name, deps: set<Name>, service: Service, future: FutureId)
    | RemoveJob(name: Name, future: FutureId)
    | StopCompletedJob(name: Name)

  /** An action queued by `stopContext.run(action)` on behalf of the named service. */
  datatype StopActionJob = StopActionJob(name: Name, action: Action)

  datatype ContainerState = ContainerState(
    entries: seq<Entry>,
    work: seq<Job>,
    asyncActions: seq<StopActionJob>,
    futures: seq<Completion>,
    executed: seq<Action>)

  const EmptyContainer := ContainerState([], [], [], [], [])

  // ---------------------------------------------------------------------------
  // AsyncStopService.stop

  /**
   * `AsyncStopService.stop`: with an action it calls `run(action)`; otherwise,
   * with a supplied future, `async(future)`; otherwise it calls `async()`,
   * which hands out `issued`, and stores that future in its `future` field.
   * The mock's `stop` calls nothing. The second component is the service
   * after the call.
   */
  function Stop(svc: Service, issued: FutureId): (r: (StopCall, Service))
    ensures r.0 == NoCall <==> svc.MockService?
    ensures r.0.Run? <==> svc.AsyncStopService? && svc.action.Some?
    ensures r.0.Run? ==> r.0.action == svc.action.value
    ensures r.0.AsyncSupplied? <==> svc.AsyncStopService? && svc.action.None? && svc.future.Some?
    ensures r.0 == AsyncFresh <==> svc.AsyncStopService? && svc.action.None? && svc.future.None?
    // whichever future stop waits on is the one the service's field holds afterwards
    ensures r.0.AsyncSupplied? ==> r.1.AsyncStopService? && r.1.future == Some(r.0.future)
    ensures r.0 == AsyncFresh ==> r.1.AsyncStopService? && r.1.future == Some(issued)
    ensures r.0 != AsyncFresh ==> r.1 == svc
    ensures r.1.AsyncStopService? <==> svc.AsyncStopService?
    ensures r.1.AsyncStopService? ==> r.1.action == svc.action
  {
    match svc
    case MockService => (NoCall, svc)
    case AsyncStopService(action, future) =>
      if action.Some? then (Run(action.value), svc)
      else if future.Some? then (AsyncSupplied(future.value), svc)
      else (AsyncFresh, svc.(future := Some(issued)))
  }

  // ---------------------------------------------------------------------------
  // Futures

  predicate IsCompleted(fs: seq<Completion>, f: FutureId) {
    f < |fs| && fs[f] != Incomplete
  }

  /** `complete`/`completeExceptionally`: only an incomplete future changes. */
  function Resolve(fs: seq<Completion>, f: FutureId, c: Completion): (r: seq<Completion>)
    requires c != Incomplete
    ensures |r| == |fs|
    ensures forall g :: 0 <= g < |fs| && g != f ==> r[g] == fs[g]
    ensures f < |fs| ==> r[f] == (if fs[f] == Incomplete then c else fs[f])
  {
    if f < |fs| && fs[f] == Incomplete then fs[f := c] else fs
  }

  /** Resolves every future of `ids`, in order. */
  function ResolveAll(fs: seq<Completion>, ids: seq<FutureId>, c: Completion): (r: seq<Completion>)
    requires c != Incomplete
    ensures |r| == |fs|
    ensures forall g :: 0 <= g < |fs| && g in ids && fs[g] == Incomplete ==> r[g] == c
    ensures forall g :: 0 <= g < |fs| && (g !in ids || fs[g] != Incomplete) ==> r[g] == fs[g]
    decreases |ids|
  {
    if ids == [] then fs else ResolveAll(Resolve(fs, ids[0], c), ids[1..], c)
  }

  // ---------------------------------------------------------------------------
  // Registry and dependency graph

  /** The index of the entry registered under `n`, if any. */
  function IndexOf(es: seq<Entry>, n: Name): (r: Option<nat>)
    ensures r.Some? ==> r.value < |es| && es[r.value].name == n
    ensures r.None? <==> forall i :: 0 <= i < |es| ==> es[i].name != n
    ensures r.Some? ==> forall i :: 0 <= i < r.value ==> es[i].name != n
  {
    if es == [] then None
    else if es[0].name == n then Some(0)
    else match IndexOf(es[1..], n)
      case None => None
      case Some(i) => Some(i + 1)
  }

  predicate IsStarted(es: seq<Entry>, n: Name) {
    exists i | 0 <= i < |es| :: es[i].name == n && es[i].phase == Started
  }

  predicate DependenciesStarted(es: seq<Entry>, e: Entry) {
    forall d | d in e.deps :: IsStarted(es, d)
  }

  /** No registered entry declares `n` as a dependency (removed entries have left). */
  predicate DependentsCleared(es: seq<Entry>, n: Name) {
    forall i | 0 <= i < |es| :: n !in es[i].deps
  }

  /** Entry `i` has a transition the worker can make now. */
  predicate Ready(es: seq<Entry>, i: nat)
    requires i < |es|
  {
    || (es[i].phase == Pending && DependenciesStarted(es, es[i]))
    || (es[i].phase == Started && es[i].removeFutures != [] && DependentsCleared(es, es[i].name))
  }

  /** The first ready entry at or after `k`, in registry order. */
  function FindReadyFrom(es: seq<Entry>, k: nat): (r: Option<nat>)
    requires k <= |es|
    ensures r.Some? ==> k <= r.value < |es| && Ready(es, r.value)
    ensures r.None? <==> forall i :: k <= i < |es| ==> !Ready(es, i)
    decreases |es| - k
  {
    if k == |es| then None
    else if Ready(es, k) then Some(k)
    else FindReadyFrom(es, k + 1)
  }

  function FindReady(es: seq<Entry>): Option<nat> {
    FindReadyFrom(es, 0)
  }

  function Delete(es: seq<Entry>, i: nat): seq<Entry>
    requires i < |es|
  {
    es[..i] + es[i + 1..]
  }

  // ---------------------------------------------------------------------------
  // Termination measure of the worker's settle passes

  function Rank(p: Phase): nat {
    match p
    case Pending => 2
    case Started => 1
    case Stopping(_) => 0
  }

  function Potential(es: seq<Entry>): nat {
    if es == [] then 0 else Rank(es[0].phase) + Potential(es[1..])
  }

  lemma {:induction false} PotentialUpdate(es: seq<Entry>, i: nat, e: Entry)
    requires i < |es|
    ensures Potential(es[i := e]) == Potential(es) - Rank(es[i].phase) + Rank(e.phase)
  {
    if i > 0 {
      assert es[i := e][1..] == es[1..][i - 1 := e];
      PotentialUpdate(es[1..], i - 1, e);
    } else {
      assert es[i := e][1..] == es[1..];
    }
  }

  lemma {:induction false} PotentialDelete(es: seq<Entry>, i: nat)
    requires i < |es|
    ensures Potential(Delete(es, i)) == Potential(es) - Rank(es[i].phase)
  {
    if i > 0 {
      assert Delete(es, i)[1..] == Delete(es[1..], i - 1);
      PotentialDelete(es[1..], i - 1);
    } else {
      assert Delete(es, i) == es[1..];
    }
  }

  // ---------------------------------------------------------------------------
  // Worker steps

  /** Removal finished: the entry leaves the registry and its remove futures complete normally. */
  function Unregister(s: ContainerState, i: nat): (r: ContainerState)
    requires i < |s.entries|
    ensures r.entries == Delete(s.entries, i)
    ensures r.work == s.work && r.asyncActions == s.asyncActions && r.executed == s.executed
    ensures |r.futures| == |s.futures|
    ensures forall g :: 0 <= g < |s.futures| && g in s.entries[i].removeFutures ==> IsCompleted(r.futures, g)
    // a remove future still open completes normally; the stop's own outcome is not propagated
    ensures forall g :: 0 <= g < |s.futures| && g in s.entries[i].removeFutures && s.futures[g] == Incomplete ==>
      r.futures[g] == CompletedNormally
    ensures forall g :: 0 <= g < |s.futures| && g !in s.entries[i].removeFutures ==> r.futures[g] == s.futures[g]
  {
    s.(entries := Delete(s.entries, i),
       futures := ResolveAll(s.futures, s.entries[i].removeFutures, CompletedNormally))
  }

  /**
   * The worker invokes `stop` on entry `i` and reacts to the stop-context
   * call it made: `run(a)` queues the action and the entry waits on it;
   * `async()` issues a new incomplete future, which the entry waits on;
   * `async(f)` waits on `f` unless it has already completed; with no call,
   * or with `f` already completed, the removal finishes at once.
   */
  function StopEntry(s: ContainerState, i: nat): (r: ContainerState)
    requires i < |s.entries| && s.entries[i].phase == Started
    ensures Potential(r.entries) < Potential(s.entries)
    ensures r.work == s.work && r.executed == s.executed
    ensures var e, call := s.entries[i], Stop(s.entries[i].service, |s.futures|).0;
      && (call == NoCall ==> r == Unregister(s, i))
      && (call.Run? ==>
            && r.entries == s.entries[i := e.(phase := Stopping(OnAction(call.action)))]
            && r.asyncActions == s.asyncActions + [StopActionJob(e.name, call.action)]
            && r.futures == s.futures)
      && (call == AsyncFresh ==>
            && r.entries == s.entries[i := e.(service := AsyncStopService(e.service.action, Some(|s.futures|)),
                                               phase := Stopping(OnFuture(|s.futures|)))]
            && r.futures == s.futures + [Incomplete]
            && r.asyncActions == s.asyncActions)
      && (call.AsyncSupplied? && !IsCompleted(s.futures, call.future) ==>
            && r.entries == s.entries[i := e.(phase := Stopping(OnFuture(call.future)))]
            && r.futures == s.futures && r.asyncActions == s.asyncActions)
      && (call.AsyncSupplied? && IsCompleted(s.futures, call.future) ==> r == Unregister(s, i))
  {
    var e := s.entries[i];
    var issued := |s.futures|;
    var (call, svc) := Stop(e.service, issued);
    match call
    case NoCall =>
      PotentialDelete(s.entries, i);
      Unregister(s, i)
    case Run(a) =>
      PotentialUpdate(s.entries, i, e.(phase := Stopping(OnAction(a))));
      s.(entries := s.entries[i := e.(phase := Stopping(OnAction(a)))],
         asyncActions := s.asyncActions + [StopActionJob(e.name, a)])
    case AsyncSupplied(f) =>
      PotentialDelete(s.entries, i);
      PotentialUpdate(s.entries, i, e.(phase := Stopping(OnFuture(f))));
      if IsCompleted(s.futures, f) then Unregister(s, i)
      else s.(entries := s.entries[i := e.(phase := Stopping(OnFuture(f)))])
    case AsyncFresh =>
      PotentialUpdate(s.entries, i, e.(service := svc, phase := Stopping(OnFuture(issued))));
      s.(entries := s.entries[i := e.(service := svc, phase := Stopping(OnFuture(issued)))],
         futures := s.futures + [Incomplete])
  }

  /**
   * One settle transition of a ready entry: a pending entry starts and its
   * install future completes normally; a started one begins its stop.
   */
  function Advance(s: ContainerState, i: nat): (r: ContainerState)
    requires i < |s.entries| && Ready(s.entries, i)
    ensures Potential(r.entries) < Potential(s.entries)
    ensures r.work == s.work
    ensures s.entries[i].phase == Pending ==>
      && r.entries == s.entries[i := s.entries[i].(phase := Started)]
      && r.futures == Resolve(s.futures, s.entries[i].installFuture, CompletedNormally)
      && r.asyncActions == s.asyncActions && r.executed == s.executed
    ensures s.entries[i].phase != Pending ==> s.entries[i].phase == Started && r == StopEntry(s, i)
  {
    var e := s.entries[i];
    if e.phase == Pending then
      PotentialUpdate(s.entries, i, e.(phase := Started));
      s.(entries := s.entries[i := e.(phase := Started)],
         futures := Resolve(s.futures, e.installFuture, CompletedNormally))
    else
      StopEntry(s, i)
  }

  /**
   * Executes one job taken off the work queue (`s.work` no longer holds it):
   * an install registers a pending entry under a free name and fails its
   * future under a taken one; a remove attaches its future to the entry, or
   * fails it for an unknown name; a stop completion unregisters an entry
   * whose stop is in flight and is ignored otherwise.
   */
  function RunJob(s: ContainerState, j: Job): (r: ContainerState)
    ensures r.work == s.work
    ensures r.asyncActions == s.asyncActions && r.executed == s.executed
    ensures j.InstallJob? && IndexOf(s.entries, j.name).None? ==>
      r.entries == s.entries + [Entry(j.name, j.deps, j.service, Pending, j.future, [])] && r.futures == s.futures
    ensures j.InstallJob? && IndexOf(s.entries, j.name).Some? ==>
      r.entries == s.entries && r.futures == Resolve(s.futures, j.future, CompletedExceptionally)
    ensures j.RemoveJob? && IndexOf(s.entries, j.name).Some? ==>
      var i := IndexOf(s.entries, j.name).value;
      && r.entries == s.entries[i := s.entries[i].(removeFutures := s.entries[i].removeFutures + [j.future])]
      && r.futures == s.futures
    ensures j.RemoveJob? && IndexOf(s.entries, j.name).None? ==>
      r.entries == s.entries && r.futures == Resolve(s.futures, j.future, CompletedExceptionally)
    ensures j.StopCompletedJob? && IndexOf(s.entries, j.name).Some? && s.entries[IndexOf(s.entries, j.name).value].phase.Stopping? ==>
      r == Unregister(s, IndexOf(s.entries, j.name).value)
    ensures j.StopCompletedJob? && (IndexOf(s.entries, j.name).None? || !s.entries[IndexOf(s.entries, j.name).value].phase.Stopping?) ==>
      r == s
  {
    match j
    case InstallJob(n, deps, svc, f) =>
      if IndexOf(s.entries, n).Some? then
        // the name is taken: the install future fails
        s.(futures := Resolve(s.futures, f, CompletedExceptionally))
      else
        s.(entries := s.entries + [Entry(n, deps, svc, Pending, f, [])])
    case RemoveJob(n, f) =>
      (match IndexOf(s.entries, n)
       case None =>
         // unknown name: the remove future fails
         s.(futures := Resolve(s.futures, f, CompletedExceptionally))
       case Some(i) =>
         var e := s.entries[i];
         s.(entries := s.entries[i := e.(removeFutures := e.removeFutures + [f])]))
    case StopCompletedJob(n) =>
      (match IndexOf(s.entries, n)
       case Some(i) => if s.entries[i].phase.Stopping? then Unregister(s, i) else s
       case None => s)
  }

  /** A worker state with nothing left to do. */
  predicate Idle(s: ContainerState) {
    s.work == [] && FindReady(s.entries).None?
  }

  /**
   * `doWorkUntilDone`: execute jobs in FIFO order; when the queue is empty,
   * advance the first ready entry; stop when neither is possible.
   */
  function Drain(s: ContainerState): (r: ContainerState)
    ensures Idle(r)
    decreases |s.work|, Potential(s.entries)
  {
    if s.work != [] then Drain(RunJob(s.(work := s.work[1..]), s.work[0]))
    else match FindReady(s.entries)
      case None => s
      case Some(i) => Drain(Advance(s, i))
  }

  // ---------------------------------------------------------------------------
  // Stop actions and external completion

  /** The actions of a queue of stop actions, in order. */
  function ActionsOf(q: seq<StopActionJob>): (r: seq<Action>)
    ensures |r| == |q|
    ensures forall k :: 0 <= k < |q| ==> r[k] == q[k].action
  {
    if q == [] then [] else ActionsOf(q[..|q| - 1]) + [q[|q| - 1].action]
  }

  /** The stop completions a queue of stop actions produces once executed, in order. */
  function CompletionsOf(q: seq<StopActionJob>): (r: seq<Job>)
    ensures |r| == |q|
    ensures forall k :: 0 <= k < |q| ==> r[k] == StopCompletedJob(q[k].name)
  {
    if q == [] then [] else CompletionsOf(q[..|q| - 1]) + [StopCompletedJob(q[|q| - 1].name)]
  }

  /**
   * `executeAsyncActions`: every queued stop action runs once, in order; its
   * stop then counts as completed whether the action returned or threw.
   */
  function ExecuteAsyncActions(s: ContainerState): ContainerState {
    s.(asyncActions := [],
       executed := s.executed + ActionsOf(s.asyncActions),
       work := s.work + CompletionsOf(s.asyncActions))
  }

  /** A stop completion for every entry whose stop waits on future `f`, in registry order. */
  function Waiters(es: seq<Entry>, f: FutureId): (r: seq<Job>)
    ensures forall j :: j in r ==> j.StopCompletedJob?
    ensures forall k :: 0 <= k < |es| && es[k].phase == Stopping(OnFuture(f)) ==> StopCompletedJob(es[k].name) in r
    ensures forall j :: j in r ==> exists k :: 0 <= k < |es| && es[k].phase == Stopping(OnFuture(f)) && j == StopCompletedJob(es[k].name)
  {
    if es == [] then []
    else
      var rest := Waiters(es[1..], f);
      assert forall k :: 1 <= k < |es| ==> es[k] == es[1..][k - 1];
      if es[0].phase == Stopping(OnFuture(f)) then [StopCompletedJob(es[0].name)] + rest else rest
  }

  /**
   * Someone outside the worker completes future `f` (normally or
   * exceptionally); the continuations attached by waiting stops are queued
   * as work. A future already completed stays as it is. Futures the worker
   * completes itself (install and remove futures) wake no waiting stop:
   * stop futures are completed from outside the container.
   */
  function CompleteFuture(s: ContainerState, f: FutureId, c: Completion): ContainerState
    requires c != Incomplete
  {
    if f < |s.futures| && s.futures[f] == Incomplete then
      s.(futures := s.futures[f := c], work := s.work + Waiters(s.entries, f))
    else s
  }

  // ---------------------------------------------------------------------------
  // Requests of callers

  /** `new CompletableFuture<>()`: a new incomplete future. */
  function NewFuture(s: ContainerState): (ContainerState, FutureId) {
    (s.(futures := s.futures + [Incomplete]), |s.futures|)
  }

  /** `createService(name, service).dependency(..)*.install()`: queue the install, return its future. */
  function Install(s: ContainerState, n: Name, deps: set<Name>, svc: Service): (ContainerState, FutureId) {
    var f := |s.futures|;
    (s.(futures := s.futures + [Incomplete], work := s.work + [InstallJob(n, deps, svc, f)]), f)
  }

  /** `removeService(name)`: queue the removal, return its future. */
  function RemoveService(s: ContainerState, n: Name): (ContainerState, FutureId) {
    var f := |s.futures|;
    (s.(futures := s.futures + [Incomplete], work := s.work + [RemoveJob(n, f)]), f)
  }
}
