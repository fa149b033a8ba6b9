/**
 The daemon as one transition system: the scheduler, the scan engine and the exporter joined at the calls
 they make into each other. A callback and the operation that makes it are one step only where the source
 runs them under the same lock or where the order in between cannot be observed.
 */
module Daemon {
  import opened FileTree
  import opened Serial
  import S = SchedulerModel
  import E = ScanEngine

  // `consumed` messages of the result queue have been applied to the tables; `available` workers have taken the
  // dispatch_failed flag and not yet called notify_dispatch_available.
  datatype System = System(sched: S.Sched, engine: E.Engine, consumed: nat, available: nat)

  datatype Action =
    | Sched(a: S.Action)       // submit, cancel, the dispatcher's own sections
    | Available                // notify_dispatch_available
    | Start(node: Node)        // start_new_scan registers the scan; node is what the root holds
    | Refuse                   // start_new_scan finds the id registered already
    | Dispatch                 // any further step of start_new_scan
    | Pop(w: nat)
    | WorkerStep(w: nat)       // any step of a worker, calling notify_scan_finished where the code does
    | CancelCall(id: nat)      // manager.cancel_scan, called by Scheduler::cancel
    | DispatcherCancel         // and by the dispatcher
    | Consume                  // the exporter applies one message
    | ExportDone(id: nat)      // notify_export_done after the scan's sentinel was applied

  function Init(maxConcurrent: nat, queueMax: nat, slots: nat, threads: nat): System
    requires maxConcurrent > 0 && queueMax > 0
  {
    System(S.Init(maxConcurrent, queueMax), E.Init(slots, maxConcurrent, threads), 0, 0)
  }

  predicate SchedulerOnly(a: S.Action) {
    a.Submit? || a.Take? || a.Complete? || a.Cancel?
  }

  function RootAction(entry: S.PendingRoot, node: Node): E.Action {
    E.StartRoot(entry.id, Work(entry.root, node))
  }

  predicate Accepts(e: E.Engine) {
    e.call.Added? && |e.queue| < e.slots
  }

  // The last step of start_new_scan, with its answer.
  predicate Answers(e: E.Engine) {
    Accepts(e) || e.call.Flagged?
  }

  predicate Tells(e: E.Engine, w: nat) {
    w < |e.workers| && e.workers[w] != [] && E.Top(e.workers[w]).pc.NotifyFinished?
  }

  // dispatch_failed.exchange(false) returns true.
  predicate TakesFlag(e: E.Engine, w: nat) {
    w < |e.workers| && e.workers[w] != [] && E.Top(e.workers[w]).pc.Tail? && e.dispatchFailed
  }

  predicate Enabled(d: System, a: Action) {
    match a
    case Available => d.available > 0
    case Sched(x) => SchedulerOnly(x) && S.Enabled(d.sched, x)
    case Start(node) =>
      && d.sched.disp.Calling? && WellFormed(node)
      && E.Enabled(d.engine, RootAction(d.sched.disp.entry, node))
    case Refuse => d.sched.disp.Calling? && d.engine.call.NoCall? && d.sched.disp.entry.id in d.engine.registry
    case Dispatch => E.Enabled(d.engine, E.RootStep) && (Answers(d.engine) ==> d.sched.disp.Calling?)
    case Pop(w) => E.Enabled(d.engine, E.Pop(w))
    case WorkerStep(w) =>
      && E.Enabled(d.engine, E.Step(w))
      && (Tells(d.engine, w) ==> S.Enabled(d.sched, S.Finished(E.Top(d.engine.workers[w]).scan)))
    case CancelCall(id) => S.Enabled(d.sched, S.CancelCall(id))
    case DispatcherCancel => S.Enabled(d.sched, S.DispatcherCancel)
    case Consume => d.consumed < |d.engine.log|
    case ExportDone(id) =>
      d.consumed <= |d.engine.log| && Closed(d.engine.log[..d.consumed], id) && S.Enabled(d.sched, S.ExportDone(id))
  }

  function Answered(d: System): S.Sched
    requires Enabled(d, Dispatch)
  {
    if Accepts(d.engine) then S.Do(d.sched, S.Accept)
    else if d.engine.call.Flagged? then S.Do(d.sched, S.Full)
    else d.sched
  }

  function Told(d: System, w: nat): S.Sched
    requires Enabled(d, WorkerStep(w))
  {
    if Tells(d.engine, w) then S.Do(d.sched, S.Finished(E.Top(d.engine.workers[w]).scan)) else d.sched
  }

  function Do(d: System, a: Action): System
    requires Enabled(d, a)
  {
    match a
    case Sched(x) => d.(sched := S.Do(d.sched, x))
    case Available => d.(sched := S.Do(d.sched, S.Available), available := d.available - 1)
    case Start(node) => d.(engine := E.Do(d.engine, RootAction(d.sched.disp.entry, node)))
    case Refuse => d.(sched := S.Do(d.sched, S.Fail))
    case Dispatch => d.(sched := Answered(d), engine := E.Do(d.engine, E.RootStep))
    case Pop(w) => d.(engine := E.Do(d.engine, E.Pop(w)))
    case WorkerStep(w) =>
      d.(sched := Told(d, w), engine := E.Do(d.engine, E.Step(w)),
         available := d.available + (if TakesFlag(d.engine, w) then 1 else 0))
    case CancelCall(id) =>
      d.(sched := S.Do(d.sched, S.CancelCall(id)), engine := E.Do(d.engine, E.Cancel(id)))
    case DispatcherCancel =>
      d.(sched := S.Do(d.sched, S.DispatcherCancel), engine := E.Do(d.engine, E.Cancel(d.sched.disp.id)))
    case Consume => d.(consumed := d.consumed + 1)
    case ExportDone(id) => d.(sched := S.Do(d.sched, S.ExportDone(id)))
  }

  predicate Legal(d: System, run: seq<Action>)
    decreases |run|, 0
  {
    run == [] ||
    var n := |run| - 1;
    Legal(d, run[..n]) && Enabled(After(d, run[..n]), run[n])
  }

  function After(d: System, run: seq<Action>): System
    requires Legal(d, run)
    decreases |run|, 1
  {
    if run == [] then d
    else
      var n := |run| - 1;
      Do(After(d, run[..n]), run[n])
  }

  ghost predicate Reached(d0: System, d: System) {
    exists run :: Legal(d0, run) && After(d0, run) == d
  }

  lemma Advance(d0: System, d: System, a: Action)
    requires Reached(d0, d) && Enabled(d, a)
    ensures Reached(d0, Do(d, a))
  {
    hide Enabled, Do;
    var run :| Legal(d0, run) && After(d0, run) == d;
    var more := run + [a];
    assert more[..|run|] == run;
    assert Legal(d0, more) && After(d0, more) == Do(d, a);
  }

  lemma RunTo(d0: System, d: System) returns (run: seq<Action>)
    requires Reached(d0, d)
    ensures Legal(d0, run) && After(d0, run) == d
  {
    run :| Legal(d0, run) && After(d0, run) == d;
  }
}
