/**
 The scheduler as a transition system, before Scheduler::shutdown. Each critical section is one step;
 the dispatcher releases its lock while it calls the manager, so submissions, cancels and completions
 interleave with it freely.
 */
module SchedulerModel {
  import opened Paths

  datatype RequestState = PENDING | DROPPED | RUNNING | CANCELED | DONE | FAILED | DISPATCHING

  // `Shutdown` does not occur before shutdown.
  datatype SubmitScanResult = Ok | Invalid | QueueFull | InternalError | OverlapConflict

  datatype PendingRoot = PendingRoot(id: nat, root: string)

  // Position of the thread that executes run().
  datatype Dispatcher =
    | Waiting
    | Calling(entry: PendingRoot)                                 // inside manager.start_new_scan
    | Returned(entry: PendingRoot, accept: bool, full: bool)      // before the second critical section
    | Canceling(id: nat)                                          // before its manager.cancel_scan

  datatype Sched = Sched(
    maxConcurrent: nat,
    queueMax: nat,
    running: int,
    pending: int,
    managerFull: bool,
    state: map<nat, RequestState>,
    roots: set<string>,
    queue: seq<PendingRoot>,
    disp: Dispatcher,
    cancelCalls: set<nat>,         // canceled ids whose manager.cancel_scan call is still to come
    // history
    entries: seq<PendingRoot>,     // accepted submissions, in order
    order: seq<nat>,               // positions in entries, in the order the manager accepted them
    accepted: set<nat>,            // ids accepted by the manager
    notified: set<nat>,            // ids reported by notify_scan_finished
    exported: set<nat>,            // ids whose export is done
    cancels: seq<nat>)             // ids for which cancel returned true, in order

  datatype Action =
    | Submit(id: nat, root: string)
    | Take                         // first critical section of run()
    | Accept                       // the manager queues the root job
    | Full                         // the manager refuses: queue full
    | Fail                         // the manager refuses otherwise
    | Complete                     // second critical section of run()
    | DispatcherCancel             // cancel_after_manager_accept
    | Cancel(id: nat)
    | CancelCall(id: nat)
    | Finished(id: nat)            // notify_scan_finished
    | Available                    // notify_dispatch_available
    | ExportDone(id: nat)          // notify_export_done

  function Init(maxConcurrent: nat, queueMax: nat): Sched
    requires maxConcurrent > 0 && queueMax > 0
  {
    Sched(maxConcurrent, queueMax, 0, 0, false, map[], {}, [], Waiting, {}, [], [], {}, {}, {}, [])
  }

  predicate NonOverlapping(roots: set<string>, path: string) {
    path !in roots && forall r :: r in roots ==> !PathsOverlap(path, r)
  }

  // A root that could not be normalised is empty.
  function SubmitResult(s: Sched, id: nat, root: string): SubmitScanResult {
    if root == "" then Invalid
    else if s.pending >= s.queueMax then QueueFull
    else if !NonOverlapping(s.roots, root) then OverlapConflict
    else if id in s.state then InternalError
    else Ok
  }

  function DoSubmit(s: Sched, id: nat, root: string): Sched {
    if SubmitResult(s, id, root) != Ok then s
    else
      var e := PendingRoot(id, root);
      s.(state := s.state[id := PENDING], roots := s.roots + {root}, queue := s.queue + [e],
         pending := s.pending + 1, entries := s.entries + [e])
  }

  // The negation of run()'s wait condition.
  predicate CanTake(s: Sched) {
    s.queue != [] && s.pending != 0 && !s.managerFull && s.running < s.maxConcurrent
  }

  function DoTake(s: Sched): Sched
    requires s.queue != []
  {
    var e := s.queue[0];
    if e.id !in s.state then s.(queue := s.queue[1..])
    else if s.state[e.id] != PENDING then
      s.(queue := s.queue[1..], pending := if s.state[e.id] != DROPPED then s.pending - 1 else s.pending)
    else s.(state := s.state[e.id := DISPATCHING], disp := Calling(e))
  }

  // The source pops only an entry that is still at the front.
  function PopFront(q: seq<PendingRoot>, id: nat): seq<PendingRoot> {
    if q != [] && q[0].id == id then q[1..] else q
  }

  function DoComplete(s: Sched): Sched
    requires s.disp.Returned?
  {
    var id, accept := s.disp.entry.id, s.disp.accept;
    if id !in s.state then s.(disp := Waiting)
    else match s.state[id]
      case CANCELED =>
        s.(queue := PopFront(s.queue, id), pending := s.pending - 1,
           running := if accept then s.running + 1 else s.running,
           disp := if accept then Canceling(id) else Waiting)
      case DISPATCHING =>
        if accept then
          s.(queue := PopFront(s.queue, id), pending := s.pending - 1, running := s.running + 1,
             state := s.state[id := RUNNING], disp := Waiting)
        else if s.disp.full then
          s.(managerFull := true, state := s.state[id := PENDING], disp := Waiting)
        else
          s.(queue := PopFront(s.queue, id), pending := s.pending - 1,
             state := s.state[id := FAILED], disp := Waiting)
      case _ => s.(disp := Waiting)
  }

  predicate Final(st: RequestState) {
    st.DONE? || st.DROPPED? || st.FAILED? || st.CANCELED?
  }

  predicate CancelResult(s: Sched, id: nat) {
    id in s.state && !Final(s.state[id])
  }

  function DoCancel(s: Sched, id: nat): Sched {
    if !CancelResult(s, id) then s
    else if s.state[id].PENDING? then
      s.(state := s.state[id := DROPPED], pending := s.pending - 1, cancels := s.cancels + [id])
    else
      s.(state := s.state[id := CANCELED], cancelCalls := s.cancelCalls + {id}, cancels := s.cancels + [id])
  }

  function DoFinished(s: Sched, id: nat): Sched {
    if id !in s.state then s.(notified := s.notified + {id})
    else
      var st := s.state[id];
      s.(running := if st.RUNNING? || st.CANCELED? then s.running - 1 else s.running,
         state := if st.RUNNING? || st.DISPATCHING? then s.state[id := DONE] else s.state,
         notified := s.notified + {id})
  }

  // Where a submission with this id stands in the history.
  function RootOf(es: seq<PendingRoot>, id: nat): string {
    if es == [] then "" else if es[|es| - 1].id == id then es[|es| - 1].root else RootOf(es[..|es| - 1], id)
  }

  function DoExportDone(s: Sched, id: nat): Sched {
    s.(roots := s.roots - {RootOf(s.entries, id)}, exported := s.exported + {id})
  }

  predicate Enabled(s: Sched, a: Action) {
    match a
    case Submit(id, _) => id > 0
    case Take => s.disp.Waiting? && CanTake(s)
    case Accept => s.disp.Calling?
    case Full => s.disp.Calling?
    case Fail => s.disp.Calling?
    case Complete => s.disp.Returned?
    case DispatcherCancel => s.disp.Canceling?
    case Cancel(_) => true
    case CancelCall(id) => id in s.cancelCalls
    case Finished(id) => id in s.accepted && id !in s.notified
    case Available => true
    case ExportDone(id) => id in s.notified && id !in s.exported
  }

  function Do(s: Sched, a: Action): Sched
    requires Enabled(s, a)
  {
    match a
    case Submit(id, root) => DoSubmit(s, id, root)
    case Take => DoTake(s)
    case Accept =>
      s.(disp := Returned(s.disp.entry, true, false), accepted := s.accepted + {s.disp.entry.id},
         order := s.order + [if |s.queue| <= |s.entries| then |s.entries| - |s.queue| else 0])
    case Full => s.(disp := Returned(s.disp.entry, false, true))
    case Fail => s.(disp := Returned(s.disp.entry, false, false))
    case Complete => DoComplete(s)
    case DispatcherCancel => s.(disp := Waiting)
    case Cancel(id) => DoCancel(s, id)
    case CancelCall(id) => s.(cancelCalls := s.cancelCalls - {id})
    case Finished(id) => DoFinished(s, id)
    case Available => s.(managerFull := false)
    case ExportDone(id) => DoExportDone(s, id)
  }

  predicate Legal(s: Sched, run: seq<Action>)
    decreases |run|, 0
  {
    run == [] ||
    var n := |run| - 1;
    Legal(s, run[..n]) && Enabled(After(s, run[..n]), run[n])
  }

  function After(s: Sched, run: seq<Action>): Sched
    requires Legal(s, run)
    decreases |run|, 1
  {
    if run == [] then s
    else
      var n := |run| - 1;
      Do(After(s, run[..n]), run[n])
  }
}
