/**
 The scan engine as a transition system: Manager, MultiScanner and the LIFO job queue, run by any
 number of workers and one dispatcher, before pool shutdown. Every atomic operation, critical
 section and queue operation of the source is one step; a worker's call stack is explicit because
 a child that finds the queue full is scanned by recursion.
 */
module ScanEngine {
  import opened FileTree
  import opened Messages

  // `root` marks the job pushed by start_new_scan; the source tells it apart only at submission.
  datatype Job = Job(scan: nat, work: Work, root: bool)

  // Position of one open worker_job call.
  datatype Pc =
    | Enter(work: Work)                         // before the first canceled.load
    | Scan(work: Work)                          // about to scan the node
    | Loop(rest: seq<Work>)                     // at the head of the descending loop
    | Add(rest: seq<Work>, child: Work)         // task_on_job_submit: before fetch_add
    | Check(rest: seq<Work>, child: Work)       // before jobs_in_queue
    | Push(rest: seq<Work>, child: Work)        // before try_push
    | Finish                                    // task_on_job_finish: before fetch_sub
    | NotifyFinished                            // fetch_sub returned 1
    | LoadCanceled
    | Erase(canceled: bool)                     // before the registry critical section
    | PushSentinel(canceled: bool, rowCanceled: bool)
    | InsertRow(rowCanceled: bool)
    | Tail                                      // before dispatch_failed.exchange

  datatype Frame = Frame(scan: nat, pc: Pc)

  // ScanContext. `root`, `accepted` and `skipped` (work was dropped because of a cancel) are history.
  datatype Ctx = Ctx(root: Work, canceled: bool, unfinished: int, accepted: bool, skipped: bool)

  // Position of the dispatcher inside start_new_scan.
  datatype Call =
    | NoCall
    | Registered(scan: nat, work: Work)         // registry entry made, before fetch_add
    | Added(scan: nat, work: Work)              // before try_push
    | WasFull(scan: nat, work: Work)            // before fetch_sub
    | Subbed(scan: nat, work: Work)             // before dispatch_failed.store
    | Flagged(scan: nat, work: Work)            // before registry.erase

  datatype Engine = Engine(
    slots: nat,                    // scan_queue_max_size
    maxScans: nat,                 // max_concurrent_scan
    ctx: map<nat, Ctx>,
    registry: set<nat>,
    queue: seq<Job>,
    workers: seq<seq<Frame>>,      // call stacks, innermost call last
    call: Call,
    dispatchFailed: bool,
    rows: map<nat, bool>,          // pending_scan_rows: end_state is CANCELED
    log: seq<Msg>,                 // everything pushed to the result queue, in order
    notifies: seq<nat>)            // calls of notify_scan_finished, in order

  datatype Action =
    | Pop(w: nat)
    | Step(w: nat)
    | StartRoot(scan: nat, root: Work)
    | RootStep
    | Cancel(scan: nat)            // Manager::cancel_scan

  // Slots that task_on_job_submit keeps free for roots.
  function Reserved(maxScans: nat): nat {
    if maxScans > 1 then maxScans - 1 else 0
  }

  predicate EnoughSlots(e: Engine) {
    (if e.slots > |e.queue| then e.slots - |e.queue| else 0) > Reserved(e.maxScans)
  }

  function Top(st: seq<Frame>): Frame
    requires st != []
  {
    st[|st| - 1]
  }

  predicate Enabled(e: Engine, a: Action) {
    match a
    case Pop(w) => w < |e.workers| && e.workers[w] == [] && e.queue != []
    case Step(w) => w < |e.workers| && e.workers[w] != [] && Top(e.workers[w]).scan in e.ctx
    case StartRoot(s, _) => e.call.NoCall? && s > 0 && s !in e.ctx && s !in e.registry
    case RootStep => !e.call.NoCall? && e.call.scan in e.ctx
    case Cancel(_) => true
  }

  // What one step of worker_job reads of the shared state.
  datatype View = View(
    canceled: bool, unfinished: int, enough: bool, space: bool, registered: bool, root: string)

  function ViewOf(e: Engine, s: nat): View
    requires s in e.ctx
  {
    var c := e.ctx[s];
    View(c.canceled, c.unfinished, EnoughSlots(e), |e.queue| < e.slots, s in e.registry, c.root.path)
  }

  // What it does to the shared state, and where it continues.
  datatype Effect =
    | Quiet
    | Skip                        // drops work because of a cancel
    | Emit(msg: Msg)              // result_queue.push
    | Gain                        // unfinished_jobs.fetch_add(1)
    | Lose                        // unfinished_jobs.fetch_sub(1)
    | Enqueue(child: Work)        // scan_pool.submit succeeded
    | Tell                        // notify_scan_finished
    | Unregister                  // registry.erase
    | PutRow(canceled: bool)      // insert_scan_task
    | Unflag                      // dispatch_failed.exchange(false)

  datatype Next =
    | Become(pc: Pc)
    | Inline(rest: seq<Work>, child: Work)      // worker_job(child) by recursion
    | Return

  function StepPc(v: View, s: nat, pc: Pc): (Effect, Next) {
    match pc
    case Enter(work) =>
      if v.canceled then (Skip, Become(Finish)) else (Quiet, Become(Scan(work)))
    case Scan(work) => (Emit(Event(s, EventOf(work))), Become(Loop(Children(work))))
    case Loop(rest) =>
      if rest == [] then (Quiet, Become(Finish))
      else if v.canceled then (Skip, Become(Finish))
      else (Quiet, Become(Add(rest[..|rest| - 1], rest[|rest| - 1])))
    case Add(rest, child) => (Gain, Become(Check(rest, child)))
    case Check(rest, child) => (Quiet, if v.enough then Become(Push(rest, child)) else Inline(rest, child))
    case Push(rest, child) => if v.space then (Enqueue(child), Become(Loop(rest))) else (Quiet, Inline(rest, child))
    case Finish => (Lose, Become(if v.unfinished == 1 then NotifyFinished else Tail))
    case NotifyFinished => (Tell, Become(LoadCanceled))
    case LoadCanceled => (Quiet, Become(Erase(v.canceled)))
    case Erase(canceled) =>
      (Unregister, Become(if v.registered && s != 0 then PushSentinel(canceled, v.canceled) else Tail))
    case PushSentinel(canceled, row) => (Emit(Sentinel(s, canceled, v.root)), Become(InsertRow(row)))
    case InsertRow(row) => (PutRow(row), Become(Tail))
    case Tail => (Unflag, Return)
  }

  function Apply(e: Engine, s: nat, eff: Effect): Engine
    requires s in e.ctx
  {
    var c := e.ctx[s];
    match eff
    case Quiet => e
    case Skip => e.(ctx := e.ctx[s := c.(skipped := true)])
    case Emit(m) => e.(log := e.log + [m])
    case Gain => e.(ctx := e.ctx[s := c.(unfinished := c.unfinished + 1)])
    case Lose => e.(ctx := e.ctx[s := c.(unfinished := c.unfinished - 1)])
    case Enqueue(child) => e.(queue := e.queue + [Job(s, child, false)])
    case Tell => e.(notifies := e.notifies + [s])
    case Unregister => e.(registry := e.registry - {s})
    case PutRow(row) => e.(rows := e.rows[s := row])
    case Unflag => e.(dispatchFailed := false)
  }

  function Resume(s: nat, n: Next): seq<Frame> {
    match n
    case Become(pc) => [Frame(s, pc)]
    case Inline(rest, child) => [Frame(s, Loop(rest)), Frame(s, Enter(child))]
    case Return => []
  }

  function Commit(e: Engine, w: nat, eff: Effect, next: Next): Engine
    requires Enabled(e, Step(w))
  {
    var st := e.workers[w];
    var s := Top(st).scan;
    Apply(e, s, eff).(workers := e.workers[w := st[..|st| - 1] + Resume(s, next)])
  }

  function WorkStep(e: Engine, w: nat): Engine
    requires Enabled(e, Step(w))
  {
    var f := Top(e.workers[w]);
    var step := StepPc(ViewOf(e, f.scan), f.scan, f.pc);
    Commit(e, w, step.0, step.1)
  }

  function CallStep(e: Engine): Engine
    requires Enabled(e, RootStep)
  {
    var s, work, c := e.call.scan, e.call.work, e.ctx[e.call.scan];
    match e.call
    case Registered(_, _) =>
      e.(call := Added(s, work), ctx := e.ctx[s := c.(unfinished := c.unfinished + 1)])
    case Added(_, _) =>
      if |e.queue| < e.slots then
        e.(call := NoCall, queue := e.queue + [Job(s, work, true)], ctx := e.ctx[s := c.(accepted := true)])
      else e.(call := WasFull(s, work))
    case WasFull(_, _) =>
      e.(call := Subbed(s, work), ctx := e.ctx[s := c.(unfinished := c.unfinished - 1)])
    case Subbed(_, _) => e.(call := Flagged(s, work), dispatchFailed := true)
    case Flagged(_, _) => e.(call := NoCall, registry := e.registry - {s}, ctx := e.ctx - {s})
  }

  function Do(e: Engine, a: Action): Engine
    requires Enabled(e, a)
  {
    match a
    case Pop(w) =>
      var job := e.queue[|e.queue| - 1];
      e.(queue := e.queue[..|e.queue| - 1], workers := e.workers[w := [Frame(job.scan, Enter(job.work))]])
    case Step(w) => WorkStep(e, w)
    case StartRoot(s, root) =>
      e.(ctx := e.ctx[s := Ctx(root, false, 0, false, false)], registry := e.registry + {s},
         call := Registered(s, root))
    case RootStep => CallStep(e)
    case Cancel(s) =>
      if s in e.registry && s in e.ctx then e.(ctx := e.ctx[s := e.ctx[s].(canceled := true)]) else e
  }

  function Init(slots: nat, maxScans: nat, threads: nat): Engine {
    Engine(slots, maxScans, map[], {}, [], seq(threads, _ => []), NoCall, false, map[], [], [])
  }

  // Runs: every sequence of actions each enabled when it is taken.
  predicate Legal(e: Engine, run: seq<Action>)
    decreases |run|, 0
  {
    run == [] ||
    var n := |run| - 1;
    Legal(e, run[..n]) && Enabled(After(e, run[..n]), run[n])
  }

  function After(e: Engine, run: seq<Action>): Engine
    requires Legal(e, run)
    decreases |run|, 1
  {
    if run == [] then e
    else
      var n := |run| - 1;
      Do(After(e, run[..n]), run[n])
  }
}
