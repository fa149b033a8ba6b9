/** What the scan engine guarantees in every interleaving before pool shutdown. */
module EngineTheorems {
  import opened FileTree
  import opened Messages
  import opened ScanEngine
  import opened EngineMass
  import opened EngineInvariant

  // ----- the result queue -----

  // Messages belong to accepted scans, sentinels carry the scan's root and come last.
  ghost predicate LogOk(e: Engine) {
    && (forall i :: 0 <= i < |e.log| ==>
          && e.log[i].scan in e.ctx && e.ctx[e.log[i].scan].accepted
          && (e.log[i].Sentinel? ==> e.log[i].root == e.ctx[e.log[i].scan].root.path))
    && SentinelsLast(e.log)
  }

  lemma {:induction false} NoSentinelCounted(log: seq<Msg>, s: nat, i: nat)
    requires CountSentinel(log, s) == 0 && i < |log| && log[i].Sentinel?
    ensures log[i].scan != s
  {
    if i < |log| - 1 {
      NoSentinelCounted(log[..|log| - 1], s, i);
    }
  }

  lemma {:induction false} CleanCounted(log: seq<Msg>, i: nat)
    requires i < |log| && log[i].Sentinel? && !log[i].canceled
    ensures CountClean(log, log[i].scan) > 0
  {
    if i < |log| - 1 {
      CleanCounted(log[..|log| - 1], i);
    }
  }

  // Only an open call emits, and only before its scan's sentinel.
  lemma EmitFacts(e: Engine, w: nat)
    requires Inv(e) && Enabled(e, Step(w))
    ensures
      var f := Top(e.workers[w]);
      var eff := StepPc(ViewOf(e, f.scan), f.scan, f.pc).0;
      eff.Emit? ==>
        && eff.msg.scan == f.scan
        && (eff.msg.Sentinel? ==> eff.msg.root == e.ctx[f.scan].root.path)
        && CountSentinel(e.log, f.scan) == 0
        && e.ctx[f.scan].accepted
  {
    var f := Top(e.workers[w]);
    FrameFacts(e, w);
    if f.pc.PushSentinel? {
      var r := Exchange(e.workers, w, Return, Sent(f.scan));
      assert Balanced(e, Sent(f.scan));
    }
  }

  lemma ApplyKeepsLog(e: Engine, s: nat, eff: Effect)
    requires LogOk(e) && s in e.ctx && e.ctx[s].accepted
    requires eff.Emit? ==>
      && eff.msg.scan == s
      && CountSentinel(e.log, s) == 0
      && (eff.msg.Sentinel? ==> eff.msg.root == e.ctx[s].root.path)
    ensures LogOk(Apply(e, s, eff))
  {
    EffectOnContexts(e, s, eff, s);
    if eff.Emit? {
      forall i | 0 <= i < |e.log| && e.log[i].Sentinel? ensures e.log[i].scan != s {
        NoSentinelCounted(e.log, s, i);
      }
    } else {
      assert Apply(e, s, eff).log == e.log;
    }
  }

  lemma StepKeepsLog(e: Engine, w: nat)
    requires Inv(e) && LogOk(e) && Enabled(e, Step(w))
    ensures LogOk(Do(e, Step(w)))
  {
    var f := Top(e.workers[w]);
    var step := StepPc(ViewOf(e, f.scan), f.scan, f.pc);
    FrameFacts(e, w);
    EmitFacts(e, w);
    ApplyKeepsLog(e, f.scan, step.0);
  }

  lemma CallKeepsLog(e: Engine)
    requires Inv(e) && LogOk(e) && Enabled(e, RootStep)
    ensures LogOk(CallStep(e))
  {
    assert !e.ctx[e.call.scan].accepted;
  }

  lemma DoKeepsLog(e: Engine, a: Action)
    requires Inv(e) && LogOk(e) && Enabled(e, a)
    ensures LogOk(Do(e, a))
  {
    match a
    case Step(w) => StepKeepsLog(e, w);
    case RootStep => CallKeepsLog(e);
    case _ =>
  }

  lemma {:induction false} RunOk(slots: nat, maxScans: nat, threads: nat, run: seq<Action>)
    requires Legal(Init(slots, maxScans, threads), run)
    ensures
      var e := After(Init(slots, maxScans, threads), run);
      Inv(e) && LogOk(e)
    decreases |run|
  {
    if run == [] {
      InitInv(slots, maxScans, threads);
    } else {
      var n := |run| - 1;
      RunOk(slots, maxScans, threads, run[..n]);
      var e := After(Init(slots, maxScans, threads), run[..n]);
      DoKeepsInv(e, run[n]);
      DoKeepsLog(e, run[n]);
    }
  }

  // ----- sentinel soundness -----

  lemma {:induction false} CountIsMultiplicity(log: seq<Msg>, s: nat, ev: Ev)
    ensures CountEvent(log, s, ev) == multiset(EventsOf(log, s))[ev]
  {
    if log != [] {
      CountIsMultiplicity(log[..|log| - 1], s, ev);
    }
  }

  // Past the crossing nothing of the scan is left to report.
  lemma CrossedHasNoTodo(e: Engine, s: nat, ev: Ev)
    requires Inv(e) && Crossed(e, s) == 1
    ensures Total(e, Todo(s, ev)) == 0
  {
    assert Balanced(e, Unit(s));
    QueueTodoNeedsUnit(e.queue, s, ev);
    WorkersTodoNeedsUnit(e.workers, s, ev);
  }

  lemma QueueTodoNeedsUnit(q: seq<Job>, s: nat, ev: Ev)
    requires QueueMass(q, Unit(s)) == 0
    ensures QueueMass(q, Todo(s, ev)) == 0
  {
  }

  lemma StackTodoNeedsUnit(st: seq<Frame>, s: nat, ev: Ev)
    requires StackMass(st, Unit(s)) == 0
    ensures StackMass(st, Todo(s, ev)) == 0
  {
  }

  lemma {:induction false} WorkersTodoNeedsUnit(ws: seq<seq<Frame>>, s: nat, ev: Ev)
    requires WorkersMass(ws, Unit(s)) == 0
    ensures WorkersMass(ws, Todo(s, ev)) == 0
  {
    if ws != [] {
      WorkersTodoNeedsUnit(ws[..|ws| - 1], s, ev);
      StackTodoNeedsUnit(ws[|ws| - 1], s, ev);
    }
  }

  lemma {:induction false} NoEventsOf(log: seq<Msg>, i: nat, s: nat)
    requires i <= |log| && forall j :: i <= j < |log| ==> log[j].scan != s
    ensures EventsOf(log, s) == EventsOf(log[..i], s)
    decreases |log| - i
  {
    if i == |log| {
      assert log[..i] == log;
    } else {
      NoEventsOf(log, i + 1, s);
      assert log[..i + 1][..i] == log[..i];
    }
  }

  lemma CompleteCount(e: Engine, s: nat, ev: Ev)
    requires Inv(e) && Crossed(e, s) == 1 && !Skipped(e, s)
    ensures multiset(EventsOf(e.log, s))[ev] == multiset(Preorder(e.ctx[s].root))[ev]
  {
    assert Balanced(e, Todo(s, ev));
    CrossedHasNoTodo(e, s, ev);
    CountIsMultiplicity(e.log, s, ev);
    OccursCountsPreorder(e.ctx[s].root, ev);
  }

  lemma CompleteLog(e: Engine, s: nat)
    requires Inv(e) && Crossed(e, s) == 1 && !Skipped(e, s)
    ensures multiset(EventsOf(e.log, s)) == multiset(Preorder(e.ctx[s].root))
  {
    forall ev ensures multiset(EventsOf(e.log, s))[ev] == multiset(Preorder(e.ctx[s].root))[ev] {
      CompleteCount(e, s, ev);
    }
  }

  lemma BeforeSentinel(log: seq<Msg>, i: nat)
    requires SentinelsLast(log) && i < |log| && log[i].Sentinel?
    ensures EventsOf(log, log[i].scan) == EventsOf(log[..i], log[i].scan)
  {
    NoEventsOf(log, i + 1, log[i].scan);
    assert log[..i + 1][..i] == log[..i];
  }

  lemma SentinelComplete(e: Engine, i: nat)
    requires Inv(e) && LogOk(e)
    requires i < |e.log| && e.log[i].Sentinel? && !e.log[i].canceled
    ensures
      var s := e.log[i].scan;
      && s in e.ctx
      && multiset(EventsOf(e.log[..i], s)) == multiset(Preorder(e.ctx[s].root))
      && multiset(EventsOf(e.log, s)) == multiset(Preorder(e.ctx[s].root))
  {
    var s := e.log[i].scan;
    CleanCounted(e.log, i);
    assert Balanced(e, Clean(s));
    CompleteLog(e, s);
    BeforeSentinel(e.log, i);
  }

  /**
   Sentinel soundness: in every run, the messages before an uncanceled sentinel hold exactly one
   event for every node of the scan's tree.
   */
  lemma SentinelSound(slots: nat, maxScans: nat, threads: nat, run: seq<Action>, i: nat)
    requires Legal(Init(slots, maxScans, threads), run)
    requires
      var log := After(Init(slots, maxScans, threads), run).log;
      i < |log| && log[i].Sentinel? && !log[i].canceled
    ensures
      var e := After(Init(slots, maxScans, threads), run);
      var s := e.log[i].scan;
      && s in e.ctx && e.log[i].root == e.ctx[s].root.path
      && multiset(EventsOf(e.log[..i], s)) == multiset(Preorder(e.ctx[s].root))
  {
    RunOk(slots, maxScans, threads, run);
    SentinelComplete(After(Init(slots, maxScans, threads), run), i);
  }

  /** No event of a scan, and no second sentinel, ever follows its sentinel, canceled or not. */
  lemma NothingAfterSentinel(slots: nat, maxScans: nat, threads: nat, run: seq<Action>, i: nat, j: nat)
    requires Legal(Init(slots, maxScans, threads), run)
    requires
      var log := After(Init(slots, maxScans, threads), run).log;
      i < j < |log| && log[i].Sentinel?
    ensures
      var log := After(Init(slots, maxScans, threads), run).log;
      log[j].scan != log[i].scan
  {
    RunOk(slots, maxScans, threads, run);
  }

  /** Even a canceled scan never reports a node twice, nor anything outside its tree. */
  lemma NeverReportedTwice(e: Engine, s: nat)
    requires Inv(e) && s in e.ctx
    ensures multiset(EventsOf(e.log, s)) <= multiset(Preorder(e.ctx[s].root))
  {
    forall ev ensures multiset(EventsOf(e.log, s))[ev] <= multiset(Preorder(e.ctx[s].root))[ev] {
      assert Balanced(e, Todo(s, ev));
      CountIsMultiplicity(e.log, s, ev);
      OccursCountsPreorder(e.ctx[s].root, ev);
    }
  }

  // ----- termination detection -----

  function QueuedJobs(q: seq<Job>, s: nat): nat {
    if q == [] then 0 else QueuedJobs(q[..|q| - 1], s) + (if q[|q| - 1].scan == s then 1 else 0)
  }

  // Calls of worker_job that have not yet given back their unit.
  predicate Open(pc: Pc) {
    pc.Enter? || pc.Scan? || pc.Loop? || pc.Add? || pc.Check? || pc.Push? || pc.Finish?
  }

  function OpenCalls(st: seq<Frame>, s: nat): nat {
    if st == [] then 0
    else
      var f := st[|st| - 1];
      OpenCalls(st[..|st| - 1], s) + (if f.scan == s && Open(f.pc) then 1 else 0)
  }

  // Submissions counted but not yet queued, refused or taken over by recursion.
  function Submissions(st: seq<Frame>, s: nat): nat {
    if st == [] then 0
    else
      var f := st[|st| - 1];
      Submissions(st[..|st| - 1], s) + (if f.scan == s && (f.pc.Check? || f.pc.Push?) then 1 else 0)
  }

  function AllOpenCalls(ws: seq<seq<Frame>>, s: nat): nat {
    if ws == [] then 0 else AllOpenCalls(ws[..|ws| - 1], s) + OpenCalls(ws[|ws| - 1], s)
  }

  function AllSubmissions(ws: seq<seq<Frame>>, s: nat): nat {
    if ws == [] then 0 else AllSubmissions(ws[..|ws| - 1], s) + Submissions(ws[|ws| - 1], s)
  }

  function RootSubmission(c: Call, s: nat): nat {
    if (c.Added? || c.WasFull?) && c.scan == s then 1 else 0
  }

  lemma UnitsOfQueue(q: seq<Job>, s: nat)
    ensures QueueMass(q, Unit(s)) == QueuedJobs(q, s)
  {
  }

  lemma UnitsOfStack(st: seq<Frame>, s: nat)
    ensures StackMass(st, Unit(s)) == OpenCalls(st, s) + Submissions(st, s)
  {
  }

  lemma {:induction false} UnitsOfWorkers(ws: seq<seq<Frame>>, s: nat)
    ensures WorkersMass(ws, Unit(s)) == AllOpenCalls(ws, s) + AllSubmissions(ws, s)
  {
    if ws != [] {
      UnitsOfWorkers(ws[..|ws| - 1], s);
      UnitsOfStack(ws[|ws| - 1], s);
    }
  }

  /**
   Termination detection: the counter always equals queued jobs plus open calls plus submissions in
   progress, on the inline, cancel and Full paths too.
   */
  lemma CounterExact(slots: nat, maxScans: nat, threads: nat, run: seq<Action>, s: nat)
    requires Legal(Init(slots, maxScans, threads), run)
    ensures
      var e := After(Init(slots, maxScans, threads), run);
      s in e.ctx ==>
        e.ctx[s].unfinished == QueuedJobs(e.queue, s) + AllOpenCalls(e.workers, s)
                               + AllSubmissions(e.workers, s) + RootSubmission(e.call, s)
  {
    RunOk(slots, maxScans, threads, run);
    var e := After(Init(slots, maxScans, threads), run);
    assert Balanced(e, Unit(s));
    UnitsOfQueue(e.queue, s);
    UnitsOfWorkers(e.workers, s);
  }

  /**
   notify_scan_finished and the sentinel each fire at most once per scan, only after the counter has
   reached zero, and exactly once when no job or call of the accepted scan is left.
   */
  lemma FiresExactlyOnce(slots: nat, maxScans: nat, threads: nat, run: seq<Action>, s: nat)
    requires Legal(Init(slots, maxScans, threads), run)
    ensures
      var e := After(Init(slots, maxScans, threads), run);
      && CountNotify(e.notifies, s) <= 1 && CountSentinel(e.log, s) <= 1
      && (CountNotify(e.notifies, s) + CountSentinel(e.log, s) > 0 ==> Crossed(e, s) == 1)
      && (s in e.ctx && e.ctx[s].accepted && QueueMass(e.queue, Live(s)) + WorkersMass(e.workers, Live(s)) == 0 ==>
            e.ctx[s].unfinished == 0 && CountNotify(e.notifies, s) == CountSentinel(e.log, s) == 1 && s !in e.registry)
  {
    RunOk(slots, maxScans, threads, run);
    OnceFacts(After(Init(slots, maxScans, threads), run), s);
  }

  lemma OnceFacts(e: Engine, s: nat)
    requires Inv(e)
    ensures CountNotify(e.notifies, s) <= 1 && CountSentinel(e.log, s) <= 1
    ensures CountNotify(e.notifies, s) + CountSentinel(e.log, s) > 0 ==> Crossed(e, s) == 1
    ensures s in e.ctx && e.ctx[s].accepted && QueueMass(e.queue, Live(s)) + WorkersMass(e.workers, Live(s)) == 0 ==>
              e.ctx[s].unfinished == 0 && CountNotify(e.notifies, s) == CountSentinel(e.log, s) == 1 && s !in e.registry
  {
    assert Balanced(e, Notify(s));
    assert Balanced(e, Sent(s));
    if s in e.ctx && e.ctx[s].accepted && QueueMass(e.queue, Live(s)) + WorkersMass(e.workers, Live(s)) == 0 {
      NothingLeft(e, Unit(s));
      NothingLeft(e, Notify(s));
      NothingLeft(e, Sent(s));
      NothingLeft(e, Reg(s));
    }
  }

  lemma NothingLeft(e: Engine, t: Token)
    requires Inv(e) && !t.Slot?
    requires QueueMass(e.queue, Live(t.scan)) + WorkersMass(e.workers, Live(t.scan)) == 0
    requires t.scan in e.ctx && e.ctx[t.scan].accepted
    ensures Total(e, t) == 0 && Balanced(e, t)
  {
    NoLiveQueue(e.queue, t);
    NoLiveWorkers(e.workers, t);
  }

  // ----- progress and termination -----

  /** Unfinished work never gets stuck: some worker can take a step. */
  lemma Progress(e: Engine, s: nat)
    requires Inv(e) && |e.workers| > 0
    requires s in e.ctx && e.ctx[s].accepted && e.ctx[s].unfinished > 0
    ensures exists w :: Enabled(e, Pop(w)) || Enabled(e, Step(w))
  {
    assert Balanced(e, Unit(s));
    if e.queue != [] && e.workers[0] == [] {
      assert Enabled(e, Pop(0));
    } else if e.workers[0] != [] {
      OpenIsEnabled(e, 0);
    } else {
      var w := BusyWorker(e.workers, Unit(s));
      OpenIsEnabled(e, w);
    }
  }

  lemma OpenIsEnabled(e: Engine, w: nat)
    requires Inv(e) && w < |e.workers| && e.workers[w] != []
    ensures Enabled(e, Step(w))
  {
    var s := Top(e.workers[w]).scan;
    var r := Exchange(e.workers, w, Return, Live(s));
    assert Balanced(e, Live(s));
  }

  lemma {:induction false} BusyWorker(ws: seq<seq<Frame>>, t: Token) returns (w: nat)
    requires WorkersMass(ws, t) > 0
    ensures w < |ws| && ws[w] != []
  {
    var n := |ws| - 1;
    if ws[n] != [] {
      w := n;
    } else {
      w := BusyWorker(ws[..n], t);
    }
  }

  ghost predicate NoneCanStep(e: Engine) {
    forall w :: !Enabled(e, Pop(w)) && !Enabled(e, Step(w))
  }

  lemma {:induction false} IdleWorkers(ws: seq<seq<Frame>>, t: Token)
    requires forall w :: 0 <= w < |ws| ==> ws[w] == []
    ensures WorkersMass(ws, t) == 0
  {
    if ws != [] {
      IdleWorkers(ws[..|ws| - 1], t);
    }
  }

  lemma AllIdle(e: Engine, t: Token)
    requires Inv(e) && |e.workers| > 0 && NoneCanStep(e)
    ensures QueueMass(e.queue, t) + WorkersMass(e.workers, t) == 0
  {
    forall w | 0 <= w < |e.workers| ensures e.workers[w] == [] {
      if e.workers[w] != [] {
        OpenIsEnabled(e, w);
      }
    }
    IdleWorkers(e.workers, t);
    assert !Enabled(e, Pop(0));
  }

  /**
   Nothing is forgotten: when no worker can step any more, every accepted scan has counted down to zero, was reported
   once, has sent one sentinel and left the registry; unless it was canceled, its whole tree is in the result queue.
   */
  lemma RestMeansFinished(slots: nat, maxScans: nat, threads: nat, run: seq<Action>, s: nat)
    requires Legal(Init(slots, maxScans, threads), run) && threads > 0
    requires NoneCanStep(After(Init(slots, maxScans, threads), run))
    ensures
      var e := After(Init(slots, maxScans, threads), run);
      s in e.ctx && e.ctx[s].accepted ==>
        && e.ctx[s].unfinished == 0 && CountNotify(e.notifies, s) == CountSentinel(e.log, s) == 1 && s !in e.registry
        && (!e.ctx[s].canceled ==> multiset(EventsOf(e.log, s)) == multiset(Preorder(e.ctx[s].root)))
  {
    var e := After(Init(slots, maxScans, threads), run);
    RunOk(slots, maxScans, threads, run);
    RunKeepsConfig(Init(slots, maxScans, threads), run);
    RestFacts(e, s);
  }

  lemma RestFacts(e: Engine, s: nat)
    requires Inv(e) && |e.workers| > 0 && NoneCanStep(e)
    ensures s in e.ctx && e.ctx[s].accepted ==>
              && e.ctx[s].unfinished == 0 && s !in e.registry
              && CountNotify(e.notifies, s) == CountSentinel(e.log, s) == 1
              && (!e.ctx[s].canceled ==> multiset(EventsOf(e.log, s)) == multiset(Preorder(e.ctx[s].root)))
  {
    hide Preorder, EventsOf, QueueMass, WorkersMass, NoneCanStep, Balanced;
    if s in e.ctx && e.ctx[s].accepted {
      AllIdle(e, Live(s));
      OnceFacts(e, s);
      if !e.ctx[s].canceled {
        CompleteLog(e, s);
      }
    }
  }

  // The scan a worker's action works on.
  predicate WorksOn(e: Engine, a: Action, s: nat) {
    Enabled(e, a) &&
    match a
    case Pop(_) => e.queue[|e.queue| - 1].scan == s
    case Step(w) => Top(e.workers[w]).scan == s
    case _ => false
  }

  function StepsOn(e: Engine, run: seq<Action>, s: nat): nat
    requires Legal(e, run)
    decreases |run|
  {
    if run == [] then 0
    else
      var n := |run| - 1;
      StepsOn(e, run[..n], s) + (if WorksOn(After(e, run[..n]), run[n], s) then 1 else 0)
  }

  lemma StepCosts(e: Engine, w: nat, s: nat)
    requires Inv(e) && Enabled(e, Step(w))
    ensures Total(Do(e, Step(w)), Fuel(s)) + (if WorksOn(e, Step(w), s) then 1 else 0) <= Total(e, Fuel(s))
    ensures s in Do(e, Step(w)).ctx <==> s in e.ctx
    ensures s in e.ctx ==> Do(e, Step(w)).ctx[s].root == e.ctx[s].root
  {
    var f := Top(e.workers[w]);
    var v := ViewOf(e, f.scan);
    if f.pc.Erase? {
      EraseFinds(e, w);
    }
    PcFacts(v, f);
    var step := StepPc(v, f.scan, f.pc);
    StepFuel(e, w, s, step.0, step.1);
    EffectOnContexts(e, f.scan, step.0, s);
  }

  lemma {:induction false} FuelBound(slots: nat, maxScans: nat, threads: nat, run: seq<Action>, s: nat)
    requires Legal(Init(slots, maxScans, threads), run)
    ensures
      var e0 := Init(slots, maxScans, threads);
      var e := After(e0, run);
      StepsOn(e0, run, s) + Total(e, Fuel(s)) <= (if s in e.ctx then FuelOf(e.ctx[s].root) else 0)
    decreases |run|
  {
    var e0 := Init(slots, maxScans, threads);
    RunOk(slots, maxScans, threads, run);
    if run == [] {
      assert Balanced(e0, Fuel(s));
    } else {
      var n := |run| - 1;
      var e := After(e0, run[..n]);
      RunOk(slots, maxScans, threads, run[..n]);
      FuelBound(slots, maxScans, threads, run[..n], s);
      FuelStep(e, run[n], s);
    }
  }

  // Fuel is only created when a scan is registered, and its owner's steps use it up.
  lemma FuelStep(e: Engine, a: Action, s: nat)
    requires Inv(e) && Enabled(e, a)
    ensures
      var e' := Do(e, a);
      var used := if WorksOn(e, a, s) then 1 else 0;
      var cap := if s in e.ctx then FuelOf(e.ctx[s].root) else 0;
      var cap' := if s in e'.ctx then FuelOf(e'.ctx[s].root) else 0;
      Total(e', Fuel(s)) + used - cap' <= Total(e, Fuel(s)) - cap
  {
    hide FuelOf, FuelAll, WorkersMass, QueueMass, Occurs, OccursAll, CallStep, WorkStep;
    match a
    case Step(w) => StepCosts(e, w, s);
    case Pop(w) => PopTotals(e, w, Fuel(s));
    case RootStep => CallFuel(e, s);
    case StartRoot(_, _) =>
    case Cancel(_) =>
  }

  lemma CallFuel(e: Engine, s: nat)
    requires Inv(e) && Enabled(e, RootStep)
    ensures
      var e' := CallStep(e);
      var cap := if s in e.ctx then FuelOf(e.ctx[s].root) else 0;
      var cap' := if s in e'.ctx then FuelOf(e'.ctx[s].root) else 0;
      Total(e', Fuel(s)) - cap' <= Total(e, Fuel(s)) - cap
  {
    hide FuelOf, FuelAll, WorkersMass, QueueMass;
    if s == e.call.scan {
      CallFacts(e);
    }
    QueuePush(e.queue, Job(e.call.scan, e.call.work, true), Fuel(s));
  }

  /** Every traversal ends: over a whole run a scan costs a number of steps bounded by its tree alone. */
  lemma TraversalBounded(slots: nat, maxScans: nat, threads: nat, run: seq<Action>, s: nat)
    requires Legal(Init(slots, maxScans, threads), run)
    ensures
      var e0 := Init(slots, maxScans, threads);
      var e := After(e0, run);
      StepsOn(e0, run, s) <= (if s in e.ctx then FuelOf(e.ctx[s].root) else 0)
  {
    FuelBound(slots, maxScans, threads, run, s);
  }

  // ----- slot reservation -----

  function QueuedNonRoot(q: seq<Job>): nat {
    if q == [] then 0 else QueuedNonRoot(q[..|q| - 1]) + (if q[|q| - 1].root then 0 else 1)
  }

  function Pushing(st: seq<Frame>): nat {
    if st == [] then 0 else Pushing(st[..|st| - 1]) + (if st[|st| - 1].pc.Push? then 1 else 0)
  }

  function AllPushing(ws: seq<seq<Frame>>): nat {
    if ws == [] then 0 else AllPushing(ws[..|ws| - 1]) + Pushing(ws[|ws| - 1])
  }

  lemma SlotsOfQueue(q: seq<Job>)
    ensures QueueMass(q, Slot) == QueuedNonRoot(q)
  {
  }

  lemma SlotsOfStack(st: seq<Frame>)
    ensures StackMass(st, Slot) == Pushing(st)
  {
  }

  lemma {:induction false} SlotsOfWorkers(ws: seq<seq<Frame>>)
    ensures WorkersMass(ws, Slot) == AllPushing(ws)
  {
    if ws != [] {
      SlotsOfWorkers(ws[..|ws| - 1]);
      SlotsOfStack(ws[|ws| - 1]);
    }
  }

  ghost predicate SameConfig(e: Engine, e': Engine) {
    e'.slots == e.slots && e'.maxScans == e.maxScans && |e'.workers| == |e.workers|
  }

  lemma StepKeepsConfig(e: Engine, w: nat, eff: Effect, next: Next)
    requires Enabled(e, Step(w))
    ensures SameConfig(e, Commit(e, w, eff, next))
  {
    EffectOnContexts(e, Top(e.workers[w]).scan, eff, 0);
  }

  lemma DoKeepsConfig(e: Engine, a: Action)
    requires Enabled(e, a)
    ensures SameConfig(e, Do(e, a))
  {
    if a.Step? {
      var f := Top(e.workers[a.w]);
      var step := StepPc(ViewOf(e, f.scan), f.scan, f.pc);
      StepKeepsConfig(e, a.w, step.0, step.1);
    }
  }

  lemma {:induction false} RunKeepsConfig(e: Engine, run: seq<Action>)
    requires Legal(e, run)
    ensures SameConfig(e, After(e, run))
    decreases |run|
  {
    if run != [] {
      var n := |run| - 1;
      RunKeepsConfig(e, run[..n]);
      DoKeepsConfig(After(e, run[..n]), run[n]);
    }
  }

  /** Slot reservation: queued non-root jobs plus workers about to push never exceed Q - M + T. */
  lemma RootSlotsReserved(slots: nat, maxScans: nat, threads: nat, run: seq<Action>)
    requires Legal(Init(slots, maxScans, threads), run) && 1 <= maxScans <= slots
    ensures
      var e := After(Init(slots, maxScans, threads), run);
      QueuedNonRoot(e.queue) + AllPushing(e.workers) <= slots - maxScans + threads
  {
    var e0 := Init(slots, maxScans, threads);
    var e := After(e0, run);
    RunOk(slots, maxScans, threads, run);
    RunKeepsConfig(e0, run);
    assert Balanced(e, Slot);
    SlotsOfQueue(e.queue);
    SlotsOfWorkers(e.workers);
  }

  lemma StepFitsSlots(e: Engine, w: nat)
    requires Enabled(e, Step(w)) && |e.queue| <= e.slots
    ensures |WorkStep(e, w).queue| <= e.slots
  {
    var f := Top(e.workers[w]);
    var v := ViewOf(e, f.scan);
    if f.pc.Push? {
      assert v.space == (|e.queue| < e.slots);
    }
    var step := StepPc(v, f.scan, f.pc);
    assert step.0.Enqueue? ==> f.pc.Push? && v.space;
    hide StepPc, Resume;
  }

  lemma DoFitsSlots(e: Engine, a: Action)
    requires Enabled(e, a) && |e.queue| <= e.slots
    ensures |Do(e, a).queue| <= e.slots
  {
    if a.Step? {
      hide WorkStep;
      StepFitsSlots(e, a.w);
    }
  }

  /** The job queue never holds more than its slots, whatever races between the check and the push. */
  lemma {:induction false} QueueWithinSlots(slots: nat, maxScans: nat, threads: nat, run: seq<Action>)
    requires Legal(Init(slots, maxScans, threads), run)
    ensures |After(Init(slots, maxScans, threads), run).queue| <= slots
    decreases |run|
  {
    if run != [] {
      hide Do, Enabled;
      var e0, n := Init(slots, maxScans, threads), |run| - 1;
      QueueWithinSlots(slots, maxScans, threads, run[..n]);
      RunKeepsConfig(e0, run[..n]);
      DoFitsSlots(After(e0, run[..n]), run[n]);
    }
  }
}
