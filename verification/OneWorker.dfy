/**
 Depth-first order with one worker: several scans may share the LIFO queue, yet each of them is reported in the
 order of the recursive walk, as long as no child of it finds the queue full.
 */
module OneWorker {
  import opened FileTree
  import opened Messages
  import opened ScanEngine
  import opened EngineMass
  import opened EngineInvariant
  import opened EngineTheorems

  // What the call at pc and the jobs it has not submitted will still report, in order.
  function PcAhead(pc: Pc): seq<Ev> {
    match pc
    case Enter(w) => Preorder(w)
    case Scan(w) => Preorder(w)
    case Loop(rest) => PreorderAll(rest)
    case Add(rest, c) => PreorderAll(rest) + Preorder(c)
    case Check(rest, c) => PreorderAll(rest) + Preorder(c)
    case Push(rest, c) => PreorderAll(rest) + Preorder(c)
    case _ => []
  }

  function StackAhead(st: seq<Frame>, s: nat): seq<Ev> {
    if st != [] && Top(st).scan == s then PcAhead(Top(st).pc) else []
  }

  // The queued jobs of the scan, popped from the end.
  function QueueAhead(q: seq<Job>, s: nat): seq<Ev> {
    if q == [] then []
    else
      var n := |q| - 1;
      (if q[n].scan == s then Preorder(q[n].work) else []) + QueueAhead(q[..n], s)
  }

  // No call of the scan waits for an inline one.
  ghost predicate Flat(st: seq<Frame>, s: nat) {
    forall i :: 0 <= i < |st| - 1 ==> st[i].scan != s
  }

  // The scan's events so far, then its current call, then its queued jobs, are the walk of its tree.
  ghost predicate OnCourse(e: Engine, s: nat) {
    && |e.workers| == 1 && Flat(e.workers[0], s)
    && (s in e.ctx && e.ctx[s].accepted && !e.ctx[s].skipped ==>
          EventsOf(e.log, s) + StackAhead(e.workers[0], s) + QueueAhead(e.queue, s) == Preorder(e.ctx[s].root))
  }

  // The action runs a child of the scan inline, because the queue was full.
  predicate Inlines(e: Engine, a: Action, s: nat) {
    a.Step? && Enabled(e, a) &&
    var f := Top(e.workers[a.w]);
    f.scan == s && StepPc(ViewOf(e, s), s, f.pc).1.Inline?
  }

  predicate NeverInline(e: Engine, run: seq<Action>, s: nat)
    requires Legal(e, run)
    decreases |run|
  {
    run == [] ||
    var n := |run| - 1;
    NeverInline(e, run[..n], s) && !Inlines(After(e, run[..n]), run[n], s)
  }

  // ----- one step of the scan's own call -----

  lemma PushAhead(q: seq<Job>, j: Job, s: nat)
    ensures QueueAhead(q + [j], s) == (if j.scan == s then Preorder(j.work) else []) + QueueAhead(q, s)
  {
    hide Preorder;
    assert (q + [j])[..|q|] == q;
  }

  lemma EmitEvents(log: seq<Msg>, m: Msg, s: nat)
    ensures EventsOf(log + [m], s) == EventsOf(log, s) + (if m.Event? && m.scan == s then [m.ev] else [])
  {
    assert (log + [m])[..|log|] == log;
  }

  function Sent(eff: Effect, s: nat): seq<Ev> {
    if eff.Emit? && eff.msg.Event? && eff.msg.scan == s then [eff.msg.ev] else []
  }

  function Queued(eff: Effect): seq<Ev> {
    if eff.Enqueue? then Preorder(eff.child) else []
  }

  function NextAhead(next: Next): seq<Ev> {
    if next.Become? then PcAhead(next.pc) else []
  }

  lemma PreorderAllLast(rest: seq<Work>)
    requires rest != []
    ensures PreorderAll(rest) == PreorderAll(rest[..|rest| - 1]) + Preorder(rest[|rest| - 1])
  {
    hide Preorder;
  }

  // What the call has ahead is what it sends, then what it keeps ahead, then what it queues.
  ghost predicate Continues(pc: Pc, eff: Effect, next: Next, s: nat) {
    !next.Inline? && !eff.Skip? ==> PcAhead(pc) == Sent(eff, s) + NextAhead(next) + Queued(eff)
  }

  lemma PcCourseEarly(v: View, s: nat, pc: Pc)
    requires pc.Enter? || pc.Scan? || pc.Loop?
    ensures var (eff, next) := StepPc(v, s, pc); Continues(pc, eff, next, s)
  {
    hide Preorder, PreorderAll, Children, EventOf;
    if pc.Loop? && pc.rest != [] {
      PreorderAllLast(pc.rest);
    } else if pc.Loop? {
      PreorderAllNone();
    } else if pc.Scan? {
      Walk(pc.work);
    }
  }

  lemma PreorderAllNone()
    ensures PreorderAll([]) == []
  {
  }

  lemma PcCourseLate(v: View, s: nat, pc: Pc)
    requires !(pc.Enter? || pc.Scan? || pc.Loop?)
    ensures var (eff, next) := StepPc(v, s, pc); Continues(pc, eff, next, s)
  {
    hide Preorder, PreorderAll, Children, EventOf;
  }

  lemma PcCourse(v: View, s: nat, pc: Pc)
    ensures var (eff, next) := StepPc(v, s, pc); Continues(pc, eff, next, s)
  {
    hide StepPc, Continues;
    if pc.Enter? || pc.Scan? || pc.Loop? {
      PcCourseEarly(v, s, pc);
    } else {
      PcCourseLate(v, s, pc);
    }
  }

  // ----- the balance of order under each change -----

  lemma Regroup(a: seq<Ev>, sent: seq<Ev>, next: seq<Ev>, queued: seq<Ev>, q: seq<Ev>)
    ensures a + (sent + next + queued) + q == (a + sent) + next + (queued + q)
  {
  }

  lemma EffectAhead(e: Engine, s: nat, eff: Effect)
    requires s in e.ctx
    ensures EventsOf(Apply(e, s, eff).log, s) == EventsOf(e.log, s) + Sent(eff, s)
    ensures QueueAhead(Apply(e, s, eff).queue, s) == Queued(eff) + QueueAhead(e.queue, s)
  {
    if eff.Emit? {
      EmitEvents(e.log, eff.msg, s);
    }
    if eff.Enqueue? {
      PushAhead(e.queue, Job(s, eff.child, false), s);
    }
  }

  lemma OtherEffect(e: Engine, x: nat, eff: Effect, s: nat)
    requires x in e.ctx && x != s && (eff.Emit? ==> eff.msg.scan == x)
    ensures EventsOf(Apply(e, x, eff).log, s) == EventsOf(e.log, s)
    ensures QueueAhead(Apply(e, x, eff).queue, s) == QueueAhead(e.queue, s)
    ensures s in Apply(e, x, eff).ctx <==> s in e.ctx
    ensures s in e.ctx ==> Apply(e, x, eff).ctx[s] == e.ctx[s]
  {
    if eff.Emit? {
      EmitEvents(e.log, eff.msg, s);
    }
    if eff.Enqueue? {
      PushAhead(e.queue, Job(x, eff.child, false), s);
    }
  }

  // The stack after a step, as the scan sees it.
  lemma ResumedStack(st: seq<Frame>, next: Next, s: nat)
    requires st != [] && Flat(st, s) && !(next.Inline? && Top(st).scan == s)
    ensures
      var st' := st[..|st| - 1] + Resume(Top(st).scan, next);
      && Flat(st', s)
      && StackAhead(st', s) == if Top(st).scan == s then NextAhead(next) else []
  {
    hide PcAhead;
    var n, x := |st| - 1, Top(st).scan;
    var st' := st[..n] + Resume(x, next);
    if next.Return? {
      assert st' == st[..n];
    } else if next.Become? {
      assert st' == st[..n] + [Frame(x, next.pc)] && Top(st') == Frame(x, next.pc);
    } else {
      var a, b := Frame(x, Loop(next.rest)), Frame(x, Enter(next.child));
      assert st' == st[..n] + [a, b] && Top(st') == b;
      assert forall i :: 0 <= i < n ==> st'[i] == st[i];
      assert st'[n] == a;
    }
  }

  lemma OwnStep(e: Engine, eff: Effect, next: Next, s: nat)
    requires OnCourse(e, s) && Enabled(e, Step(0)) && Top(e.workers[0]).scan == s && !next.Inline?
    requires Continues(Top(e.workers[0]).pc, eff, next, s)
    ensures OnCourse(Commit(e, 0, eff, next), s)
  {
    hide PcAhead, NextAhead, Sent, Queued, Preorder, EventsOf, QueueAhead, Resume;
    EffectOnContexts(e, s, eff, s);
    EffectAhead(e, s, eff);
    ResumedStack(e.workers[0], next, s);
    Regroup(EventsOf(e.log, s), Sent(eff, s), NextAhead(next), Queued(eff), QueueAhead(e.queue, s));
  }

  lemma OtherStep(e: Engine, eff: Effect, next: Next, s: nat)
    requires OnCourse(e, s) && Enabled(e, Step(0)) && Top(e.workers[0]).scan != s
    requires eff.Emit? ==> eff.msg.scan == Top(e.workers[0]).scan
    ensures OnCourse(Commit(e, 0, eff, next), s)
  {
    hide PcAhead, NextAhead, Preorder, EventsOf, QueueAhead, Resume, Apply;
    var x := Top(e.workers[0]).scan;
    EffectOnContexts(e, x, eff, s);
    OtherEffect(e, x, eff, s);
    ResumedStack(e.workers[0], next, s);
  }

  lemma StepOnCourse(e: Engine, s: nat)
    requires OnCourse(e, s) && Enabled(e, Step(0)) && !Inlines(e, Step(0), s)
    ensures OnCourse(Do(e, Step(0)), s)
  {
    var f := Top(e.workers[0]);
    var v := ViewOf(e, f.scan);
    PcUnit(v, f);
    PcCourse(v, f.scan, f.pc);
    var step := StepPc(v, f.scan, f.pc);
    hide StepPc, OnCourse, Commit, Continues;
    if f.scan == s {
      OwnStep(e, step.0, step.1, s);
    } else {
      OtherStep(e, step.0, step.1, s);
    }
  }

  lemma PopOnCourse(e: Engine, s: nat)
    requires OnCourse(e, s) && Enabled(e, Pop(0))
    ensures OnCourse(Do(e, Pop(0)), s)
  {
    hide Preorder, EventsOf;
    var n := |e.queue| - 1;
    var e' := Do(e, Pop(0));
    assert e'.workers[0] == [Frame(e.queue[n].scan, Enter(e.queue[n].work))];
    assert EventsOf(e.log, s) + [] == EventsOf(e.log, s);
  }

  // Before its root job is queued nothing of a scan is anywhere.
  lemma NothingYet(e: Engine, s: nat)
    requires Inv(e) && LogOk(e) && s in e.ctx && !e.ctx[s].accepted
    ensures EventsOf(e.log, s) == [] && QueueAhead(e.queue, s) == []
    ensures forall w :: 0 <= w < |e.workers| ==> StackAhead(e.workers[w], s) == []
  {
    assert Balanced(e, Live(s));
    NoLiveAhead(e.queue, s);
    NoEventsOf(e.log, 0, s);
    forall w | 0 <= w < |e.workers| ensures StackAhead(e.workers[w], s) == [] {
      if e.workers[w] != [] && Top(e.workers[w]).scan == s {
        FrameFacts(e, w);
      }
    }
  }

  lemma NoLiveAhead(q: seq<Job>, s: nat)
    requires QueueMass(q, Live(s)) == 0
    ensures QueueAhead(q, s) == []
  {
  }

  lemma CallOnCourse(e: Engine, s: nat)
    requires Inv(e) && LogOk(e) && OnCourse(e, s) && Enabled(e, RootStep)
    ensures OnCourse(CallStep(e), s)
  {
    hide Preorder, EventsOf, Balanced, StackAhead, LogOk, Flat;
    if s == e.call.scan {
      NothingYet(e, s);
    }
    PushAhead(e.queue, Job(e.call.scan, e.call.work, true), s);
    assert [] + [] + (Preorder(e.call.work) + []) == Preorder(e.call.work);
    assert [] + QueueAhead(e.queue, s) == QueueAhead(e.queue, s);
  }

  lemma DoOnCourse(e: Engine, a: Action, s: nat)
    requires Inv(e) && LogOk(e) && OnCourse(e, s) && Enabled(e, a) && !Inlines(e, a, s)
    ensures OnCourse(Do(e, a), s)
  {
    match a
    case Pop(w) => PopOnCourse(e, s);
    case Step(w) => StepOnCourse(e, s);
    case StartRoot(x, root) =>
    case RootStep => CallOnCourse(e, s);
    case Cancel(x) =>
  }

  lemma {:induction false} RunOnCourse(slots: nat, maxScans: nat, run: seq<Action>, s: nat)
    requires Legal(Init(slots, maxScans, 1), run) && NeverInline(Init(slots, maxScans, 1), run, s)
    ensures OnCourse(After(Init(slots, maxScans, 1), run), s)
    decreases |run|
  {
    if run != [] {
      hide Inv, LogOk, OnCourse, Do, Inlines;
      var n := |run| - 1;
      RunOnCourse(slots, maxScans, run[..n], s);
      RunOk(slots, maxScans, 1, run[..n]);
      DoOnCourse(After(Init(slots, maxScans, 1), run[..n]), run[n], s);
    }
  }

  lemma NothingAhead(e: Engine, s: nat)
    requires Inv(e) && Crossed(e, s) == 1 && |e.workers| == 1
    ensures StackAhead(e.workers[0], s) == [] && QueueAhead(e.queue, s) == []
  {
    assert Balanced(e, Unit(s));
    NoUnitAhead(e.queue, s);
    if e.workers[0] != [] && Top(e.workers[0]).scan == s {
      FrameFacts(e, 0);
    }
  }

  lemma NoUnitAhead(q: seq<Job>, s: nat)
    requires QueueMass(q, Unit(s)) == 0
    ensures QueueAhead(q, s) == []
  {
  }

  lemma OrderAtSentinel(e: Engine, i: nat)
    requires Inv(e) && LogOk(e) && i < |e.log| && e.log[i].Sentinel? && !e.log[i].canceled
    requires OnCourse(e, e.log[i].scan)
    ensures e.log[i].scan in e.ctx && EventsOf(e.log[..i], e.log[i].scan) == Preorder(e.ctx[e.log[i].scan].root)
  {
    var s := e.log[i].scan;
    CleanCounted(e.log, i);
    assert Balanced(e, Clean(s));
    NothingAhead(e, s);
    BeforeSentinel(e.log, i);
    hide Preorder, EventsOf;
    assert EventsOf(e.log, s) + [] + [] == EventsOf(e.log, s);
  }

  /**
   Depth-first refinement: with one worker, whatever other scans share the queue, the events before an uncanceled
   sentinel are exactly the recursive preorder of the scan's tree, if no child of it was run inline.
   */
  lemma PreorderWithOneWorker(slots: nat, maxScans: nat, run: seq<Action>, i: nat)
    requires Legal(Init(slots, maxScans, 1), run)
    requires
      var log := After(Init(slots, maxScans, 1), run).log;
      i < |log| && log[i].Sentinel? && !log[i].canceled && NeverInline(Init(slots, maxScans, 1), run, log[i].scan)
    ensures
      var e := After(Init(slots, maxScans, 1), run);
      e.log[i].scan in e.ctx && EventsOf(e.log[..i], e.log[i].scan) == Preorder(e.ctx[e.log[i].scan].root)
  {
    var e := After(Init(slots, maxScans, 1), run);
    hide Inv, LogOk, OnCourse, NeverInline;
    RunOk(slots, maxScans, 1, run);
    RunOnCourse(slots, maxScans, run, e.log[i].scan);
    OrderAtSentinel(e, i);
  }
}
