/** Every step of the scan engine keeps every balance. */
module EngineInvariant {
  import opened FileTree
  import opened Messages
  import opened ScanEngine
  import opened EngineMass

  // Only the innermost call of a worker runs; the callers wait at their loop head.
  ghost predicate CallersWait(ws: seq<seq<Frame>>) {
    forall w :: 0 <= w < |ws| ==> StackWaits(ws[w])
  }

  ghost predicate StackWaits(st: seq<Frame>) {
    forall i :: 0 <= i < |st| - 1 ==> st[i].pc.Loop?
  }

  ghost predicate ContextsOk(e: Engine) {
    && (forall s :: s in e.ctx ==> s > 0 && (e.ctx[s].skipped ==> e.ctx[s].canceled))
    && (forall s :: s in e.ctx && !e.ctx[s].accepted ==> !e.call.NoCall? && e.call.scan == s)
    && (!e.call.NoCall? ==>
          && e.call.scan in e.ctx
          && !e.ctx[e.call.scan].accepted
          && e.ctx[e.call.scan].root == e.call.work)
  }

  ghost predicate Inv(e: Engine) {
    && (forall t :: Balanced(e, t))
    && ContextsOk(e)
    && CallersWait(e.workers)
  }

  // ----- a worker's step -----


  // A worker's step exchanges its top frame; all other frames contribute r on both sides.
  lemma Exchange(ws: seq<seq<Frame>>, w: nat, n: Next, t: Token) returns (r: nat)
    requires w < |ws| && ws[w] != []
    ensures
      var st := ws[w];
      var s := Top(st).scan;
      && WorkersMass(ws, t) == r + FrameMass(Top(st), t)
      && WorkersMass(ws[w := st[..|st| - 1] + Resume(s, n)], t) == r + NextMass(s, n, t)
  {
    var st := ws[w];
    var s := Top(st).scan;
    var pre := st[..|st| - 1];
    r := WorkersMass(ws[w := []], t) + StackMass(pre, t);
    assert ws[w := st] == ws;
    WorkersSplit(ws, w, st, t);
    WorkersSplit(ws, w, pre + Resume(s, n), t);
    ResumeMass(pre, s, n, t);
  }

  lemma ResumeMass(pre: seq<Frame>, s: nat, n: Next, t: Token)
    ensures StackMass(pre + Resume(s, n), t) == StackMass(pre, t) + NextMass(s, n, t)
  {
    match n
    case Become(pc) => StackPush(pre, Frame(s, pc), t);
    case Inline(rest, child) =>
      var a, b := Frame(s, Loop(rest)), Frame(s, Enter(child));
      assert pre + [a, b] == pre + [a] + [b];
      StackPush(pre, a, t);
      StackPush(pre + [a], b, t);
    case Return => assert pre + [] == pre;
  }

  // The queue after an effect.
  lemma EffectOnQueue(e: Engine, s: nat, eff: Effect, t: Token)
    requires s in e.ctx
    ensures QueueMass(Apply(e, s, eff).queue, t) == QueueMass(e.queue, t) + EffectMass(s, eff, t)
  {
    if eff.Enqueue? {
      QueuePush(e.queue, Job(s, eff.child, false), t);
    }
  }

  // A step in terms of the frame that takes it.
  lemma CommitTotals(e: Engine, w: nat, eff: Effect, next: Next, t: Token) returns (r: nat)
    requires Enabled(e, Step(w))
    ensures
      var f := Top(e.workers[w]);
      && Total(e, t) == r + FrameMass(f, t)
      && Total(Commit(e, w, eff, next), t) == r + NextMass(f.scan, next, t) + EffectMass(f.scan, eff, t)
  {
    hide FrameMass, NextMass, QueueMass, WorkersMass, CallMass, EffectMass, Resume;
    var f := Top(e.workers[w]);
    var x := Exchange(e.workers, w, next, t);
    EffectOnQueue(e, f.scan, eff, t);
    r := QueueMass(e.queue, t) + x + CallMass(e.call, t);
  }

  // ----- what one step of worker_job does to each token, whatever it reads -----

  function GainOf(eff: Effect): int {
    if eff.Gain? then 1 else if eff.Lose? then -1 else 0
  }

  function Emitted(eff: Effect, s: nat, ev: Ev): nat {
    if eff.Emit? && eff.msg == Event(s, ev) then 1 else 0
  }

  function EmittedSentinel(eff: Effect): nat {
    if eff.Emit? && eff.msg.Sentinel? then 1 else 0
  }

  function EmittedClean(eff: Effect): nat {
    if eff.Emit? && eff.msg.Sentinel? && !eff.msg.canceled then 1 else 0
  }

  function Crossing(v: View, eff: Effect): nat {
    if eff.Lose? && v.unfinished == 1 then 1 else 0
  }

  // Change of a token's mass when the frame f takes a step.
  function Delta(f: Frame, eff: Effect, next: Next, t: Token): int {
    NextMass(f.scan, next, t) + EffectMass(f.scan, eff, t) - FrameMass(f, t)
  }

  ghost predicate UnitFacts(f: Frame, eff: Effect, next: Next) {
    && Delta(f, eff, next, Unit(f.scan)) == GainOf(eff)
    && (GainOf(eff) != 0 || eff.Skip? || eff.Enqueue? || (eff.Emit? && eff.msg.Event?) ==> PcUnits(f.pc) > 0)
    && (eff.Emit? ==> eff.msg.scan == f.scan)
  }

  ghost predicate TodoFacts(f: Frame, eff: Effect, next: Next, ev: Ev) {
    var d := Delta(f, eff, next, Todo(f.scan, ev)) + Emitted(eff, f.scan, ev);
    d <= 0 && (!eff.Skip? ==> d == 0)
  }

  ghost predicate CrossingFacts(v: View, f: Frame, eff: Effect, next: Next) {
    && Delta(f, eff, next, Notify(f.scan)) == Crossing(v, eff) - (if eff.Tell? then 1 else 0)
    && Delta(f, eff, next, Sent(f.scan)) == Crossing(v, eff) - EmittedSentinel(eff)
    && Delta(f, eff, next, Reg(f.scan)) == Crossing(v, eff) - (if eff.Unregister? then 1 else 0)
  }

  ghost predicate CleanFacts(v: View, f: Frame, eff: Effect, next: Next) {
    && Delta(f, eff, next, Clean(f.scan)) + EmittedClean(eff) <= (if f.pc.LoadCanceled? && !v.canceled then 1 else 0)
    && (eff.Skip? ==> v.canceled)
  }

  ghost predicate FuelFacts(f: Frame, eff: Effect, next: Next) {
    Delta(f, eff, next, Fuel(f.scan)) < 0
  }

  ghost predicate SlotFacts(v: View, f: Frame, eff: Effect, next: Next) {
    Delta(f, eff, next, Slot) <= 0 || (eff.Quiet? && v.enough)
  }

  ghost predicate StepFacts(v: View, f: Frame, eff: Effect, next: Next) {
    && UnitFacts(f, eff, next)
    && (forall ev :: TodoFacts(f, eff, next, ev))
    && CrossingFacts(v, f, eff, next)
    && CleanFacts(v, f, eff, next)
    && FuelFacts(f, eff, next)
    && SlotFacts(v, f, eff, next)
  }

  lemma PcUnit(v: View, f: Frame)
    ensures var (eff, next) := StepPc(v, f.scan, f.pc); UnitFacts(f, eff, next)
  {
    hide Occurs, OccursAll, FuelOf, FuelAll, Children, EventOf;
  }

  lemma PcTodoEarly(v: View, f: Frame, ev: Ev)
    requires f.pc.Enter? || f.pc.Scan? || f.pc.Loop?
    ensures var (eff, next) := StepPc(v, f.scan, f.pc); TodoFacts(f, eff, next, ev)
  {
  }

  lemma PcTodoLate(v: View, f: Frame, ev: Ev)
    requires !(f.pc.Enter? || f.pc.Scan? || f.pc.Loop?)
    ensures var (eff, next) := StepPc(v, f.scan, f.pc); TodoFacts(f, eff, next, ev)
  {
    hide Occurs, OccursAll, FuelOf, FuelAll, Children, EventOf;
  }

  lemma PcCrossing(v: View, f: Frame)
    requires f.pc.Erase? ==> v.registered && f.scan != 0
    ensures var (eff, next) := StepPc(v, f.scan, f.pc); CrossingFacts(v, f, eff, next)
  {
    hide Occurs, OccursAll, FuelOf, FuelAll, Children, EventOf;
  }

  lemma PcClean(v: View, f: Frame)
    ensures var (eff, next) := StepPc(v, f.scan, f.pc); CleanFacts(v, f, eff, next)
  {
    hide Occurs, OccursAll, FuelOf, FuelAll, Children, EventOf;
  }

  lemma PcFuelEarly(v: View, f: Frame)
    requires f.pc.Enter? || f.pc.Scan? || f.pc.Loop?
    ensures var (eff, next) := StepPc(v, f.scan, f.pc); FuelFacts(f, eff, next)
  {
    hide Occurs, OccursAll, EventOf;
  }

  lemma PcFuelSubmit(v: View, f: Frame)
    requires f.pc.Add? || f.pc.Check? || f.pc.Push?
    ensures var (eff, next) := StepPc(v, f.scan, f.pc); FuelFacts(f, eff, next)
  {
    hide Occurs, OccursAll, FuelOf, FuelAll, Children, EventOf;
  }

  lemma PcFuelFinish(v: View, f: Frame)
    requires PcTodoless(f.pc)
    ensures var (eff, next) := StepPc(v, f.scan, f.pc); FuelFacts(f, eff, next)
  {
    hide Occurs, OccursAll, FuelOf, FuelAll, Children, EventOf;
  }

  predicate PcTodoless(pc: Pc) {
    !(pc.Enter? || pc.Scan? || pc.Loop? || pc.Add? || pc.Check? || pc.Push?)
  }

  lemma PcSlot(v: View, f: Frame)
    ensures var (eff, next) := StepPc(v, f.scan, f.pc); SlotFacts(v, f, eff, next)
  {
    hide Occurs, OccursAll, FuelOf, FuelAll, Children, EventOf;
  }

  lemma PcFacts(v: View, f: Frame)
    requires f.pc.Erase? ==> v.registered && f.scan != 0
    ensures var (eff, next) := StepPc(v, f.scan, f.pc); StepFacts(v, f, eff, next)
  {
    PcUnit(v, f);
    PcCrossing(v, f);
    PcClean(v, f);
    PcSlot(v, f);
    if f.pc.Enter? || f.pc.Scan? || f.pc.Loop? {
      PcFuelEarly(v, f);
    } else if PcTodoless(f.pc) {
      PcFuelFinish(v, f);
    } else {
      PcFuelSubmit(v, f);
    }
    var step := StepPc(v, f.scan, f.pc);
    forall ev ensures TodoFacts(f, step.0, step.1, ev) {
      if f.pc.Enter? || f.pc.Scan? || f.pc.Loop? {
        PcTodoEarly(v, f, ev);
      } else {
        PcTodoLate(v, f, ev);
      }
    }
  }

  // ----- what an effect does to the shared state -----

  lemma EffectOnContexts(e: Engine, s: nat, eff: Effect, x: nat)
    requires s in e.ctx
    ensures
      var e1 := Apply(e, s, eff);
      && Unfinished(e1, x) == Unfinished(e, x) + (if x == s then GainOf(eff) else 0)
      && e1.ctx.Keys == e.ctx.Keys
      && (forall y :: y in e.ctx ==>
            && e1.ctx[y].root == e.ctx[y].root
            && e1.ctx[y].accepted == e.ctx[y].accepted
            && e1.ctx[y].canceled == e.ctx[y].canceled)
      && (Skipped(e1, x) <==> Skipped(e, x) || (eff.Skip? && x == s))
      && e1.call == e.call && e1.workers == e.workers && e1.slots == e.slots && e1.maxScans == e.maxScans
  {
  }

  lemma EffectOnRegistry(e: Engine, s: nat, eff: Effect, x: nat)
    requires s in e.ctx
    ensures x in Apply(e, s, eff).registry <==> x in e.registry && !(eff.Unregister? && x == s)
    ensures x in Apply(e, s, eff).ctx <==> x in e.ctx
  {
  }

  lemma EffectOnLog(e: Engine, s: nat, eff: Effect, x: nat, ev: Ev)
    requires s in e.ctx
    ensures
      var e1 := Apply(e, s, eff);
      CountEvent(e1.log, x, ev) == CountEvent(e.log, x, ev) + Emitted(eff, x, ev)
  {
    if eff.Emit? {
      CountEventPush(e.log, eff.msg, x, ev);
    }
  }

  lemma EffectOnSentinels(e: Engine, s: nat, eff: Effect, x: nat)
    requires s in e.ctx
    requires eff.Emit? && eff.msg.Sentinel? ==> eff.msg.scan == s
    ensures
      var e1 := Apply(e, s, eff);
      && CountSentinel(e1.log, x) == CountSentinel(e.log, x) + (if x == s then EmittedSentinel(eff) else 0)
      && CountClean(e1.log, x) == CountClean(e.log, x)
           + (if x == s && eff.Emit? && eff.msg.Sentinel? && !eff.msg.canceled then 1 else 0)
  {
    if eff.Emit? {
      CountSentinelPush(e.log, eff.msg, x);
    }
  }

  lemma EffectOnNotifies(e: Engine, s: nat, eff: Effect, x: nat)
    requires s in e.ctx
    ensures
      var e1 := Apply(e, s, eff);
      CountNotify(e1.notifies, x) == CountNotify(e.notifies, x) + (if x == s && eff.Tell? then 1 else 0)
  {
    if eff.Tell? {
      CountNotifyPush(e.notifies, s, x);
    }
  }

  lemma EffectOnCrossed(e: Engine, s: nat, eff: Effect, x: nat)
    requires s in e.ctx && e.ctx[s].accepted
    requires GainOf(eff) != 0 ==> e.ctx[s].unfinished > 0
    ensures Crossed(Apply(e, s, eff), x)
         == Crossed(e, x) + (if x == s && eff.Lose? && e.ctx[s].unfinished == 1 then 1 else 0)
  {
  }

  // ----- a worker's step keeps each balance -----

  // What its own frame guarantees about the stepping scan.
  lemma FrameFacts(e: Engine, w: nat)
    requires Inv(e) && Enabled(e, Step(w))
    ensures
      var f := Top(e.workers[w]);
      var s := f.scan;
      && e.ctx[s].accepted
      && (PcUnits(f.pc) > 0 ==>
            && e.ctx[s].unfinished >= PcUnits(f.pc)
            && Crossed(e, s) == CountSentinel(e.log, s) == CountClean(e.log, s) == 0
            && Total(e, Clean(s)) == 0)
  {
    var f := Top(e.workers[w]);
    var r1 := Exchange(e.workers, w, Return, Live(f.scan));
    assert Balanced(e, Live(f.scan));
    var r2 := Exchange(e.workers, w, Return, Unit(f.scan));
    assert Balanced(e, Unit(f.scan));
    assert Balanced(e, Sent(f.scan));
    assert Balanced(e, Clean(f.scan));
  }

  // The total of a token changes by what the stepping frame gains or loses of it.
  lemma CommitDelta(e: Engine, w: nat, eff: Effect, next: Next, t: Token)
    requires Enabled(e, Step(w))
    ensures
      var f := Top(e.workers[w]);
      Total(Commit(e, w, eff, next), t) == Total(e, t) + (if Concerns(t, f.scan) then Delta(f, eff, next, t) else 0)
  {
    hide Total, PcMass, Commit;
    var r := CommitTotals(e, w, eff, next, t);
  }

  lemma StepUnit(e: Engine, w: nat, x: nat, eff: Effect, next: Next)
    requires Inv(e) && Enabled(e, Step(w))
    requires UnitFacts(Top(e.workers[w]), eff, next)
    ensures Balanced(Commit(e, w, eff, next), Unit(x))
  {
    hide Total, Delta, Apply;
    CommitDelta(e, w, eff, next, Unit(x));
    assert Balanced(e, Unit(x));
    EffectOnContexts(e, Top(e.workers[w]).scan, eff, x);
  }

  lemma StepTodo(e: Engine, w: nat, x: nat, ev: Ev, eff: Effect, next: Next)
    requires Inv(e) && Enabled(e, Step(w))
    requires UnitFacts(Top(e.workers[w]), eff, next) && TodoFacts(Top(e.workers[w]), eff, next, ev)
    ensures Balanced(Commit(e, w, eff, next), Todo(x, ev))
  {
    hide Total, Delta, Apply, CountEvent, Occurs;
    CommitDelta(e, w, eff, next, Todo(x, ev));
    assert Balanced(e, Todo(x, ev));
    EffectOnContexts(e, Top(e.workers[w]).scan, eff, x);
    EffectOnLog(e, Top(e.workers[w]).scan, eff, x, ev);
  }

  lemma StepNotify(e: Engine, w: nat, x: nat, eff: Effect, next: Next)
    requires Inv(e) && Enabled(e, Step(w))
    requires var f := Top(e.workers[w]); UnitFacts(f, eff, next) && CrossingFacts(ViewOf(e, f.scan), f, eff, next)
    ensures Balanced(Commit(e, w, eff, next), Notify(x))
  {
    hide Total, Delta, Apply, CountNotify;
    var s := Top(e.workers[w]).scan;
    CommitDelta(e, w, eff, next, Notify(x));
    assert Balanced(e, Notify(x));
    FrameFacts(e, w);
    EffectOnCrossed(e, s, eff, x);
    EffectOnNotifies(e, s, eff, x);
  }

  lemma StepSent(e: Engine, w: nat, x: nat, eff: Effect, next: Next)
    requires Inv(e) && Enabled(e, Step(w))
    requires var f := Top(e.workers[w]); UnitFacts(f, eff, next) && CrossingFacts(ViewOf(e, f.scan), f, eff, next)
    ensures Balanced(Commit(e, w, eff, next), Sent(x))
  {
    hide Total, Delta, Apply, CountSentinel, CountClean;
    var s := Top(e.workers[w]).scan;
    CommitDelta(e, w, eff, next, Sent(x));
    assert Balanced(e, Sent(x));
    FrameFacts(e, w);
    EffectOnCrossed(e, s, eff, x);
    EffectOnSentinels(e, s, eff, x);
  }

  lemma StepReg(e: Engine, w: nat, x: nat, eff: Effect, next: Next)
    requires Inv(e) && Enabled(e, Step(w))
    requires var f := Top(e.workers[w]); UnitFacts(f, eff, next) && CrossingFacts(ViewOf(e, f.scan), f, eff, next)
    ensures Balanced(Commit(e, w, eff, next), Reg(x))
  {
    hide Total, Delta, Apply;
    var s := Top(e.workers[w]).scan;
    CommitDelta(e, w, eff, next, Reg(x));
    assert Balanced(e, Reg(x));
    FrameFacts(e, w);
    EffectOnCrossed(e, s, eff, x);
    EffectOnRegistry(e, s, eff, x);
  }

  lemma AlreadyCrossed(e: Engine, w: nat)
    requires Inv(e) && Enabled(e, Step(w)) && Top(e.workers[w]).pc.LoadCanceled?
    ensures Crossed(e, Top(e.workers[w]).scan) == 1
  {
    var s := Top(e.workers[w]).scan;
    var r := Exchange(e.workers, w, Return, Sent(s));
    assert Balanced(e, Sent(s));
  }

  lemma StepClean(e: Engine, w: nat, x: nat, eff: Effect, next: Next)
    requires Inv(e) && Enabled(e, Step(w))
    requires var f := Top(e.workers[w]); UnitFacts(f, eff, next) && CleanFacts(ViewOf(e, f.scan), f, eff, next)
    ensures Balanced(Commit(e, w, eff, next), Clean(x))
  {
    hide Total, Delta, Apply, CountSentinel, CountClean;
    var f := Top(e.workers[w]);
    var s := f.scan;
    CommitDelta(e, w, eff, next, Clean(x));
    assert Balanced(e, Clean(x));
    FrameFacts(e, w);
    EffectOnCrossed(e, s, eff, x);
    EffectOnContexts(e, s, eff, x);
    EffectOnSentinels(e, s, eff, x);
    if f.pc.LoadCanceled? {
      AlreadyCrossed(e, w);
    }
  }

  lemma StepLive(e: Engine, w: nat, x: nat, eff: Effect, next: Next)
    requires Inv(e) && Enabled(e, Step(w))
    ensures Balanced(Commit(e, w, eff, next), Live(x))
  {
    hide Total, PcTodo, PcFuel, Occurs, OccursAll, Resume;
    var s := Top(e.workers[w]).scan;
    var r := CommitTotals(e, w, eff, next, Live(x));
    assert Balanced(e, Live(x));
    FrameFacts(e, w);
    EffectOnContexts(e, s, eff, x);
  }

  lemma QueueRootWithinUnits(q: seq<Job>, s: nat)
    ensures QueueMass(q, RootJob(s)) <= QueueMass(q, Unit(s))
  {
  }

  lemma {:induction false} WorkersHoldNoRoot(ws: seq<seq<Frame>>, s: nat)
    ensures WorkersMass(ws, RootJob(s)) == 0
  {
    if ws != [] {
      WorkersHoldNoRoot(ws[..|ws| - 1], s);
      StackHoldsNoRoot(ws[|ws| - 1], s);
    }
  }

  lemma StackHoldsNoRoot(st: seq<Frame>, s: nat)
    ensures StackMass(st, RootJob(s)) == 0
  {
  }

  // While its root job is queued, no call of the scan is open.
  lemma StepRootJob(e: Engine, w: nat, x: nat, eff: Effect, next: Next)
    requires Inv(e) && Enabled(e, Step(w))
    requires UnitFacts(Top(e.workers[w]), eff, next)
    ensures Balanced(Commit(e, w, eff, next), RootJob(x))
  {
    var f := Top(e.workers[w]);
    assert Balanced(e, RootJob(x));
    var r := CommitTotals(e, w, eff, next, RootJob(x));
    var r2 := CommitTotals(e, w, eff, next, Unit(x));
    QueueRootWithinUnits(e.queue, x);
    WorkersHoldNoRoot(e.workers, x);
    var r3 := Exchange(e.workers, w, Return, Unit(x));
  }

  lemma {:induction false} WorkersSlots(ws: seq<seq<Frame>>)
    requires CallersWait(ws)
    ensures WorkersMass(ws, Slot) <= |ws|
  {
    if ws != [] {
      assert StackWaits(ws[|ws| - 1]);
      WorkersSlots(ws[..|ws| - 1]);
      StackSlots(ws[|ws| - 1]);
    }
  }

  lemma {:induction false} StackSlots(st: seq<Frame>)
    requires StackWaits(st)
    ensures StackMass(st, Slot) <= 1
  {
    if st != [] {
      WaitingHoldNoSlot(st[..|st| - 1]);
    }
  }

  lemma WaitingHoldNoSlot(st: seq<Frame>)
    requires forall i :: 0 <= i < |st| ==> st[i].pc.Loop?
    ensures StackMass(st, Slot) == 0
  {
  }

  lemma QueueSlots(q: seq<Job>)
    ensures QueueMass(q, Slot) <= |q|
  {
  }

  lemma StepWaits(e: Engine, w: nat, eff: Effect, next: Next)
    requires Inv(e) && Enabled(e, Step(w))
    ensures CallersWait(Commit(e, w, eff, next).workers)
  {
    var st := e.workers[w];
    assert StackWaits(st);
    assert StackWaits(st[..|st| - 1] + Resume(Top(st).scan, next));
  }

  lemma StepSlot(e: Engine, w: nat, eff: Effect, next: Next)
    requires Inv(e) && Enabled(e, Step(w))
    requires var f := Top(e.workers[w]); SlotFacts(ViewOf(e, f.scan), f, eff, next)
    ensures Balanced(Commit(e, w, eff, next), Slot)
  {
    var e' := Commit(e, w, eff, next);
    assert Balanced(e, Slot);
    EffectOnContexts(e, Top(e.workers[w]).scan, eff, 0);
    if eff.Quiet? && EnoughSlots(e) {
      StepWaits(e, w, eff, next);
      WorkersSlots(e'.workers);
      QueueSlots(e'.queue);
    } else {
      var r := CommitTotals(e, w, eff, next, Slot);
    }
  }

  lemma StepContexts(e: Engine, w: nat, eff: Effect, next: Next)
    requires Inv(e) && Enabled(e, Step(w))
    requires var f := Top(e.workers[w]); CleanFacts(ViewOf(e, f.scan), f, eff, next)
    ensures ContextsOk(Commit(e, w, eff, next))
  {
    var s := Top(e.workers[w]).scan;
    var e1 := Apply(e, s, eff);
    EffectOnContexts(e, s, eff, s);
    forall y | y in e1.ctx ensures y > 0 && (e1.ctx[y].skipped ==> e1.ctx[y].canceled) {
      EffectOnContexts(e, s, eff, y);
    }
  }

  lemma StepFuel(e: Engine, w: nat, x: nat, eff: Effect, next: Next)
    requires Enabled(e, Step(w))
    requires FuelFacts(Top(e.workers[w]), eff, next)
    ensures Total(Commit(e, w, eff, next), Fuel(x)) <= Total(e, Fuel(x))
    ensures x == Top(e.workers[w]).scan ==> Total(Commit(e, w, eff, next), Fuel(x)) < Total(e, Fuel(x))
  {
    var r := CommitTotals(e, w, eff, next, Fuel(x));
  }

  lemma CommitKeepsInv(e: Engine, w: nat, eff: Effect, next: Next)
    requires Inv(e) && Enabled(e, Step(w))
    requires var f := Top(e.workers[w]); StepFacts(ViewOf(e, f.scan), f, eff, next)
    ensures Inv(Commit(e, w, eff, next))
  {
    StepContexts(e, w, eff, next);
    StepWaits(e, w, eff, next);
    forall t ensures Balanced(Commit(e, w, eff, next), t) {
      match t
      case Unit(s) => StepUnit(e, w, s, eff, next);
      case Todo(s, ev) => StepTodo(e, w, s, ev, eff, next);
      case Notify(s) => StepNotify(e, w, s, eff, next);
      case Sent(s) => StepSent(e, w, s, eff, next);
      case Reg(s) => StepReg(e, w, s, eff, next);
      case Live(s) => StepLive(e, w, s, eff, next);
      case Clean(s) => StepClean(e, w, s, eff, next);
      case RootJob(s) => StepRootJob(e, w, s, eff, next);
      case Fuel(s) => StepFuelBound(e, w, s, eff, next);
      case Slot => StepSlot(e, w, eff, next);
    }
  }

  lemma StepFuelBound(e: Engine, w: nat, x: nat, eff: Effect, next: Next)
    requires Inv(e) && Enabled(e, Step(w))
    requires FuelFacts(Top(e.workers[w]), eff, next)
    ensures Balanced(Commit(e, w, eff, next), Fuel(x))
  {
    assert Balanced(e, Fuel(x));
    StepFuel(e, w, x, eff, next);
    EffectOnContexts(e, Top(e.workers[w]).scan, eff, x);
  }

  /** The registry lookup after the zero crossing never fails. */
  lemma EraseFinds(e: Engine, w: nat)
    requires Inv(e) && Enabled(e, Step(w)) && Top(e.workers[w]).pc.Erase?
    ensures Top(e.workers[w]).scan in e.registry && Top(e.workers[w]).scan != 0
  {
    var s := Top(e.workers[w]).scan;
    var r := Exchange(e.workers, w, Return, Reg(s));
    assert Balanced(e, Reg(s));
  }

  lemma StepKeepsInv(e: Engine, w: nat)
    requires Inv(e) && Enabled(e, Step(w))
    ensures Inv(Do(e, Step(w)))
  {
    var f := Top(e.workers[w]);
    var v := ViewOf(e, f.scan);
    if f.pc.Erase? {
      EraseFinds(e, w);
    }
    PcFacts(v, f);
    var step := StepPc(v, f.scan, f.pc);
    CommitKeepsInv(e, w, step.0, step.1);
  }

  // ----- the other steps -----

  lemma PopTotals(e: Engine, w: nat, t: Token)
    requires Enabled(e, Pop(w))
    ensures
      var job := e.queue[|e.queue| - 1];
      Total(Do(e, Pop(w)), t) == Total(e, t) - JobMass(job, t) + FrameMass(Frame(job.scan, Enter(job.work)), t)
  {
    var job := e.queue[|e.queue| - 1];
    var f := Frame(job.scan, Enter(job.work));
    WorkersSplit(e.workers, w, [f], t);
    assert e.workers[w := []] == e.workers;
    assert [f] == [] + [f];
    StackPush([], f, t);
  }

  lemma PopBalanced(e: Engine, w: nat, t: Token)
    requires Inv(e) && Enabled(e, Pop(w))
    ensures Balanced(Do(e, Pop(w)), t)
  {
    hide Total, Occurs, OccursAll, FuelOf, FuelAll, Children, EventOf;
    assert Balanced(e, t);
    PopTotals(e, w, t);
    if t.RootJob? {
      PopTotals(e, w, Unit(t.scan));
    }
  }

  lemma PopKeepsInv(e: Engine, w: nat)
    requires Inv(e) && Enabled(e, Pop(w))
    ensures Inv(Do(e, Pop(w)))
  {
    hide Balanced;
    var e' := Do(e, Pop(w));
    forall v | 0 <= v < |e'.workers| ensures StackWaits(e'.workers[v]) {
      assert StackWaits(e.workers[v]);
    }
    forall t ensures Balanced(e', t) {
      PopBalanced(e, w, t);
    }
  }

  lemma CancelBalanced(e: Engine, s: nat, t: Token)
    requires Balanced(e, t)
    ensures Balanced(Do(e, Cancel(s)), t)
  {
    hide Occurs, OccursAll, FuelOf, FuelAll, QueueMass, WorkersMass, CallMass, CountEvent, CountSentinel, CountNotify,
         CountClean;
  }

  lemma CancelKeepsInv(e: Engine, s: nat)
    requires Inv(e)
    ensures Inv(Do(e, Cancel(s)))
  {
    hide Balanced;
    forall t ensures Balanced(Do(e, Cancel(s)), t) {
      CancelBalanced(e, s, t);
    }
  }

  lemma StartBalanced(e: Engine, s: nat, root: Work, t: Token)
    requires Inv(e) && Enabled(e, StartRoot(s, root))
    ensures Balanced(Do(e, StartRoot(s, root)), t)
  {
    hide Occurs, OccursAll, FuelOf, FuelAll, Children, EventOf, WorkersMass;
    assert Balanced(e, t);
    assert Balanced(e, Unit(s));
  }

  lemma StartKeepsInv(e: Engine, s: nat, root: Work)
    requires Inv(e) && Enabled(e, StartRoot(s, root))
    ensures Inv(Do(e, StartRoot(s, root)))
  {
    forall t ensures Balanced(Do(e, StartRoot(s, root)), t) {
      StartBalanced(e, s, root, t);
    }
  }

  // Until the root job is pushed only the dispatcher holds anything of its scan.
  lemma CallFacts(e: Engine)
    requires Inv(e) && !e.call.NoCall?
    ensures
      var s := e.call.scan;
      && QueueMass(e.queue, Unit(s)) == WorkersMass(e.workers, Unit(s)) == 0
      && (forall ev :: QueueMass(e.queue, Todo(s, ev)) == WorkersMass(e.workers, Todo(s, ev)) == 0)
      && QueueMass(e.queue, Fuel(s)) == WorkersMass(e.workers, Fuel(s)) == 0
      && QueueMass(e.queue, RootJob(s)) == WorkersMass(e.workers, RootJob(s)) == 0
  {
    var s := e.call.scan;
    assert Balanced(e, Live(s));
    NoLiveQueue(e.queue, RootJob(s));
    NoLiveWorkers(e.workers, RootJob(s));
    NoLiveQueue(e.queue, Unit(s));
    NoLiveWorkers(e.workers, Unit(s));
    NoLiveQueue(e.queue, Fuel(s));
    NoLiveWorkers(e.workers, Fuel(s));
    forall ev ensures QueueMass(e.queue, Todo(s, ev)) == WorkersMass(e.workers, Todo(s, ev)) == 0 {
      NoLiveQueue(e.queue, Todo(s, ev));
      NoLiveWorkers(e.workers, Todo(s, ev));
    }
  }

  lemma NoLiveQueue(q: seq<Job>, t: Token)
    requires !t.Slot? && QueueMass(q, Live(t.scan)) == 0
    ensures QueueMass(q, t) == 0
  {
  }

  lemma NoLiveStack(st: seq<Frame>, t: Token)
    requires !t.Slot? && StackMass(st, Live(t.scan)) == 0
    ensures StackMass(st, t) == 0
  {
  }

  lemma {:induction false} NoLiveWorkers(ws: seq<seq<Frame>>, t: Token)
    requires !t.Slot? && WorkersMass(ws, Live(t.scan)) == 0
    ensures WorkersMass(ws, t) == 0
  {
    if ws != [] {
      NoLiveWorkers(ws[..|ws| - 1], t);
      NoLiveStack(ws[|ws| - 1], t);
    }
  }

  // A balance survives a step that leaves its scan alone.
  lemma Unaffected(e: Engine, e': Engine, t: Token)
    requires Balanced(e, t) && !t.Slot?
    requires Total(e', t) == Total(e, t) && Total(e', Unit(t.scan)) == Total(e, Unit(t.scan))
    requires t.scan in e.ctx <==> t.scan in e'.ctx
    requires t.scan in e.ctx ==> e.ctx[t.scan] == e'.ctx[t.scan]
    requires t.scan in e.registry <==> t.scan in e'.registry
    requires e.log == e'.log && e.notifies == e'.notifies
    ensures Balanced(e', t)
  {
  }

  lemma CallTotals(e: Engine, t: Token)
    requires Enabled(e, RootStep) && !Concerns(t, e.call.scan)
    ensures Total(CallStep(e), t) == Total(e, t)
  {
    QueuePush(e.queue, Job(e.call.scan, e.call.work, true), t);
  }

  // Scans other than the one being dispatched are not touched.
  lemma CallOther(e: Engine, t: Token)
    requires Inv(e) && Enabled(e, RootStep) && !Concerns(t, e.call.scan)
    ensures Balanced(CallStep(e), t)
  {
    hide Occurs, OccursAll, FuelOf, FuelAll, Children, EventOf, WorkersMass;
    assert Balanced(e, t);
    CallTotals(e, t);
    CallTotals(e, Unit(t.scan));
    Unaffected(e, CallStep(e), t);
  }

  lemma CallSlot(e: Engine)
    requires Inv(e) && Enabled(e, RootStep)
    ensures Balanced(CallStep(e), Slot)
  {
    assert Balanced(e, Slot);
    QueuePush(e.queue, Job(e.call.scan, e.call.work, true), Slot);
  }

  lemma AcceptOwn(e: Engine, t: Token)
    requires Inv(e) && Enabled(e, RootStep) && e.call.Added? && |e.queue| < e.slots
    requires !t.Slot? && t.scan == e.call.scan
    ensures Balanced(CallStep(e), t)
  {
    hide Occurs, OccursAll, FuelOf, FuelAll, Children, EventOf, WorkersMass;
    CallFacts(e);
    assert Balanced(e, t);
    assert Balanced(e, Unit(t.scan));
    QueuePush(e.queue, Job(t.scan, e.call.work, true), t);
    QueuePush(e.queue, Job(t.scan, e.call.work, true), Unit(t.scan));
  }

  lemma AddOwn(e: Engine, t: Token)
    requires Inv(e) && Enabled(e, RootStep) && e.call.Registered?
    requires !t.Slot? && t.scan == e.call.scan
    ensures Balanced(CallStep(e), t)
  {
    hide Occurs, OccursAll, FuelOf, FuelAll, Children, EventOf, WorkersMass;
    CallFacts(e);
    assert Balanced(e, t);
    assert Balanced(e, Unit(t.scan));
  }

  lemma SubOwn(e: Engine, t: Token)
    requires Inv(e) && Enabled(e, RootStep) && e.call.WasFull?
    requires !t.Slot? && t.scan == e.call.scan
    ensures Balanced(CallStep(e), t)
  {
    hide Occurs, OccursAll, FuelOf, FuelAll, Children, EventOf, WorkersMass;
    CallFacts(e);
    assert Balanced(e, t);
    assert Balanced(e, Unit(t.scan));
  }

  lemma MoveOwn(e: Engine, t: Token)
    requires Inv(e) && Enabled(e, RootStep) && (e.call.Subbed? || (e.call.Added? && |e.queue| >= e.slots))
    requires !t.Slot? && t.scan == e.call.scan
    ensures Balanced(CallStep(e), t)
  {
    assert Balanced(e, t);
    Unaffected(e, CallStep(e), t);
  }

  lemma RejectOwn(e: Engine, t: Token)
    requires Inv(e) && Enabled(e, RootStep) && e.call.Flagged?
    requires !t.Slot? && t.scan == e.call.scan
    ensures Balanced(CallStep(e), t)
  {
    hide Occurs, OccursAll, FuelOf, FuelAll, Children, EventOf, WorkersMass;
    CallFacts(e);
    assert Balanced(e, t);
    assert Balanced(e, Unit(t.scan));
  }

  lemma CallContexts(e: Engine)
    requires Inv(e) && Enabled(e, RootStep)
    ensures ContextsOk(CallStep(e))
  {
  }

  lemma CallKeepsInv(e: Engine)
    requires Inv(e) && Enabled(e, RootStep)
    ensures Inv(CallStep(e))
  {
    CallContexts(e);
    forall t ensures Balanced(CallStep(e), t) {
      if t.Slot? {
        CallSlot(e);
      } else if t.scan != e.call.scan {
        CallOther(e, t);
      } else if e.call.Added? && |e.queue| < e.slots {
        AcceptOwn(e, t);
      } else if e.call.Flagged? {
        RejectOwn(e, t);
      } else {
        match e.call
        case Registered(_, _) => AddOwn(e, t);
        case WasFull(_, _) => SubOwn(e, t);
        case _ => MoveOwn(e, t);
      }
    }
  }

  lemma DoKeepsInv(e: Engine, a: Action)
    requires Inv(e) && Enabled(e, a)
    ensures Inv(Do(e, a))
  {
    match a
    case Pop(w) => PopKeepsInv(e, w);
    case Step(w) => StepKeepsInv(e, w);
    case StartRoot(s, root) => StartKeepsInv(e, s, root);
    case RootStep => CallKeepsInv(e);
    case Cancel(s) => CancelKeepsInv(e, s);
  }

  lemma IdleMass(n: nat, t: Token)
    ensures WorkersMass(seq(n, _ => []), t) == 0
  {
    var ws: seq<seq<Frame>> := seq(n, _ => []);
    if n > 0 {
      IdleMass(n - 1, t);
      assert ws[..n - 1] == seq(n - 1, _ => []);
    }
  }

  lemma InitInv(slots: nat, maxScans: nat, threads: nat)
    ensures Inv(Init(slots, maxScans, threads))
  {
    var e := Init(slots, maxScans, threads);
    forall t ensures Balanced(e, t) {
      IdleMass(threads, t);
    }
  }

  /** The invariant over whole runs. */
  lemma {:induction false} RunKeepsInv(e: Engine, run: seq<Action>)
    requires Inv(e) && Legal(e, run)
    ensures Inv(After(e, run))
    decreases |run|
  {
    if run != [] {
      var n := |run| - 1;
      RunKeepsInv(e, run[..n]);
      DoKeepsInv(After(e, run[..n]), run[n]);
    }
  }
}
