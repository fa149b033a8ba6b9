/** Whether a dispatcher that was told "queue full" ever dispatches again. */
module DaemonLiveness {
  import opened FileTree
  import opened Messages
  import opened Daemon
  import opened DaemonInvariant
  import T = DaemonTheorems
  import S = SchedulerModel
  import E = ScanEngine
  import EM = EngineMass
  import EI = EngineInvariant
  import ET = EngineTheorems

  // Some worker has, or can take, a job to finish.
  predicate HasWork(e: E.Engine) {
    |e.workers| > 0 && (e.queue != [] || exists w :: 0 <= w < |e.workers| && e.workers[w] != [])
  }

  // Somebody is going to call notify_dispatch_available.
  predicate WillBeTold(d: System) {
    d.available > 0 || (d.engine.dispatchFailed && HasWork(d.engine))
  }

  ghost predicate Resumable(d: System) {
    exists run :: Legal(d, run) && !After(d, run).sched.managerFull
  }

  // ----- nobody left to call -----

  ghost predicate Stuck(d: System) {
    d.sched.managerFull && !d.sched.disp.Calling? && d.engine.call.NoCall? && !WillBeTold(d)
  }

  lemma SchedulerStuck(s: S.Sched, a: S.Action)
    requires S.Enabled(s, a) && s.managerFull && !s.disp.Calling? && !a.Available?
    ensures S.Do(s, a).managerFull && !S.Do(s, a).disp.Calling?
  {
  }

  lemma CommitUnflagged(e: E.Engine, w: nat, eff: E.Effect, next: E.Next)
    requires E.Enabled(e, E.Step(w)) && !e.dispatchFailed
    ensures !E.Commit(e, w, eff, next).dispatchFailed && E.Commit(e, w, eff, next).call == e.call
  {
  }

  lemma WorkerStuck(d: System, w: nat)
    requires Stuck(d) && Enabled(d, WorkerStep(w))
    ensures Stuck(Do(d, WorkerStep(w)))
  {
    assert d.engine.workers[w] != [];
    assert !d.engine.dispatchFailed;
    var f := E.Top(d.engine.workers[w]);
    var step := E.StepPc(E.ViewOf(d.engine, f.scan), f.scan, f.pc);
    if Tells(d.engine, w) {
      SchedulerStuck(d.sched, S.Finished(f.scan));
    }
    CommitUnflagged(d.engine, w, step.0, step.1);
    hide E.StepPc, E.Commit, S.Do, S.Enabled, HasWork;
  }

  lemma PopStuck(d: System, w: nat)
    requires Stuck(d) && Enabled(d, Pop(w))
    ensures Stuck(Do(d, Pop(w)))
  {
  }

  lemma DoStuck(d: System, a: Action)
    requires Stuck(d) && Enabled(d, a)
    ensures Stuck(Do(d, a))
  {
    if a.WorkerStep? {
      WorkerStuck(d, a.w);
    } else if a.Pop? {
      PopStuck(d, a.w);
    } else {
      hide S.Do, S.Enabled;
      match a
      case Sched(x) => SchedulerStuck(d.sched, x);
      case CancelCall(id) => SchedulerStuck(d.sched, S.CancelCall(id));
      case DispatcherCancel => CancelStuck(d);
      case Consume =>
      case ExportDone(id) => SchedulerStuck(d.sched, S.ExportDone(id));
    }
  }

  lemma CancelStuck(d: System)
    requires Stuck(d) && Enabled(d, DispatcherCancel)
    ensures Stuck(Do(d, DispatcherCancel))
  {
    SchedulerStuck(d.sched, S.DispatcherCancel);
  }

  lemma {:induction false} StuckForever(d: System, run: seq<Action>)
    requires Stuck(d) && Legal(d, run)
    ensures Stuck(After(d, run))
    decreases |run|
  {
    if run != [] {
      hide Stuck, Do, Enabled;
      var n := |run| - 1;
      StuckForever(d, run[..n]);
      DoStuck(After(d, run[..n]), run[n]);
    }
  }

  // ----- somebody left to call -----

  lemma {:induction false} Prepend(d: System, a: Action, run: seq<Action>)
    requires Enabled(d, a) && Legal(Do(d, a), run)
    ensures Legal(d, [a] + run) && After(d, [a] + run) == After(Do(d, a), run)
    decreases |run|
  {
    hide Enabled, Do;
    var all := [a] + run;
    if run == [] {
      assert all == [a] && all[..0] == [];
      assert Legal(d, []) && After(d, []) == d;
    } else {
      var n := |run| - 1;
      Prepend(d, a, run[..n]);
      assert all[..|all| - 1] == [a] + run[..n];
    }
  }

  lemma ResumeEarlier(d: System, a: Action)
    requires Enabled(d, a) && Resumable(Do(d, a))
    ensures Resumable(d)
  {
    hide Enabled, Do, Legal, After;
    var run :| Legal(Do(d, a), run) && !After(Do(d, a), run).sched.managerFull;
    Prepend(d, a, run);
  }

  lemma ToldResumes(d: System)
    requires d.available > 0
    ensures Resumable(d)
  {
    var next := Do(d, Available);
    AvailableEnabled(d.sched);
    var none: seq<Action> := [];
    assert Legal(next, none) && After(next, none) == next;
    hide Legal, After, Do;
    ResumeEarlier(d, Available);
  }

  function StackFuel(st: seq<E.Frame>): nat {
    if st == [] then 0 else StackFuel(st[..|st| - 1]) + EM.PcFuel(st[|st| - 1].pc)
  }

  lemma PushFuel(st: seq<E.Frame>, f: E.Frame)
    ensures StackFuel(st + [f]) == StackFuel(st) + EM.PcFuel(f.pc)
  {
    assert (st + [f])[..|st|] == st;
  }

  function NextFuel(next: E.Next): nat {
    match next
    case Become(pc) => EM.PcFuel(pc)
    case Inline(rest, child) => EM.PcFuel(E.Loop(rest)) + EM.PcFuel(E.Enter(child))
    case Return => 0
  }

  lemma NextMassIsFuel(s: nat, next: E.Next)
    ensures EM.NextMass(s, next, EM.Fuel(s)) == NextFuel(next)
  {
    hide EM.PcFuel;
  }

  lemma ResumedFuel(st: seq<E.Frame>, next: E.Next)
    requires st != [] && NextFuel(next) < EM.PcFuel(E.Top(st).pc)
    ensures StackFuel(st[..|st| - 1] + E.Resume(E.Top(st).scan, next)) < StackFuel(st)
  {
    hide EM.PcFuel, StackFuel;
    var pre, s := st[..|st| - 1], E.Top(st).scan;
    assert st == pre + [E.Top(st)];
    PushFuel(pre, E.Top(st));
    match next
    case Become(pc) => PushFuel(pre, E.Frame(s, pc));
    case Inline(rest, child) =>
      var a, b := E.Frame(s, E.Loop(rest)), E.Frame(s, E.Enter(child));
      assert pre + [a, b] == pre + [a] + [b];
      PushFuel(pre, a);
      PushFuel(pre + [a], b);
    case Return => assert pre + [] == pre;
  }

  lemma PcUsesFuel(v: E.View, f: E.Frame)
    ensures NextFuel(E.StepPc(v, f.scan, f.pc).1) < EM.PcFuel(f.pc)
  {
    hide E.StepPc, EM.PcFuel, NextFuel, EM.NextMass, EM.EffectMass;
    var step := E.StepPc(v, f.scan, f.pc);
    if f.pc.Enter? || f.pc.Scan? || f.pc.Loop? {
      EI.PcFuelEarly(v, f);
    } else if EI.PcTodoless(f.pc) {
      EI.PcFuelFinish(v, f);
    } else {
      EI.PcFuelSubmit(v, f);
    }
    NextMassIsFuel(f.scan, step.1);
  }

  lemma FuelUsed(e: E.Engine, w: nat)
    requires E.Enabled(e, E.Step(w))
    ensures StackFuel(E.Do(e, E.Step(w)).workers[w]) < StackFuel(e.workers[w])
  {
    hide E.StepPc, EM.PcFuel, StackFuel, NextFuel;
    var f := E.Top(e.workers[w]);
    var v := E.ViewOf(e, f.scan);
    PcUsesFuel(v, f);
    ResumedFuel(e.workers[w], E.StepPc(v, f.scan, f.pc).1);
  }

  // A worker short of the end of its call goes on, and leaves the flag alone.
  lemma GoesOn(e: E.Engine, w: nat)
    requires E.Enabled(e, E.Step(w)) && !E.Top(e.workers[w]).pc.Tail?
    ensures
      var e' := E.Do(e, E.Step(w));
      |e'.workers| == |e.workers| && e'.workers[w] != [] && e'.dispatchFailed == e.dispatchFailed
  {
    var f := E.Top(e.workers[w]);
    var step := E.StepPc(E.ViewOf(e, f.scan), f.scan, f.pc);
    PcGoesOn(E.ViewOf(e, f.scan), f.scan, f.pc);
    hide E.StepPc;
  }

  lemma PcGoesOn(v: E.View, s: nat, pc: E.Pc)
    requires !pc.Tail?
    ensures !E.StepPc(v, s, pc).1.Return? && !E.StepPc(v, s, pc).0.Unflag?
  {
  }

  lemma EngineOf(d: System)
    requires Inv(d)
    ensures EI.Inv(d.engine)
  {
    hide EI.Inv;
  }

  lemma {:induction false} BusyResumes(d: System, w: nat)
    requires Inv(d) && d.engine.dispatchFailed && w < |d.engine.workers| && d.engine.workers[w] != []
    ensures Resumable(d)
    decreases if w < |d.engine.workers| then StackFuel(d.engine.workers[w]) else 0
  {
    hide Inv, EI.Inv, Resumable, Enabled, E.Enabled, E.Do, StackFuel;
    EngineOf(d);
    ET.OpenIsEnabled(d.engine, w);
    T.WorkerNeverBlocked(d, w);
    var next := Do(d, WorkerStep(w));
    if E.Top(d.engine.workers[w]).pc.Tail? {
      ToldResumes(next);
    } else {
      DoKeeps(d, WorkerStep(w));
      GoesOn(d.engine, w);
      FuelUsed(d.engine, w);
      BusyResumes(next, w);
    }
    ResumeEarlier(d, WorkerStep(w));
  }

  lemma QueuedResumes(d: System)
    requires Inv(d) && d.engine.dispatchFailed && d.engine.queue != []
    requires |d.engine.workers| > 0 && d.engine.workers[0] == []
    ensures Resumable(d)
  {
    hide Inv, Resumable;
    DoKeeps(d, Pop(0));
    BusyResumes(Do(d, Pop(0)), 0);
    ResumeEarlier(d, Pop(0));
  }

  lemma WillResume(d: System)
    requires Inv(d) && WillBeTold(d)
    ensures Resumable(d)
  {
    hide Inv, Resumable;
    if d.available > 0 {
      ToldResumes(d);
    } else if w :| 0 <= w < |d.engine.workers| && d.engine.workers[w] != [] {
      BusyResumes(d, w);
    } else {
      QueuedResumes(d);
    }
  }

  // ----- in every run -----

  // The full flag is only up while the dispatcher is not asking.
  ghost predicate FullWaits(s: S.Sched) {
    s.managerFull ==> !s.disp.Calling?
  }

  lemma SchedulerFullWaits(s: S.Sched, a: S.Action)
    requires S.Enabled(s, a) && FullWaits(s)
    ensures FullWaits(S.Do(s, a))
  {
  }

  lemma DoFullWaits(d: System, a: Action)
    requires Enabled(d, a) && FullWaits(d.sched)
    ensures FullWaits(Do(d, a).sched)
  {
    hide S.Do, S.Enabled, E.Do, E.Enabled, FullWaits;
    match a
    case Sched(x) => SchedulerFullWaits(d.sched, x);
    case Available => AvailableEnabled(d.sched); SchedulerFullWaits(d.sched, S.Available);
    case Start(node) =>
    case Refuse => RefuseEnabled(d.sched); SchedulerFullWaits(d.sched, S.Fail);
    case Dispatch =>
      if Answers(d.engine) {
        RefuseEnabled(d.sched);
        SchedulerFullWaits(d.sched, if Accepts(d.engine) then S.Accept else S.Full);
      }
    case Pop(w) =>
    case WorkerStep(w) =>
      if Tells(d.engine, w) {
        SchedulerFullWaits(d.sched, S.Finished(E.Top(d.engine.workers[w]).scan));
      }
    case CancelCall(id) => SchedulerFullWaits(d.sched, S.CancelCall(id));
    case DispatcherCancel => CancelFullWaits(d);
    case Consume =>
    case ExportDone(id) => SchedulerFullWaits(d.sched, S.ExportDone(id));
  }

  lemma CancelFullWaits(d: System)
    requires Enabled(d, DispatcherCancel) && FullWaits(d.sched)
    ensures FullWaits(Do(d, DispatcherCancel).sched)
  {
    SchedulerFullWaits(d.sched, S.DispatcherCancel);
  }

  lemma {:induction false} RunFullWaits(d: System, run: seq<Action>)
    requires Legal(d, run) && FullWaits(d.sched)
    ensures FullWaits(After(d, run).sched)
    decreases |run|
  {
    if run != [] {
      hide FullWaits, Do, Enabled;
      var n := |run| - 1;
      RunFullWaits(d, run[..n]);
      DoFullWaits(After(d, run[..n]), run[n]);
    }
  }

  lemma StuckWhenFull(d: System)
    requires Inv(d) && FullWaits(d.sched) && d.sched.managerFull && !WillBeTold(d)
    ensures Stuck(d)
  {
    hide Parts, WillBeTold, AcceptLink, NotifyLink, CancelLink, RootLink, ExportLink, NeverFailed;
  }

  /**
   Exactly when a dispatcher that was told "queue full" can dispatch again: iff a worker has taken the dispatch_failed
   flag and is about to call, or the flag is up and some worker still has a job to finish. Otherwise the full flag stays
   up in every continuation, so that nothing is ever dispatched again.
   */
  lemma DispatcherResumesIff(maxConcurrent: nat, queueMax: nat, slots: nat, threads: nat, run: seq<Action>)
    requires maxConcurrent > 0 && queueMax > 0 && Legal(Init(maxConcurrent, queueMax, slots, threads), run)
    requires After(Init(maxConcurrent, queueMax, slots, threads), run).sched.managerFull
    ensures
      var d := After(Init(maxConcurrent, queueMax, slots, threads), run);
      && (Resumable(d) <==> WillBeTold(d))
      && (!WillBeTold(d) ==>
            forall more :: Legal(d, more) ==> !Enabled(After(d, more), Sched(S.Take)))
  {
    hide Inv, Legal, After, WillBeTold, Enabled;
    var d0 := Init(maxConcurrent, queueMax, slots, threads);
    var d := After(d0, run);
    Reachable(maxConcurrent, queueMax, slots, threads, run);
    RunFullWaits(d0, run);
    if WillBeTold(d) {
      WillResume(d);
    } else {
      StuckWhenFull(d);
      forall more | Legal(d, more) ensures Stuck(After(d, more)) && !Enabled(After(d, more), Sched(S.Take)) {
        StuckForever(d, more);
        NoTake(After(d, more));
      }
    }
  }

  lemma NoTake(d: System)
    requires Stuck(d)
    ensures !Enabled(d, Sched(S.Take))
  {
  }
}
