/** A cancel reaches the scan, and what it then does, in every run of the daemon. */
module DaemonCancel {
  import opened FileTree
  import opened Messages
  import opened Options
  import Serial
  import opened Daemon
  import opened DaemonInvariant
  import S = SchedulerModel
  import SP = SchedulerProofs
  import E = ScanEngine
  import EM = EngineMass
  import EI = EngineInvariant
  import ET = EngineTheorems
  import CF = CancelFlags
  import CE = CancelEffect

  // ----- the flag is set -----

  // The scan the dispatcher is busy with; a cancel of it may be passed on later.
  function Held(disp: S.Dispatcher): set<nat> {
    match disp
    case Waiting => {}
    case Calling(e) => {e.id}
    case Returned(e, _, _) => {e.id}
    case Canceling(id) => {id}
  }

  // A cancel that is still on its way to the manager.
  predicate UnderWay(s: S.Sched, id: nat) {
    id in s.cancelCalls || id in Held(s.disp)
  }

  predicate IsCanceled(s: S.Sched, id: nat) {
    id in s.state && s.state[id].CANCELED?
  }

  // Every canceled scan that the manager knows carries the flag, unless its cancel is still on its way.
  ghost predicate Arrived(d: System) {
    forall id :: IsCanceled(d.sched, id) && id in d.engine.registry && !UnderWay(d.sched, id) ==>
      id in d.engine.ctx && d.engine.ctx[id].canceled
  }

  // What a step of the scheduler alone can do to this.
  lemma SchedulerArrives(s: S.Sched, a: S.Action, id: nat)
    requires S.Enabled(s, a) && !a.CancelCall? && !a.DispatcherCancel?
    requires IsCanceled(S.Do(s, a), id) && !UnderWay(S.Do(s, a), id)
    ensures
      || (IsCanceled(s, id) && !UnderWay(s, id))
      || (a.Complete? && s.disp.Returned? && id == s.disp.entry.id && !s.disp.accept)
  {
  }

  lemma RefusedUnknown(d: System)
    requires Inv(d) && d.sched.disp.Returned? && !d.sched.disp.accept
    ensures d.sched.disp.entry.id !in d.engine.registry
  {
    hide EI.Inv, ET.LogOk, CF.Flags, Serial.OpenScansApart, NotifyLink, CancelLink, RootLink, ExportLink, RootsOf,
         NeverFailed, SP.QueueOk, SP.FrontOk, SP.WaitOk, SP.PendingOk, SP.CancelsOk, SP.RunningOk, SP.OrderOk,
         SP.LockOk;
    UnknownToEngine(d.engine, d.sched.accepted, d.sched.disp.entry.id);
  }

  lemma ArrivesScheduler(d: System, a: S.Action)
    requires Inv(d) && Arrived(d) && Enabled(d, Sched(a))
    ensures Arrived(Do(d, Sched(a)))
  {
    hide Inv, S.Do, S.Enabled;
    var d' := Do(d, Sched(a));
    forall id | IsCanceled(d'.sched, id) && id in d'.engine.registry && !UnderWay(d'.sched, id)
      ensures id in d'.engine.ctx && d'.engine.ctx[id].canceled
    {
      SchedulerArrives(d.sched, a, id);
      if d.sched.disp.Returned? && id == d.sched.disp.entry.id && !d.sched.disp.accept {
        RefusedUnknown(d);
      }
    }
  }

  // The registry only loses entries, and flags stay.
  ghost predicate Tame(e: E.Engine, e': E.Engine) {
    && e'.registry <= e.registry
    && forall id :: id in e'.registry && id in e.ctx && e.ctx[id].canceled ==> id in e'.ctx && e'.ctx[id].canceled
  }

  lemma CommitTame(e: E.Engine, w: nat, eff: E.Effect, next: E.Next)
    requires E.Enabled(e, E.Step(w))
    ensures Tame(e, E.Commit(e, w, eff, next))
  {
    EI.EffectOnContexts(e, E.Top(e.workers[w]).scan, eff, 0);
  }

  lemma WorkerTame(e: E.Engine, w: nat)
    requires E.Enabled(e, E.Step(w))
    ensures Tame(e, E.Do(e, E.Step(w)))
  {
    var f := E.Top(e.workers[w]);
    var step := E.StepPc(E.ViewOf(e, f.scan), f.scan, f.pc);
    hide E.StepPc, E.Commit, Tame;
    CommitTame(e, w, step.0, step.1);
  }

  lemma ArrivesWorker(d: System, w: nat)
    requires Arrived(d) && Enabled(d, WorkerStep(w))
    ensures Arrived(Do(d, WorkerStep(w)))
  {
    WorkerTame(d.engine, w);
    hide E.Do, S.Do, S.Enabled;
    var d' := Do(d, WorkerStep(w));
    forall id | IsCanceled(d'.sched, id) && id in d'.engine.registry && !UnderWay(d'.sched, id)
      ensures id in d'.engine.ctx && d'.engine.ctx[id].canceled
    {
      if Tells(d.engine, w) {
        SchedulerArrives(d.sched, S.Finished(E.Top(d.engine.workers[w]).scan), id);
      }
    }
  }

  lemma ArrivesDispatch(d: System)
    requires Inv(d) && Arrived(d) && Enabled(d, Dispatch)
    ensures Arrived(Do(d, Dispatch))
  {
    hide EI.Inv, SP.Inv, ET.LogOk, CF.Flags, Serial.OpenScansApart, AcceptLink, NotifyLink, CancelLink, RootLink,
         ExportLink, RootsOf, NeverFailed;
    var k := d.engine.call.scan;
    var d' := Do(d, Dispatch);
    assert k in Held(d.sched.disp);
    forall id | IsCanceled(d'.sched, id) && id in d'.engine.registry && !UnderWay(d'.sched, id)
      ensures id in d'.engine.ctx && d'.engine.ctx[id].canceled
    {
      assert id != k;
    }
  }

  lemma ArrivesStart(d: System, node: Node)
    requires Arrived(d) && Enabled(d, Start(node))
    ensures Arrived(Do(d, Start(node)))
  {
  }

  lemma ArrivesCall(d: System, a: Action)
    requires Inv(d) && Arrived(d) && Enabled(d, a) && (a.CancelCall? || a.DispatcherCancel?)
    ensures Arrived(Do(d, a))
  {
    hide Inv, EI.Inv;
    EngineOf(d);
    RegisteredHasContext(d.engine);
  }

  lemma RegisteredHasContext(e: E.Engine)
    requires EI.Inv(e)
    ensures forall id :: id in e.registry ==> id in e.ctx
  {
    forall id | id in e.registry ensures id in e.ctx {
      assert EM.Balanced(e, EM.Reg(id));
    }
  }

  lemma ArrivesOther(d: System, a: Action)
    requires Arrived(d) && Enabled(d, a) && (a.Available? || a.Pop? || a.Consume? || a.ExportDone?)
    ensures Arrived(Do(d, a))
  {
  }

  lemma DoArrives(d: System, a: Action)
    requires Inv(d) && Arrived(d) && Enabled(d, a)
    ensures Arrived(Do(d, a))
  {
    hide Inv, Arrived, Do;
    if a.Sched? {
      ArrivesScheduler(d, a.a);
    } else if a.WorkerStep? {
      ArrivesWorker(d, a.w);
    } else if a.Dispatch? {
      ArrivesDispatch(d);
    } else if a.Start? {
      ArrivesStart(d, a.node);
    } else if a.CancelCall? || a.DispatcherCancel? {
      ArrivesCall(d, a);
    } else if a.Refuse? {
      RefuseImpossible(d);
    } else {
      ArrivesOther(d, a);
    }
  }

  lemma {:induction false} RunArrives(d: System, run: seq<Action>)
    requires Inv(d) && Arrived(d) && Legal(d, run)
    ensures Arrived(After(d, run))
    decreases |run|
  {
    if run != [] {
      hide Inv, Arrived, Do, Enabled;
      var n := |run| - 1;
      RunArrives(d, run[..n]);
      RunKeeps(d, run[..n]);
      DoArrives(After(d, run[..n]), run[n]);
    }
  }

  /**
   A cancel arrives: in every run a CANCELED scan that is registered in the manager carries the canceled flag, unless
   its cancel is still on its way, in a cancelling thread or in the dispatcher.
   */
  lemma CancelArrives(maxConcurrent: nat, queueMax: nat, slots: nat, threads: nat, run: seq<Action>, id: nat)
    requires maxConcurrent > 0 && queueMax > 0 && Legal(Init(maxConcurrent, queueMax, slots, threads), run)
    ensures
      var d := After(Init(maxConcurrent, queueMax, slots, threads), run);
      IsCanceled(d.sched, id) && id in d.engine.registry && !UnderWay(d.sched, id) ==>
        id in d.engine.ctx && d.engine.ctx[id].canceled
  {
    hide Inv, Legal, After, UnderWay;
    InitInv(maxConcurrent, queueMax, slots, threads);
    RunArrives(Init(maxConcurrent, queueMax, slots, threads), run);
  }

  // ----- the engine's part of a step -----

  function EngineAction(d: System, a: Action): Option<E.Action>
    requires Enabled(d, a)
  {
    match a
    case Start(node) => Some(RootAction(d.sched.disp.entry, node))
    case Dispatch => Some(E.RootStep)
    case Pop(w) => Some(E.Pop(w))
    case WorkerStep(w) => Some(E.Step(w))
    case CancelCall(id) => Some(E.Cancel(id))
    case DispatcherCancel => Some(E.Cancel(d.sched.disp.id))
    case _ => None
  }

  lemma EngineMoves(d: System, a: Action)
    requires Enabled(d, a)
    ensures
      var move := EngineAction(d, a);
      if move.None? then Do(d, a).engine == d.engine
      else E.Enabled(d.engine, move.value) && Do(d, a).engine == E.Do(d.engine, move.value)
  {
    hide E.Do, S.Do;
  }

  lemma DoomedStep(d: System, a: Action, id: nat)
    requires Inv(d) && Enabled(d, a) && CE.Doomed(d.engine, id)
    ensures CE.Doomed(Do(d, a).engine, id)
  {
    hide Inv, CE.Doomed, E.Do, EI.Inv, Do, Enabled, E.Enabled;
    EngineMoves(d, a);
    EngineOf(d);
    var move := EngineAction(d, a);
    if move.Some? {
      CE.DoDoomed(d.engine, move.value, id);
    }
  }

  lemma EngineOf(d: System)
    requires Inv(d)
    ensures EI.Inv(d.engine)
  {
    hide EI.Inv;
  }

  lemma {:induction false} DoomedForever(d: System, run: seq<Action>, id: nat)
    requires Inv(d) && Legal(d, run) && CE.Doomed(d.engine, id)
    ensures CE.Doomed(After(d, run).engine, id)
    decreases |run|
  {
    if run != [] {
      hide Inv, CE.Doomed, Do, Enabled;
      var n := |run| - 1;
      DoomedForever(d, run[..n], id);
      RunKeeps(d, run[..n]);
      DoomedStep(After(d, run[..n]), run[n], id);
    }
  }

  /**
   A cancel in time is final: when the flag of an accepted scan is set while it has jobs left, its sentinel is marked
   canceled in every continuation.
   */
  lemma EarlyCancelIsExported(maxConcurrent: nat, queueMax: nat, slots: nat, threads: nat, run: seq<Action>,
                              id: nat, more: seq<Action>, i: nat)
    requires maxConcurrent > 0 && queueMax > 0 && Legal(Init(maxConcurrent, queueMax, slots, threads), run)
    requires
      var d := After(Init(maxConcurrent, queueMax, slots, threads), run);
      && CE.FlagSet(d.engine, id) && d.engine.ctx[id].unfinished > 0 && Legal(d, more)
      && var log := After(d, more).engine.log;
      i < |log| && log[i].Sentinel? && log[i].scan == id
    ensures
      var d := After(Init(maxConcurrent, queueMax, slots, threads), run);
      After(d, more).engine.log[i].canceled
  {
    hide Inv, Legal, After, EI.Inv;
    var d := After(Init(maxConcurrent, queueMax, slots, threads), run);
    Reachable(maxConcurrent, queueMax, slots, threads, run);
    EngineOf(d);
    CE.EarlyFlagDooms(d.engine, id);
    DoomedForever(d, more, id);
  }

  // The call that Scheduler::cancel makes sets the flag of a scan that still has jobs left.
  lemma CancelCallSetsFlag(d: System, id: nat)
    requires Inv(d) && Enabled(d, CancelCall(id)) && id in d.engine.ctx && d.engine.ctx[id].accepted
    requires d.engine.ctx[id].unfinished > 0
    ensures CE.FlagSet(Do(d, CancelCall(id)).engine, id)
  {
    hide Inv, EI.Inv;
    EngineOf(d);
    StillRegistered(d.engine, id);
  }

  lemma StillRegistered(e: E.Engine, id: nat)
    requires EI.Inv(e) && id in e.ctx && e.ctx[id].unfinished > 0
    ensures id in e.registry
  {
    assert EM.Balanced(e, EM.Reg(id));
  }

  lemma FrozenStep(d: System, a: Action, id: nat)
    requires Inv(d) && Enabled(d, a) && CE.Unregistered(d.engine, id)
    ensures CE.Unregistered(Do(d, a).engine, id)
    ensures Do(d, a).engine.ctx[id].canceled == d.engine.ctx[id].canceled
  {
    hide Inv, E.Do, EI.Inv, Do, Enabled, E.Enabled;
    EngineMoves(d, a);
    EngineOf(d);
    var move := EngineAction(d, a);
    if move.Some? {
      CE.FlagFrozen(d.engine, move.value, id);
    }
  }

  lemma {:induction false} FrozenRun(d: System, run: seq<Action>, id: nat)
    requires Inv(d) && Legal(d, run) && CE.Unregistered(d.engine, id)
    ensures CE.Unregistered(After(d, run).engine, id)
    ensures After(d, run).engine.ctx[id].canceled == d.engine.ctx[id].canceled
    decreases |run|
  {
    if run != [] {
      hide Inv, Do, Enabled;
      var n := |run| - 1;
      FrozenRun(d, run[..n], id);
      RunKeeps(d, run[..n]);
      FrozenStep(After(d, run[..n]), run[n], id);
    }
  }

  /** A cancel too late changes nothing: once an accepted scan has left the registry its flag stays as it is. */
  lemma LateCancelIgnored(maxConcurrent: nat, queueMax: nat, slots: nat, threads: nat, run: seq<Action>,
                          id: nat, more: seq<Action>)
    requires maxConcurrent > 0 && queueMax > 0 && Legal(Init(maxConcurrent, queueMax, slots, threads), run)
    requires
      var d := After(Init(maxConcurrent, queueMax, slots, threads), run);
      CE.Unregistered(d.engine, id) && Legal(d, more)
    ensures
      var d := After(Init(maxConcurrent, queueMax, slots, threads), run);
      var e' := After(d, more).engine;
      id in e'.ctx && id !in e'.registry && e'.ctx[id].canceled == d.engine.ctx[id].canceled
  {
    hide Inv, Legal, After;
    Reachable(maxConcurrent, queueMax, slots, threads, run);
    FrozenRun(After(Init(maxConcurrent, queueMax, slots, threads), run), more, id);
  }

  lemma StopsStep(d: System, a: Action, id: nat, inLoop: bool)
    requires Inv(d) && Enabled(d, a) && CE.FlagSet(d.engine, id)
    ensures
      var e, e' := d.engine, Do(d, a).engine;
      && CE.FlagSet(e', id)
      && CE.Done(e', id, inLoop) + CE.Past(e'.workers, id, inLoop)
         <= CE.Done(e, id, inLoop) + CE.Past(e.workers, id, inLoop)
  {
    hide Inv, CE.FlagSet, CE.Done, CE.Past, E.Do, EI.Inv, Do, Enabled, E.Enabled;
    EngineMoves(d, a);
    EngineOf(d);
    var move := EngineAction(d, a);
    if move.Some? {
      CE.FlagStays(d.engine, move.value, id);
      CE.DoStops(d.engine, move.value, id, inLoop);
    }
  }

  lemma {:induction false} StopsRun(d: System, run: seq<Action>, id: nat, inLoop: bool)
    requires Inv(d) && Legal(d, run) && CE.FlagSet(d.engine, id)
    ensures
      var e, e' := d.engine, After(d, run).engine;
      && CE.FlagSet(e', id)
      && CE.Done(e', id, inLoop) + CE.Past(e'.workers, id, inLoop)
         <= CE.Done(e, id, inLoop) + CE.Past(e.workers, id, inLoop)
    decreases |run|
  {
    if run != [] {
      hide Inv, CE.FlagSet, CE.Done, CE.Past, Do, Enabled;
      var n := |run| - 1;
      StopsRun(d, run[..n], id, inLoop);
      RunKeeps(d, run[..n]);
      StopsStep(After(d, run[..n]), run[n], id, inLoop);
    }
  }

  /**
   A cancel stops the walk: once the flag is set, only calls already past the test at their start report another node,
   and only calls already past the test in their loop queue another job.
   */
  lemma CancelStopsWalk(maxConcurrent: nat, queueMax: nat, slots: nat, threads: nat, run: seq<Action>,
                        id: nat, more: seq<Action>)
    requires maxConcurrent > 0 && queueMax > 0 && Legal(Init(maxConcurrent, queueMax, slots, threads), run)
    requires
      var d := After(Init(maxConcurrent, queueMax, slots, threads), run);
      CE.FlagSet(d.engine, id) && Legal(d, more)
    ensures
      var d := After(Init(maxConcurrent, queueMax, slots, threads), run);
      var e, e' := d.engine, After(d, more).engine;
      && |EventsOf(e'.log, id)| <= |EventsOf(e.log, id)| + CE.Past(e.workers, id, false)
      && ET.QueuedJobs(e'.queue, id) <= ET.QueuedJobs(e.queue, id) + CE.Past(e.workers, id, true)
  {
    hide Inv, Legal, After, CE.FlagSet, CE.Past, EventsOf, ET.QueuedJobs;
    var d := After(Init(maxConcurrent, queueMax, slots, threads), run);
    Reachable(maxConcurrent, queueMax, slots, threads, run);
    StopsRun(d, more, id, false);
    StopsRun(d, more, id, true);
  }
}
