/** How the parts of the daemon agree with each other, in every reachable state. */
module DaemonInvariant {
  import opened Paths
  import opened FileTree
  import opened Messages
  import opened Serial
  import opened Daemon
  import S = SchedulerModel
  import SP = SchedulerProofs
  import E = ScanEngine
  import EM = EngineMass
  import EI = EngineInvariant
  import ET = EngineTheorems
  import CF = CancelFlags

  type Contexts = map<nat, E.Ctx>

  // The engine is inside start_new_scan only for the entry being dispatched.
  ghost predicate CallLink(d: S.Dispatcher, call: E.Call) {
    !call.NoCall? ==> d.Calling? && d.entry == S.PendingRoot(call.scan, call.work.path)
  }

  ghost predicate AcceptLink(accepted: set<nat>, ctx: Contexts) {
    forall s :: s in accepted <==> s in ctx && ctx[s].accepted
  }

  ghost predicate NotifyLink(notified: set<nat>, notifies: seq<nat>) {
    forall s: nat :: s in notified <==> EM.CountNotify(notifies, s) > 0
  }

  ghost predicate CancelLink(state: SP.States, ctx: Contexts) {
    forall s :: s in ctx && ctx[s].canceled ==> s in state && state[s].CANCELED?
  }

  // Every context belongs to a submission, and its tree is a directory tree at the submitted root.
  ghost predicate RootLink(entries: seq<S.PendingRoot>, ctx: Contexts) {
    forall s :: s in ctx ==> S.PendingRoot(s, ctx[s].root.path) in entries && WellFormed(ctx[s].root.node)
  }

  ghost predicate ExportLink(exported: set<nat>, log: seq<Msg>, consumed: nat) {
    consumed <= |log| && forall s :: s in exported ==> Closed(log[..consumed], s)
  }

  // start_new_scan never refuses for any reason but a full queue.
  ghost predicate NeverFailed(state: SP.States, d: S.Dispatcher) {
    && (forall s :: s in state ==> !state[s].FAILED?)
    && (d.Returned? && !d.accept ==> d.full)
  }

  // The roots of the scans the manager has accepted.
  function RootsOf(ctx: Contexts): Roots {
    map s | s in ctx && ctx[s].accepted :: ctx[s].root.path
  }

  ghost predicate Links(d: System) {
    && CallLink(d.sched.disp, d.engine.call)
    && AcceptLink(d.sched.accepted, d.engine.ctx)
    && NotifyLink(d.sched.notified, d.engine.notifies)
    && CancelLink(d.sched.state, d.engine.ctx)
    && RootLink(d.sched.entries, d.engine.ctx)
    && ExportLink(d.sched.exported, d.engine.log, d.consumed)
    && NeverFailed(d.sched.state, d.sched.disp)
    && OpenScansApart(d.engine.log, RootsOf(d.engine.ctx))
  }

  ghost predicate Parts(d: System) {
    SP.Inv(d.sched) && EI.Inv(d.engine) && ET.LogOk(d.engine) && CF.Flags(d.engine)
  }

  ghost predicate Inv(d: System) {
    Parts(d) && Links(d)
  }

  // ----- the parts keep their own invariants -----

  lemma SchedStep(s: S.Sched, a: S.Action)
    requires SP.Inv(s) && S.Enabled(s, a)
    ensures SP.Inv(S.Do(s, a))
  {
    SP.DoKeeps(s, a);
  }

  lemma EngineStep(e: E.Engine, a: E.Action)
    requires EI.Inv(e) && ET.LogOk(e) && E.Enabled(e, a)
    ensures EI.Inv(E.Do(e, a)) && ET.LogOk(E.Do(e, a))
    ensures CF.Flags(e) ==> CF.Flags(E.Do(e, a))
  {
    hide EI.Inv, ET.LogOk, CF.Flags, E.Do;
    EI.DoKeepsInv(e, a);
    ET.DoKeepsLog(e, a);
    if CF.Flags(e) {
      CF.DoKeepsFlags(e, a);
    }
  }

  lemma PartsKept(d: System, a: Action)
    requires Parts(d) && Enabled(d, a)
    ensures Parts(Do(d, a))
  {
    hide SP.Inv, EI.Inv, ET.LogOk, CF.Flags, E.Do, S.Do, E.Enabled, S.Enabled;
    match a
    case Sched(x) => SchedStep(d.sched, x);
    case Available => AvailableEnabled(d.sched); SchedStep(d.sched, S.Available);
    case Start(node) => EngineStep(d.engine, RootAction(d.sched.disp.entry, node));
    case Refuse => RefuseEnabled(d.sched); SchedStep(d.sched, S.Fail);
    case Dispatch =>
      EngineStep(d.engine, E.RootStep);
      if Answers(d.engine) {
        RefuseEnabled(d.sched);
        SchedStep(d.sched, if Accepts(d.engine) then S.Accept else S.Full);
      }
    case Pop(w) => EngineStep(d.engine, E.Pop(w));
    case WorkerStep(w) =>
      EngineStep(d.engine, E.Step(w));
      if Tells(d.engine, w) {
        SchedStep(d.sched, S.Finished(E.Top(d.engine.workers[w]).scan));
      }
    case CancelCall(id) =>
      SchedStep(d.sched, S.CancelCall(id));
      CancelEnabled(d.engine, id);
      EngineStep(d.engine, E.Cancel(id));
    case DispatcherCancel => DispatcherParts(d);
    case Consume =>
    case ExportDone(id) => SchedStep(d.sched, S.ExportDone(id));
  }

  lemma AvailableEnabled(s: S.Sched)
    ensures S.Enabled(s, S.Available) && S.Do(s, S.Available) == s.(managerFull := false)
  {
  }

  lemma RefuseEnabled(s: S.Sched)
    requires s.disp.Calling?
    ensures S.Enabled(s, S.Fail) && S.Enabled(s, S.Full) && S.Enabled(s, S.Accept)
  {
  }

  lemma CancelEnabled(e: E.Engine, id: nat)
    ensures E.Enabled(e, E.Cancel(id))
  {
  }

  lemma DispatcherParts(d: System)
    requires Parts(d) && Enabled(d, DispatcherCancel)
    ensures Parts(Do(d, DispatcherCancel))
  {
    hide SP.Inv, EI.Inv, ET.LogOk, CF.Flags, E.Do, S.Do;
    SchedStep(d.sched, S.DispatcherCancel);
    EngineStep(d.engine, E.Cancel(d.sched.disp.id));
  }

  // ----- a worker's step -----

  ghost predicate SameContexts(c: Contexts, c': Contexts) {
    && c'.Keys == c.Keys
    && forall s :: s in c ==>
         c'[s].root == c[s].root && c'[s].accepted == c[s].accepted && c'[s].canceled == c[s].canceled
  }

  // What a worker's step may append to the result queue.
  ghost predicate Grows(log: seq<Msg>, log': seq<Msg>, s: nat) {
    log' == log || (|log'| == |log| + 1 && log'[..|log|] == log && log'[|log|].scan == s)
  }

  lemma CommitFrame(e: E.Engine, w: nat, eff: E.Effect, next: E.Next)
    requires E.Enabled(e, E.Step(w))
    requires eff.Emit? ==> eff.msg.scan == E.Top(e.workers[w]).scan
    ensures
      var e', s := E.Commit(e, w, eff, next), E.Top(e.workers[w]).scan;
      && e'.call == e.call && SameContexts(e.ctx, e'.ctx) && Grows(e.log, e'.log, s)
      && e'.notifies == if eff.Tell? then e.notifies + [s] else e.notifies
  {
    EI.EffectOnContexts(e, E.Top(e.workers[w]).scan, eff, 0);
  }

  lemma WorkerFrame(e: E.Engine, w: nat)
    requires E.Enabled(e, E.Step(w))
    ensures
      var e', s := E.Do(e, E.Step(w)), E.Top(e.workers[w]).scan;
      && e'.call == e.call && SameContexts(e.ctx, e'.ctx) && Grows(e.log, e'.log, s)
      && e'.notifies == if Tells(e, w) then e.notifies + [s] else e.notifies
  {
    var f := E.Top(e.workers[w]);
    var step := E.StepPc(E.ViewOf(e, f.scan), f.scan, f.pc);
    PcFrame(E.ViewOf(e, f.scan), f.scan, f.pc);
    hide E.Commit, E.StepPc;
    CommitFrame(e, w, step.0, step.1);
  }

  lemma PcFrame(v: E.View, s: nat, pc: E.Pc)
    ensures
      var eff := E.StepPc(v, s, pc).0;
      (eff.Tell? <==> pc.NotifyFinished?) && (eff.Emit? ==> eff.msg.scan == s)
  {
  }

  lemma SameRoots(c: Contexts, c': Contexts)
    requires SameContexts(c, c')
    ensures RootsOf(c') == RootsOf(c)
  {
  }

  // notify_scan_finished is called for an accepted scan that was not reported before.
  lemma TellsOnce(e: E.Engine, w: nat)
    requires EI.Inv(e) && E.Enabled(e, E.Step(w)) && Tells(e, w)
    ensures
      var s := E.Top(e.workers[w]).scan;
      s in e.ctx && e.ctx[s].accepted && EM.CountNotify(e.notifies, s) == 0
  {
    var f := E.Top(e.workers[w]);
    EI.FrameFacts(e, w);
    var r := EI.Exchange(e.workers, w, E.Return, EM.Notify(f.scan));
    assert EM.Balanced(e, EM.Notify(f.scan));
  }

  // A worker pushes messages only for an accepted scan whose sentinel is not out.
  lemma PushesOpen(e: E.Engine, w: nat)
    requires EI.Inv(e) && ET.LogOk(e) && E.Enabled(e, E.Step(w))
    ensures
      var e', s := E.Do(e, E.Step(w)), E.Top(e.workers[w]).scan;
      s in e.ctx && e.ctx[s].accepted && (e'.log != e.log ==> !Closed(e.log, s))
  {
    var e', s := E.Do(e, E.Step(w)), E.Top(e.workers[w]).scan;
    EI.FrameFacts(e, w);
    EngineStep(e, E.Step(w));
    WorkerFrame(e, w);
    hide E.Do;
    if e'.log != e.log && Closed(e.log, s) {
      LastAfterClosed(e'.log, |e.log|);
    }
  }

  lemma LastAfterClosed(log: seq<Msg>, n: nat)
    requires SentinelsLast(log) && n < |log|
    ensures !Closed(log[..n], log[n].scan)
  {
  }

  // ----- scans sharing the result queue -----

  // Two submissions whose export is not done do not overlap.
  lemma LockedApart(s: S.Sched, a: S.PendingRoot, b: S.PendingRoot)
    requires SP.LockOk(s.entries, s.exported, s.roots)
    requires a in s.entries && b in s.entries && a.id != b.id
    requires a.id !in s.exported && b.id !in s.exported
    ensures !PathsOverlap(a.root, b.root)
  {
    var i :| 0 <= i < |s.entries| && s.entries[i] == a;
    var j :| 0 <= j < |s.entries| && s.entries[j] == b;
    OverlapSymmetric(a.root, b.root);
  }

  lemma ClosedLonger(log: seq<Msg>, n: nat, s: nat)
    requires n <= |log| && Closed(log[..n], s)
    ensures Closed(log, s)
  {
    var i :| 0 <= i < n && log[..n][i].Sentinel? && log[..n][i].scan == s;
    assert log[i].Sentinel? && log[i].scan == s;
  }

  // A new message of an open scan is apart from every other open scan.
  lemma NewMessageApart(s: S.Sched, ctx: Contexts, log: seq<Msg>, consumed: nat, x: nat, y: nat)
    requires SP.LockOk(s.entries, s.exported, s.roots) && RootLink(s.entries, ctx)
    requires ExportLink(s.exported, log, consumed)
    requires x != y && x in ctx && y in ctx && !Closed(log, x) && !Closed(log, y)
    ensures !PathsOverlap(ctx[x].root.path, ctx[y].root.path)
  {
    if x in s.exported {
      ClosedLonger(log, consumed, x);
    }
    if y in s.exported {
      ClosedLonger(log, consumed, y);
    }
    LockedApart(s, S.PendingRoot(x, ctx[x].root.path), S.PendingRoot(y, ctx[y].root.path));
  }

  lemma ApartMoreRoots(log: seq<Msg>, roots: Roots, roots': Roots)
    requires OpenScansApart(log, roots)
    requires forall s :: s in roots ==> s in roots' && roots'[s] == roots[s]
    ensures OpenScansApart(log, roots')
  {
    forall i, j | 0 <= i < j < |log| && log[i].scan != log[j].scan && !Closed(log[..j], log[i].scan)
      ensures Apart(log[i], log[j], roots')
    {
      assert Apart(log[i], log[j], roots);
    }
  }

  // Every message belongs to an accepted scan.
  ghost predicate FromAccepted(log: seq<Msg>, ctx: Contexts) {
    forall i :: 0 <= i < |log| ==> log[i].scan in ctx && ctx[log[i].scan].accepted
  }

  // Scan s overlaps no other open scan in the queue.
  ghost predicate ApartFromOpen(log: seq<Msg>, roots: Roots, s: nat) {
    forall i :: 0 <= i < |log| && log[i].scan != s && !Closed(log, log[i].scan) ==>
      log[i].scan in roots && s in roots && !PathsOverlap(roots[log[i].scan], roots[s])
  }

  lemma OpenScanApart(s: S.Sched, ctx: Contexts, log: seq<Msg>, consumed: nat, x: nat)
    requires SP.LockOk(s.entries, s.exported, s.roots) && RootLink(s.entries, ctx)
    requires ExportLink(s.exported, log, consumed) && FromAccepted(log, ctx)
    requires x in ctx && ctx[x].accepted && !Closed(log, x)
    ensures ApartFromOpen(log, RootsOf(ctx), x)
  {
    hide SP.LockOk, RootLink, ExportLink, PathsOverlap;
    forall i | 0 <= i < |log| && log[i].scan != x && !Closed(log, log[i].scan)
      ensures !PathsOverlap(ctx[log[i].scan].root.path, ctx[x].root.path)
    {
      NewMessageApart(s, ctx, log, consumed, log[i].scan, x);
    }
  }

  lemma ApartGrows(log: seq<Msg>, log': seq<Msg>, roots: Roots, s: nat)
    requires OpenScansApart(log, roots) && Grows(log, log', s)
    requires log' != log ==> ApartFromOpen(log, roots, s)
    ensures OpenScansApart(log', roots)
  {
    if log' != log {
      var n := |log|;
      forall i, j | 0 <= i < j < |log'| && log'[i].scan != log'[j].scan && !Closed(log'[..j], log'[i].scan)
        ensures Apart(log'[i], log'[j], roots)
      {
        assert log'[i] == log'[..n][i];
        if j < n {
          assert log'[j] == log'[..n][j] && log'[..j] == log'[..n][..j];
        }
      }
    }
  }

  lemma LockOf(s: S.Sched)
    requires SP.Inv(s)
    ensures SP.LockOk(s.entries, s.exported, s.roots)
  {
  }

  lemma AcceptedOf(e: E.Engine)
    requires ET.LogOk(e)
    ensures FromAccepted(e.log, e.ctx)
  {
  }

  lemma WorkerApart(d: System, w: nat)
    requires Inv(d) && E.Enabled(d.engine, E.Step(w))
    ensures
      var e' := E.Do(d.engine, E.Step(w));
      OpenScansApart(e'.log, RootsOf(e'.ctx))
  {
    hide EI.Inv, SP.Inv, ET.LogOk, CF.Flags, E.Do, OpenScansApart, SP.LockOk, RootLink, ExportLink, CallLink,
         AcceptLink, NotifyLink, CancelLink, NeverFailed, FromAccepted, ApartFromOpen, SameContexts, RootsOf, Closed;
    var e, s := d.engine, E.Top(d.engine.workers[w]).scan;
    var e' := E.Do(e, E.Step(w));
    WorkerFrame(e, w);
    SameRoots(e.ctx, e'.ctx);
    PushesOpen(e, w);
    if e'.log != e.log {
      LockOf(d.sched);
      AcceptedOf(e);
      OpenScanApart(d.sched, e.ctx, e.log, d.consumed, s);
      ApartGrows(e.log, e'.log, RootsOf(e.ctx), s);
    }
  }

  // ----- each link under the changes it sees -----

  // Canceled scans stay canceled and no scan becomes FAILED.
  ghost predicate StateMoves(state: SP.States, state': SP.States) {
    && (forall s :: s in state && state[s].CANCELED? ==> s in state' && state'[s].CANCELED?)
    && (forall s :: s in state' && state'[s].FAILED? ==> s in state && state[s].FAILED?)
  }

  lemma AcceptKept(accepted: set<nat>, c: Contexts, c': Contexts)
    requires AcceptLink(accepted, c) && SameContexts(c, c')
    ensures AcceptLink(accepted, c')
  {
  }

  lemma CancelKept(state: SP.States, state': SP.States, c: Contexts, c': Contexts)
    requires CancelLink(state, c) && StateMoves(state, state') && SameContexts(c, c')
    ensures CancelLink(state', c')
  {
  }

  lemma RootKept(entries: seq<S.PendingRoot>, entries': seq<S.PendingRoot>, c: Contexts, c': Contexts)
    requires RootLink(entries, c) && entries <= entries' && SameContexts(c, c')
    ensures RootLink(entries', c')
  {
    forall s | s in c' ensures S.PendingRoot(s, c'[s].root.path) in entries' && WellFormed(c'[s].root.node) {
      var i :| 0 <= i < |entries| && entries[i] == S.PendingRoot(s, c[s].root.path);
      assert entries'[i] == entries[i];
    }
  }

  lemma NotifyAdds(notified: set<nat>, notifies: seq<nat>, s: nat)
    requires NotifyLink(notified, notifies)
    ensures NotifyLink(notified + {s}, notifies + [s])
  {
    forall x: nat ensures EM.CountNotify(notifies + [s], x) == EM.CountNotify(notifies, x) + (if s == x then 1 else 0) {
      EM.CountNotifyPush(notifies, s, x);
    }
  }

  lemma ExportKept(exported: set<nat>, log: seq<Msg>, log': seq<Msg>, consumed: nat, s: nat)
    requires ExportLink(exported, log, consumed) && Grows(log, log', s)
    ensures ExportLink(exported, log', consumed)
  {
    assert log'[..consumed] == log[..consumed];
  }

  // ----- every step keeps the links -----

  lemma FinishedFrame(s: S.Sched, id: nat)
    requires S.Enabled(s, S.Finished(id))
    ensures
      var s' := S.Do(s, S.Finished(id));
      && s'.disp == s.disp && s'.accepted == s.accepted && s'.exported == s.exported && s'.entries == s.entries
      && s'.notified == s.notified + {id} && StateMoves(s.state, s'.state)
  {
  }

  lemma ToldFrame(d: System, w: nat)
    requires Enabled(d, WorkerStep(w))
    ensures
      var s, s' := d.sched, Told(d, w);
      && s'.disp == s.disp && s'.accepted == s.accepted && s'.exported == s.exported && s'.entries == s.entries
      && s'.notified == (if Tells(d.engine, w) then s.notified + {E.Top(d.engine.workers[w]).scan} else s.notified)
      && StateMoves(s.state, s'.state)
  {
    hide S.Do, S.Enabled;
    if Tells(d.engine, w) {
      FinishedFrame(d.sched, E.Top(d.engine.workers[w]).scan);
    }
  }

  lemma LinksWorker(d: System, w: nat)
    requires Inv(d) && Enabled(d, WorkerStep(w))
    ensures Links(Do(d, WorkerStep(w)))
  {
    hide EI.Inv, SP.Inv, ET.LogOk, CF.Flags, E.Do, S.Do, OpenScansApart, SameContexts, Grows, Told,
         AcceptLink, NotifyLink, CancelLink, RootLink, ExportLink, RootsOf, StateMoves;
    WorkerApart(d, w);
    var e, s := d.engine, E.Top(d.engine.workers[w]).scan;
    var e', t' := E.Do(e, E.Step(w)), Told(d, w);
    WorkerFrame(e, w);
    ToldFrame(d, w);
    AcceptKept(d.sched.accepted, e.ctx, e'.ctx);
    CancelKept(d.sched.state, t'.state, e.ctx, e'.ctx);
    RootKept(d.sched.entries, t'.entries, e.ctx, e'.ctx);
    ExportKept(d.sched.exported, e.log, e'.log, d.consumed, s);
    NeverFailedKept(d.sched.state, t'.state, t'.disp);
    NotifyAdds(d.sched.notified, e.notifies, s);
  }

  lemma NeverFailedKept(state: SP.States, state': SP.States, disp: S.Dispatcher)
    requires NeverFailed(state, disp) && StateMoves(state, state')
    ensures NeverFailed(state', disp)
  {
  }

  lemma SchedulerFrame(s: S.Sched, a: S.Action)
    requires SchedulerOnly(a) && S.Enabled(s, a) && NeverFailed(s.state, s.disp)
    ensures
      var s' := S.Do(s, a);
      && s'.accepted == s.accepted && s'.notified == s.notified && s'.exported == s.exported
      && s.entries <= s'.entries && (s.disp.Calling? ==> s'.disp == s.disp)
      && StateMoves(s.state, s'.state) && NeverFailed(s'.state, s'.disp)
  {
  }

  lemma SameContextsReflexive(c: Contexts)
    ensures SameContexts(c, c)
  {
  }

  lemma LinksScheduler(d: System, a: S.Action)
    requires Links(d) && Enabled(d, Sched(a))
    ensures Links(Do(d, Sched(a)))
  {
    hide S.Do, OpenScansApart, SameContexts, AcceptLink, NotifyLink, CancelLink, RootLink, ExportLink, RootsOf,
         StateMoves, NeverFailed;
    var s', c := S.Do(d.sched, a), d.engine.ctx;
    SchedulerFrame(d.sched, a);
    SameContextsReflexive(c);
    CancelKept(d.sched.state, s'.state, c, c);
    RootKept(d.sched.entries, s'.entries, c, c);
  }

  lemma LinksAvailable(d: System)
    requires Links(d) && Enabled(d, Available)
    ensures Links(Do(d, Available))
  {
    hide S.Do, OpenScansApart, AcceptLink, NotifyLink, CancelLink, RootLink, ExportLink, RootsOf, NeverFailed, CallLink;
    AvailableEnabled(d.sched);
  }

  lemma DispatchedIsEntry(s: S.Sched)
    requires SP.Inv(s) && s.disp.Calling?
    ensures s.disp.entry in s.entries && s.disp.entry.id !in s.accepted && s.disp.entry.id > 0
  {
    hide SP.WaitOk, SP.PendingOk, SP.CancelsOk, SP.RunningOk, SP.OrderOk, SP.LockOk;
    SP.FrontInEntries(s.entries, s.queue, s.state, 0);
  }

  lemma StartedContexts(accepted: set<nat>, entries: seq<S.PendingRoot>, state: SP.States, c: Contexts, s: nat,
                        x: E.Ctx)
    requires AcceptLink(accepted, c) && RootLink(entries, c) && CancelLink(state, c)
    requires s !in c && !x.accepted && !x.canceled
    requires S.PendingRoot(s, x.root.path) in entries && WellFormed(x.root.node)
    ensures
      var c' := c[s := x];
      && AcceptLink(accepted, c') && RootLink(entries, c') && CancelLink(state, c') && RootsOf(c') == RootsOf(c)
  {
    assert forall y :: y in RootsOf(c[s := x]) <==> y in RootsOf(c);
  }

  lemma LinksStart(d: System, node: Node)
    requires Inv(d) && Enabled(d, Start(node))
    ensures Links(Do(d, Start(node)))
  {
    hide EI.Inv, SP.Inv, ET.LogOk, CF.Flags, OpenScansApart, AcceptLink, NotifyLink, CancelLink, RootLink, ExportLink,
         RootsOf, NeverFailed;
    DispatchedIsEntry(d.sched);
    var s, work := d.sched, Work(d.sched.disp.entry.root, node);
    StartedContexts(s.accepted, s.entries, s.state, d.engine.ctx, s.disp.entry.id, E.Ctx(work, false, 0, false, false));
  }

  lemma LinksPop(d: System, w: nat)
    requires Links(d) && Enabled(d, Pop(w))
    ensures Links(Do(d, Pop(w)))
  {
    hide OpenScansApart, AcceptLink, NotifyLink, CancelLink, RootLink, ExportLink, RootsOf, NeverFailed;
  }

  lemma CanceledContexts(accepted: set<nat>, entries: seq<S.PendingRoot>, state: SP.States, c: Contexts, id: nat)
    requires AcceptLink(accepted, c) && RootLink(entries, c) && CancelLink(state, c)
    requires id in c && id in state && state[id].CANCELED?
    ensures
      var c' := c[id := c[id].(canceled := true)];
      && AcceptLink(accepted, c') && RootLink(entries, c') && CancelLink(state, c') && RootsOf(c') == RootsOf(c)
  {
  }

  lemma CanceledContext(e: E.Engine, id: nat, s: S.Sched)
    requires AcceptLink(s.accepted, e.ctx) && RootLink(s.entries, e.ctx) && CancelLink(s.state, e.ctx)
    requires id in s.state && s.state[id].CANCELED?
    ensures
      var e' := E.Do(e, E.Cancel(id));
      && AcceptLink(s.accepted, e'.ctx) && RootLink(s.entries, e'.ctx) && CancelLink(s.state, e'.ctx)
      && RootsOf(e'.ctx) == RootsOf(e.ctx)
      && e'.call == e.call && e'.log == e.log && e'.notifies == e.notifies
  {
    hide AcceptLink, RootLink, CancelLink, RootsOf;
    if id in e.ctx {
      CanceledContexts(s.accepted, s.entries, s.state, e.ctx, id);
    }
  }

  lemma CancelTargets(s: S.Sched)
    requires SP.Inv(s)
    ensures forall id :: id in s.cancelCalls ==> id in s.state && s.state[id].CANCELED?
    ensures s.disp.Canceling? ==> s.disp.id in s.state && s.state[s.disp.id].CANCELED?
  {
    hide SP.QueueOk, SP.FrontOk, SP.WaitOk, SP.PendingOk, SP.StatesOk, SP.RunningOk, SP.OrderOk, SP.LockOk;
  }

  lemma LinksCancel(d: System, a: Action)
    requires Inv(d) && Enabled(d, a) && (a.CancelCall? || a.DispatcherCancel?)
    ensures Links(Do(d, a))
  {
    hide EI.Inv, SP.Inv, ET.LogOk, CF.Flags, OpenScansApart, AcceptLink, NotifyLink, CancelLink, RootLink, ExportLink,
         RootsOf, E.Do;
    CancelTargets(d.sched);
    CanceledContext(d.engine, if a.CancelCall? then a.id else d.sched.disp.id, d.sched);
  }

  lemma LinksExporter(d: System, a: Action)
    requires Links(d) && Enabled(d, a) && (a.Consume? || a.ExportDone?)
    ensures Links(Do(d, a))
  {
    hide OpenScansApart, AcceptLink, NotifyLink, CancelLink, RootLink, RootsOf, NeverFailed, Closed;
    if a.Consume? {
      ExportAdvances(d.sched.exported, d.engine.log, d.consumed);
    }
  }

  lemma ExportAdvances(exported: set<nat>, log: seq<Msg>, consumed: nat)
    requires ExportLink(exported, log, consumed) && consumed < |log|
    ensures ExportLink(exported, log, consumed + 1)
  {
    forall s | s in exported ensures Closed(log[..consumed + 1], s) {
      assert log[..consumed + 1][..consumed] == log[..consumed];
      ClosedLonger(log[..consumed + 1], consumed, s);
    }
  }

  // ----- the dispatcher inside start_new_scan -----

  lemma AcceptedContexts(accepted: set<nat>, entries: seq<S.PendingRoot>, state: SP.States, c: Contexts, s: nat)
    requires AcceptLink(accepted, c) && RootLink(entries, c) && CancelLink(state, c)
    requires s in c && !c[s].accepted
    ensures
      var c' := c[s := c[s].(accepted := true)];
      && AcceptLink(accepted + {s}, c') && RootLink(entries, c') && CancelLink(state, c')
      && (forall x :: x in RootsOf(c) ==> x in RootsOf(c') && RootsOf(c')[x] == RootsOf(c)[x])
  {
  }

  lemma RemovedContexts(accepted: set<nat>, entries: seq<S.PendingRoot>, state: SP.States, c: Contexts, s: nat)
    requires AcceptLink(accepted, c) && RootLink(entries, c) && CancelLink(state, c)
    requires s in c && !c[s].accepted
    ensures
      var c' := c - {s};
      && AcceptLink(accepted, c') && RootLink(entries, c') && CancelLink(state, c') && RootsOf(c') == RootsOf(c)
  {
  }

  lemma CallContext(e: E.Engine)
    requires EI.Inv(e) && !e.call.NoCall?
    ensures e.call.scan in e.ctx && !e.ctx[e.call.scan].accepted
  {
  }

  lemma LinksAccept(d: System)
    requires Inv(d) && Enabled(d, Dispatch) && Accepts(d.engine)
    ensures Links(Do(d, Dispatch))
  {
    hide EI.Inv, SP.Inv, ET.LogOk, CF.Flags, OpenScansApart, AcceptLink, NotifyLink, CancelLink, RootLink, ExportLink,
         RootsOf;
    CallContext(d.engine);
    var e, s := d.engine, d.engine.call.scan;
    AcceptedContexts(d.sched.accepted, d.sched.entries, d.sched.state, e.ctx, s);
    var c' := e.ctx[s := e.ctx[s].(accepted := true)];
    ApartMoreRoots(e.log, RootsOf(e.ctx), RootsOf(c'));
  }

  lemma LinksFlagged(d: System)
    requires Inv(d) && Enabled(d, Dispatch) && d.engine.call.Flagged?
    ensures Links(Do(d, Dispatch))
  {
    hide EI.Inv, SP.Inv, ET.LogOk, CF.Flags, OpenScansApart, AcceptLink, NotifyLink, CancelLink, RootLink, ExportLink,
         RootsOf;
    CallContext(d.engine);
    RemovedContexts(d.sched.accepted, d.sched.entries, d.sched.state, d.engine.ctx, d.engine.call.scan);
  }

  lemma InnerFrame(e: E.Engine)
    requires E.Enabled(e, E.RootStep) && !Answers(e)
    ensures
      var e' := E.Do(e, E.RootStep);
      && SameContexts(e.ctx, e'.ctx) && e'.log == e.log && e'.notifies == e.notifies
      && !e'.call.NoCall? && e'.call.scan == e.call.scan && e'.call.work == e.call.work
  {
  }

  lemma LinksInner(d: System)
    requires Links(d) && Enabled(d, Dispatch) && !Answers(d.engine)
    ensures Links(Do(d, Dispatch))
  {
    hide OpenScansApart, SameContexts, AcceptLink, NotifyLink, CancelLink, RootLink, ExportLink, RootsOf,
         NeverFailed, E.Do;
    var e, s := d.engine, d.sched;
    var e' := E.Do(e, E.RootStep);
    InnerFrame(e);
    SameRoots(e.ctx, e'.ctx);
    AcceptKept(s.accepted, e.ctx, e'.ctx);
    SameStates(s.state);
    CancelKept(s.state, s.state, e.ctx, e'.ctx);
    RootKept(s.entries, s.entries, e.ctx, e'.ctx);
  }

  lemma SameStates(state: SP.States)
    ensures StateMoves(state, state)
  {
  }

  lemma UnknownToEngine(e: E.Engine, accepted: set<nat>, id: nat)
    requires EI.Inv(e) && e.call.NoCall? && AcceptLink(accepted, e.ctx) && id !in accepted
    ensures id !in e.ctx && id !in e.registry
  {
    assert EM.Balanced(e, EM.Reg(id));
  }

  lemma RefuseImpossible(d: System)
    requires Inv(d) && d.sched.disp.Calling? && d.engine.call.NoCall?
    ensures d.sched.disp.entry.id !in d.engine.ctx && d.sched.disp.entry.id !in d.engine.registry
    ensures d.sched.disp.entry.id > 0
  {
    hide EI.Inv, SP.Inv, ET.LogOk, CF.Flags, OpenScansApart, AcceptLink, NotifyLink, CancelLink, RootLink, ExportLink,
         RootsOf;
    DispatchedIsEntry(d.sched);
    UnknownToEngine(d.engine, d.sched.accepted, d.sched.disp.entry.id);
  }

  lemma LinksKept(d: System, a: Action)
    requires Inv(d) && Enabled(d, a)
    ensures Links(Do(d, a))
  {
    hide Parts, Links, E.Do, S.Do;
    match a
    case Sched(x) => LinksScheduler(d, x);
    case Available => LinksAvailable(d);
    case Start(node) => LinksStart(d, node);
    case Refuse => RefuseImpossible(d);
    case Dispatch =>
      if Accepts(d.engine) {
        LinksAccept(d);
      } else if d.engine.call.Flagged? {
        LinksFlagged(d);
      } else {
        LinksInner(d);
      }
    case Pop(w) => LinksPop(d, w);
    case WorkerStep(w) => LinksWorker(d, w);
    case CancelCall(id) => LinksCancel(d, a);
    case DispatcherCancel => LinksCancel(d, a);
    case Consume => LinksExporter(d, a);
    case ExportDone(id) => LinksExporter(d, a);
  }

  lemma DoKeeps(d: System, a: Action)
    requires Inv(d) && Enabled(d, a)
    ensures Inv(Do(d, a))
  {
    hide Parts, Links, Do, Enabled;
    PartsKept(d, a);
    LinksKept(d, a);
  }

  lemma InitInv(maxConcurrent: nat, queueMax: nat, slots: nat, threads: nat)
    requires maxConcurrent > 0 && queueMax > 0
    ensures Inv(Init(maxConcurrent, queueMax, slots, threads))
  {
    hide SP.Inv, EI.Inv;
    SP.InitInv(maxConcurrent, queueMax);
    EI.InitInv(slots, maxConcurrent, threads);
  }

  lemma {:induction false} RunKeeps(d: System, run: seq<Action>)
    requires Inv(d) && Legal(d, run)
    ensures Inv(After(d, run))
    decreases |run|
  {
    hide Inv, Do, Enabled;
    if run != [] {
      var n := |run| - 1;
      RunKeeps(d, run[..n]);
      DoKeeps(After(d, run[..n]), run[n]);
    }
  }

  lemma Reachable(maxConcurrent: nat, queueMax: nat, slots: nat, threads: nat, run: seq<Action>)
    requires maxConcurrent > 0 && queueMax > 0 && Legal(Init(maxConcurrent, queueMax, slots, threads), run)
    ensures Inv(After(Init(maxConcurrent, queueMax, slots, threads), run))
  {
    hide Inv;
    InitInv(maxConcurrent, queueMax, slots, threads);
    RunKeeps(Init(maxConcurrent, queueMax, slots, threads), run);
  }
}
