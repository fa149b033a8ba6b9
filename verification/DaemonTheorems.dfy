/** What the whole daemon guarantees in every interleaving before shutdown. */
module DaemonTheorems {
  import opened Paths
  import opened FileTree
  import opened Messages
  import opened Tables
  import opened Serial
  import opened Snapshot
  import opened Daemon
  import opened DaemonInvariant
  import S = SchedulerModel
  import SP = SchedulerProofs
  import ST = SchedulerTheorems
  import E = ScanEngine
  import EM = EngineMass
  import EI = EngineInvariant
  import ET = EngineTheorems
  import CF = CancelFlags

  // ----- no part ever waits for a guard that its partner does not meet -----

  lemma PendingNotifyIsPendingSentinel(st: seq<E.Frame>, s: nat)
    ensures EM.StackMass(st, EM.Notify(s)) <= EM.StackMass(st, EM.Sent(s))
  {
  }

  lemma {:induction false} WorkersNotifyBelowSent(ws: seq<seq<E.Frame>>, s: nat)
    ensures EM.WorkersMass(ws, EM.Notify(s)) <= EM.WorkersMass(ws, EM.Sent(s))
  {
    if ws != [] {
      WorkersNotifyBelowSent(ws[..|ws| - 1], s);
      PendingNotifyIsPendingSentinel(ws[|ws| - 1], s);
    }
  }

  lemma QueueOwesNothing(q: seq<E.Job>, s: nat)
    ensures EM.QueueMass(q, EM.Notify(s)) == 0
  {
  }

  // The scheduler hears of a scan before its sentinel is pushed.
  lemma NotifiedBeforeSentinel(e: E.Engine, s: nat)
    requires EI.Inv(e) && Closed(e.log, s)
    ensures EM.CountNotify(e.notifies, s) > 0
  {
    assert EM.Balanced(e, EM.Notify(s));
    assert EM.Balanced(e, EM.Sent(s));
    var i :| 0 <= i < |e.log| && e.log[i].Sentinel? && e.log[i].scan == s;
    if EM.CountSentinel(e.log, s) == 0 {
      ET.NoSentinelCounted(e.log, s, i);
    }
    WorkersNotifyBelowSent(e.workers, s);
    QueueOwesNothing(e.queue, s);
  }

  lemma WorkerNeverBlocked(d: System, w: nat)
    requires Inv(d) && E.Enabled(d.engine, E.Step(w))
    ensures Enabled(d, WorkerStep(w))
  {
    hide EI.Inv, SP.Inv, ET.LogOk, CF.Flags, OpenScansApart, CancelLink, RootLink, ExportLink, RootsOf;
    if Tells(d.engine, w) {
      TellsOnce(d.engine, w);
    }
  }

  lemma ExportNeverBlocked(d: System, id: nat)
    requires Inv(d) && Closed(d.engine.log[..d.consumed], id) && id !in d.sched.exported
    ensures Enabled(d, ExportDone(id))
  {
    hide EI.Inv, SP.Inv, ET.LogOk, CF.Flags, OpenScansApart, CancelLink, RootLink, RootsOf, Closed;
    ClosedLonger(d.engine.log, d.consumed, id);
    NotifiedBeforeSentinel(d.engine, id);
  }

  lemma DispatchNeverBlocked(d: System)
    requires Inv(d) && d.sched.disp.Calling?
    ensures if d.engine.call.NoCall? then forall node :: WellFormed(node) ==> Enabled(d, Start(node))
            else Enabled(d, Dispatch)
    ensures !Enabled(d, Refuse)
  {
    hide EI.Inv, SP.Inv, ET.LogOk, CF.Flags, OpenScansApart, CancelLink, RootLink, ExportLink, RootsOf, AcceptLink;
    if d.engine.call.NoCall? {
      RefuseImpossible(d);
    } else {
      CallContext(d.engine);
    }
  }

  /**
   The parts fit: in every reachable state a worker that can step may step although it calls into the
   scheduler, the dispatcher inside start_new_scan can go on and never meets its id registered already, and
   every applied sentinel can release its root.
   */
  lemma NoPartBlocked(maxConcurrent: nat, queueMax: nat, slots: nat, threads: nat, run: seq<Action>)
    requires maxConcurrent > 0 && queueMax > 0 && Legal(Init(maxConcurrent, queueMax, slots, threads), run)
    ensures
      var d := After(Init(maxConcurrent, queueMax, slots, threads), run);
      && (forall w :: E.Enabled(d.engine, E.Step(w)) ==> Enabled(d, WorkerStep(w)))
      && (d.sched.disp.Calling? && d.engine.call.NoCall? ==>
            forall node :: WellFormed(node) ==> Enabled(d, Start(node)))
      && (!d.engine.call.NoCall? ==> Enabled(d, Dispatch))
      && !Enabled(d, Refuse)
      && d.consumed <= |d.engine.log|
      && (forall id :: Closed(d.engine.log[..d.consumed], id) && id !in d.sched.exported ==> Enabled(d, ExportDone(id)))
  {
    hide Inv, After, Legal, Enabled, E.Enabled, Closed;
    Reachable(maxConcurrent, queueMax, slots, threads, run);
    Unblocked(After(Init(maxConcurrent, queueMax, slots, threads), run));
  }

  lemma Unblocked(d: System)
    requires Inv(d)
    ensures forall w :: E.Enabled(d.engine, E.Step(w)) ==> Enabled(d, WorkerStep(w))
    ensures d.sched.disp.Calling? && d.engine.call.NoCall? ==>
              forall node :: WellFormed(node) ==> Enabled(d, Start(node))
    ensures !d.engine.call.NoCall? ==> Enabled(d, Dispatch)
    ensures !Enabled(d, Refuse)
    ensures d.consumed <= |d.engine.log|
    ensures forall id :: Closed(d.engine.log[..d.consumed], id) && id !in d.sched.exported ==>
              Enabled(d, ExportDone(id))
  {
    CallIsDispatched(d);
    hide Inv, Enabled, E.Enabled, Closed;
    forall w | E.Enabled(d.engine, E.Step(w)) ensures Enabled(d, WorkerStep(w)) {
      WorkerNeverBlocked(d, w);
    }
    forall id | Closed(d.engine.log[..d.consumed], id) && id !in d.sched.exported ensures Enabled(d, ExportDone(id)) {
      ExportNeverBlocked(d, id);
    }
    if d.sched.disp.Calling? {
      DispatchNeverBlocked(d);
    }
  }

  lemma CallIsDispatched(d: System)
    requires Inv(d)
    ensures !d.engine.call.NoCall? ==> d.sched.disp.Calling?
    ensures !d.sched.disp.Calling? ==> !Enabled(d, Refuse)
    ensures d.consumed <= |d.engine.log|
  {
    hide EI.Inv, SP.Inv, ET.LogOk, CF.Flags, OpenScansApart, CancelLink, RootLink, RootsOf, AcceptLink;
  }

  /** No scan ever becomes FAILED: the manager refuses only because its queue is full. */
  lemma NeverFails(maxConcurrent: nat, queueMax: nat, slots: nat, threads: nat, run: seq<Action>)
    requires maxConcurrent > 0 && queueMax > 0 && Legal(Init(maxConcurrent, queueMax, slots, threads), run)
    ensures
      var s := After(Init(maxConcurrent, queueMax, slots, threads), run).sched;
      forall id :: id in s.state ==> !s.state[id].FAILED?
  {
    Reachable(maxConcurrent, queueMax, slots, threads, run);
    hide Parts, After, Legal, OpenScansApart;
  }

  /** A context's canceled flag is set only for a scan the scheduler holds CANCELED. */
  lemma CanceledFlagIsCanceledState(maxConcurrent: nat, queueMax: nat, slots: nat, threads: nat, run: seq<Action>,
                                    id: nat)
    requires maxConcurrent > 0 && queueMax > 0 && Legal(Init(maxConcurrent, queueMax, slots, threads), run)
    ensures
      var d := After(Init(maxConcurrent, queueMax, slots, threads), run);
      id in d.engine.ctx && d.engine.ctx[id].canceled ==> id in d.sched.state && d.sched.state[id].CANCELED?
  {
    Reachable(maxConcurrent, queueMax, slots, threads, run);
    hide Parts, After, Legal, OpenScansApart;
  }

  // ----- DONE means complete -----

  lemma DoneFacts(s: S.Sched, id: nat)
    requires SP.Inv(s) && id in s.state && s.state[id].DONE?
    ensures id in s.notified && id in s.accepted
  {
    hide SP.QueueOk, SP.FrontOk, SP.WaitOk, SP.PendingOk, SP.CancelsOk, SP.RunningOk, SP.OrderOk, SP.LockOk;
    assert SP.StateOk(s.state[id], id, s.disp, s.accepted, s.notified);
  }

  lemma NotSkipped(e: E.Engine, id: nat)
    requires EI.Inv(e) && id in e.ctx && !e.ctx[id].canceled && EM.CountNotify(e.notifies, id) > 0
    ensures EM.Crossed(e, id) == 1 && !EM.Skipped(e, id)
  {
    assert EM.Balanced(e, EM.Notify(id));
  }

  lemma DoneComplete(d: System, id: nat)
    requires Inv(d) && id in d.sched.state && d.sched.state[id].DONE?
    ensures id in d.engine.ctx && multiset(EventsOf(d.engine.log, id)) == multiset(Preorder(d.engine.ctx[id].root))
  {
    hide EI.Inv, SP.Inv, ET.LogOk, CF.Flags, OpenScansApart, RootLink, ExportLink, RootsOf, Preorder;
    DoneFacts(d.sched, id);
    NotSkipped(d.engine, id);
    ET.CompleteLog(d.engine, id);
  }

  /** When the scheduler shows a scan as DONE, every node of its tree is in the result queue exactly once. */
  lemma DoneMeansComplete(maxConcurrent: nat, queueMax: nat, slots: nat, threads: nat, run: seq<Action>, id: nat)
    requires maxConcurrent > 0 && queueMax > 0 && Legal(Init(maxConcurrent, queueMax, slots, threads), run)
    ensures
      var d := After(Init(maxConcurrent, queueMax, slots, threads), run);
      id in d.sched.state && d.sched.state[id].DONE? ==>
        id in d.engine.ctx && multiset(EventsOf(d.engine.log, id)) == multiset(Preorder(d.engine.ctx[id].root))
  {
    hide Inv, After, Legal, Preorder, EventsOf;
    Reachable(maxConcurrent, queueMax, slots, threads, run);
    var d := After(Init(maxConcurrent, queueMax, slots, threads), run);
    if id in d.sched.state && d.sched.state[id].DONE? {
      DoneComplete(d, id);
    }
  }

  // ----- the result queue is a stream of scans apart -----

  lemma ReportedNode(e: E.Engine, i: nat)
    requires EI.Inv(e) && i < |e.log| && e.log[i].Event? && e.log[i].scan in e.ctx
    ensures e.log[i].ev in Preorder(e.ctx[e.log[i].scan].root)
  {
    var s, ev := e.log[i].scan, e.log[i].ev;
    hide EI.Inv, Preorder, EventsOf;
    EventsOfMembers(e.log, s);
    assert Event(s, ev) in e.log;
    ET.NeverReportedTwice(e, s);
    assert multiset(EventsOf(e.log, s))[ev] > 0;
    assert multiset(Preorder(e.ctx[s].root))[ev] > 0;
  }

  lemma {:induction false} ReportedTwice(log: seq<Msg>, i: nat, j: nat)
    requires i < j < |log| && log[i].Event? && log[i] == log[j]
    ensures multiset(EventsOf(log, log[i].scan))[log[i].ev] >= 2
  {
    hide EventsOf;
    var n, s, ev := |log| - 1, log[i].scan, log[i].ev;
    var init := log[..n];
    assert init[i] == log[i] == Event(s, ev);
    if j < n {
      ReportedTwice(init, i, j);
    } else {
      EventsOfMembers(init, s);
      assert ev in EventsOf(init, s);
    }
    EventsOfLast(log, s, ev);
  }

  lemma EventsOfLast(log: seq<Msg>, s: nat, ev: Ev)
    requires log != []
    ensures
      var n := |log| - 1;
      multiset(EventsOf(log, s))[ev] == multiset(EventsOf(log[..n], s))[ev] + (if log[n] == Event(s, ev) then 1 else 0)
  {
  }

  lemma {:induction false} DistinctIsSingle(evs: seq<Ev>, ev: Ev)
    requires DistinctPaths(evs)
    ensures multiset(evs)[ev] <= 1
  {
    if evs != [] {
      var n := |evs| - 1;
      DistinctIsSingle(evs[..n], ev);
      assert evs == evs[..n] + [evs[n]];
      if ev == evs[n] {
        assert forall k :: 0 <= k < n ==> evs[..n][k].path != ev.path;
        assert ev !in evs[..n];
      }
    }
  }

  lemma SamePathSameEvent(evs: seq<Ev>, a: Ev, b: Ev)
    requires DistinctPaths(evs) && a in evs && b in evs && a.path == b.path
    ensures a == b
  {
  }

  lemma EventsDistinct(e: E.Engine, i: nat, j: nat)
    requires EI.Inv(e) && i < j < |e.log| && e.log[i].Event? && e.log[j].Event? && e.log[i].scan == e.log[j].scan
    requires e.log[i].scan in e.ctx && WellFormed(e.ctx[e.log[i].scan].root.node)
    ensures e.log[i].ev.path != e.log[j].ev.path
  {
    hide EI.Inv, Preorder, EventsOf, DistinctPaths;
    var root, s := e.ctx[e.log[i].scan].root, e.log[i].scan;
    PreorderPathsDistinct(root);
    ReportedNode(e, i);
    ReportedNode(e, j);
    ET.NeverReportedTwice(e, s);
    DistinctIsSingle(Preorder(root), e.log[i].ev);
    if e.log[i].ev.path == e.log[j].ev.path {
      SamePathSameEvent(Preorder(root), e.log[i].ev, e.log[j].ev);
      ReportedTwice(e.log, i, j);
    }
  }

  lemma MessagePlaced(e: E.Engine, i: nat)
    requires EI.Inv(e) && ET.LogOk(e) && i < |e.log|
    requires e.log[i].scan in e.ctx ==> WellFormed(e.ctx[e.log[i].scan].root.node)
    ensures Placed(e.log[i], RootsOf(e.ctx))
  {
    hide EI.Inv, Preorder;
    var s := e.log[i].scan;
    var root := e.ctx[s].root;
    if e.log[i].Event? {
      ReportedNode(e, i);
      PreorderPathsDistinct(root);
      var k :| 0 <= k < |Preorder(root)| && Preorder(root)[k] == e.log[i].ev;
    }
  }

  lemma LogIsStream(d: System)
    requires Inv(d)
    ensures Stream(d.engine.log, RootsOf(d.engine.ctx)) && DistinctEvents(d.engine.log)
  {
    hide EI.Inv, SP.Inv, OpenScansApart, CallLink, AcceptLink, NotifyLink, CancelLink, ExportLink, NeverFailed, Placed,
         RootsOf, InSubtree, WellFormed;
    var e := d.engine;
    forall i | 0 <= i < |e.log| ensures Placed(e.log[i], RootsOf(e.ctx)) {
      MessagePlaced(e, i);
    }
    forall i, j | 0 <= i < j < |e.log| && e.log[i].Event? && e.log[j].Event? && e.log[i].scan == e.log[j].scan
      ensures e.log[i].ev.path != e.log[j].ev.path
    {
      EventsDistinct(e, i, j);
    }
  }

  /**
   Overlapping scans never share the result queue: whatever has been pushed so far is a stream of messages
   that stay below their scan's root, end with its sentinel, and belong to scans that do not overlap while
   both are open.
   */
  lemma ResultQueueIsStream(maxConcurrent: nat, queueMax: nat, slots: nat, threads: nat, run: seq<Action>)
    requires maxConcurrent > 0 && queueMax > 0 && Legal(Init(maxConcurrent, queueMax, slots, threads), run)
    ensures
      var e := After(Init(maxConcurrent, queueMax, slots, threads), run).engine;
      Stream(e.log, RootsOf(e.ctx)) && DistinctEvents(e.log)
  {
    hide Inv, After, Legal, Stream, DistinctEvents;
    Reachable(maxConcurrent, queueMax, slots, threads, run);
    LogIsStream(After(Init(maxConcurrent, queueMax, slots, threads), run));
  }

  // ----- end to end -----

  lemma {:induction false} StreamTake(log: seq<Msg>, roots: Roots, k: nat)
    requires Stream(log, roots) && k <= |log|
    ensures Stream(log[..k], roots)
    decreases |log|
  {
    if k == |log| {
      assert log[..k] == log;
    } else {
      var init := log[..|log| - 1];
      StreamPrefix(log, roots);
      StreamTake(init, roots, k);
      assert init[..k] == log[..k];
    }
  }

  /**
   Exporter serialisability for the queue the engine really produces: at every moment, the tables left by the
   messages applied so far are those of whole scans applied one after another in sentinel order.
   */
  lemma TablesAreSerial(maxConcurrent: nat, queueMax: nat, slots: nat, threads: nat, run: seq<Action>, t: Db)
    requires maxConcurrent > 0 && queueMax > 0 && Legal(Init(maxConcurrent, queueMax, slots, threads), run)
    requires Fresh(t, RootsOf(After(Init(maxConcurrent, queueMax, slots, threads), run).engine.ctx))
    ensures
      var d := After(Init(maxConcurrent, queueMax, slots, threads), run);
      && d.consumed <= |d.engine.log|
      && ApplyAll(t, d.engine.log[..d.consumed]) == ApplyAll(t, SerialOrder(d.engine.log[..d.consumed]))
  {
    hide Inv, After, Legal, Stream, DistinctEvents, Fresh, ApplyAll, SerialOrder, Local;
    var d := After(Init(maxConcurrent, queueMax, slots, threads), run);
    var roots := RootsOf(d.engine.ctx);
    Reachable(maxConcurrent, queueMax, slots, threads, run);
    CallIsDispatched(d);
    LogIsStream(d);
    StreamTake(d.engine.log, roots, d.consumed);
    FreshIsLocal(t, roots);
    Serialisable(t, d.engine.log[..d.consumed], roots);
  }

  // The row records this node.
  predicate Shows(row: Row, s: nat, n: Node) {
    && row.scan == s && TypeIs(row.kind, n) && row.mtime == MtimeOf(n) && row.size == BytesOf(n)
    && row.state == if ErrnoOf(n) == 0 then Alive else Error
  }

  // At p, index_current holds exactly what walking the tree by names finds there.
  ghost predicate Mirrors(current: map<string, Row>, s: nat, root: Work, p: string) {
    && (Under(root.path, p) ==> (p in current <==> exists n :: Finds(root.path, root.node, p, n)))
    && (forall n :: Finds(root.path, root.node, p, n) ==> p in current && Shows(current[p], s, n))
  }

  lemma EventsAreReports(log: seq<Msg>, s: nat, root: Work, ev: Ev)
    requires multiset(EventsOf(log, s)) == multiset(Preorder(root))
    ensures Event(s, ev) in log <==> Reports(root, ev)
  {
    hide Preorder, EventsOf, Reports;
    EventsOfMembers(log, s);
    assert ev in EventsOf(log, s) <==> ev in multiset(EventsOf(log, s));
    assert ev in Preorder(root) <==> ev in multiset(Preorder(root));
    WalkReportsNodes(root, ev);
  }

  lemma SawIsFound(log: seq<Msg>, s: nat, root: Work, p: string)
    requires multiset(EventsOf(log, s)) == multiset(Preorder(root))
    ensures SawPath(log, s, p) ==> exists n :: Finds(root.path, root.node, p, n)
    ensures forall n :: Finds(root.path, root.node, p, n) ==>
              exists ev :: Event(s, ev) in log && ev.path == p && Describes(ev, n)
  {
    hide Preorder, EventsOf, Describes, Finds;
    if SawPath(log, s, p) {
      var ev :| Event(s, ev) in log && ev.path == p;
      EventsAreReports(log, s, root, ev);
    }
    forall n | Finds(root.path, root.node, p, n)
      ensures exists ev :: Event(s, ev) in log && ev.path == p && Describes(ev, n)
    {
      var ev := EventOf(Work(p, n));
      OwnEvent(Work(p, n));
      assert Reports(root, ev);
      EventsAreReports(log, s, root, ev);
    }
  }

  lemma RowShows(s: nat, ev: Ev, n: Node)
    requires Describes(ev, n)
    ensures Shows(RowOf(s, ev), s, n)
  {
  }

  lemma DistinctTake(log: seq<Msg>, k: nat)
    requires DistinctEvents(log) && k <= |log|
    ensures DistinctEvents(log[..k])
  {
  }

  lemma IndexAfterSentinel(d: System, t: Db, i: nat, p: string)
    requires Inv(d) && Fresh(t, RootsOf(d.engine.ctx))
    requires i < |d.engine.log| && d.engine.log[i].Sentinel? && !d.engine.log[i].canceled
    ensures
      var s := d.engine.log[i].scan;
      && s in d.engine.ctx
      && Mirrors(ApplyAll(t, d.engine.log[..i + 1]).current, s, d.engine.ctx[s].root, p)
  {
    hide EI.Inv, SP.Inv, Links, Stream, DistinctEvents, Fresh, ApplyAll, Preorder, EventsOf, Finds, Describes, Shows,
         RowOf;
    var log, roots, s := d.engine.log, RootsOf(d.engine.ctx), d.engine.log[i].scan;
    LogIsStream(d);
    StreamTake(log, roots, i + 1);
    DistinctTake(log, i + 1);
    ET.SentinelComplete(d.engine, i);
    assert log[..i + 1] == log[..i] + [log[i]];
    SnapshotUnderRoot(t, log[..i], roots, log[i], p);
    SawMirrors(log[..i], s, d.engine.ctx[s].root, p, ApplyAll(t, log[..i + 1]).current);
  }

  lemma SawMirrors(log: seq<Msg>, s: nat, root: Work, p: string, current: map<string, Row>)
    requires multiset(EventsOf(log, s)) == multiset(Preorder(root))
    requires Under(root.path, p) ==> (p in current <==> SawPath(log, s, p))
    requires forall ev :: Event(s, ev) in log && ev.path == p ==> p in current && current[p] == RowOf(s, ev)
    ensures Mirrors(current, s, root, p)
  {
    hide Preorder, EventsOf, Describes, Finds, Shows, RowOf;
    SawIsFound(log, s, root, p);
    forall n | Finds(root.path, root.node, p, n) ensures p in current && Shows(current[p], s, n) {
      var ev :| Event(s, ev) in log && ev.path == p && Describes(ev, n);
      RowShows(s, ev, n);
    }
  }

  /**
   End to end: whatever the interleaving of submissions, cancels, workers and export, when an uncanceled
   sentinel has been applied, index_current strictly below the scan's root holds exactly the paths that names lead
   to in the directory tree, each with the type, time, size and error of the node found there, and the root's own
   row is the root's.
   */
  lemma IndexIsTree(maxConcurrent: nat, queueMax: nat, slots: nat, threads: nat, run: seq<Action>, t: Db, i: nat,
                    p: string)
    requires maxConcurrent > 0 && queueMax > 0 && Legal(Init(maxConcurrent, queueMax, slots, threads), run)
    requires
      var e := After(Init(maxConcurrent, queueMax, slots, threads), run).engine;
      Fresh(t, RootsOf(e.ctx)) && i < |e.log| && e.log[i].Sentinel? && !e.log[i].canceled
    ensures
      var e := After(Init(maxConcurrent, queueMax, slots, threads), run).engine;
      && e.log[i].scan in e.ctx
      && Mirrors(ApplyAll(t, e.log[..i + 1]).current, e.log[i].scan, e.ctx[e.log[i].scan].root, p)
  {
    hide Inv, After, Legal, Fresh, ApplyAll, Mirrors;
    Reachable(maxConcurrent, queueMax, slots, threads, run);
    IndexAfterSentinel(After(Init(maxConcurrent, queueMax, slots, threads), run), t, i, p);
  }

  lemma PlacedBetween(d: System, i: nat, k: nat)
    requires Inv(d) && i <= k <= |d.engine.log|
    ensures AllPlaced(d.engine.log[i..k], RootsOf(d.engine.ctx))
  {
    hide Inv, Placed, RootsOf;
    LogIsStream(d);
  }

  lemma StaysMirrored(d: System, t: Db, i: nat, k: nat, p: string)
    requires Inv(d) && Fresh(t, RootsOf(d.engine.ctx)) && i < k <= |d.engine.log|
    requires d.engine.log[i].Sentinel? && !d.engine.log[i].canceled && d.engine.log[i].scan in d.engine.ctx
    requires InSubtree(d.engine.ctx[d.engine.log[i].scan].root.path, p)
    requires
      var log, roots, root := d.engine.log, RootsOf(d.engine.ctx), d.engine.ctx[d.engine.log[i].scan].root.path;
      forall j :: i < j < k ==> log[j].scan in roots && !PathsOverlap(roots[log[j].scan], root)
    ensures Mirrors(ApplyAll(t, d.engine.log[..k]).current, d.engine.log[i].scan,
                    d.engine.ctx[d.engine.log[i].scan].root, p)
  {
    hide Inv, Fresh, ApplyAll, Finds, Shows, RootsOf, PathsOverlap, InSubtree, AllPlaced;
    var log, roots := d.engine.log, RootsOf(d.engine.ctx);
    var root := d.engine.ctx[log[i].scan].root;
    IndexAfterSentinel(d, t, i, p);
    PlacedBetween(d, i + 1, k);
    assert log[..k] == log[..i + 1] + log[i + 1..k];
    ApplyAppend(t, log[..i + 1], log[i + 1..k]);
    ApartKeepsSubtree(ApplyAll(t, log[..i + 1]), log[i + 1..k], roots, root.path, p);
  }

  /**
   And it stays so: at every later moment, as long as no scan that overlaps the root has sent a message, the index
   below the root is still exactly the tree.
   */
  lemma IndexStaysTree(maxConcurrent: nat, queueMax: nat, slots: nat, threads: nat, run: seq<Action>,
                       t: Db, i: nat, k: nat, p: string)
    requires maxConcurrent > 0 && queueMax > 0 && Legal(Init(maxConcurrent, queueMax, slots, threads), run)
    requires
      var e := After(Init(maxConcurrent, queueMax, slots, threads), run).engine;
      && Fresh(t, RootsOf(e.ctx)) && i < k <= |e.log| && e.log[i].Sentinel? && !e.log[i].canceled
      && e.log[i].scan in e.ctx && InSubtree(e.ctx[e.log[i].scan].root.path, p)
      && (forall j :: i < j < k ==>
            e.log[j].scan in RootsOf(e.ctx)
            && !PathsOverlap(RootsOf(e.ctx)[e.log[j].scan], e.ctx[e.log[i].scan].root.path))
    ensures
      var e := After(Init(maxConcurrent, queueMax, slots, threads), run).engine;
      Mirrors(ApplyAll(t, e.log[..k]).current, e.log[i].scan, e.ctx[e.log[i].scan].root, p)
  {
    hide Inv, After, Legal, Fresh, ApplyAll, Mirrors, PathsOverlap, InSubtree, RootsOf;
    Reachable(maxConcurrent, queueMax, slots, threads, run);
    StaysMirrored(After(Init(maxConcurrent, queueMax, slots, threads), run), t, i, k, p);
  }

  lemma DoneSentinel(d: System, id: nat, i: nat)
    requires Inv(d) && id in d.sched.state && d.sched.state[id].DONE?
    requires i < |d.engine.log| && d.engine.log[i].Sentinel? && d.engine.log[i].scan == id
    ensures !d.engine.log[i].canceled
  {
    hide EI.Inv, SP.Inv, ET.LogOk, OpenScansApart, RootLink, ExportLink, RootsOf, AcceptLink;
    assert d.engine.log[i].canceled ==> CF.Canceled(d.engine.ctx, id);
  }

  /** A scan shown as DONE whose sentinel has been applied is in the index as the tree that was found. */
  lemma DoneIsIndexed(maxConcurrent: nat, queueMax: nat, slots: nat, threads: nat, run: seq<Action>,
                      t: Db, id: nat, i: nat, p: string)
    requires maxConcurrent > 0 && queueMax > 0 && Legal(Init(maxConcurrent, queueMax, slots, threads), run)
    requires
      var d := After(Init(maxConcurrent, queueMax, slots, threads), run);
      && id in d.sched.state && d.sched.state[id].DONE? && Fresh(t, RootsOf(d.engine.ctx))
      && i < |d.engine.log| && d.engine.log[i].Sentinel? && d.engine.log[i].scan == id
    ensures
      var e := After(Init(maxConcurrent, queueMax, slots, threads), run).engine;
      && id in e.ctx
      && Mirrors(ApplyAll(t, e.log[..i + 1]).current, id, e.ctx[id].root, p)
  {
    hide Inv, After, Legal, Fresh, ApplyAll, Mirrors;
    Reachable(maxConcurrent, queueMax, slots, threads, run);
    var d := After(Init(maxConcurrent, queueMax, slots, threads), run);
    DoneSentinel(d, id, i);
    IndexAfterSentinel(d, t, i, p);
  }

  /** A canceled scan removes nothing, in any run; what it saw before the cancel is in the index. */
  lemma CanceledKeepsIndex(maxConcurrent: nat, queueMax: nat, slots: nat, threads: nat, run: seq<Action>,
                           t: Db, i: nat, p: string)
    requires maxConcurrent > 0 && queueMax > 0 && Legal(Init(maxConcurrent, queueMax, slots, threads), run)
    requires
      var e := After(Init(maxConcurrent, queueMax, slots, threads), run).engine;
      Fresh(t, RootsOf(e.ctx)) && i < |e.log| && e.log[i].Sentinel? && e.log[i].canceled
    ensures
      var e := After(Init(maxConcurrent, queueMax, slots, threads), run).engine;
      var log, s := e.log[..i], e.log[i].scan;
      var current, without := ApplyAll(t, e.log[..i + 1]).current, ApplyAll(t, Without(log, s)).current;
      && (!SawPath(log, s, p) ==> (p in current <==> p in without) && (p in current ==> current[p] == without[p]))
      && (forall ev :: Event(s, ev) in log && ev.path == p ==> p in current && current[p] == RowOf(s, ev))
  {
    hide Inv, After, Legal, Fresh, ApplyAll, Stream, DistinctEvents, SawPath, Without, RootsOf;
    Reachable(maxConcurrent, queueMax, slots, threads, run);
    var d := After(Init(maxConcurrent, queueMax, slots, threads), run);
    PrefixIsStream(d, i);
    CanceledRemovesNothing(t, d.engine.log[..i], RootsOf(d.engine.ctx), d.engine.log[i], p);
  }

  lemma PrefixIsStream(d: System, i: nat)
    requires Inv(d) && i < |d.engine.log|
    ensures
      var log, roots := d.engine.log, RootsOf(d.engine.ctx);
      && log[..i + 1] == log[..i] + [log[i]]
      && Stream(log[..i] + [log[i]], roots) && DistinctEvents(log[..i] + [log[i]])
  {
    hide Inv, Stream, DistinctEvents, RootsOf;
    LogIsStream(d);
    StreamTake(d.engine.log, RootsOf(d.engine.ctx), i + 1);
    DistinctTake(d.engine.log, i + 1);
    assert d.engine.log[..i + 1] == d.engine.log[..i] + [d.engine.log[i]];
  }

  /** The counts and total size stored with a sentinel are those of the events its scan sent, in any run. */
  lemma CountsInEveryRun(maxConcurrent: nat, queueMax: nat, slots: nat, threads: nat, run: seq<Action>, t: Db, i: nat)
    requires maxConcurrent > 0 && queueMax > 0 && Legal(Init(maxConcurrent, queueMax, slots, threads), run)
    requires
      var e := After(Init(maxConcurrent, queueMax, slots, threads), run).engine;
      Fresh(t, RootsOf(e.ctx)) && i < |e.log| && e.log[i].Sentinel?
    ensures
      var log := After(Init(maxConcurrent, queueMax, slots, threads), run).engine.log;
      var tasks, s := ApplyAll(t, log[..i + 1]).tasks, log[i].scan;
      s in tasks && tasks[s] == Task(log[i].root, EventCounts(EventsOf(log[..i], s)))
  {
    hide Inv, After, Legal, Fresh, ApplyAll, Stream, DistinctEvents, RootsOf, EventCounts, EventsOf;
    Reachable(maxConcurrent, queueMax, slots, threads, run);
    var d := After(Init(maxConcurrent, queueMax, slots, threads), run);
    PrefixIsStream(d, i);
    StoredCounts(t, d.engine.log[..i], RootsOf(d.engine.ctx), d.engine.log[i]);
  }

  // ----- a daemon at rest -----

  // No worker can step, everything sent has been applied, and every applied scan has been reported to the scheduler.
  ghost predicate AtRest(d: System) {
    && (forall w :: !Enabled(d, Pop(w)) && !Enabled(d, WorkerStep(w)))
    && !Enabled(d, Consume)
    && (forall id :: !Enabled(d, ExportDone(id)))
  }

  lemma EngineAtRest(d: System)
    requires Inv(d) && AtRest(d)
    ensures ET.NoneCanStep(d.engine)
  {
    hide Inv, E.Enabled;
    forall w ensures !E.Enabled(d.engine, E.Pop(w)) && !E.Enabled(d.engine, E.Step(w)) {
      assert !Enabled(d, Pop(w));
      if E.Enabled(d.engine, E.Step(w)) {
        WorkerNeverBlocked(d, w);
      }
    }
  }

  lemma {:induction false} SentinelCounted(log: seq<Msg>, s: nat)
    requires EM.CountSentinel(log, s) > 0
    ensures Closed(log, s)
  {
    var n := |log| - 1;
    if log[n].Sentinel? && log[n].scan == s {
      assert log[n].Sentinel?;
    } else {
      SentinelCounted(log[..n], s);
      ClosedLonger(log, n, s);
    }
  }

  lemma AllApplied(d: System, id: nat)
    requires Inv(d) && AtRest(d) && Closed(d.engine.log, id)
    ensures id in d.sched.exported
  {
    hide Inv, Closed;
    CallIsDispatched(d);
    assert !Enabled(d, Consume);
    assert d.engine.log[..d.consumed] == d.engine.log;
    if id !in d.sched.exported {
      assert !Enabled(d, ExportDone(id));
      ExportNeverBlocked(d, id);
    }
  }

  lemma AcceptedContext(d: System, id: nat)
    requires Inv(d) && id in d.sched.accepted
    ensures EI.Inv(d.engine) && id in d.engine.ctx && d.engine.ctx[id].accepted
  {
    hide EI.Inv, SP.Inv, ET.LogOk, CF.Flags, OpenScansApart, CancelLink, RootLink, NotifyLink, ExportLink, RootsOf;
  }

  lemma AcceptedIsExported(d: System, id: nat)
    requires Inv(d) && AtRest(d) && |d.engine.workers| > 0 && id in d.sched.accepted
    ensures id in d.sched.exported
  {
    hide Inv, AtRest, EI.Inv, ET.NoneCanStep, Closed;
    EngineAtRest(d);
    AcceptedContext(d, id);
    ET.RestFacts(d.engine, id);
    SentinelCounted(d.engine.log, id);
    AllApplied(d, id);
  }

  lemma ExportedIsAccepted(s: S.Sched)
    requires SP.Inv(s)
    ensures s.exported <= s.accepted
  {
    hide SP.QueueOk, SP.FrontOk, SP.WaitOk, SP.PendingOk, SP.CancelsOk, SP.RunningOk, SP.OrderOk, SP.LockOk;
  }

  /**
   A daemon at rest has exported exactly the scans its manager accepted; the roots it still holds are exactly those
   of submissions never accepted.
   */
  lemma RestReleasesAccepted(maxConcurrent: nat, queueMax: nat, slots: nat, threads: nat, run: seq<Action>)
    requires maxConcurrent > 0 && queueMax > 0 && threads > 0
    requires Legal(Init(maxConcurrent, queueMax, slots, threads), run)
    requires AtRest(After(Init(maxConcurrent, queueMax, slots, threads), run))
    ensures
      var s := After(Init(maxConcurrent, queueMax, slots, threads), run).sched;
      && s.exported == s.accepted
      && (forall r :: r in s.roots <==> exists i :: SP.Holds(s.entries, s.accepted, i, r))
  {
    hide Legal, After, AtRest, SP.Inv, EI.Inv, Links, SP.LockOk;
    var d := After(Init(maxConcurrent, queueMax, slots, threads), run);
    Reachable(maxConcurrent, queueMax, slots, threads, run);
    LimitsFixed(Init(maxConcurrent, queueMax, slots, threads), run);
    ExportedIsAccepted(d.sched);
    forall id | id in d.sched.accepted ensures id in d.sched.exported {
      AcceptedIsExported(d, id);
    }
    assert d.sched.exported == d.sched.accepted;
    LockOf(d.sched);
    LockedIffHeld(d.sched);
  }

  lemma LockedIffHeld(s: S.Sched)
    requires SP.LockOk(s.entries, s.exported, s.roots)
    ensures forall r :: r in s.roots <==> exists i :: SP.Holds(s.entries, s.exported, i, r)
  {
  }

  // ----- with one worker a root always finds a slot -----

  function RootJobs(q: seq<E.Job>): nat {
    if q == [] then 0 else RootJobs(q[..|q| - 1]) + (if q[|q| - 1].root then 1 else 0)
  }

  function RootScans(q: seq<E.Job>): set<nat> {
    set j | j in q && j.root :: j.scan
  }

  lemma {:induction false} JobsSplit(q: seq<E.Job>)
    ensures |q| == ET.QueuedNonRoot(q) + RootJobs(q)
  {
    if q != [] {
      JobsSplit(q[..|q| - 1]);
    }
  }

  lemma {:induction false} RootScanCounted(q: seq<E.Job>, s: nat)
    ensures s in RootScans(q) <==> EM.QueueMass(q, EM.RootJob(s)) > 0
  {
    if q != [] {
      var n := |q| - 1;
      RootScanCounted(q[..n], s);
      assert q == q[..n] + [q[n]];
      RootScansLast(q[..n], q[n]);
    }
  }

  lemma RootScansLast(q: seq<E.Job>, j: E.Job)
    ensures RootScans(q + [j]) == if j.root then RootScans(q) + {j.scan} else RootScans(q)
  {
    forall s ensures s in RootScans(q + [j]) <==> s in RootScans(q) || (j.root && s == j.scan) {
      if j.root && s == j.scan {
        assert (q + [j])[|q|] == j;
      }
      if s in RootScans(q) {
        var k :| k in q && k.root && k.scan == s;
        assert k in q + [j];
      }
    }
  }

  lemma {:induction false} OneRootJobEach(q: seq<E.Job>)
    requires forall s :: EM.QueueMass(q, EM.RootJob(s)) <= 1
    ensures RootJobs(q) == |RootScans(q)|
  {
    if q != [] {
      var n := |q| - 1;
      forall s ensures EM.QueueMass(q[..n], EM.RootJob(s)) <= EM.QueueMass(q, EM.RootJob(s)) {
      }
      OneRootJobEach(q[..n]);
      assert q == q[..n] + [q[n]];
      RootScansLast(q[..n], q[n]);
      if q[n].root {
        RootScanCounted(q[..n], q[n].scan);
      }
    } else {
      assert RootScans(q) == {};
    }
  }

  // A queued job that is not a root belongs to a scan with two units, if its root were queued as well.
  lemma {:induction false} NonRootUnits(q: seq<E.Job>, k: nat)
    requires k < |q| && !q[k].root
    ensures EM.QueueMass(q, EM.Unit(q[k].scan)) >= EM.QueueMass(q, EM.RootJob(q[k].scan)) + 1
  {
    var n := |q| - 1;
    if k < n {
      NonRootUnits(q[..n], k);
    } else {
      EI.QueueRootWithinUnits(q[..n], q[k].scan);
    }
  }

  lemma {:induction false} SomeNonRoot(q: seq<E.Job>) returns (k: nat)
    requires ET.QueuedNonRoot(q) > 0
    ensures k < |q| && !q[k].root
  {
    var n := |q| - 1;
    if !q[n].root {
      k := n;
    } else {
      k := SomeNonRoot(q[..n]);
    }
  }

  // A scan with a unit left is active.
  lemma UnitIsActive(e: E.Engine, s: nat)
    requires EI.Inv(e) && EM.QueueMass(e.queue, EM.Unit(s)) > 0
    ensures s in e.ctx && e.ctx[s].accepted && EM.CountNotify(e.notifies, s) == 0
  {
    assert EM.Balanced(e, EM.Unit(s));
    assert EM.Balanced(e, EM.Notify(s));
    assert EM.Balanced(e, EM.Live(s));
    UnitIsLive(e.queue, s);
  }

  lemma UnitIsLive(q: seq<E.Job>, s: nat)
    ensures EM.QueueMass(q, EM.Unit(s)) == EM.QueueMass(q, EM.Live(s))
  {
  }

  // The scans whose jobs are queued, the one being dispatched aside.
  function Waiting(s: S.Sched): set<nat> {
    ST.Active(s) - SP.Busy(s.disp)
  }

  lemma QueuedIsWaiting(d: System, s: nat)
    requires Inv(d) && d.sched.disp.Calling? && EM.QueueMass(d.engine.queue, EM.Unit(s)) > 0
    ensures s in Waiting(d.sched)
  {
    hide EI.Inv, SP.Inv, ET.LogOk, CF.Flags, OpenScansApart, CancelLink, RootLink, ExportLink, RootsOf;
    UnitIsActive(d.engine, s);
    DispatchedIsEntry(d.sched);
  }

  lemma RootScansWait(d: System)
    requires Inv(d) && d.sched.disp.Calling?
    ensures RootScans(d.engine.queue) <= Waiting(d.sched)
    ensures RootJobs(d.engine.queue) == |RootScans(d.engine.queue)|
  {
    hide SP.Inv, Links, Waiting, EM.QueueMass, RootScans;
    var e := d.engine;
    forall s ensures EM.QueueMass(e.queue, EM.RootJob(s)) <= 1 {
      assert EM.Balanced(e, EM.RootJob(s));
    }
    OneRootJobEach(e.queue);
    forall s | s in RootScans(e.queue) ensures s in Waiting(d.sched) {
      RootScanCounted(e.queue, s);
      EI.QueueRootWithinUnits(e.queue, s);
      QueuedIsWaiting(d, s);
    }
  }

  lemma NonRootScanWaits(d: System) returns (s: nat)
    requires Inv(d) && d.sched.disp.Calling? && ET.QueuedNonRoot(d.engine.queue) > 0
    ensures s in Waiting(d.sched) && s !in RootScans(d.engine.queue)
  {
    hide SP.Inv, Links, Waiting, EM.QueueMass, RootScans;
    var e := d.engine;
    var k := SomeNonRoot(e.queue);
    s := e.queue[k].scan;
    NonRootUnits(e.queue, k);
    RootScanCounted(e.queue, s);
    assert EM.Balanced(e, EM.RootJob(s));
    QueuedIsWaiting(d, s);
  }

  lemma SubsetSize<T>(a: set<T>, b: set<T>)
    requires a <= b
    ensures |a| <= |b|
  {
    assert b == a + (b - a);
  }

  lemma RootJobsBound(d: System)
    requires Inv(d) && d.sched.disp.Calling?
    ensures RootJobs(d.engine.queue) < d.sched.maxConcurrent
    ensures ET.QueuedNonRoot(d.engine.queue) > 0 ==> RootJobs(d.engine.queue) + 1 < d.sched.maxConcurrent
  {
    hide EI.Inv, SP.Inv, Links, RootScans, ST.Active;
    var roots, waiting := RootScans(d.engine.queue), Waiting(d.sched);
    RootScansWait(d);
    ST.ActiveSplit(d.sched);
    SubsetSize(roots, waiting);
    if ET.QueuedNonRoot(d.engine.queue) > 0 {
      var s := NonRootScanWaits(d);
      SubsetSize(roots + {s}, waiting);
    }
  }

  lemma SlotsLeft(e: E.Engine)
    requires EI.Inv(e) && |e.workers| <= 1 <= e.maxScans <= e.slots
    ensures ET.QueuedNonRoot(e.queue) <= e.slots - e.maxScans + 1
  {
    assert EM.Balanced(e, EM.Slot);
    ET.SlotsOfQueue(e.queue);
  }

  lemma RoomForRoot(d: System)
    requires Inv(d) && d.sched.disp.Calling? && (|d.engine.workers| <= 1 || d.engine.maxScans == 1)
    requires 1 <= d.engine.maxScans == d.sched.maxConcurrent <= d.engine.slots
    ensures |d.engine.queue| < d.engine.slots
  {
    hide EI.Inv, SP.Inv, Links, RootJobs, ET.QueuedNonRoot;
    JobsSplit(d.engine.queue);
    if |d.engine.workers| <= 1 {
      SlotsLeft(d.engine);
    }
    RootJobsBound(d);
  }

  ghost predicate SameLimits(d: System, d': System) {
    ET.SameConfig(d.engine, d'.engine) && d'.sched.maxConcurrent == d.sched.maxConcurrent
  }

  lemma DoKeepsLimits(d: System, a: Action)
    requires Enabled(d, a)
    ensures SameLimits(d, Do(d, a))
  {
    hide E.Do, S.Do, E.Enabled, S.Enabled;
    match a
    case Sched(x) => ST.LimitsKept(d.sched, x);
    case Available => AvailableEnabled(d.sched);
    case Start(node) => ET.DoKeepsConfig(d.engine, RootAction(d.sched.disp.entry, node));
    case Refuse => RefuseEnabled(d.sched); ST.LimitsKept(d.sched, S.Fail);
    case Dispatch =>
      ET.DoKeepsConfig(d.engine, E.RootStep);
      if Answers(d.engine) {
        RefuseEnabled(d.sched);
        ST.LimitsKept(d.sched, if Accepts(d.engine) then S.Accept else S.Full);
      }
    case Pop(w) => ET.DoKeepsConfig(d.engine, E.Pop(w));
    case WorkerStep(w) =>
      ET.DoKeepsConfig(d.engine, E.Step(w));
      if Tells(d.engine, w) {
        ST.LimitsKept(d.sched, S.Finished(E.Top(d.engine.workers[w]).scan));
      }
    case CancelCall(id) =>
      CancelEnabled(d.engine, id);
      ET.DoKeepsConfig(d.engine, E.Cancel(id));
      ST.LimitsKept(d.sched, S.CancelCall(id));
    case DispatcherCancel => DispatcherLimits(d);
    case Consume =>
    case ExportDone(id) => ST.LimitsKept(d.sched, S.ExportDone(id));
  }

  lemma DispatcherLimits(d: System)
    requires Enabled(d, DispatcherCancel)
    ensures SameLimits(d, Do(d, DispatcherCancel))
  {
    hide E.Do, S.Do;
    ET.DoKeepsConfig(d.engine, E.Cancel(d.sched.disp.id));
    ST.LimitsKept(d.sched, S.DispatcherCancel);
  }

  lemma {:induction false} LimitsFixed(d: System, run: seq<Action>)
    requires Legal(d, run)
    ensures SameLimits(d, After(d, run))
    decreases |run|
  {
    hide Do, Enabled;
    if run != [] {
      var n := |run| - 1;
      LimitsFixed(d, run[..n]);
      DoKeepsLimits(After(d, run[..n]), run[n]);
    }
  }

  /**
   With one worker, or with one scan at a time, and at least as many slots as concurrent scans, a root submission never
   finds the job queue full: the slots children leave free suffice for every scan the scheduler may start.
   */
  lemma RootNeverRefused(maxConcurrent: nat, queueMax: nat, slots: nat, threads: nat, run: seq<Action>)
    requires 0 < maxConcurrent <= slots && queueMax > 0 && (threads <= 1 || maxConcurrent == 1)
    requires Legal(Init(maxConcurrent, queueMax, slots, threads), run)
    ensures
      var d := After(Init(maxConcurrent, queueMax, slots, threads), run);
      d.engine.call.Added? ==> Accepts(d.engine)
  {
    hide Inv, After, Legal, Enabled, Do;
    var d0 := Init(maxConcurrent, queueMax, slots, threads);
    var d := After(d0, run);
    Reachable(maxConcurrent, queueMax, slots, threads, run);
    LimitsFixed(d0, run);
    if d.engine.call.Added? {
      CallIsDispatched(d);
      RoomForRoot(d);
    }
  }
}
