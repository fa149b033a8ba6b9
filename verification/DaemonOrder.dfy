/**
 Overlapping scans pass through the daemon strictly one after another, in the order of their submission; so
 the diff of every completed scan is right in every run.
 */
module DaemonOrder {
  import opened Paths
  import opened FileTree
  import opened Messages
  import opened Tables
  import opened Serial
  import opened Snapshot
  import opened DiffTheorem
  import opened StreamDiff
  import opened Daemon
  import opened DaemonInvariant
  import T = DaemonTheorems
  import S = SchedulerModel
  import SP = SchedulerProofs
  import E = ScanEngine
  import EI = EngineInvariant
  import ET = EngineTheorems
  import CF = CancelFlags

  type Entries = seq<S.PendingRoot>

  // A submission is accepted only after every earlier one that overlaps it was exported.
  ghost predicate OverlapOrder(entries: Entries, exported: set<nat>) {
    forall k, l :: 0 <= k < l < |entries| && PathsOverlap(entries[k].root, entries[l].root) ==>
      entries[k].id in exported
  }

  // Messages of overlapping scans come in the order of their submissions.
  ghost predicate LogOrder(log: seq<Msg>, entries: Entries) {
    forall i, j, k, l ::
      (&& 0 <= i < j < |log| && 0 <= k < |entries| && 0 <= l < |entries| && log[i].scan != log[j].scan
       && entries[k].id == log[i].scan && entries[l].id == log[j].scan
       && PathsOverlap(entries[k].root, entries[l].root))
      ==> k < l
  }

  ghost predicate Order(d: System) {
    OverlapOrder(d.sched.entries, d.sched.exported) && LogOrder(d.engine.log, d.sched.entries)
  }

  // ----- a new submission -----

  lemma SubmitOverlaps(s: S.Sched, id: nat, root: string)
    requires SP.LockOk(s.entries, s.exported, s.roots) && OverlapOrder(s.entries, s.exported)
    ensures var s' := S.DoSubmit(s, id, root); OverlapOrder(s'.entries, s'.exported)
  {
    if S.SubmitResult(s, id, root) == S.Ok {
      forall k | 0 <= k < |s.entries| && PathsOverlap(s.entries[k].root, root) ensures s.entries[k].id in s.exported {
        OverlapSymmetric(s.entries[k].root, root);
      }
    }
  }

  // The ids in the log are those of older entries.
  lemma SubmitLog(log: seq<Msg>, entries: Entries, e: S.PendingRoot)
    requires LogOrder(log, entries) && forall i :: 0 <= i < |log| ==> log[i].scan != e.id
    ensures LogOrder(log, entries + [e])
  {
    var all := entries + [e];
    forall i, j, k, l |
      0 <= i < j < |log| && 0 <= k < |all| && 0 <= l < |all| && log[i].scan != log[j].scan
      && all[k].id == log[i].scan && all[l].id == log[j].scan && PathsOverlap(all[k].root, all[l].root)
      ensures k < l
    {
      assert k < |entries| && l < |entries|;
      assert all[k] == entries[k] && all[l] == entries[l];
    }
  }

  // Every message's scan is known to the scheduler.
  lemma LogScansKnown(d: System, i: nat)
    requires Inv(d) && i < |d.engine.log|
    ensures d.engine.log[i].scan in d.sched.state
  {
    hide EI.Inv, CF.Flags, OpenScansApart, CallLink, NotifyLink, CancelLink, RootLink, ExportLink, NeverFailed,
         SP.QueueOk, SP.FrontOk, SP.WaitOk, SP.PendingOk, SP.CancelsOk, SP.RunningOk, SP.OrderOk, SP.LockOk;
    AcceptedOf(d.engine);
    assert d.engine.log[i].scan in d.sched.accepted;
  }

  lemma SubmitKeeps(d: System, id: nat, root: string)
    requires Inv(d) && Order(d) && Enabled(d, Sched(S.Submit(id, root)))
    ensures Order(Do(d, Sched(S.Submit(id, root))))
  {
    hide EI.Inv, SP.Inv, ET.LogOk, CF.Flags, Links, OverlapOrder, LogOrder, SP.LockOk;
    LockOf(d.sched);
    SubmitOverlaps(d.sched, id, root);
    if S.SubmitResult(d.sched, id, root) == S.Ok {
      forall i | 0 <= i < |d.engine.log| ensures d.engine.log[i].scan != id {
        LogScansKnown(d, i);
      }
      SubmitLog(d.engine.log, d.sched.entries, S.PendingRoot(id, root));
    }
  }

  // ----- a new message -----

  lemma MessageKeeps(log: seq<Msg>, log': seq<Msg>, entries: Entries, exported: set<nat>, s: nat)
    requires LogOrder(log, entries) && OverlapOrder(entries, exported) && Grows(log, log', s)
    requires log' != log ==> s !in exported
    ensures LogOrder(log', entries)
  {
    if log' != log {
      var n := |log|;
      assert forall i :: 0 <= i < n ==> log'[i] == log'[..n][i];
      forall i, j, k, l |
        0 <= i < j < |log'| && 0 <= k < |entries| && 0 <= l < |entries| && log'[i].scan != log'[j].scan
        && entries[k].id == log'[i].scan && entries[l].id == log'[j].scan
        && PathsOverlap(entries[k].root, entries[l].root)
        ensures k < l
      {
        if j < n {
          assert log'[i] == log[i] && log'[j] == log[j];
        } else {
          OverlapSymmetric(entries[k].root, entries[l].root);
        }
      }
    }
  }

  lemma WorkerKeeps(d: System, w: nat)
    requires Inv(d) && Order(d) && Enabled(d, WorkerStep(w))
    ensures Order(Do(d, WorkerStep(w)))
  {
    hide EI.Inv, SP.Inv, ET.LogOk, CF.Flags, E.Do, S.Do, OpenScansApart, CallLink, AcceptLink, NotifyLink, CancelLink,
         RootLink, NeverFailed, RootsOf, OverlapOrder, LogOrder, Grows, SameContexts, Told, StateMoves, Closed;
    var e, s := d.engine, E.Top(d.engine.workers[w]).scan;
    WorkerFrame(e, w);
    ToldFrame(d, w);
    PushesOpen(e, w);
    if s in d.sched.exported {
      ClosedLonger(e.log, d.consumed, s);
    }
    MessageKeeps(e.log, E.Do(e, E.Step(w)).log, d.sched.entries, d.sched.exported, s);
  }

  // ----- everything else -----

  ghost predicate Unmoved(d: System, d': System) {
    d'.sched.entries == d.sched.entries && d'.engine.log == d.engine.log && d.sched.exported <= d'.sched.exported
  }

  lemma MoreExported(d: System, d': System)
    requires Order(d) && Unmoved(d, d')
    ensures Order(d')
  {
  }

  lemma SchedulerUnmoved(s: S.Sched, a: S.Action)
    requires S.Enabled(s, a) && !a.Submit?
    ensures S.Do(s, a).entries == s.entries && s.exported <= S.Do(s, a).exported
  {
  }

  lemma EngineUnmoved(e: E.Engine, a: E.Action)
    requires E.Enabled(e, a) && !a.Step?
    ensures E.Do(e, a).log == e.log
  {
  }

  lemma DispatchUnmoved(d: System)
    requires Enabled(d, Dispatch)
    ensures Unmoved(d, Do(d, Dispatch))
  {
    hide E.Do, S.Do;
    EngineUnmoved(d.engine, E.RootStep);
    if Answers(d.engine) {
      SchedulerUnmoved(d.sched, if Accepts(d.engine) then S.Accept else S.Full);
    }
  }

  lemma OthersUnmoved(d: System, a: Action)
    requires Enabled(d, a) && !a.WorkerStep? && !a.Dispatch? && !(a.Sched? && a.a.Submit?)
    ensures Unmoved(d, Do(d, a))
  {
    hide E.Do, S.Do;
    match a
    case Sched(x) => SchedulerUnmoved(d.sched, x);
    case Available => AvailableEnabled(d.sched);
    case Start(node) => EngineUnmoved(d.engine, RootAction(d.sched.disp.entry, node));
    case Refuse => SchedulerUnmoved(d.sched, S.Fail);
    case Pop(w) => EngineUnmoved(d.engine, E.Pop(w));
    case CancelCall(id) => SchedulerUnmoved(d.sched, S.CancelCall(id)); EngineUnmoved(d.engine, E.Cancel(id));
    case DispatcherCancel =>
      SchedulerUnmoved(d.sched, S.DispatcherCancel);
      EngineUnmoved(d.engine, E.Cancel(d.sched.disp.id));
    case Consume =>
    case ExportDone(id) => SchedulerUnmoved(d.sched, S.ExportDone(id));
  }

  lemma DoKeepsOrder(d: System, a: Action)
    requires Inv(d) && Order(d) && Enabled(d, a)
    ensures Order(Do(d, a))
  {
    hide Inv, Order, Enabled, Do, Unmoved;
    if a.WorkerStep? {
      WorkerKeeps(d, a.w);
    } else if a.Sched? && a.a.Submit? {
      SubmitKeeps(d, a.a.id, a.a.root);
    } else {
      if a.Dispatch? {
        DispatchUnmoved(d);
      } else {
        OthersUnmoved(d, a);
      }
      MoreExported(d, Do(d, a));
    }
  }

  lemma {:induction false} RunKeepsOrder(d: System, run: seq<Action>)
    requires Inv(d) && Order(d) && Legal(d, run)
    ensures Order(After(d, run))
    decreases |run|
  {
    hide Inv, Order, Enabled, Do;
    if run != [] {
      var n := |run| - 1;
      RunKeepsOrder(d, run[..n]);
      RunKeeps(d, run[..n]);
      DoKeepsOrder(After(d, run[..n]), run[n]);
    }
  }

  /**
   Overlapping scans follow one another: of two messages of scans with overlapping roots, the earlier belongs
   to the earlier submission.
   */
  lemma OverlapsInSubmissionOrder(maxConcurrent: nat, queueMax: nat, slots: nat, threads: nat, run: seq<Action>)
    requires maxConcurrent > 0 && queueMax > 0 && Legal(Init(maxConcurrent, queueMax, slots, threads), run)
    ensures
      var d := After(Init(maxConcurrent, queueMax, slots, threads), run);
      LogOrder(d.engine.log, d.sched.entries)
  {
    hide Inv, Legal, After, LogOrder;
    InitInv(maxConcurrent, queueMax, slots, threads);
    InitOrder(maxConcurrent, queueMax, slots, threads);
    RunKeepsOrder(Init(maxConcurrent, queueMax, slots, threads), run);
  }

  lemma InitOrder(maxConcurrent: nat, queueMax: nat, slots: nat, threads: nat)
    requires maxConcurrent > 0 && queueMax > 0
    ensures Order(Init(maxConcurrent, queueMax, slots, threads))
  {
  }

  // ----- diffs, end to end -----

  /**
   The diff of every completed scan of every run, whatever the ids: a row exactly for the paths of the subtree whose
   fingerprint changed, labelled by what the query for the previous state finds, and right iff that row fits the state
   the path was in.
   */
  lemma ExactDiffInEveryRun(maxConcurrent: nat, queueMax: nat, slots: nat, threads: nat, run: seq<Action>,
                            t: Db, i: nat, p: string)
    requires maxConcurrent > 0 && queueMax > 0 && Legal(Init(maxConcurrent, queueMax, slots, threads), run)
    requires
      var e := After(Init(maxConcurrent, queueMax, slots, threads), run).engine;
      Prior(t, RootsOf(e.ctx)) && i < |e.log| && e.log[i].Sentinel? && !e.log[i].canceled
    ensures
      var log := After(Init(maxConcurrent, queueMax, slots, threads), run).engine.log;
      var before, after, s := Earlier(t, log[..i]), ApplyAll(t, log[..i + 1]), log[i].scan;
      var was, now, prev := RowAt(before.current, p), RowAt(after.current, p), Queried(before, s, p);
      if InSubtree(log[i].root, p) then
        && DiffAt(after, s, p) == Expected(was, now, prev)
        && (Right(was, now, DiffAt(after, s, p)) <==> Fits(was, now, prev))
      else DiffAt(after, s, p).None?
  {
    hide Inv, Legal, After, Stream, DistinctEvents, RootsOf, Prior, Right, ApplyAll, Earlier, RowAt, DiffAt,
         InSubtree, Fits,
         Expected, Queried;
    var d := After(Init(maxConcurrent, queueMax, slots, threads), run);
    Reachable(maxConcurrent, queueMax, slots, threads, run);
    T.PrefixIsStream(d, i);
    DiffInStream(t, d.engine.log[..i], RootsOf(d.engine.ctx), d.engine.log[i], p);
  }

  /** The diff of every canceled scan of every run, whatever the ids. */
  lemma CanceledDiffInEveryRun(maxConcurrent: nat, queueMax: nat, slots: nat, threads: nat, run: seq<Action>,
                               t: Db, i: nat, p: string)
    requires maxConcurrent > 0 && queueMax > 0 && Legal(Init(maxConcurrent, queueMax, slots, threads), run)
    requires
      var e := After(Init(maxConcurrent, queueMax, slots, threads), run).engine;
      Prior(t, RootsOf(e.ctx)) && i < |e.log| && e.log[i].Sentinel? && e.log[i].canceled
    ensures
      var log := After(Init(maxConcurrent, queueMax, slots, threads), run).engine.log;
      var before, after, s, root := Earlier(t, log[..i]), ApplyAll(t, log[..i + 1]), log[i].scan, log[i].root;
      var was, now, prev := RowAt(before.current, p), RowAt(after.current, p), Queried(before, s, p);
      var seen := SawPath(log[..i], s, p);
      if InSubtree(root, p) then
        DiffAt(after, s, p) == ExpectedCut(seen, Under(root, p), was, now, prev) && (!seen ==> was == now)
      else DiffAt(after, s, p).None?
  {
    hide Inv, Legal, After, Stream, DistinctEvents, RootsOf, Prior, ApplyAll, Earlier, RowAt, DiffAt, InSubtree,
         ExpectedCut, Queried, SawPath, Under;
    var d := After(Init(maxConcurrent, queueMax, slots, threads), run);
    Reachable(maxConcurrent, queueMax, slots, threads, run);
    T.PrefixIsStream(d, i);
    CanceledDiffInStream(t, d.engine.log[..i], RootsOf(d.engine.ctx), d.engine.log[i], p);
  }

  /**
   The history rows a sentinel of any run appends: one for each path under its root that was indexed and that its scan
   did not see, with the type, time and size it was indexed with.
   */
  lemma HistoryInEveryRun(maxConcurrent: nat, queueMax: nat, slots: nat, threads: nat, run: seq<Action>,
                          t: Db, i: nat, p: string)
    requires maxConcurrent > 0 && queueMax > 0 && Legal(Init(maxConcurrent, queueMax, slots, threads), run)
    requires
      var e := After(Init(maxConcurrent, queueMax, slots, threads), run).engine;
      Fresh(t, RootsOf(e.ctx)) && i < |e.log| && e.log[i].Sentinel?
    ensures
      var log := After(Init(maxConcurrent, queueMax, slots, threads), run).engine.log;
      var d, f, m := ApplyAll(t, log[..i]), ApplyAll(t, log[..i + 1]), log[i];
      var rows, rows' := HistoryOf(d.history, p), HistoryOf(f.history, p);
      if Under(m.root, p) && p in d.current && !SawPath(log[..i], m.scan, p) then
        && |rows'| == |rows| + 1 && rows'[..|rows|] == rows
        && MarksGone(rows'[|rows|], d.current[p], m.scan, m.canceled)
      else rows' == rows
  {
    hide Inv, Legal, After, Stream, DistinctEvents, RootsOf, Fresh, ApplyAll, HistoryOf, SawPath, Under, MarksGone;
    var d := After(Init(maxConcurrent, queueMax, slots, threads), run);
    Reachable(maxConcurrent, queueMax, slots, threads, run);
    T.PrefixIsStream(d, i);
    SentinelAppends(t, d.engine.log[..i], RootsOf(d.engine.ctx), d.engine.log[i], p);
  }

  /** The rows and labels of every error-free scan of every run balance, whatever the ids. */
  lemma RowsBalanceInEveryRun(maxConcurrent: nat, queueMax: nat, slots: nat, threads: nat, run: seq<Action>,
                              t: Db, i: nat)
    requires maxConcurrent > 0 && queueMax > 0 && Legal(Init(maxConcurrent, queueMax, slots, threads), run)
    requires
      var e := After(Init(maxConcurrent, queueMax, slots, threads), run).engine;
      && Prior(t, RootsOf(e.ctx)) && i < |e.log| && e.log[i].Sentinel? && !e.log[i].canceled
      && (forall ev :: Event(e.log[i].scan, ev) in e.log[..i] ==> ev.errno == 0)
    ensures
      var log := After(Init(maxConcurrent, queueMax, slots, threads), run).engine.log;
      var before, after, s, root := Earlier(t, log[..i]), ApplyAll(t, log[..i + 1]), log[i].scan, log[i].root;
      |InTree(after.current, root)| + |Labelled(after, s, DiffDeleted)| + |WronglyNew(before, after, s, root)|
      == |InTree(before.current, root)| + |Labelled(after, s, New)| + |MissedNew(before, after, s, root)|
  {
    hide Inv, Legal, After, Stream, DistinctEvents, RootsOf, Prior, ApplyAll, Earlier, InTree, Labelled, WronglyNew,
         MissedNew;
    var d := After(Init(maxConcurrent, queueMax, slots, threads), run);
    Reachable(maxConcurrent, queueMax, slots, threads, run);
    T.PrefixIsStream(d, i);
    RowsBalanceInStream(t, d.engine.log[..i], RootsOf(d.engine.ctx), d.engine.log[i]);
  }

  /** Errors in every run: in the index always, in the diff iff the path was not indexed with the same time and size. */
  lemma ErrorsInEveryRun(maxConcurrent: nat, queueMax: nat, slots: nat, threads: nat, run: seq<Action>,
                         t: Db, i: nat, ev: Ev)
    requires maxConcurrent > 0 && queueMax > 0 && Legal(Init(maxConcurrent, queueMax, slots, threads), run)
    requires
      var e := After(Init(maxConcurrent, queueMax, slots, threads), run).engine;
      && Prior(t, RootsOf(e.ctx)) && i < |e.log| && e.log[i].Sentinel? && !e.log[i].canceled
      && Event(e.log[i].scan, ev) in e.log[..i] && ev.errno != 0
    ensures
      var log := After(Init(maxConcurrent, queueMax, slots, threads), run).engine.log;
      var before, after, s, p := Earlier(t, log[..i]), ApplyAll(t, log[..i + 1]), log[i].scan, ev.path;
      var known := p in before.current && before.current[p].mtime == ev.mtime && before.current[p].size == ev.size;
      && p in after.current && after.current[p] == RowOf(s, ev) && after.current[p].state.Error?
      && (DiffAt(after, s, p).Some? <==> !known)
      && (!known ==> DiffAt(after, s, p).value.state.DiffError?)
  {
    hide Inv, Legal, After, Stream, DistinctEvents, RootsOf, Prior, ApplyAll, Earlier, DiffAt;
    var d := After(Init(maxConcurrent, queueMax, slots, threads), run);
    Reachable(maxConcurrent, queueMax, slots, threads, run);
    T.PrefixIsStream(d, i);
    ErrorReportedIff(t, d.engine.log[..i], RootsOf(d.engine.ctx), d.engine.log[i], ev);
  }

  // Of two overlapping submissions the later one has drawn the larger id. Others may pass each other.
  ghost predicate Ascending(entries: Entries) {
    forall k, l :: 0 <= k < l < |entries| && PathsOverlap(entries[k].root, entries[l].root) ==>
      entries[k].id < entries[l].id
  }

  lemma PairInOrder(log: seq<Msg>, entries: Entries, ctx: Contexts, i: nat, j: nat)
    requires LogOrder(log, entries) && Ascending(entries) && RootLink(entries, ctx)
    requires i < j < |log| && log[i].scan != log[j].scan && Meet(log[i].scan, log[j].scan, RootsOf(ctx))
    ensures log[i].scan < log[j].scan
  {
    hide PathsOverlap, WellFormed;
    var k :| 0 <= k < |entries| && entries[k] == S.PendingRoot(log[i].scan, ctx[log[i].scan].root.path);
    var l :| 0 <= l < |entries| && entries[l] == S.PendingRoot(log[j].scan, ctx[log[j].scan].root.path);
    assert k < l;
  }

  lemma LogIdsInOrder(log: seq<Msg>, entries: Entries, ctx: Contexts)
    requires LogOrder(log, entries) && Ascending(entries) && RootLink(entries, ctx)
    ensures IdsInOrder(log, RootsOf(ctx))
  {
    hide LogOrder, Ascending, RootLink, RootsOf, Meet;
    forall i, j | 0 <= i < j < |log| && log[i].scan != log[j].scan && Meet(log[i].scan, log[j].scan, RootsOf(ctx))
      ensures log[i].scan < log[j].scan
    {
      PairInOrder(log, entries, ctx, i, j);
    }
  }

  lemma IdsTake(log: seq<Msg>, roots: Roots, n: nat)
    requires IdsInOrder(log, roots) && n <= |log|
    ensures IdsInOrder(log[..n], roots)
  {
  }

  lemma RootLinkOf(d: System)
    requires Inv(d)
    ensures RootLink(d.sched.entries, d.engine.ctx)
  {
    hide Parts, OpenScansApart;
  }

  lemma StreamReady(d: System, i: nat)
    requires Inv(d) && LogOrder(d.engine.log, d.sched.entries) && Ascending(d.sched.entries) && i < |d.engine.log|
    ensures
      var log, roots := d.engine.log, RootsOf(d.engine.ctx);
      && log[..i + 1] == log[..i] + [log[i]]
      && Stream(log[..i] + [log[i]], roots) && DistinctEvents(log[..i] + [log[i]])
      && IdsInOrder(log[..i] + [log[i]], roots)
  {
    hide Inv, LogOrder, Ascending, RootLink, Stream, DistinctEvents, IdsInOrder, RootsOf;
    var log, roots := d.engine.log, RootsOf(d.engine.ctx);
    RootLinkOf(d);
    LogIdsInOrder(log, d.sched.entries, d.engine.ctx);
    T.LogIsStream(d);
    T.StreamTake(log, roots, i + 1);
    T.DistinctTake(log, i + 1);
    IdsTake(log, roots, i + 1);
    assert log[..i + 1] == log[..i] + [log[i]];
  }

  /**
   Diff correctness in every run, ids of overlapping submissions being in their order: an uncanceled sentinel labels
   each path of its subtree exactly according to index_current before and after the scan, and nothing outside it.
   */
  lemma DiffInEveryRun(maxConcurrent: nat, queueMax: nat, slots: nat, threads: nat, run: seq<Action>,
                       t: Db, i: nat, p: string)
    requires maxConcurrent > 0 && queueMax > 0 && Legal(Init(maxConcurrent, queueMax, slots, threads), run)
    requires
      var d := After(Init(maxConcurrent, queueMax, slots, threads), run);
      && Past(t, RootsOf(d.engine.ctx)) && Ascending(d.sched.entries)
      && i < |d.engine.log| && d.engine.log[i].Sentinel? && !d.engine.log[i].canceled
    ensures
      var log := After(Init(maxConcurrent, queueMax, slots, threads), run).engine.log;
      var before, after := Earlier(t, log[..i]), ApplyAll(t, log[..i + 1]);
      if InSubtree(log[i].root, p)
      then Right(RowAt(before.current, p), RowAt(after.current, p), DiffAt(after, log[i].scan, p))
      else DiffAt(after, log[i].scan, p).None?
  {
    hide Inv, Legal, After, LogOrder, Ascending, Stream, DistinctEvents, IdsInOrder, RootsOf, Past, Right, ApplyAll,
         Earlier, RowAt, DiffAt, InSubtree;
    var d := After(Init(maxConcurrent, queueMax, slots, threads), run);
    Reachable(maxConcurrent, queueMax, slots, threads, run);
    OverlapsInSubmissionOrder(maxConcurrent, queueMax, slots, threads, run);
    StreamReady(d, i);
    DiffOfStream(t, d.engine.log[..i], RootsOf(d.engine.ctx), d.engine.log[i], p);
  }

  /** And for an error-free scan of any run: rows after = rows before + New - Deleted in the subtree. */
  lemma RowsConservedInEveryRun(maxConcurrent: nat, queueMax: nat, slots: nat, threads: nat, run: seq<Action>,
                                t: Db, i: nat)
    requires maxConcurrent > 0 && queueMax > 0 && Legal(Init(maxConcurrent, queueMax, slots, threads), run)
    requires
      var d := After(Init(maxConcurrent, queueMax, slots, threads), run);
      && Past(t, RootsOf(d.engine.ctx)) && Ascending(d.sched.entries)
      && i < |d.engine.log| && d.engine.log[i].Sentinel? && !d.engine.log[i].canceled
      && (forall ev :: Event(d.engine.log[i].scan, ev) in d.engine.log[..i] ==> ev.errno == 0)
    ensures
      var log := After(Init(maxConcurrent, queueMax, slots, threads), run).engine.log;
      var before, after, s, root := Earlier(t, log[..i]), ApplyAll(t, log[..i + 1]), log[i].scan, log[i].root;
      |InTree(after.current, root)| + |Labelled(after, s, DiffDeleted)|
      == |InTree(before.current, root)| + |Labelled(after, s, New)|
  {
    hide Inv, Legal, After, LogOrder, Ascending, Stream, DistinctEvents, IdsInOrder, RootsOf, Past, ApplyAll, Earlier,
         InTree, Labelled;
    var d := After(Init(maxConcurrent, queueMax, slots, threads), run);
    Reachable(maxConcurrent, queueMax, slots, threads, run);
    OverlapsInSubmissionOrder(maxConcurrent, queueMax, slots, threads, run);
    StreamReady(d, i);
    RowsConservedInStream(t, d.engine.log[..i], RootsOf(d.engine.ctx), d.engine.log[i]);
  }
}
