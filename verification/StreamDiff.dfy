/**
 Diff correctness for the interleaved stream: what a completed scan's diff says, although other scans were
 being written at the same time. "Before" are the tables of all scans that finished earlier.
 */
module StreamDiff {
  import opened Paths
  import opened FileTree
  import opened Messages
  import opened Options
  import opened Tables
  import opened Serial
  import opened Snapshot
  import opened DiffTheorem

  predicate Meet(x: nat, y: nat, roots: Roots) {
    x in roots && y in roots && PathsOverlap(roots[x], roots[y])
  }

  // Of two overlapping scans, the later one has the larger id.
  ghost predicate IdsInOrder(log: seq<Msg>, roots: Roots) {
    forall i, j :: 0 <= i < j < |log| && log[i].scan != log[j].scan && Meet(log[i].scan, log[j].scan, roots) ==>
      log[i].scan < log[j].scan
  }

  ghost predicate Increasing(rows: seq<Row>) {
    forall i, j :: 0 <= i < j < |rows| ==> rows[i].scan < rows[j].scan
  }

  ghost predicate Old(x: nat, roots: Roots) {
    forall s :: s in roots ==> x < s
  }

  // The tables hold nothing of the scans to come.
  ghost predicate Prior(t: Db, roots: Roots) {
    Fresh(t, roots) && forall s, k :: s in roots ==> (s, k) !in t.diffs
  }

  // And all they hold is of earlier scans, consistently.
  ghost predicate Past(t: Db, roots: Roots) {
    && Prior(t, roots) && Agree(t)
    && (forall p :: Increasing(HistoryOf(t.history, p)))
    && (forall p, k :: 0 <= k < |HistoryOf(t.history, p)| ==> Old(HistoryOf(t.history, p)[k].scan, roots))
  }

  // ----- where history rows come from -----

  predicate Spoke(log: seq<Msg>, s: nat) {
    exists i :: 0 <= i < |log| && log[i].scan == s
  }

  ghost predicate KnownRow(row: Row, p: string, log: seq<Msg>, roots: Roots) {
    Old(row.scan, roots) || (Spoke(log, row.scan) && row.scan in roots && InSubtree(roots[row.scan], p))
  }

  ghost predicate Known(rows: seq<Row>, p: string, log: seq<Msg>, roots: Roots) {
    forall k :: 0 <= k < |rows| ==> KnownRow(rows[k], p, log, roots)
  }

  // A message appends at most one row to a path's history, its own and inside its subtree.
  ghost predicate Appends(rows: seq<Row>, rows': seq<Row>, p: string, m: Msg, roots: Roots) {
    rows' == rows ||
    (&& |rows'| == |rows| + 1 && rows'[..|rows|] == rows && rows'[|rows|].scan == m.scan
     && m.scan in roots && InSubtree(roots[m.scan], p))
  }

  lemma HistoryStep(d: Db, m: Msg, roots: Roots, p: string)
    requires Placed(m, roots)
    ensures Appends(HistoryOf(d.history, p), HistoryOf(Apply(d, m).history, p), p, m, roots)
  {
    if m.Sentinel? {
      MarkedHistory(d, m.scan, m.root, m.canceled, p);
    }
  }

  lemma KnownGrows(row: Row, p: string, log: seq<Msg>, m: Msg, roots: Roots)
    requires KnownRow(row, p, log, roots)
    ensures KnownRow(row, p, log + [m], roots)
  {
    if !Old(row.scan, roots) {
      var i :| 0 <= i < |log| && log[i].scan == row.scan;
      assert (log + [m])[i].scan == row.scan;
    }
  }

  lemma KnownStep(rows: seq<Row>, rows': seq<Row>, p: string, log: seq<Msg>, m: Msg, roots: Roots)
    requires Known(rows, p, log, roots) && Appends(rows, rows', p, m, roots)
    ensures Known(rows', p, log + [m], roots)
  {
    forall k | 0 <= k < |rows'| ensures KnownRow(rows'[k], p, log + [m], roots) {
      if k < |rows| {
        assert rows'[k] == rows'[..|rows|][k];
        KnownGrows(rows[k], p, log, m, roots);
      } else {
        assert (log + [m])[|log|].scan == rows'[k].scan;
      }
    }
  }

  lemma PastKnown(t: Db, roots: Roots, p: string)
    requires Past(t, roots)
    ensures Known(HistoryOf(t.history, p), p, [], roots)
  {
    hide Prior, Agree, Increasing;
  }

  lemma {:induction false} HistoryKnown(t: Db, log: seq<Msg>, roots: Roots, p: string)
    requires Past(t, roots) && AllPlaced(log, roots)
    ensures Known(HistoryOf(ApplyAll(t, log).history, p), p, log, roots)
  {
    if log == [] {
      PastKnown(t, roots, p);
    } else {
      hide Past, Apply, ApplyAll, Known, Placed, HistoryOf, Appends;
      var n := |log| - 1;
      var init, m := log[..n], log[n];
      assert init + [m] == log;
      HistoryKnown(t, init, roots, p);
      ApplySnoc(t, init, m);
      HistoryStep(ApplyAll(t, init), m, roots, p);
      KnownStep(HistoryOf(ApplyAll(t, init).history, p), HistoryOf(ApplyAll(t, log).history, p), p, init, m, roots);
    }
  }

  // Every row where m may write is not newer than m.
  lemma EarlierRows(rows: seq<Row>, p: string, log: seq<Msg>, m: Msg, roots: Roots, k: nat)
    requires Known(rows, p, log, roots) && IdsInOrder(log + [m], roots) && k < |rows|
    requires m.scan in roots && InSubtree(roots[m.scan], p)
    ensures rows[k].scan <= m.scan
  {
    assert KnownRow(rows[k], p, log, roots);
    if !Old(rows[k].scan, roots) && rows[k].scan != m.scan {
      var i :| 0 <= i < |log| && log[i].scan == rows[k].scan;
      CommonPathOverlaps(roots[rows[k].scan], roots[m.scan], p);
      assert (log + [m])[i] == log[i] && (log + [m])[|log|] == m;
    }
  }

  lemma IncreasingStep(rows: seq<Row>, rows': seq<Row>, p: string, log: seq<Msg>, m: Msg, roots: Roots)
    requires Increasing(rows) && Known(rows, p, log, roots) && Appends(rows, rows', p, m, roots)
    requires IdsInOrder(log + [m], roots) && DistinctScans(rows')
    ensures Increasing(rows')
  {
    if rows' != rows {
      var n := |rows|;
      assert forall k :: 0 <= k < n ==> rows'[k] == rows'[..n][k];
      forall k | 0 <= k < n ensures rows'[k].scan < rows'[n].scan {
        EarlierRows(rows, p, log, m, roots, k);
      }
    }
  }

  lemma IdsPrefix(log: seq<Msg>, m: Msg, roots: Roots)
    requires IdsInOrder(log + [m], roots)
    ensures IdsInOrder(log, roots)
  {
    forall i, j | 0 <= i < j < |log| && log[i].scan != log[j].scan && Meet(log[i].scan, log[j].scan, roots)
      ensures log[i].scan < log[j].scan
    {
      assert (log + [m])[i] == log[i] && (log + [m])[j] == log[j];
    }
  }

  /** Every path's history stays in scan order. */
  lemma {:induction false} HistoryIncreasing(t: Db, log: seq<Msg>, roots: Roots, p: string)
    requires Past(t, roots) && Stream(log, roots) && DistinctEvents(log) && IdsInOrder(log, roots)
    ensures Increasing(HistoryOf(ApplyAll(t, log).history, p))
  {
    if log != [] {
      var n := |log| - 1;
      var init, m := log[..n], log[n];
      assert init + [m] == log && Placed(m, roots);
      StreamPrefix(log, roots);
      IdsPrefix(init, m, roots);
      HistoryIncreasing(t, init, roots, p);
      HistoryKnown(t, init, roots, p);
      HistoryKeysUnique(t, log, roots);
      hide Past, Apply, ApplyAll, Known, Placed, HistoryOf, Appends, Stream, DistinctEvents, IdsInOrder, Increasing,
           DistinctScans;
      ApplySnoc(t, init, m);
      HistoryStep(ApplyAll(t, init), m, roots, p);
      IncreasingStep(HistoryOf(ApplyAll(t, init).history, p), HistoryOf(ApplyAll(t, log).history, p), p, init, m,
                     roots);
    }
  }

  lemma {:induction false} HistoryGrows(d: Db, log: seq<Msg>, p: string)
    ensures HistoryOf(d.history, p) <= HistoryOf(ApplyAll(d, log).history, p)
  {
    if log != [] {
      var n := |log| - 1;
      HistoryGrows(d, log[..n], p);
      var m := log[n];
      if m.Sentinel? {
        MarkedHistory(ApplyAll(d, log[..n]), m.scan, m.root, m.canceled, p);
      }
    }
  }

  // ----- a scan that has not spoken -----

  ghost predicate Untouched(t: Db, s: nat) {
    && (forall p :: !RowsInside(HistoryOf(t.history, p), s))
    && (forall p :: p in t.current ==> t.current[p].scan != s)
    && (forall k :: (s, k) !in t.diffs)
  }

  lemma UntouchedStep(d: Db, m: Msg, s: nat)
    requires Untouched(d, s) && m.scan != s
    ensures Untouched(Apply(d, m), s)
  {
    var d' := Apply(d, m);
    forall p ensures !RowsInside(HistoryOf(d'.history, p), s) {
      assert !RowsInside(HistoryOf(d.history, p), s);
      if m.Sentinel? {
        MarkDeletedLocal(d, m.scan, m.root, m.canceled, s, p);
      }
    }
  }

  lemma {:induction false} SilentScan(t: Db, log: seq<Msg>, s: nat)
    requires Untouched(t, s) && !Spoke(log, s)
    ensures Untouched(ApplyAll(t, log), s)
  {
    if log != [] {
      var n := |log| - 1;
      assert !Spoke(log[..n], s) && log[n].scan != s;
      SilentScan(t, log[..n], s);
      UntouchedStep(ApplyAll(t, log[..n]), log[n], s);
    }
  }

  lemma {:induction false} NotAmong(log: seq<Msg>, s: nat)
    requires Only(log, s) == []
    ensures !Spoke(log, s)
  {
    if log != [] {
      var n := |log| - 1;
      NotAmong(log[..n], s);
      assert log[n].scan != s;
    }
  }

  // ----- events that lie elsewhere -----

  lemma {:induction false} EventsAway(d: Db, log: seq<Msg>, p: string)
    requires forall k :: 0 <= k < |log| ==> log[k].Event? && log[k].ev.path != p
    ensures SameAt(ApplyAll(d, log), d, p)
  {
    if log != [] {
      EventsAway(d, log[..|log| - 1], p);
    }
  }

  lemma {:induction false} EventsKeepDiffs(d: Db, log: seq<Msg>)
    requires forall k :: 0 <= k < |log| ==> log[k].Event?
    ensures ApplyAll(d, log).diffs == d.diffs
  {
    if log != [] {
      EventsKeepDiffs(d, log[..|log| - 1]);
    }
  }

  // ----- the block of the finishing scan -----

  lemma {:induction false} OnlyIsBlock(log: seq<Msg>, s: nat)
    requires !Closed(log, s)
    ensures Only(log, s) == Block(s, EventsOf(log, s))
  {
    if log != [] {
      var n := |log| - 1;
      ClosedGrows(log, s);
      OnlyIsBlock(log[..n], s);
      var evs := EventsOf(log[..n], s);
      if log[n].scan == s {
        assert (evs + [log[n].ev])[..|evs|] == evs;
      } else {
        assert EventsOf(log, s) == evs + [] == evs;
      }
    }
  }

  ghost function Earlier(t: Db, log: seq<Msg>): Db {
    ApplyAll(t, Finished(log))
  }

  // The scan as one block on top of everything that finished before it.
  ghost function OwnBlock(t: Db, log: seq<Msg>, m: Msg): Db {
    ApplyAll(Earlier(t, log), Block(m.scan, EventsOf(log, m.scan)) + [m])
  }

  // What is still open when the sentinel comes.
  function StillOpen(log: seq<Msg>, s: nat): seq<Msg> {
    Without(Pending(log), s)
  }

  lemma OpenBefore(log: seq<Msg>, roots: Roots, m: Msg)
    requires Stream(log + [m], roots) && m.Sentinel?
    ensures SentinelsLast(log) && !Closed(log, m.scan)
  {
    var log' := log + [m];
    assert log'[..|log|] == log;
    StreamPrefix(log', roots);
    if Closed(log, m.scan) {
      ClosedIsSilent(log', m.scan);
    }
  }

  lemma SerialOfSentinel(log: seq<Msg>, m: Msg)
    requires m.Sentinel?
    ensures SerialOrder(log + [m]) == Finished(log) + (Only(Pending(log), m.scan) + [m]) + StillOpen(log, m.scan)
  {
    assert (log + [m])[..|log|] == log;
    assert Finished(log + [m]) == Finished(log) + (Only(Pending(log), m.scan) + [m]);
  }

  lemma AsBlock(t: Db, log: seq<Msg>, roots: Roots, m: Msg)
    requires Local(t, roots) && Stream(log + [m], roots) && m.Sentinel?
    ensures ApplyAll(t, log + [m]) == ApplyAll(OwnBlock(t, log, m), StillOpen(log, m.scan))
    ensures !Closed(log, m.scan)
  {
    hide ApplyAll, Stream, Local, Only, Pending, Finished, Closed, StillOpen, Block, SerialOrder, SentinelsLast;
    var s := m.scan;
    OpenBefore(log, roots, m);
    Serialisable(t, log + [m], roots);
    SerialOfSentinel(log, m);
    WhereMessagesAre(log, s);
    OnlyIsBlock(log, s);
    var own := Only(Pending(log), s) + [m];
    ApplyAppend(t, Finished(log), own);
    ApplyAppend(t, Finished(log) + own, StillOpen(log, s));
  }

  lemma FinishedIsSilent(log: seq<Msg>, s: nat)
    requires SentinelsLast(log) && !Closed(log, s)
    ensures !Spoke(Finished(log), s)
  {
    WhereMessagesAre(log, s);
    NotAmong(Finished(log), s);
  }

  lemma EarlierHistory(t: Db, log: seq<Msg>, roots: Roots, p: string)
    requires Local(t, roots) && Stream(log, roots)
    ensures HistoryOf(Earlier(t, log).history, p) <= HistoryOf(ApplyAll(t, log).history, p)
  {
    hide ApplyAll, HistoryOf, Stream, Local, Finished, Pending;
    Serialisable(t, log, roots);
    ApplyAppend(t, Finished(log), Pending(log));
    HistoryGrows(Earlier(t, log), Pending(log), p);
  }

  lemma EarlierOlder(t: Db, log: seq<Msg>, roots: Roots, m: Msg, p: string)
    requires Past(t, roots) && Stream(log + [m], roots) && DistinctEvents(log + [m]) && IdsInOrder(log + [m], roots)
    requires m.scan in roots && InSubtree(roots[m.scan], p) && Untouched(Earlier(t, log), m.scan)
    ensures Older(HistoryOf(Earlier(t, log).history, p), m.scan)
  {
    assert (log + [m])[..|log|] == log;
    StreamPrefix(log + [m], roots);
    IdsPrefix(log, m, roots);
    PrefixDistinct(log, m);
    FreshIsLocal(t, roots);
    HistoryIncreasing(t, log, roots, p);
    HistoryKnown(t, log, roots, p);
    EarlierHistory(t, log, roots, p);
    OlderPrefix(HistoryOf(Earlier(t, log).history, p), HistoryOf(ApplyAll(t, log).history, p), p, log, m, roots);
  }

  lemma PrefixDistinct(log: seq<Msg>, m: Msg)
    requires DistinctEvents(log + [m])
    ensures DistinctEvents(log)
  {
    var log' := log + [m];
    forall i, j | 0 <= i < j < |log| && log[i].Event? && log[j].Event? && log[i].scan == log[j].scan
      ensures log[i].ev.path != log[j].ev.path
    {
      assert log'[i] == log[i] && log'[j] == log[j];
    }
  }

  lemma OlderPrefix(rows: seq<Row>, all: seq<Row>, p: string, log: seq<Msg>, m: Msg, roots: Roots)
    requires rows <= all && Increasing(all) && Known(all, p, log, roots) && IdsInOrder(log + [m], roots)
    requires m.scan in roots && InSubtree(roots[m.scan], p) && !RowsInside(rows, m.scan)
    ensures Older(rows, m.scan)
  {
    forall k | 0 <= k < |rows| ensures rows[k].scan < m.scan {
      EarlierRows(all, p, log, m, roots, k);
      assert all[k] == rows[k];
    }
    assert forall k :: 0 <= k < |rows| ==> rows[k] == all[k];
  }

  lemma EarlierUntouched(t: Db, log: seq<Msg>, roots: Roots, s: nat)
    requires Prior(t, roots) && SentinelsLast(log) && !Closed(log, s) && s in roots
    ensures Untouched(Earlier(t, log), s)
  {
    FinishedIsSilent(log, s);
    assert Untouched(t, s);
    hide Untouched, Prior, Spoke, Closed, SentinelsLast;
    SilentScan(t, Finished(log), s);
  }

  lemma EventsPlaced(log: seq<Msg>, roots: Roots, s: nat)
    requires AllPlaced(log, roots) && s in roots
    ensures AllInSubtree(roots[s], EventsOf(log, s))
  {
    EventsOfMembers(log, s);
    var evs := EventsOf(log, s);
    forall i | 0 <= i < |evs| ensures InSubtree(roots[s], evs[i].path) {
      assert evs[i] in evs;
      var k :| 0 <= k < |log| && log[k] == Event(s, evs[i]);
      assert Placed(log[k], roots);
    }
  }

  lemma BlockReady(t: Db, log: seq<Msg>, roots: Roots, m: Msg)
    requires Prior(t, roots) && Stream(log + [m], roots) && DistinctEvents(log + [m])
    requires m.Sentinel? && !Closed(log, m.scan)
    ensures Ready(Earlier(t, log), m.scan, m.root, EventsOf(log, m.scan))
    ensures m.scan in roots && roots[m.scan] == m.root && Untouched(Earlier(t, log), m.scan)
  {
    var s := m.scan;
    assert (log + [m])[..|log|] == log && (log + [m])[|log|] == m;
    assert Placed((log + [m])[|log|], roots);
    StreamPrefix(log + [m], roots);
    hide Prior, DistinctEvents, ApplyAll, Finished, HistoryOf, DistinctPaths, AllInSubtree, EventsOf, Closed;
    EarlierUntouched(t, log, roots, s);
    PrefixDistinct(log, m);
    EventsOfDistinct(log, s);
    EventsPlaced(log, roots, s);
  }

  lemma BlockInOrder(t: Db, log: seq<Msg>, roots: Roots, m: Msg)
    requires Past(t, roots) && Stream(log + [m], roots) && DistinctEvents(log + [m]) && IdsInOrder(log + [m], roots)
    requires m.Sentinel? && !Closed(log, m.scan)
    ensures InOrder(Earlier(t, log), m.scan, m.root)
  {
    IndexAgreesWithHistory(t, Finished(log));
    hide Prior, Stream, DistinctEvents, IdsInOrder, Agree, ApplyAll, Finished, Older, HistoryOf, EventsOf, Closed,
         Untouched,
         Ready;
    BlockReady(t, log, roots, m);
    forall p | InSubtree(m.root, p) ensures Older(HistoryOf(Earlier(t, log).history, p), m.scan) {
      EarlierOlder(t, log, roots, m, p);
    }
  }

  lemma OpenElsewhere(log: seq<Msg>, roots: Roots, m: Msg, p: string)
    requires Stream(log + [m], roots) && m.Sentinel?
    ensures
      var w := StillOpen(log, m.scan);
      forall k :: 0 <= k < |w| ==> w[k].Event? && (InSubtree(m.root, p) ==> w[k].ev.path != p)
  {
    var log', n := log + [m], |log|;
    assert log'[..n] == log && log'[n] == m;
    SentinelApart(log', roots);
    assert Placed(log'[n], roots);
    var w := StillOpen(log, m.scan);
    forall k | 0 <= k < |w| ensures w[k].Event? && (InSubtree(m.root, p) ==> w[k].ev.path != p) {
      assert Placed(w[k], roots) && Apart(w[k], m, roots);
      OverlapIffSubtreesMeet(roots[w[k].scan], roots[m.scan]);
    }
  }

  // After the sentinel, the subtree and the diffs are as the block alone left them.
  lemma AfterIsBlock(t: Db, log: seq<Msg>, roots: Roots, m: Msg, p: string)
    requires Local(t, roots) && Stream(log + [m], roots) && m.Sentinel?
    ensures
      var after, own := ApplyAll(t, log + [m]), OwnBlock(t, log, m);
      after.diffs == own.diffs && (InSubtree(m.root, p) ==> SameAt(after, own, p))
  {
    AsBlock(t, log, roots, m);
    OpenElsewhere(log, roots, m, p);
    hide Local, Stream, OwnBlock, ApplyAll, StillOpen, SameAt, InSubtree;
    EventsKeepDiffs(OwnBlock(t, log, m), StillOpen(log, m.scan));
    if InSubtree(m.root, p) {
      EventsAway(OwnBlock(t, log, m), StillOpen(log, m.scan), p);
    }
  }

  lemma SameRows(a: Db, b: Db, p: string)
    requires SameAt(a, b, p)
    ensures RowAt(a.current, p) == RowAt(b.current, p)
  {
  }

  lemma PriorIsLocal(t: Db, roots: Roots)
    requires Prior(t, roots)
    ensures Local(t, roots)
  {
    FreshIsLocal(t, roots);
  }

  // The row that the query for the previous state finds at p, when scan s is finalised.
  ghost function Queried(before: Db, s: nat, p: string): Option<Row> {
    Previous(HistoryOf(before.history, p), s)
  }

  /**
   The diff in the interleaved stream, whatever the ids. "Before" are the tables of all scans finished earlier. Inside
   its subtree a completed scan has a diff row exactly for the paths whose fingerprint changed, labelled by what the
   query for the previous state finds, and so right iff that row fits the state the path was in. Outside it has none.
   */
  lemma DiffInStream(t: Db, log: seq<Msg>, roots: Roots, m: Msg, p: string)
    requires Prior(t, roots) && Stream(log + [m], roots) && DistinctEvents(log + [m]) && m.Sentinel? && !m.canceled
    ensures
      var before, after := Earlier(t, log), ApplyAll(t, log + [m]);
      var was, now, prev := RowAt(before.current, p), RowAt(after.current, p), Queried(before, m.scan, p);
      if InSubtree(m.root, p) then
        && DiffAt(after, m.scan, p) == Expected(was, now, prev)
        && (Right(was, now, DiffAt(after, m.scan, p)) <==> Fits(was, now, prev))
      else DiffAt(after, m.scan, p).None?
  {
    hide Prior, Local, Stream, DistinctEvents, ApplyAll, Ready, Right, Earlier, Block, InSubtree, EventsOf, Closed,
         SameAt,
         Untouched, Expected, Previous, RowAt, Fits;
    PriorIsLocal(t, roots);
    AsBlock(t, log, roots, m);
    BlockReady(t, log, roots, m);
    AfterIsBlock(t, log, roots, m, p);
    assert m == Sentinel(m.scan, false, m.root);
    var before, own, after := Earlier(t, log), OwnBlock(t, log, m), ApplyAll(t, log + [m]);
    DiffExact(before, m.scan, m.root, EventsOf(log, m.scan), p);
    SameDiffs(after, own, m.scan, p);
    if InSubtree(m.root, p) {
      SameRows(after, own, p);
      RightIff(RowAt(before.current, p), RowAt(after.current, p), Queried(before, m.scan, p));
    } else {
      ExpectedNothing(RowAt(before.current, p), Queried(before, m.scan, p));
    }
  }

  lemma SameDiffs(a: Db, b: Db, s: nat, p: string)
    requires a.diffs == b.diffs
    ensures DiffAt(a, s, p) == DiffAt(b, s, p)
  {
  }

  lemma ExpectedNothing(row: Option<Row>, prev: Option<Row>)
    ensures Expected(row, row, prev).None?
  {
  }

  /**
   Ids in order: inside its root's subtree a completed scan labels every path exactly according to index_current
   before and after it; outside the subtree it labels nothing.
   */
  lemma DiffOfStream(t: Db, log: seq<Msg>, roots: Roots, m: Msg, p: string)
    requires Past(t, roots) && Stream(log + [m], roots) && DistinctEvents(log + [m]) && IdsInOrder(log + [m], roots)
    requires m.Sentinel? && !m.canceled
    ensures
      var before, after := Earlier(t, log), ApplyAll(t, log + [m]);
      if InSubtree(m.root, p) then Right(RowAt(before.current, p), RowAt(after.current, p), DiffAt(after, m.scan, p))
      else DiffAt(after, m.scan, p).None?
  {
    hide Prior, Stream, DistinctEvents, IdsInOrder, ApplyAll, Right, Earlier, InSubtree, Closed, Expected, Previous,
         RowAt,
         Fits, DiffAt;
    DiffInStream(t, log, roots, m, p);
    OpenBefore(log, roots, m);
    BlockInOrder(t, log, roots, m);
    if InSubtree(m.root, p) {
      OrderedFits(Earlier(t, log), m.scan, m.root, p, RowAt(ApplyAll(t, log + [m]).current, p));
    }
  }

  /**
   The old size shown is that of the path's latest real row, also for a path that was deleted before and is New now.
   */
  lemma OldSizeOfStream(t: Db, log: seq<Msg>, roots: Roots, m: Msg, p: string)
    requires Past(t, roots) && Stream(log + [m], roots) && DistinctEvents(log + [m]) && IdsInOrder(log + [m], roots)
    requires m.Sentinel? && !m.canceled
    ensures
      var before, d := Earlier(t, log), DiffAt(ApplyAll(t, log + [m]), m.scan, p);
      d.Some? ==> d.value.oldSize == SizeIn(LastReal(HistoryOf(before.history, p)))
  {
    hide Prior, Stream, DistinctEvents, IdsInOrder, ApplyAll, Right, Earlier, Closed, Previous, RowAt, Fits, DiffAt;
    DiffInStream(t, log, roots, m, p);
    OpenBefore(log, roots, m);
    BlockInOrder(t, log, roots, m);
    if InSubtree(m.root, p) {
      PreviousIsLastReal(HistoryOf(Earlier(t, log).history, p), m.scan);
    }
  }

  lemma SeenIffPresent(log: seq<Msg>, s: nat, p: string)
    ensures SawPath(log, s, p) <==> !Absent(EventsOf(log, s), p)
  {
    hide EventsOf;
    EventsOfMembers(log, s);
    var evs := EventsOf(log, s);
    if SawPath(log, s, p) {
      var ev :| Event(s, ev) in log && ev.path == p;
      assert ev in evs;
    }
    if !Absent(evs, p) {
      var i :| 0 <= i < |evs| && evs[i].path == p;
      assert evs[i] in evs;
      assert Event(s, evs[i]) in log;
    }
  }

  /**
   The diff of a canceled scan in the interleaved stream, whatever the ids: paths it saw are labelled as for a finished
   scan, indexed paths under its root that it did not see are labelled Canceled, and nothing else has a row.
   */
  lemma CanceledDiffInStream(t: Db, log: seq<Msg>, roots: Roots, m: Msg, p: string)
    requires Prior(t, roots) && Stream(log + [m], roots) && DistinctEvents(log + [m]) && m.Sentinel? && m.canceled
    ensures
      var before, after, seen := Earlier(t, log), ApplyAll(t, log + [m]), SawPath(log, m.scan, p);
      var was, now, prev := RowAt(before.current, p), RowAt(after.current, p), Queried(before, m.scan, p);
      if InSubtree(m.root, p) then
        && DiffAt(after, m.scan, p) == ExpectedCut(seen, Under(m.root, p), was, now, prev)
        && (!seen ==> was == now)
      else DiffAt(after, m.scan, p).None?
  {
    NotUnderOutside(m.root, p);
    hide Prior, Local, Stream, DistinctEvents, ApplyAll, Ready, Earlier, Block, InSubtree, EventsOf, Closed, SameAt,
         Untouched, Expected, Previous, RowAt, SawPath, Absent, Under;
    PriorIsLocal(t, roots);
    AsBlock(t, log, roots, m);
    BlockReady(t, log, roots, m);
    AfterIsBlock(t, log, roots, m, p);
    assert m == Sentinel(m.scan, true, m.root);
    var before, own, after := Earlier(t, log), OwnBlock(t, log, m), ApplyAll(t, log + [m]);
    CanceledExact(before, m.scan, m.root, EventsOf(log, m.scan), p);
    SeenIffPresent(log, m.scan, p);
    SameDiffs(after, own, m.scan, p);
    if InSubtree(m.root, p) {
      SameRows(after, own, p);
    } else {
      AbsentOutside(before, m.scan, m.root, EventsOf(log, m.scan), p);
    }
  }

  lemma NotUnderOutside(root: string, p: string)
    ensures !InSubtree(root, p) ==> !Under(root, p)
  {
  }

  lemma AbsentOutside(t: Db, s: nat, root: string, evs: seq<Ev>, p: string)
    requires Ready(t, s, root, evs) && !InSubtree(root, p)
    ensures Absent(evs, p)
  {
    hide HistoryOf, RowsInside;
  }

  /** Ids in order, an indexed path a canceled scan did not reach is labelled Canceled with its indexed size. */
  lemma CanceledDiffInOrder(t: Db, log: seq<Msg>, roots: Roots, m: Msg, p: string)
    requires Past(t, roots) && Stream(log + [m], roots) && DistinctEvents(log + [m]) && IdsInOrder(log + [m], roots)
    requires m.Sentinel? && m.canceled && Under(m.root, p) && !SawPath(log, m.scan, p)
    ensures
      var before, d := Earlier(t, log), DiffAt(ApplyAll(t, log + [m]), m.scan, p);
      if p in before.current then d == Some(Diff(DiffCanceled, before.current[p].size)) else d.None?
  {
    hide Prior, Stream, DistinctEvents, IdsInOrder, ApplyAll, Earlier, Closed, Previous, DiffAt, SawPath, Expected;
    CanceledDiffInStream(t, log, roots, m, p);
    OpenBefore(log, roots, m);
    BlockInOrder(t, log, roots, m);
    IndexedSize(Earlier(t, log), m.scan, m.root, p);
  }

  lemma IndexedSize(before: Db, s: nat, root: string, p: string)
    requires InOrder(before, s, root) && InSubtree(root, p)
    ensures p in before.current ==> SizeIn(Queried(before, s, p)) == before.current[p].size
  {
    assert AgreeAt(before, p);
    PreviousIsLastReal(HistoryOf(before.history, p), s);
  }

  lemma OrderedFits(before: Db, s: nat, root: string, p: string, after: Option<Row>)
    requires InOrder(before, s, root) && InSubtree(root, p)
    ensures Fits(RowAt(before.current, p), after, Queried(before, s, p))
  {
    hide Fits, RowAt;
    assert AgreeAt(before, p);
    PreviousIsLastReal(HistoryOf(before.history, p), s);
    OrderFits(before, s, p, after);
  }

  lemma ErrorFree(log: seq<Msg>, s: nat)
    requires forall ev :: Event(s, ev) in log ==> ev.errno == 0
    ensures forall i :: 0 <= i < |EventsOf(log, s)| ==> EventsOf(log, s)[i].errno == 0
  {
    hide EventsOf;
    EventsOfMembers(log, s);
    forall i | 0 <= i < |EventsOf(log, s)| ensures EventsOf(log, s)[i].errno == 0 {
      assert EventsOf(log, s)[i] in EventsOf(log, s);
    }
  }

  lemma SameSubtree(t: Db, log: seq<Msg>, roots: Roots, m: Msg)
    requires Local(t, roots) && Stream(log + [m], roots) && m.Sentinel?
    ensures
      var after, own := ApplyAll(t, log + [m]), OwnBlock(t, log, m);
      && after.diffs == own.diffs && InTree(after.current, m.root) == InTree(own.current, m.root)
      && (forall p :: p in InTree(own.current, m.root) ==> after.current[p] == own.current[p])
  {
    hide Local, Stream, ApplyAll, OwnBlock, InSubtree;
    AfterIsBlock(t, log, roots, m, m.root);
    forall p | InSubtree(m.root, p) ensures SameAt(ApplyAll(t, log + [m]), OwnBlock(t, log, m), p) {
      AfterIsBlock(t, log, roots, m, p);
    }
  }

  lemma SameMistakes(t: Db, a: Db, b: Db, s: nat, root: string)
    requires a.diffs == b.diffs && InTree(a.current, root) == InTree(b.current, root)
    requires forall p :: p in InTree(b.current, root) ==> a.current[p] == b.current[p]
    ensures WronglyNew(t, a, s, root) == WronglyNew(t, b, s, root)
    ensures MissedNew(t, a, s, root) == MissedNew(t, b, s, root)
    ensures forall st :: Labelled(a, s, st) == Labelled(b, s, st)
  {
    hide InSubtree, Previous, HistoryOf;
    forall p ensures p in WronglyNew(t, a, s, root) <==> p in WronglyNew(t, b, s, root) {
      assert p in InTree(b.current, root) ==> a.current[p] == b.current[p];
    }
  }

  /** Rows and labels of an error-free scan balance in the interleaved stream, whatever the ids. */
  lemma RowsBalanceInStream(t: Db, log: seq<Msg>, roots: Roots, m: Msg)
    requires Prior(t, roots) && Stream(log + [m], roots) && DistinctEvents(log + [m]) && m.Sentinel? && !m.canceled
    requires forall ev :: Event(m.scan, ev) in log ==> ev.errno == 0
    ensures
      var before, after, s, root := Earlier(t, log), ApplyAll(t, log + [m]), m.scan, m.root;
      |InTree(after.current, root)| + |Labelled(after, s, DiffDeleted)| + |WronglyNew(before, after, s, root)|
      == |InTree(before.current, root)| + |Labelled(after, s, New)| + |MissedNew(before, after, s, root)|
  {
    hide Prior, Local, Stream, DistinctEvents, ApplyAll, Earlier, InTree, Labelled, WronglyNew, MissedNew, Closed,
         Ready,
         Untouched, Block, EventsOf;
    PriorIsLocal(t, roots);
    AsBlock(t, log, roots, m);
    BlockReady(t, log, roots, m);
    ErrorFree(log, m.scan);
    assert m == Sentinel(m.scan, false, m.root);
    RowsBalance(Earlier(t, log), m.scan, m.root, EventsOf(log, m.scan));
    SameSubtree(t, log, roots, m);
    SameMistakes(Earlier(t, log), ApplyAll(t, log + [m]), OwnBlock(t, log, m), m.scan, m.root);
  }

  /** Ids in order, the rows of the subtree are conserved: after = before + New - Deleted. */
  lemma RowsConservedInStream(t: Db, log: seq<Msg>, roots: Roots, m: Msg)
    requires Past(t, roots) && Stream(log + [m], roots) && DistinctEvents(log + [m]) && IdsInOrder(log + [m], roots)
    requires m.Sentinel? && !m.canceled
    requires forall ev :: Event(m.scan, ev) in log ==> ev.errno == 0
    ensures
      var before, after := Earlier(t, log), ApplyAll(t, log + [m]);
      |InTree(after.current, m.root)| + |Labelled(after, m.scan, DiffDeleted)|
      == |InTree(before.current, m.root)| + |Labelled(after, m.scan, New)|
  {
    hide Prior, Stream, DistinctEvents, IdsInOrder, ApplyAll, Earlier, InTree, Labelled, WronglyNew, MissedNew, Closed;
    RowsBalanceInStream(t, log, roots, m);
    OpenBefore(log, roots, m);
    BlockInOrder(t, log, roots, m);
    NoMistakes(Earlier(t, log), ApplyAll(t, log + [m]), m.scan, m.root);
  }

  // ----- errors -----

  /**
   A path recorded with an error: the index holds the error, and the diff reports it iff the path was not in the
   index with the same time and size before; otherwise the diff has no row for it.
   */
  lemma ErrorReportedIff(t: Db, log: seq<Msg>, roots: Roots, m: Msg, ev: Ev)
    requires Prior(t, roots) && Stream(log + [m], roots) && DistinctEvents(log + [m])
    requires m.Sentinel? && !m.canceled && Event(m.scan, ev) in log && ev.errno != 0
    ensures
      var before, after, p, row := Earlier(t, log), ApplyAll(t, log + [m]), ev.path, RowOf(m.scan, ev);
      var known := p in before.current && before.current[p].mtime == ev.mtime && before.current[p].size == ev.size;
      && p in after.current && after.current[p] == row && row.state.Error?
      && (DiffAt(after, m.scan, p).Some? <==> !known)
      && (!known ==> DiffAt(after, m.scan, p).value.state.DiffError?)
  {
    hide Stream, DistinctEvents, ApplyAll, Earlier, DiffAt, Fits, Right, Fresh;
    SnapshotUnderRoot(t, log, roots, m, ev.path);
    EventInside(log, roots, m, ev);
    DiffInStream(t, log, roots, m, ev.path);
  }

  lemma EventInside(log: seq<Msg>, roots: Roots, m: Msg, ev: Ev)
    requires Stream(log + [m], roots) && m.Sentinel? && Event(m.scan, ev) in log
    ensures InSubtree(m.root, ev.path)
  {
    var log' := log + [m];
    var i :| 0 <= i < |log| && log[i] == Event(m.scan, ev);
    assert log'[i] == Event(m.scan, ev) && log'[|log|] == m;
    assert Placed(log'[i], roots) && Placed(log'[|log|], roots);
  }

  function OneRow(p: string, row: Row): Db {
    Db(map[p := row], map[p := [row]], map[], map[])
  }

  lemma OneRowPrior(p: string, row: Row, roots: Roots)
    requires row.scan !in roots
    ensures Prior(OneRow(p, row), roots)
  {
    var t := OneRow(p, row);
    forall q ensures HistoryOf(t.history, q) == if q == p then [row] else [] {
    }
  }

  // A directory indexed by scan 1 that scan 2 finds unreadable, with the time and size it had.
  function Unreadable(): Ev {
    Ev("/d", DIR, 7, 512, 13)
  }

  /** One such path: a directory that became unreadable is an error in the index and absent from the diff. */
  lemma UnreadableDirectoryUnreported()
    ensures
      var t, log := OneRow("/d", Row(1, DIR, 7, 512, Alive)), [Event(2, Unreadable()), Sentinel(2, false, "/d")];
      var after := ApplyAll(t, log);
      && "/d" in after.current && after.current["/d"].state.Error?
      && DiffAt(after, 2, "/d").None?
  {
    var roots: Roots := map[2 := "/d"];
    var t, log, m := OneRow("/d", Row(1, DIR, 7, 512, Alive)), [Event(2, Unreadable())], Sentinel(2, false, "/d");
    OneRowPrior("/d", Row(1, DIR, 7, 512, Alive), roots);
    assert Stream(log + [m], roots);
    assert log + [m] == [Event(2, Unreadable()), m];
    assert Finished(log) == Finished([]) by { assert log[..0] == []; }
    assert Earlier(t, log) == t;
    hide Prior, Stream, ApplyAll, DiffAt, Earlier;
    assert Event(2, Unreadable()) in log;
    ErrorReportedIff(t, log, roots, m, Unreadable());
  }

  // ----- ids out of order -----

  // No real row below s is newer than the latest real one, which is below s itself.
  ghost predicate LatestInOrder(rows: seq<Row>, s: nat) {
    var last := LastReal(rows);
    last.Some? ==>
      && last.value.scan < s
      && forall k :: 0 <= k < |rows| && !rows[k].state.Canceled? && rows[k].scan < s ==> rows[k].scan <= last.value.scan
  }

  lemma {:induction false} PreviousIsMax(rows: seq<Row>, s: nat)
    requires DistinctScans(rows)
    ensures
      var prev := Previous(rows, s);
      && (prev.None? <==> forall k :: 0 <= k < |rows| && !rows[k].state.Canceled? ==> rows[k].scan >= s)
      && (prev.Some? ==>
            && prev.value in rows && prev.value.scan < s && !prev.value.state.Canceled?
            && forall k :: 0 <= k < |rows| && !rows[k].state.Canceled? && rows[k].scan < s ==>
                 rows[k].scan <= prev.value.scan)
  {
    if rows != [] {
      var n := |rows| - 1;
      PreviousIsMax(rows[..n], s);
      assert rows == rows[..n] + [rows[n]];
      assert forall k :: 0 <= k < n ==> rows[k] == rows[..n][k];
    }
  }

  lemma {:induction false} LastRealIsRow(rows: seq<Row>)
    ensures LastReal(rows).Some? ==> LastReal(rows).value in rows && !LastReal(rows).value.state.Canceled?
    ensures LastReal(rows).None? ==> forall k :: 0 <= k < |rows| ==> rows[k].state.Canceled?
  {
    if rows != [] {
      var n := |rows| - 1;
      LastRealIsRow(rows[..n]);
      assert rows == rows[..n] + [rows[n]];
      assert forall k :: 0 <= k < n ==> rows[k] == rows[..n][k];
    }
  }

  /**
   The query for the previous row, `ORDER BY last_scan_id DESC` below the scan's own id, finds the state the path was
   in iff ids are in order at that path.
   */
  lemma PreviousIsLatestIff(rows: seq<Row>, s: nat)
    requires DistinctScans(rows)
    ensures Previous(rows, s) == LastReal(rows) <==> LatestInOrder(rows, s)
  {
    hide Previous, LastReal;
    PreviousIsMax(rows, s);
    LastRealIsRow(rows);
    if LatestInOrder(rows, s) && LastReal(rows).Some? {
      var last, prev := LastReal(rows).value, Previous(rows, s);
      var k :| 0 <= k < |rows| && rows[k] == last;
      var j :| 0 <= j < |rows| && rows[j] == prev.value;
      assert rows[j].scan == rows[k].scan;
    }
  }

  /** And then the diff is right there. */
  lemma LatestFits(t: Db, s: nat, p: string, after: Option<Row>)
    requires AgreeAt(t, p) && DistinctScans(HistoryOf(t.history, p)) && LatestInOrder(HistoryOf(t.history, p), s)
    ensures Fits(RowAt(t.current, p), after, Queried(t, s, p))
  {
    hide Fits, RowAt, LatestInOrder, DistinctScans;
    PreviousIsLatestIff(HistoryOf(t.history, p), s);
    OrderFits(t, s, p, after);
  }

  // Scan 2 indexes a directory with a file; scan 1 comes later, finds the directory changed and the file gone.
  function LateLog(): seq<Msg> {
    [Event(2, Ev("/d", DIR, 1, 512, 0)), Event(2, Ev("/d/f", FILE, 1, 512, 0)), Sentinel(2, false, "/d"),
     Event(1, Ev("/d", DIR, 9, 512, 0)), Sentinel(1, false, "/d")]
  }

  function NoTables(): Db {
    Db(map[], map[], map[], map[])
  }

  lemma LateLogApart()
    ensures OpenScansApart(LateLog(), map[1 := "/d", 2 := "/d"])
  {
    hide Apart;
    var log := LateLog();
    forall j | 3 <= j <= |log| ensures Closed(log[..j], 2) {
      assert log[..j][2] == log[2];
    }
  }

  lemma LateLogIsStream()
    ensures
      var roots := map[1 := "/d", 2 := "/d"];
      Prior(NoTables(), roots) && Stream(LateLog(), roots) && DistinctEvents(LateLog())
  {
    LateLogApart();
    hide OpenScansApart;
    assert |"/d"| == 2 && |"/d/f"| == 4;
  }

  function LateDir(): Row {
    Row(2, DIR, 1, 512, Alive)
  }

  function LateFile(): Row {
    Row(2, FILE, 1, 512, Alive)
  }

  // The tables when scan 2 has been written.
  function Indexed(): Db {
    Db(map["/d" := LateDir(), "/d/f" := LateFile()], map["/d" := [LateDir()], "/d/f" := [LateFile()]], map[], map[])
  }

  lemma FirstUpserts()
    ensures Upsert(Upsert(NoTables(), 2, Ev("/d", DIR, 1, 512, 0)), 2, Ev("/d/f", FILE, 1, 512, 0)) == Indexed()
  {
    var none: seq<Row> := [];
    assert none + [LateDir()] == [LateDir()] && none + [LateFile()] == [LateFile()];
    var a := Upsert(NoTables(), 2, Ev("/d", DIR, 1, 512, 0));
    assert a.current == map["/d" := LateDir()] && a.history == map["/d" := [LateDir()]];
    assert |"/d"| == 2 && |"/d/f"| == 4;
  }

  // Finalising scan 2 finds nothing to delete.
  lemma AfterFirst()
    ensures
      var d := Finalize(Indexed(), 2, "/d", false);
      && "/d" in d.current && d.current["/d"] == LateDir() && "/d/f" in d.current && d.current["/d/f"] == LateFile()
      && HistoryOf(d.history, "/d") == [LateDir()] && HistoryOf(d.history, "/d/f") == [LateFile()]
      && (forall k :: k in d.diffs ==> k.0 == 2)
  {
    var u := Indexed();
    assert Unvisited(u.current, 2, "/d") == {};
    assert HistoryOf(u.history, "/d") == [LateDir()] && HistoryOf(u.history, "/d/f") == [LateFile()];
    OnlyOwnKeys(MarkDeleted(u, 2, "/d", false).history, 2);
    hide CountsOf, DiffRows, Touched, HistoryOf, Unvisited, MarkHistory, GoneRows;
    MarkedHistory(u, 2, "/d", false, "/d");
    MarkedHistory(u, 2, "/d", false, "/d/f");
    UnmarkedKept(u, 2, "/d", false, "/d");
    UnmarkedKept(u, 2, "/d", false, "/d/f");
  }

  lemma SecondUpsert(d: Db)
    requires "/d" in d.current && d.current["/d"] == LateDir() && "/d/f" in d.current && d.current["/d/f"] == LateFile()
    requires HistoryOf(d.history, "/d") == [LateDir()] && HistoryOf(d.history, "/d/f") == [LateFile()]
    ensures
      var ev := Ev("/d", DIR, 9, 512, 0);
      var u := Upsert(d, 1, ev);
      && "/d" !in Unvisited(u.current, 1, "/d") && "/d/f" in Unvisited(u.current, 1, "/d")
      && u.current["/d/f"] == LateFile() && u.diffs == d.diffs
      && HistoryOf(u.history, "/d") == [LateDir(), RowOf(1, ev)] && HistoryOf(u.history, "/d/f") == [LateFile()]
  {
    assert |"/d"| == 2 && |"/d/f"| == 4;
    assert "/d" + "/" <= "/d/f";
  }

  lemma OnlyOwnKeys(h: map<string, seq<Row>>, s: nat)
    ensures forall k :: k in DiffRows(Touched(h, s), s) ==> k.0 == s
  {
    hide RowFor, PathDiff, Touched;
  }

  /**
   Out of order it fails: when an overlapping scan has drawn its id too early, a changed directory is reported as new,
   and a file of 512 bytes that is gone as having had none.
   */
  lemma LateIdMislabels()
    ensures var roots := map[1 := "/d", 2 := "/d"]; Prior(NoTables(), roots) && Stream(LateLog(), roots)
    ensures
      var after := ApplyAll(NoTables(), LateLog());
      DiffAt(after, 1, "/d") == Some(Diff(New, 0)) && DiffAt(after, 1, "/d/f") == Some(Diff(DiffDeleted, 0))
  {
    var a, b, c := Event(2, Ev("/d", DIR, 1, 512, 0)), Event(2, Ev("/d/f", FILE, 1, 512, 0)), Sentinel(2, false, "/d");
    var e, m := Event(1, Ev("/d", DIR, 9, 512, 0)), Sentinel(1, false, "/d");
    LateLogIsStream();
    assert LateLog() == ([a, b] + [c]) + [e, m];
    hide Prior, Stream, ApplyAll, Upsert, MarkDeleted, HistoryOf, Finalize, RowFor, Previous, Unvisited, LateLog;
    ApplyAppend(NoTables(), [a, b] + [c], [e, m]);
    ApplySnoc(NoTables(), [a, b], c);
    TwoMessages(NoTables(), a, b);
    FirstUpserts();
    var d := Finalize(Indexed(), 2, "/d", false);
    AfterFirst();
    TwoMessages(d, e, m);
    LateDiffs(d);
  }

  lemma LateDiffs(d: Db)
    requires "/d" in d.current && d.current["/d"] == LateDir() && "/d/f" in d.current && d.current["/d/f"] == LateFile()
    requires HistoryOf(d.history, "/d") == [LateDir()] && HistoryOf(d.history, "/d/f") == [LateFile()]
    requires forall k :: k in d.diffs ==> k.0 == 2
    ensures
      var after := Finalize(Upsert(d, 1, Ev("/d", DIR, 9, 512, 0)), 1, "/d", false);
      DiffAt(after, 1, "/d") == Some(Diff(New, 0)) && DiffAt(after, 1, "/d/f") == Some(Diff(DiffDeleted, 0))
  {
    hide Upsert, MarkDeleted, HistoryOf, Finalize, RowFor, Previous, Unvisited;
    var ev := Ev("/d", DIR, 9, 512, 0);
    var u, gone := Upsert(d, 1, ev), Gone(LateFile(), 1, false);
    SecondUpsert(d);
    LateRows(LateDir(), RowOf(1, ev));
    LateRows(LateFile(), gone);
    assert [LateFile()] + [gone] == [LateFile(), gone];
    MarkedHistory(u, 1, "/d", false, "/d");
    MarkedHistory(u, 1, "/d", false, "/d/f");
    FinalDiff(u, 1, "/d", false, "/d");
    FinalDiff(u, 1, "/d", false, "/d/f");
  }

  lemma TwoMessages(t: Db, a: Msg, b: Msg)
    ensures ApplyAll(t, [a, b]) == Apply(Apply(t, a), b)
  {
    hide Apply;
    assert [a, b][..1] == [a] && [a][..0] == [];
    assert ApplyAll(t, []) == t;
    assert ApplyAll(t, [a]) == Apply(t, a);
  }

  lemma LateRows(a: Row, b: Row)
    requires a.scan == 2 && b.scan == 1
    ensures RowFor([a, b], 1) == Some(b) && Previous([a, b], 1).None?
  {
    assert [a, b][..1] == [a] && [a][..0] == [];
    assert Previous([], 1).None?;
    assert Previous([a], 1).None?;
  }
}
