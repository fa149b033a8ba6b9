/** What the tables hold after a scan has been exported, whatever other scans were interleaved with it. */
module Snapshot {
  import opened Paths
  import opened FileTree
  import opened Messages
  import opened Tables
  import opened Serial

  // No two events of one scan name the same path, as a walk of a tree guarantees.
  ghost predicate DistinctEvents(log: seq<Msg>) {
    forall i, j :: 0 <= i < j < |log| && log[i].Event? && log[j].Event? && log[i].scan == log[j].scan ==>
      log[i].ev.path != log[j].ev.path
  }

  ghost predicate DistinctScans(rows: seq<Row>) {
    forall i, j :: 0 <= i < j < |rows| ==> rows[i].scan != rows[j].scan
  }

  // The primary key (path, last_scan_id) of index_history.
  ghost predicate UniqueKeys(t: Db) {
    forall p :: DistinctScans(HistoryOf(t.history, p))
  }

  // The tables know nothing yet of the scans to come.
  ghost predicate Fresh(t: Db, roots: Roots) {
    && (forall p :: p in t.current ==> t.current[p].scan !in roots)
    && (forall p, s :: s in roots ==> !RowsInside(HistoryOf(t.history, p), s))
    && UniqueKeys(t)
  }

  lemma FreshIsLocal(t: Db, roots: Roots)
    requires Fresh(t, roots)
    ensures Local(t, roots)
  {
    forall s, p | s in roots ensures LocalAt(t, s, roots[s], p) {
      assert !RowsInside(HistoryOf(t.history, p), s);
    }
  }

  ghost predicate SawPath(log: seq<Msg>, s: nat, p: string) {
    exists ev :: Event(s, ev) in log && ev.path == p
  }

  // Events of open scans are in index_current.
  ghost predicate Owned(t: Db, log: seq<Msg>) {
    forall s, ev :: Event(s, ev) in log && !Closed(log, s) ==>
      ev.path in t.current && t.current[ev.path] == RowOf(s, ev)
  }

  ghost predicate From(log: seq<Msg>, p: string, row: Row) {
    exists ev :: Event(row.scan, ev) in log && ev.path == p && row == RowOf(row.scan, ev)
  }

  // Rows of these scans in index_current come from their events.
  ghost predicate Sourced(t: Db, log: seq<Msg>, roots: Roots) {
    forall p :: p in t.current && t.current[p].scan in roots ==> From(log, p, t.current[p])
  }

  // An open scan has history rows only where it has seen the path.
  ghost predicate Keyed(t: Db, log: seq<Msg>, roots: Roots) {
    forall p, s :: s in roots && RowsInside(HistoryOf(t.history, p), s) ==> Closed(log, s) || SawPath(log, s, p)
  }

  ghost predicate Facts(t: Db, log: seq<Msg>, roots: Roots) {
    Owned(t, log) && Sourced(t, log, roots) && Keyed(t, log, roots) && UniqueKeys(t)
  }

  // ----- one more event -----

  lemma EventOwned(t: Db, log: seq<Msg>, roots: Roots, m: Msg)
    requires Stream(log + [m], roots) && DistinctEvents(log + [m]) && m.Event? && Owned(t, log)
    ensures Owned(Upsert(t, m.scan, m.ev), log + [m])
  {
    var log', t' := log + [m], Upsert(t, m.scan, m.ev);
    forall s, ev | Event(s, ev) in log' && !Closed(log', s)
      ensures ev.path in t'.current && t'.current[ev.path] == RowOf(s, ev)
    {
      if Event(s, ev) != m {
        var i :| 0 <= i < |log'| && log'[i] == Event(s, ev);
        assert log[i] == Event(s, ev);
        OpenStays(log, m, s);
        OtherPath(log, roots, m, i);
      }
    }
  }

  lemma OpenStays(log: seq<Msg>, m: Msg, s: nat)
    requires !Closed(log + [m], s)
    ensures !Closed(log, s)
  {
    ClosedGrows(log + [m], s);
    assert (log + [m])[..|log|] == log;
  }

  // The next message never touches a path that another open event has claimed.
  lemma OtherPath(log: seq<Msg>, roots: Roots, m: Msg, i: nat)
    requires Stream(log + [m], roots) && DistinctEvents(log + [m])
    requires i < |log| && log[i].Event? && !Closed(log, log[i].scan)
    ensures m.Event? ==> m.ev.path != log[i].ev.path
    ensures m.Sentinel? && m.scan != log[i].scan ==> !InSubtree(m.root, log[i].ev.path)
  {
    var log', n := log + [m], |log|;
    assert log'[n] == m && log'[i] == log[i] && log'[..n] == log;
    assert Placed(log'[i], roots) && Placed(log'[n], roots);
    if m.scan != log[i].scan {
      assert Apart(log'[i], log'[n], roots);
      OverlapIffSubtreesMeet(roots[log[i].scan], roots[m.scan]);
    }
  }

  lemma EventSourced(t: Db, log: seq<Msg>, roots: Roots, m: Msg)
    requires m.Event? && Sourced(t, log, roots)
    ensures Sourced(Upsert(t, m.scan, m.ev), log + [m], roots)
  {
    var log', t' := log + [m], Upsert(t, m.scan, m.ev);
    assert log'[|log|] == m;
    forall p | p in t'.current && t'.current[p].scan in roots ensures From(log', p, t'.current[p]) {
      if p != m.ev.path {
        FromGrows(log, m, p, t.current[p]);
      } else {
        assert Event(m.scan, m.ev) in log';
      }
    }
  }

  lemma FromGrows(log: seq<Msg>, m: Msg, p: string, row: Row)
    requires From(log, p, row)
    ensures From(log + [m], p, row)
  {
    var ev :| Event(row.scan, ev) in log && ev.path == p && row == RowOf(row.scan, ev);
    assert Event(row.scan, ev) in log + [m];
  }

  lemma SawGrows(log: seq<Msg>, m: Msg, s: nat, p: string)
    requires Closed(log, s) || SawPath(log, s, p)
    ensures Closed(log + [m], s) || SawPath(log + [m], s, p)
  {
    var log' := log + [m];
    if Closed(log, s) {
      ClosedGrows(log', s);
      assert log'[..|log|] == log;
    } else {
      var ev :| Event(s, ev) in log && ev.path == p;
      assert Event(s, ev) in log';
    }
  }

  lemma EventKeyed(t: Db, log: seq<Msg>, roots: Roots, m: Msg)
    requires m.Event? && Keyed(t, log, roots)
    ensures Keyed(Upsert(t, m.scan, m.ev), log + [m], roots)
  {
    var log', t' := log + [m], Upsert(t, m.scan, m.ev);
    forall p, s | s in roots && RowsInside(HistoryOf(t'.history, p), s) ensures Closed(log', s) || SawPath(log', s, p) {
      if RowsInside(HistoryOf(t.history, p), s) {
        SawGrows(log, m, s, p);
      } else {
        assert p == m.ev.path && s == m.scan;
        assert log'[|log|] == Event(s, m.ev);
      }
    }
  }

  lemma EventUnique(t: Db, log: seq<Msg>, roots: Roots, m: Msg)
    requires Stream(log + [m], roots) && DistinctEvents(log + [m]) && m.Event?
    requires Keyed(t, log, roots) && UniqueKeys(t)
    ensures UniqueKeys(Upsert(t, m.scan, m.ev))
  {
    var t' := Upsert(t, m.scan, m.ev);
    var p := m.ev.path;
    assert !RowsInside(HistoryOf(t.history, p), m.scan) by {
      NotSeenYet(log, roots, m);
    }
    forall q ensures DistinctScans(HistoryOf(t'.history, q)) {
      assert DistinctScans(HistoryOf(t.history, q));
    }
  }

  lemma NotSeenYet(log: seq<Msg>, roots: Roots, m: Msg)
    requires Stream(log + [m], roots) && DistinctEvents(log + [m]) && m.Event?
    ensures m.scan in roots && !Closed(log, m.scan) && !SawPath(log, m.scan, m.ev.path)
  {
    var log', n := log + [m], |log|;
    assert log'[n] == m && log'[..n] == log;
    assert Placed(log'[n], roots);
    if Closed(log, m.scan) {
      ClosedIsSilent(log', m.scan);
    }
    forall ev | Event(m.scan, ev) in log ensures ev.path != m.ev.path {
      var i :| 0 <= i < n && log[i] == Event(m.scan, ev);
      assert log'[i] == Event(m.scan, ev);
    }
  }

  // ----- a sentinel -----

  // What mark_deleted leaves alone.
  lemma UnmarkedKept(t: Db, s: nat, root: string, canceled: bool, p: string)
    requires p !in Unvisited(t.current, s, root)
    ensures p in Finalize(t, s, root, canceled).current <==> p in t.current
    ensures p in t.current ==> Finalize(t, s, root, canceled).current[p] == t.current[p]
  {
  }

  lemma SentinelOwned(t: Db, log: seq<Msg>, roots: Roots, m: Msg)
    requires Stream(log + [m], roots) && DistinctEvents(log + [m]) && m.Sentinel? && Owned(t, log)
    ensures Owned(Finalize(t, m.scan, m.root, m.canceled), log + [m])
  {
    var log', t' := log + [m], Finalize(t, m.scan, m.root, m.canceled);
    forall s, ev | Event(s, ev) in log' && !Closed(log', s)
      ensures ev.path in t'.current && t'.current[ev.path] == RowOf(s, ev)
    {
      var i :| 0 <= i < |log'| && log'[i] == Event(s, ev);
      assert log[i] == Event(s, ev);
      OpenStays(log, m, s);
      assert s != m.scan by {
        assert log'[|log|] == m;
      }
      OtherPath(log, roots, m, i);
      UnmarkedKept(t, m.scan, m.root, m.canceled, ev.path);
    }
  }

  lemma SentinelSourced(t: Db, log: seq<Msg>, roots: Roots, m: Msg)
    requires m.Sentinel? && Sourced(t, log, roots)
    ensures Sourced(Finalize(t, m.scan, m.root, m.canceled), log + [m], roots)
  {
    var t' := Finalize(t, m.scan, m.root, m.canceled);
    forall p | p in t'.current && t'.current[p].scan in roots ensures From(log + [m], p, t'.current[p]) {
      assert t'.current[p] == t.current[p];
      FromGrows(log, m, p, t.current[p]);
    }
  }

  lemma SentinelKeyed(t: Db, log: seq<Msg>, roots: Roots, m: Msg)
    requires m.Sentinel? && Keyed(t, log, roots)
    ensures Keyed(Finalize(t, m.scan, m.root, m.canceled), log + [m], roots)
  {
    var log', t' := log + [m], Finalize(t, m.scan, m.root, m.canceled);
    forall p, s | s in roots && RowsInside(HistoryOf(t'.history, p), s) ensures Closed(log', s) || SawPath(log', s, p) {
      MarkDeletedLocal(t, m.scan, m.root, m.canceled, s, p);
      if RowsInside(HistoryOf(t.history, p), s) {
        SawGrows(log, m, s, p);
      } else {
        assert log'[|log|] == m;
      }
    }
  }

  // Where mark_deleted appends, the scan has no row yet.
  lemma UnvisitedHasNoRow(t: Db, log: seq<Msg>, roots: Roots, m: Msg, p: string)
    requires Stream(log + [m], roots) && m.Sentinel? && Owned(t, log) && Keyed(t, log, roots)
    requires p in Unvisited(t.current, m.scan, m.root)
    ensures !RowsInside(HistoryOf(t.history, p), m.scan)
  {
    var log', n := log + [m], |log|;
    assert log'[n] == m && log'[..n] == log;
    assert Placed(log'[n], roots);
    if Closed(log, m.scan) {
      ClosedIsSilent(log', m.scan);
    }
  }

  lemma AppendUnique(rows: seq<Row>, row: Row)
    requires DistinctScans(rows) && !RowsInside(rows, row.scan)
    ensures DistinctScans(rows + [row])
  {
  }

  lemma SentinelUnique(t: Db, log: seq<Msg>, roots: Roots, m: Msg)
    requires Stream(log + [m], roots) && m.Sentinel?
    requires Owned(t, log) && Keyed(t, log, roots) && UniqueKeys(t)
    ensures UniqueKeys(Finalize(t, m.scan, m.root, m.canceled))
  {
    hide Stream, Owned, Keyed, DistinctScans, RowsInside, HistoryOf, MarkDeleted, CountsOf, DiffRows, Touched, RowsOf;
    var t' := Finalize(t, m.scan, m.root, m.canceled);
    forall p ensures DistinctScans(HistoryOf(t'.history, p)) {
      assert DistinctScans(HistoryOf(t.history, p));
      MarkedHistory(t, m.scan, m.root, m.canceled, p);
      if p in Unvisited(t.current, m.scan, m.root) {
        UnvisitedHasNoRow(t, log, roots, m, p);
        AppendUnique(HistoryOf(t.history, p), Gone(t.current[p], m.scan, m.canceled));
      }
    }
  }

  lemma {:induction false} StreamFacts(t: Db, log: seq<Msg>, roots: Roots)
    requires Fresh(t, roots) && Stream(log, roots) && DistinctEvents(log)
    ensures Facts(ApplyAll(t, log), log, roots)
  {
    if log == [] {
      assert Owned(t, log);
      assert Sourced(t, log, roots);
    } else {
      var n := |log| - 1;
      var init, m := log[..n], log[n];
      StreamPrefix(log, roots);
      StreamFacts(t, init, roots);
      var d := ApplyAll(t, init);
      assert init + [m] == log;
      hide Stream, DistinctEvents, Owned, Sourced, Keyed, UniqueKeys;
      if m.Event? {
        EventOwned(d, init, roots, m);
        EventSourced(d, init, roots, m);
        EventKeyed(d, init, roots, m);
        EventUnique(d, init, roots, m);
      } else {
        SentinelOwned(d, init, roots, m);
        SentinelSourced(d, init, roots, m);
        SentinelKeyed(d, init, roots, m);
        SentinelUnique(d, init, roots, m);
      }
    }
  }

  /** No (path, scan) key of index_history is ever inserted twice. */
  lemma HistoryKeysUnique(t: Db, log: seq<Msg>, roots: Roots)
    requires Fresh(t, roots) && Stream(log, roots) && DistinctEvents(log)
    ensures UniqueKeys(ApplyAll(t, log))
  {
    StreamFacts(t, log, roots);
  }

  /**
   Snapshot: once a scan that was not canceled is finalised, index_current strictly under its root is
   exactly the scan's events, whatever else was interleaved; the root's own row is the scan's too.
   */
  lemma SnapshotUnderRoot(t: Db, log: seq<Msg>, roots: Roots, m: Msg, p: string)
    requires Fresh(t, roots) && Stream(log + [m], roots) && DistinctEvents(log + [m])
    requires m.Sentinel? && !m.canceled
    ensures
      var current := ApplyAll(t, log + [m]).current;
      && (Under(m.root, p) ==> (p in current <==> SawPath(log, m.scan, p)))
      && (forall ev :: Event(m.scan, ev) in log && ev.path == p ==> p in current && current[p] == RowOf(m.scan, ev))
  {
    var log', n := log + [m], |log|;
    assert log'[..n] == log && log'[n] == m;
    StreamPrefix(log', roots);
    StreamFacts(t, log, roots);
    assert Placed(log'[n], roots);
    if Closed(log, m.scan) {
      ClosedIsSilent(log', m.scan);
    }
    SnapshotStep(ApplyAll(t, log), log, roots, m, p);
  }

  lemma SnapshotStep(d: Db, log: seq<Msg>, roots: Roots, m: Msg, p: string)
    requires Owned(d, log) && Sourced(d, log, roots)
    requires m.Sentinel? && !m.canceled && m.scan in roots && !Closed(log, m.scan)
    ensures
      var current := Finalize(d, m.scan, m.root, m.canceled).current;
      && (Under(m.root, p) ==> (p in current <==> SawPath(log, m.scan, p)))
      && (forall ev :: Event(m.scan, ev) in log && ev.path == p ==> p in current && current[p] == RowOf(m.scan, ev))
  {
    hide CountsOf, DiffRows, Touched, RowsOf, MarkHistory;
    var f := Finalize(d, m.scan, m.root, m.canceled);
    if p !in Unvisited(d.current, m.scan, m.root) {
      UnmarkedKept(d, m.scan, m.root, m.canceled, p);
    }
    if p in f.current && Under(m.root, p) {
      assert From(log, p, d.current[p]);
    }
  }

  /** An uncanceled sentinel without events before it empties the index below its root. */
  lemma EmptyScanEmptiesIndex(t: Db, log: seq<Msg>, roots: Roots, m: Msg, p: string)
    requires Fresh(t, roots) && Stream(log + [m], roots) && DistinctEvents(log + [m])
    requires m.Sentinel? && !m.canceled && EventsOf(log, m.scan) == [] && Under(m.root, p)
    ensures p !in ApplyAll(t, log + [m]).current
  {
    hide Fresh, Stream, DistinctEvents, ApplyAll, EventsOf;
    SnapshotUnderRoot(t, log, roots, m, p);
    EventsOfMembers(log, m.scan);
  }

  // ----- what a sentinel writes to the history -----

  // The row marks the indexed row as gone: same type, time and size, under the scan that missed it.
  predicate MarksGone(row: Row, was: Row, s: nat, canceled: bool) {
    && row.scan == s && row.kind == was.kind && row.mtime == was.mtime && row.size == was.size
    && row.state == if canceled then Canceled else Deleted
  }

  /**
   A sentinel appends exactly one history row to each path under its root that was indexed and that its scan did not
   see, with the type, time and size index_current held, Deleted or, for a canceled scan, Canceled. No other path's
   history changes.
   */
  lemma SentinelAppends(t: Db, log: seq<Msg>, roots: Roots, m: Msg, p: string)
    requires Fresh(t, roots) && Stream(log + [m], roots) && DistinctEvents(log + [m]) && m.Sentinel?
    ensures
      var d, f := ApplyAll(t, log), ApplyAll(t, log + [m]);
      var rows, rows' := HistoryOf(d.history, p), HistoryOf(f.history, p);
      if Under(m.root, p) && p in d.current && !SawPath(log, m.scan, p) then
        && |rows'| == |rows| + 1 && rows'[..|rows|] == rows
        && MarksGone(rows'[|rows|], d.current[p], m.scan, m.canceled)
      else rows' == rows
  {
    hide Stream, DistinctEvents, ApplyAll, Fresh, SawPath, MarkHistory, GoneRows, CountsOf, DiffRows, Touched, RowsOf,
         HistoryOf, Closed;
    SeenInStream(t, log, roots, m, p);
    ApplySnoc(t, log, m);
    MarkedHistory(ApplyAll(t, log), m.scan, m.root, m.canceled, p);
  }

  lemma SeenInStream(t: Db, log: seq<Msg>, roots: Roots, m: Msg, p: string)
    requires Fresh(t, roots) && Stream(log + [m], roots) && DistinctEvents(log + [m]) && m.Sentinel?
    ensures
      var current := ApplyAll(t, log).current;
      p in current ==> (current[p].scan == m.scan <==> SawPath(log, m.scan, p))
  {
    var log', n, s := log + [m], |log|, m.scan;
    assert log'[..n] == log && log'[n] == m;
    StreamPrefix(log', roots);
    StreamFacts(t, log, roots);
    assert Placed(log'[n], roots);
    if Closed(log, s) {
      ClosedIsSilent(log', s);
    }
    hide Stream, DistinctEvents, Owned, Sourced, Keyed, UniqueKeys, ApplyAll, Fresh, SawPath, Closed;
    SeenIffOwn(ApplyAll(t, log), log, roots, s, p);
  }

  // An open scan has seen an indexed path iff the path's row is its own.
  lemma SeenIffOwn(d: Db, log: seq<Msg>, roots: Roots, s: nat, p: string)
    requires Owned(d, log) && Sourced(d, log, roots) && s in roots && !Closed(log, s)
    ensures p in d.current ==> (d.current[p].scan == s <==> SawPath(log, s, p))
  {
    if p in d.current && d.current[p].scan == s {
      assert From(log, p, d.current[p]);
    }
  }

  // ----- canceled scans -----

  ghost predicate SameCurrent(a: Db, b: Db, p: string) {
    (p in a.current <==> p in b.current) && (p in a.current ==> a.current[p] == b.current[p])
  }

  lemma ApplySameCurrent(a: Db, b: Db, m: Msg, p: string)
    requires SameCurrent(a, b, p)
    ensures SameCurrent(Apply(a, m), Apply(b, m), p)
  {
    hide MarkHistory, GoneRows, CountsOf, DiffRows, Touched, RowsOf;
  }

  // What a canceled scan's own message does where the scan saw nothing.
  lemma CanceledMessageElsewhere(d: Db, m: Msg, p: string)
    requires m.Sentinel? ==> m.canceled
    requires m.Event? ==> m.ev.path != p
    ensures SameCurrent(Apply(d, m), d, p)
  {
    hide MarkHistory, GoneRows, CountsOf, DiffRows, Touched, RowsOf;
  }

  lemma {:induction false} CanceledElsewhere(t: Db, log: seq<Msg>, s: nat, p: string)
    requires forall i :: 0 <= i < |log| && log[i].Sentinel? && log[i].scan == s ==> log[i].canceled
    requires !SawPath(log, s, p)
    ensures SameCurrent(ApplyAll(t, log), ApplyAll(t, Without(log, s)), p)
  {
    if log != [] {
      var n := |log| - 1;
      var init, m := log[..n], log[n];
      assert !SawPath(init, s, p) by {
        assert forall ev :: Event(s, ev) in init ==> Event(s, ev) in log;
      }
      assert m in log;
      CanceledElsewhere(t, init, s, p);
      hide Apply, SawPath;
      var a, w := ApplyAll(t, init), Without(init, s);
      if m.scan == s {
        assert w + [] == w;
        assert m.Event? ==> m == Event(s, m.ev);
        NotSeenHere(log, s, p, m);
        CanceledMessageElsewhere(a, m, p);
      } else {
        ApplySameCurrent(a, ApplyAll(t, w), m, p);
        ApplySnoc(t, w, m);
      }
    }
  }

  lemma NotSeenHere(log: seq<Msg>, s: nat, p: string, m: Msg)
    requires !SawPath(log, s, p) && m in log && m.scan == s
    ensures m.Event? ==> m.ev.path != p
  {
    assert m.Event? ==> m == Event(s, m.ev);
  }

  /**
   A canceled scan removes nothing: once it is finalised, every path it did not see is in index_current as if the scan
   had never run, and every path it saw holds the scan's row, whatever else was interleaved.
   */
  lemma CanceledRemovesNothing(t: Db, log: seq<Msg>, roots: Roots, m: Msg, p: string)
    requires Fresh(t, roots) && Stream(log + [m], roots) && DistinctEvents(log + [m]) && m.Sentinel? && m.canceled
    ensures
      var current, without := ApplyAll(t, log + [m]).current, ApplyAll(t, Without(log, m.scan)).current;
      && (!SawPath(log, m.scan, p) ==>
            (p in current <==> p in without) && (p in current ==> current[p] == without[p]))
      && (forall ev :: Event(m.scan, ev) in log && ev.path == p ==> p in current && current[p] == RowOf(m.scan, ev))
  {
    var log', n, s := log + [m], |log|, m.scan;
    assert log'[..n] == log && log'[n] == m;
    StreamPrefix(log', roots);
    StreamFacts(t, log, roots);
    assert !Closed(log, s) by {
      if Closed(log, s) {
        ClosedIsSilent(log', s);
      }
    }
    ApplySnoc(t, log, m);
    CanceledFinalKeeps(ApplyAll(t, log), s, m.root);
    hide Stream, DistinctEvents, Sourced, Keyed, UniqueKeys, SawPath, ApplyAll, Finalize, Fresh;
    if !SawPath(log, s, p) {
      CanceledElsewhere(t, log, s, p);
    }
  }

  lemma CanceledFinalKeeps(t: Db, s: nat, root: string)
    ensures Finalize(t, s, root, true).current == t.current
  {
  }

  // ----- until an overlapping scan speaks -----

  lemma ApartMessage(d: Db, m: Msg, roots: Roots, root: string, p: string)
    requires Placed(m, roots) && !PathsOverlap(roots[m.scan], root) && InSubtree(root, p)
    ensures SameCurrent(Apply(d, m), d, p)
  {
    OverlapIffSubtreesMeet(roots[m.scan], root);
    hide MarkHistory, GoneRows, CountsOf, DiffRows, Touched, RowsOf, PathsOverlap;
  }

  /** Messages of scans that do not overlap a root leave index_current in its subtree alone. */
  lemma {:induction false} ApartKeepsSubtree(d: Db, log: seq<Msg>, roots: Roots, root: string, p: string)
    requires AllPlaced(log, roots) && InSubtree(root, p)
    requires forall j :: 0 <= j < |log| ==> !PathsOverlap(roots[log[j].scan], root)
    ensures SameCurrent(ApplyAll(d, log), d, p)
  {
    if log != [] {
      var n := |log| - 1;
      hide Placed, PathsOverlap, InSubtree, Apply;
      ApartKeepsSubtree(d, log[..n], roots, root, p);
      assert Placed(log[n], roots);
      ApartMessage(ApplyAll(d, log[..n]), log[n], roots, root, p);
    }
  }

  // ----- outside the root's subtree -----

  ghost predicate SameAt(a: Db, b: Db, p: string) {
    && (p in a.current <==> p in b.current)
    && (p in a.current ==> a.current[p] == b.current[p])
    && HistoryOf(a.history, p) == HistoryOf(b.history, p)
  }

  lemma ApplySameAt(a: Db, b: Db, m: Msg, p: string)
    requires SameAt(a, b, p)
    ensures SameAt(Apply(a, m), Apply(b, m), p)
  {
    if m.Sentinel? {
      MarkedHistory(a, m.scan, m.root, m.canceled, p);
      MarkedHistory(b, m.scan, m.root, m.canceled, p);
    }
  }

  lemma OwnMessageElsewhere(t: Db, m: Msg, roots: Roots, p: string)
    requires Placed(m, roots) && !InSubtree(roots[m.scan], p)
    ensures SameAt(Apply(t, m), t, p)
  {
    if m.Sentinel? {
      MarkedHistory(t, m.scan, m.root, m.canceled, p);
      UnmarkedKept(t, m.scan, m.root, m.canceled, p);
    }
  }

  /** Outside its root's subtree a scan changes nothing: the tables are as if it had never run. */
  lemma {:induction false} OutsideUntouched(t: Db, log: seq<Msg>, roots: Roots, s: nat, p: string)
    requires AllPlaced(log, roots) && s in roots && !InSubtree(roots[s], p)
    ensures SameAt(ApplyAll(t, log), ApplyAll(t, Without(log, s)), p)
  {
    if log != [] {
      var n := |log| - 1;
      var init, m := log[..n], log[n];
      OutsideUntouched(t, init, roots, s, p);
      var a, w := ApplyAll(t, init), Without(init, s);
      if m.scan == s {
        OwnMessageElsewhere(a, m, roots, p);
        assert w + [] == w;
      } else {
        ApplySameAt(a, ApplyAll(t, w), m, p);
        assert (w + [m])[..|w|] == w;
      }
    }
  }

  // ----- stored counts -----

  function EventMap(s: nat, evs: seq<Ev>): map<string, Row> {
    if evs == [] then map[]
    else EventMap(s, evs[..|evs| - 1])[evs[|evs| - 1].path := RowOf(s, evs[|evs| - 1])]
  }

  function NumKind(evs: seq<Ev>, k: NodeType): nat {
    if evs == [] then 0 else NumKind(evs[..|evs| - 1], k) + (if evs[|evs| - 1].kind == k then 1 else 0)
  }

  function SumSizes(evs: seq<Ev>): nat {
    if evs == [] then 0 else SumSizes(evs[..|evs| - 1]) + evs[|evs| - 1].size
  }

  function EventCounts(evs: seq<Ev>): Counts {
    Counts(NumKind(evs, DIR), NumKind(evs, FILE), NumKind(evs, LINK), SumSizes(evs))
  }

  lemma {:induction false} EventMapEntries(s: nat, evs: seq<Ev>)
    requires DistinctPaths(evs)
    ensures forall p :: p in EventMap(s, evs) <==> exists i :: 0 <= i < |evs| && evs[i].path == p
    ensures forall i :: 0 <= i < |evs| ==>
              evs[i].path in EventMap(s, evs) && EventMap(s, evs)[evs[i].path] == RowOf(s, evs[i])
  {
    if evs != [] {
      EventMapEntries(s, evs[..|evs| - 1]);
    }
  }

  lemma KindInsert(m: map<string, Row>, p: string, r: Row, k: NodeType)
    requires p !in m
    ensures |OfKind(m[p := r], k)| == |OfKind(m, k)| + (if r.kind == k then 1 else 0)
  {
    assert OfKind(m[p := r], k) == if r.kind == k then OfKind(m, k) + {p} else OfKind(m, k);
  }

  lemma {:induction false} EventMapCounts(s: nat, evs: seq<Ev>)
    requires DistinctPaths(evs)
    ensures CountsOf(EventMap(s, evs)) == EventCounts(evs)
  {
    if evs == [] {
      assert EventMap(s, evs) == map[];
    } else {
      var n := |evs| - 1;
      EventMapCounts(s, evs[..n]);
      EventMapEntries(s, evs[..n]);
      var m, p, r := EventMap(s, evs[..n]), evs[n].path, RowOf(s, evs[n]);
      SizeInsert(m, p, r);
      KindInsert(m, p, r, DIR);
      KindInsert(m, p, r, FILE);
      KindInsert(m, p, r, LINK);
    }
  }

  lemma {:induction false} EventsOfDistinct(log: seq<Msg>, s: nat)
    requires DistinctEvents(log)
    ensures DistinctPaths(EventsOf(log, s))
  {
    if log != [] {
      var n := |log| - 1;
      EventsOfDistinct(log[..n], s);
      EventsOfMembers(log[..n], s);
      var evs := EventsOf(log[..n], s);
      if log[n].Event? && log[n].scan == s {
        forall i | 0 <= i < |evs| ensures evs[i].path != log[n].ev.path {
          assert evs[i] in evs;
          var k :| 0 <= k < n && log[k] == Event(s, evs[i]);
        }
      }
    }
  }

  lemma OwnRow(d: Db, log: seq<Msg>, roots: Roots, s: nat, p: string)
    requires Owned(d, log) && Sourced(d, log, roots) && s in roots && !Closed(log, s)
    ensures
      var evs := EventsOf(log, s);
      && (p in RowsOf(d.current, s) <==> exists i :: 0 <= i < |evs| && evs[i].path == p)
      && (forall i :: 0 <= i < |evs| && evs[i].path == p ==> p in d.current && d.current[p] == RowOf(s, evs[i]))
  {
    var evs := EventsOf(log, s);
    EventsOfMembers(log, s);
    hide EventsOf, Closed;
    if p in RowsOf(d.current, s) {
      assert From(log, p, d.current[p]);
      var ev :| Event(s, ev) in log && ev.path == p;
      assert ev in evs;
    }
    forall i | 0 <= i < |evs| && evs[i].path == p ensures p in d.current && d.current[p] == RowOf(s, evs[i]) {
      assert evs[i] in evs;
      assert Event(s, evs[i]) in log;
    }
  }

  // Rows carrying the scan's id are exactly its events.
  lemma OwnRows(d: Db, log: seq<Msg>, roots: Roots, s: nat)
    requires Owned(d, log) && Sourced(d, log, roots) && s in roots && !Closed(log, s)
    requires DistinctPaths(EventsOf(log, s))
    ensures RowsOf(d.current, s) == EventMap(s, EventsOf(log, s))
  {
    hide Owned, Sourced, Closed, EventsOf, EventMap, DistinctPaths;
    var evs := EventsOf(log, s);
    EventMapEntries(s, evs);
    forall p
      ensures p in RowsOf(d.current, s) <==> p in EventMap(s, evs)
      ensures p in EventMap(s, evs) ==> RowsOf(d.current, s)[p] == EventMap(s, evs)[p]
    {
      OwnRow(d, log, roots, s, p);
    }
  }

  lemma OwnRowsKept(d: Db, s: nat, root: string, canceled: bool)
    ensures RowsOf(MarkDeleted(d, s, root, canceled).current, s) == RowsOf(d.current, s)
  {
  }

  /** The counts and total size stored for a scan are those of its events, canceled or not. */
  lemma StoredCounts(t: Db, log: seq<Msg>, roots: Roots, m: Msg)
    requires Fresh(t, roots) && Stream(log + [m], roots) && DistinctEvents(log + [m]) && m.Sentinel?
    ensures
      var tasks := ApplyAll(t, log + [m]).tasks;
      m.scan in tasks && tasks[m.scan] == Task(m.root, EventCounts(EventsOf(log, m.scan)))
  {
    var log', n, s := log + [m], |log|, m.scan;
    assert log'[..n] == log && log'[n] == m;
    StreamPrefix(log', roots);
    StreamFacts(t, log, roots);
    assert Placed(log'[n], roots);
    if Closed(log, s) {
      ClosedIsSilent(log', s);
    }
    EventsOfDistinct(log, s);
    hide Stream, DistinctEvents, Owned, Sourced, Keyed, UniqueKeys, Closed, DistinctPaths, RowsOf, CountsOf,
         MarkDeleted;
    OwnRows(ApplyAll(t, log), log, roots, s);
    OwnRowsKept(ApplyAll(t, log), s, m.root, m.canceled);
    EventMapCounts(s, EventsOf(log, s));
  }
}
