/**
 Serialisability of the exporter: interleaved event streams of scans whose roots do not overlap leave
 the same tables as whole scans processed one after another, in the order of their sentinels.
 */
module Serial {
  import opened Paths
  import opened FileTree
  import opened Messages
  import opened Tables

  type Roots = map<nat, string>

  // The message belongs to a known scan and stays in its subtree.
  predicate Placed(m: Msg, roots: Roots) {
    m.scan in roots &&
    match m
    case Event(s, ev) => InSubtree(roots[s], ev.path)
    case Sentinel(s, _, root) => root == roots[s]
  }

  ghost predicate AllPlaced(log: seq<Msg>, roots: Roots) {
    forall i :: 0 <= i < |log| ==> Placed(log[i], roots)
  }

  predicate Closed(log: seq<Msg>, s: nat) {
    exists i :: 0 <= i < |log| && log[i].Sentinel? && log[i].scan == s
  }

  predicate Apart(a: Msg, b: Msg, roots: Roots) {
    a.scan in roots && b.scan in roots && !PathsOverlap(roots[a.scan], roots[b.scan])
  }

  // Scans that share the queue do not overlap: while s is open, no other scan's root overlaps it.
  ghost predicate OpenScansApart(log: seq<Msg>, roots: Roots) {
    forall i, j :: 0 <= i < j < |log| && log[i].scan != log[j].scan && !Closed(log[..j], log[i].scan) ==>
      Apart(log[i], log[j], roots)
  }

  ghost predicate Stream(log: seq<Msg>, roots: Roots) {
    AllPlaced(log, roots) && OpenScansApart(log, roots) && SentinelsLast(log)
  }

  // ----- the serial order -----

  function Only(log: seq<Msg>, s: nat): seq<Msg> {
    if log == [] then []
    else Only(log[..|log| - 1], s) + (if log[|log| - 1].scan == s then [log[|log| - 1]] else [])
  }

  function Without(log: seq<Msg>, s: nat): seq<Msg> {
    if log == [] then []
    else Without(log[..|log| - 1], s) + (if log[|log| - 1].scan != s then [log[|log| - 1]] else [])
  }

  // Events of scans that are still open.
  function Pending(log: seq<Msg>): seq<Msg> {
    if log == [] then []
    else
      var rest, m := Pending(log[..|log| - 1]), log[|log| - 1];
      if m.Sentinel? then Without(rest, m.scan) else rest + [m]
  }

  // Finished scans, each as one block closed by its sentinel.
  function Finished(log: seq<Msg>): seq<Msg> {
    if log == [] then []
    else
      var init, m := log[..|log| - 1], log[|log| - 1];
      if m.Sentinel? then Finished(init) + Only(Pending(init), m.scan) + [m] else Finished(init)
  }

  function SerialOrder(log: seq<Msg>): seq<Msg> {
    Finished(log) + Pending(log)
  }

  // ----- rows stay inside their scan's subtree -----

  predicate RowsInside(rows: seq<Row>, s: nat) {
    exists i :: 0 <= i < |rows| && rows[i].scan == s
  }

  ghost predicate LocalAt(t: Db, s: nat, root: string, p: string) {
    && (p in t.current && t.current[p].scan == s ==> InSubtree(root, p))
    && (RowsInside(HistoryOf(t.history, p), s) ==> InSubtree(root, p))
  }

  ghost predicate Local(t: Db, roots: Roots) {
    forall s, p :: s in roots ==> LocalAt(t, s, roots[s], p)
  }

  lemma UpsertLocal(t: Db, s: nat, ev: Ev, roots: Roots)
    requires Local(t, roots) && Placed(Event(s, ev), roots)
    ensures Local(Upsert(t, s, ev), roots)
  {
    var t' := Upsert(t, s, ev);
    forall x, p | x in roots ensures LocalAt(t', x, roots[x], p) {
      assert LocalAt(t, x, roots[x], p);
    }
  }

  lemma FinalizeLocal(t: Db, s: nat, root: string, canceled: bool, roots: Roots)
    requires Local(t, roots) && Placed(Sentinel(s, canceled, root), roots)
    ensures Local(Finalize(t, s, root, canceled), roots)
  {
    var t' := Finalize(t, s, root, canceled);
    forall x, p | x in roots ensures LocalAt(t', x, roots[x], p) {
      assert LocalAt(t, x, roots[x], p);
      MarkDeletedLocal(t, s, root, canceled, x, p);
    }
  }

  lemma MarkDeletedLocal(t: Db, s: nat, root: string, canceled: bool, x: nat, p: string)
    ensures
      var t' := MarkDeleted(t, s, root, canceled);
      && (p in t'.current && t'.current[p].scan == x ==> p in t.current && t.current[p].scan == x)
      && (RowsInside(HistoryOf(t'.history, p), x) ==>
            RowsInside(HistoryOf(t.history, p), x) || (x == s && Under(root, p)))
  {
    MarkedHistory(t, s, root, canceled, p);
  }

  lemma ApplyLocal(t: Db, m: Msg, roots: Roots)
    requires Local(t, roots) && Placed(m, roots)
    ensures Local(Apply(t, m), roots)
  {
    match m
    case Event(s, ev) => UpsertLocal(t, s, ev, roots);
    case Sentinel(s, canceled, root) => FinalizeLocal(t, s, root, canceled, roots);
  }

  lemma {:induction false} ApplyAllLocal(t: Db, log: seq<Msg>, roots: Roots)
    requires Local(t, roots) && AllPlaced(log, roots)
    ensures Local(ApplyAll(t, log), roots)
  {
    if log != [] {
      ApplyAllLocal(t, log[..|log| - 1], roots);
      ApplyLocal(ApplyAll(t, log[..|log| - 1]), log[|log| - 1], roots);
    }
  }

  // ----- messages of scans apart commute -----

  lemma UpsertsCommute(t: Db, s: nat, a: Ev, r: nat, b: Ev)
    requires a.path != b.path
    ensures Upsert(Upsert(t, s, a), r, b) == Upsert(Upsert(t, r, b), s, a)
  {
    assert Upsert(Upsert(t, s, a), r, b).history == Upsert(Upsert(t, r, b), s, a).history;
    assert Upsert(Upsert(t, s, a), r, b).current == Upsert(Upsert(t, r, b), s, a).current;
  }

  lemma GoneRowsElsewhere(current: map<string, Row>, p: string, row: Row, r: nat, root: string, canceled: bool)
    requires !Under(root, p)
    ensures GoneRows(current[p := row], r, root, canceled) == GoneRows(current, r, root, canceled)
    ensures Unvisited(current[p := row], r, root) == Unvisited(current, r, root)
    ensures p !in GoneRows(current, r, root, canceled)
  {
    assert Unvisited(current[p := row], r, root) == Unvisited(current, r, root);
  }

  lemma MarkHistoryElsewhere(h: map<string, seq<Row>>, gone: map<string, Row>, p: string, rows: seq<Row>)
    requires p !in gone
    ensures MarkHistory(h[p := rows], gone) == MarkHistory(h, gone)[p := rows]
    ensures HistoryOf(MarkHistory(h, gone), p) == HistoryOf(h, p)
  {
  }

  lemma MarkDeletedCommutes(t: Db, s: nat, ev: Ev, r: nat, root: string, canceled: bool)
    requires !Under(root, ev.path)
    ensures MarkDeleted(Upsert(t, s, ev), r, root, canceled) == Upsert(MarkDeleted(t, r, root, canceled), s, ev)
  {
    var p, row := ev.path, RowOf(s, ev);
    var gone := GoneRows(t.current, r, root, canceled);
    GoneRowsElsewhere(t.current, p, row, r, root, canceled);
    MarkHistoryElsewhere(t.history, gone, p, HistoryOf(t.history, p) + [row]);
    var u := Unvisited(t.current, r, root);
    assert p !in u;
    assert t.current[p := row] - u == (t.current - u)[p := row];
    hide MarkHistory, GoneRows, Unvisited, HistoryOf;
  }

  // An event of another scan is invisible to a scan's diff and counts.
  lemma UpsertInvisible(t: Db, s: nat, ev: Ev, r: nat)
    requires s != r
    requires ev.path in t.current ==> t.current[ev.path].scan != r
    requires !RowsInside(HistoryOf(t.history, ev.path), r)
    ensures Touched(Upsert(t, s, ev).history, r) == Touched(t.history, r)
    ensures RowsOf(Upsert(t, s, ev).current, r) == RowsOf(t.current, r)
  {
    var rows, row := HistoryOf(t.history, ev.path), RowOf(s, ev);
    NoRowFor(rows, r);
    NoRowFor(rows + [row], r);
  }

  lemma {:induction false} NoRowFor(rows: seq<Row>, s: nat)
    requires !RowsInside(rows, s)
    ensures RowFor(rows, s).None?
  {
    if rows != [] {
      assert !RowsInside(rows[..|rows| - 1], s) by {
        assert forall i :: 0 <= i < |rows| - 1 ==> rows[..|rows| - 1][i] == rows[i];
      }
      NoRowFor(rows[..|rows| - 1], s);
    }
  }

  lemma FinalizeCommutes(t: Db, s: nat, ev: Ev, r: nat, root: string, canceled: bool)
    requires s != r && !InSubtree(root, ev.path)
    requires LocalAt(t, r, root, ev.path)
    ensures Finalize(Upsert(t, s, ev), r, root, canceled) == Upsert(Finalize(t, r, root, canceled), s, ev)
  {
    MarkDeletedCommutes(t, s, ev, r, root, canceled);
    MarkedHistory(t, r, root, canceled, ev.path);
    UpsertInvisible(MarkDeleted(t, r, root, canceled), s, ev, r);
  }

  // An event commutes with any message of a scan apart from its own.
  lemma Commute(t: Db, a: Msg, b: Msg, roots: Roots)
    requires Local(t, roots) && Placed(a, roots) && Placed(b, roots)
    requires a.Event? && a.scan != b.scan && Apart(a, b, roots)
    ensures Apply(Apply(t, a), b) == Apply(Apply(t, b), a)
  {
    OverlapIffSubtreesMeet(roots[a.scan], roots[b.scan]);
    assert !InSubtree(roots[b.scan], a.ev.path);
    match b
    case Event(r, ev) => UpsertsCommute(t, a.scan, a.ev, r, ev);
    case Sentinel(r, canceled, root) =>
      assert LocalAt(t, r, roots[r], a.ev.path);
      FinalizeCommutes(t, a.scan, a.ev, r, root, canceled);
  }

  ghost predicate EventsApartFrom(log: seq<Msg>, m: Msg, roots: Roots) {
    forall i :: 0 <= i < |log| ==> log[i].Event? && log[i].scan != m.scan && Apart(log[i], m, roots)
  }

  // A message may be moved in front of events it is apart from.
  lemma {:induction false} MoveBefore(t: Db, log: seq<Msg>, m: Msg, roots: Roots)
    requires Local(t, roots) && AllPlaced(log, roots) && Placed(m, roots)
    requires EventsApartFrom(log, m, roots)
    ensures Apply(ApplyAll(t, log), m) == ApplyAll(Apply(t, m), log)
  {
    if log != [] {
      var n := |log| - 1;
      MoveBefore(t, log[..n], m, roots);
      ApplyAllLocal(t, log[..n], roots);
      Commute(ApplyAll(t, log[..n]), log[n], m, roots);
    }
  }

  ghost predicate PairsApart(log: seq<Msg>, roots: Roots) {
    && (forall i :: 0 <= i < |log| ==> log[i].Event?)
    && (forall i, j :: 0 <= i < j < |log| && log[i].scan != log[j].scan ==> Apart(log[i], log[j], roots))
  }

  lemma PartitionStep(t: Db, o: seq<Msg>, w: seq<Msg>, m: Msg, roots: Roots)
    requires Local(t, roots) && AllPlaced(o, roots) && AllPlaced(w, roots) && Placed(m, roots)
    requires EventsApartFrom(w, m, roots)
    ensures Apply(ApplyAll(ApplyAll(t, o), w), m) == ApplyAll(ApplyAll(t, o + [m]), w)
  {
    ApplyAllLocal(t, o, roots);
    MoveBefore(ApplyAll(t, o), w, m, roots);
    assert (o + [m])[..|o|] == o;
  }

  lemma PairsApartPrefix(log: seq<Msg>, s: nat, roots: Roots)
    requires log != [] && AllPlaced(log, roots) && PairsApart(log, roots)
    ensures
      var n := |log| - 1;
      var o, w := Only(log[..n], s), Without(log[..n], s);
      && PairsApart(log[..n], roots) && AllPlaced(log[..n], roots)
      && AllPlaced(o, roots) && AllPlaced(w, roots)
      && (log[n].scan == s ==> EventsApartFrom(w, log[n], roots))
  {
    var n := |log| - 1;
    OnlyWithoutMembers(log[..n], s);
    hide Placed, Apart;
  }

  // The events of one scan may be collected in front.
  lemma {:induction false} Partition(t: Db, log: seq<Msg>, s: nat, roots: Roots)
    requires Local(t, roots) && AllPlaced(log, roots) && PairsApart(log, roots)
    ensures ApplyAll(t, log) == ApplyAll(ApplyAll(t, Only(log, s)), Without(log, s))
  {
    if log != [] {
      hide Apply, Local, Placed, Apart, PairsApart, EventsApartFrom;
      var n := |log| - 1;
      PairsApartPrefix(log, s, roots);
      var m, o, w := log[n], Only(log[..n], s), Without(log[..n], s);
      Partition(t, log[..n], s, roots);
      if m.scan == s {
        assert w + [] == w;
        PartitionStep(t, o, w, m, roots);
      } else {
        assert (w + [m])[..|w|] == w;
        assert o + [] == o;
      }
    }
  }

  lemma {:induction false} OnlyWithoutMembers(log: seq<Msg>, s: nat)
    ensures forall x :: x in Only(log, s) ==> x in log && x.scan == s
    ensures forall x :: x in Without(log, s) ==> x in log && x.scan != s
  {
    if log != [] {
      OnlyWithoutMembers(log[..|log| - 1], s);
    }
  }

  // ----- what is still open -----

  lemma {:induction false} PendingMembers(log: seq<Msg>)
    requires SentinelsLast(log)
    ensures forall x :: x in Pending(log) ==> x in log && x.Event? && !Closed(log, x.scan)
  {
    if log != [] {
      var n := |log| - 1;
      PendingMembers(log[..n]);
      OnlyWithoutMembers(Pending(log[..n]), log[n].scan);
      forall x | x in Pending(log) ensures x in log && x.Event? && !Closed(log, x.scan) {
        ClosedGrows(log, x.scan);
        assert x in log[..n] || x == log[n];
      }
    }
  }

  lemma PendingApart(log: seq<Msg>, roots: Roots)
    requires Stream(log, roots)
    ensures PairsApart(Pending(log), roots) && AllPlaced(Pending(log), roots)
  {
    PendingMembers(log);
    var p := Pending(log);
    forall i, j | 0 <= i < j < |p| && p[i].scan != p[j].scan ensures Apart(p[i], p[j], roots) {
      OpenPairApart(log, roots, p[i], p[j]);
    }
  }

  lemma OpenPairApart(log: seq<Msg>, roots: Roots, a: Msg, b: Msg)
    requires Stream(log, roots) && a in log && b in log && a.scan != b.scan
    requires !Closed(log, a.scan) && !Closed(log, b.scan)
    ensures Apart(a, b, roots)
  {
    var i :| 0 <= i < |log| && log[i] == a;
    var j :| 0 <= j < |log| && log[j] == b;
    OverlapSymmetric(roots[a.scan], roots[b.scan]);
    assert !Closed(log[..j], a.scan) && !Closed(log[..i], b.scan);
  }

  // A sentinel is apart from the open events of all other scans.
  lemma SentinelApart(log: seq<Msg>, roots: Roots)
    requires Stream(log, roots) && log != [] && log[|log| - 1].Sentinel?
    ensures
      var n := |log| - 1;
      var w := Without(Pending(log[..n]), log[n].scan);
      Stream(log[..n], roots) && EventsApartFrom(w, log[n], roots) && AllPlaced(w, roots)
  {
    var n := |log| - 1;
    StreamPrefix(log, roots);
    PendingMembers(log[..n]);
    var w := Without(Pending(log[..n]), log[n].scan);
    OnlyWithoutMembers(Pending(log[..n]), log[n].scan);
    forall k | 0 <= k < |w| ensures w[k].Event? && Placed(w[k], roots) && Apart(w[k], log[n], roots) {
      assert w[k] in Pending(log[..n]);
      var i :| 0 <= i < n && log[i] == w[k];
    }
  }

  lemma StreamPrefix(log: seq<Msg>, roots: Roots)
    requires Stream(log, roots) && log != []
    ensures Stream(log[..|log| - 1], roots)
  {
    var init := log[..|log| - 1];
    forall i, j | 0 <= i < j < |init| && init[i].scan != init[j].scan && !Closed(init[..j], init[i].scan)
      ensures Apart(init[i], init[j], roots)
    {
      assert init[..j] == log[..j];
    }
  }

  /**
   Exporter serialisability: the interleaved stream and the serial order leave the same tables.
   */
  lemma {:induction false} Serialisable(t: Db, log: seq<Msg>, roots: Roots)
    requires Local(t, roots) && Stream(log, roots)
    ensures ApplyAll(t, log) == ApplyAll(t, SerialOrder(log))
  {
    if log != [] {
      hide Apply, Local, Placed, Stream;
      var n := |log| - 1;
      var init, m := log[..n], log[n];
      StreamPrefix(log, roots);
      Serialisable(t, init, roots);
      if m.Event? {
        var all := SerialOrder(init);
        assert SerialOrder(log) == all + [m];
        assert (all + [m])[..|all|] == all;
      } else {
        SerialSentinel(t, log, roots);
      }
    } else {
      assert SerialOrder(log) == [];
    }
  }

  lemma SerialSentinel(t: Db, log: seq<Msg>, roots: Roots)
    requires Local(t, roots) && Stream(log, roots)
    requires log != [] && log[|log| - 1].Sentinel?
    requires ApplyAll(t, log[..|log| - 1]) == ApplyAll(t, SerialOrder(log[..|log| - 1]))
    ensures ApplyAll(t, log) == ApplyAll(t, SerialOrder(log))
  {
    hide Apply, Local, Placed, Stream, PairsApart, EventsApartFrom;
    var n := |log| - 1;
    var init, m := log[..n], log[n];
    var f, p := Finished(init), Pending(init);
    var o, w := Only(p, m.scan), Without(p, m.scan);
    SentinelApart(log, roots);
    PendingApart(init, roots);
    FinishedPlaced(init, roots);
    ApplyAllLocal(t, f, roots);
    ApplyAppend(t, f, p);
    var d := ApplyAll(t, f);
    Partition(d, p, m.scan, roots);
    OnlyPlaced(p, m.scan, roots);
    LastPlaced(log, roots);
    PartitionStep(d, o, w, m, roots);
    assert f + o + [m] == f + (o + [m]);
    ApplyAppend(t, f, o + [m]);
    ApplyAppend(t, f + o + [m], w);
  }

  lemma LastPlaced(log: seq<Msg>, roots: Roots)
    requires Stream(log, roots) && log != []
    ensures Placed(log[|log| - 1], roots)
  {
  }

  lemma OnlyPlaced(log: seq<Msg>, s: nat, roots: Roots)
    requires AllPlaced(log, roots)
    ensures AllPlaced(Only(log, s), roots)
  {
    OnlyWithoutMembers(log, s);
  }

  lemma {:induction false} FinishedPlaced(log: seq<Msg>, roots: Roots)
    requires Stream(log, roots)
    ensures AllPlaced(Finished(log), roots)
  {
    if log != [] {
      hide Placed;
      var n := |log| - 1;
      StreamPrefix(log, roots);
      FinishedPlaced(log[..n], roots);
      PendingApart(log[..n], roots);
      OnlyPlaced(Pending(log[..n]), log[n].scan, roots);
      LastPlaced(log, roots);
    }
  }

  // ----- the serial order is serial -----

  lemma {:induction false} OnlyAppend(a: seq<Msg>, b: seq<Msg>, s: nat)
    ensures Only(a + b, s) == Only(a, s) + Only(b, s)
  {
    if b == [] {
      assert a + b == a;
    } else {
      var n := |b| - 1;
      OnlyAppend(a, b[..n], s);
      assert (a + b)[..|a + b| - 1] == a + b[..n];
    }
  }

  lemma {:induction false} OnlyOfFilters(log: seq<Msg>, s: nat, r: nat)
    ensures Only(Only(log, r), s) == if s == r then Only(log, s) else []
    ensures Only(Without(log, r), s) == if s == r then [] else Only(log, s)
  {
    if log != [] {
      var n := |log| - 1;
      OnlyOfFilters(log[..n], s, r);
      var m := if log[n].scan == r then [log[n]] else [];
      var k := if log[n].scan != r then [log[n]] else [];
      OnlyAppend(Only(log[..n], r), m, s);
      OnlyAppend(Without(log[..n], r), k, s);
      OnlyOne(log[n], s);
    }
  }

  lemma OnlyOne(m: Msg, s: nat)
    ensures Only([m], s) == if m.scan == s then [m] else []
    ensures Only([], s) == []
  {
    assert [m][..0] == [];
  }

  lemma ClosedGrows(log: seq<Msg>, s: nat)
    requires log != []
    ensures Closed(log, s) <==> Closed(log[..|log| - 1], s) || (log[|log| - 1].Sentinel? && log[|log| - 1].scan == s)
  {
    var n := |log| - 1;
    if Closed(log[..n], s) {
      var i :| 0 <= i < n && log[..n][i].Sentinel? && log[..n][i].scan == s;
      assert log[i].Sentinel?;
    }
  }

  // After its sentinel a scan sends nothing more.
  lemma ClosedIsSilent(log: seq<Msg>, s: nat)
    requires SentinelsLast(log) && log != [] && Closed(log[..|log| - 1], s)
    ensures log[|log| - 1].scan != s
  {
    var init := log[..|log| - 1];
    var i :| 0 <= i < |init| && init[i].Sentinel? && init[i].scan == s;
    assert log[i].Sentinel?;
  }

  lemma {:induction false} PendingOf(log: seq<Msg>, s: nat)
    requires SentinelsLast(log)
    ensures Only(Pending(log), s) == if Closed(log, s) then [] else Only(log, s)
  {
    if log != [] {
      var n := |log| - 1;
      var init, m := log[..n], log[n];
      PendingOf(init, s);
      ClosedGrows(log, s);
      if Closed(init, s) {
        ClosedIsSilent(log, s);
      }
      hide Closed, SentinelsLast;
      if m.Sentinel? {
        OnlyOfFilters(Pending(init), s, m.scan);
      } else {
        OnlyOne(m, s);
        OnlyAppend(Pending(init), [m], s);
      }
    }
  }

  lemma Unfold(log: seq<Msg>, s: nat)
    requires log != []
    ensures
      var init, m := log[..|log| - 1], log[|log| - 1];
      && Finished(log) == (if m.Sentinel? then Finished(init) + Only(Pending(init), m.scan) + [m] else Finished(init))
      && Only(log, s) == Only(init, s) + (if m.scan == s then [m] else [])
  {
  }

  lemma {:induction false} FinishedOf(log: seq<Msg>, s: nat)
    requires SentinelsLast(log)
    ensures Only(Finished(log), s) == if Closed(log, s) then Only(log, s) else []
  {
    if log == [] {
      OnlyNone(s);
    } else {
      hide Closed, SentinelsLast, Only, Finished, Pending;
      var n := |log| - 1;
      var init, m := log[..n], log[n];
      SentinelsLastPrefix(log);
      FinishedOf(init, s);
      PendingOf(init, s);
      ClosedGrows(log, s);
      if Closed(init, s) {
        ClosedIsSilent(log, s);
      }
      Unfold(log, s);
      if m.Sentinel? {
        FinishedBlockOf(init, m, s);
      }
      assert Only(init, s) + [] == Only(init, s);
    }
  }

  lemma FinishedBlockOf(init: seq<Msg>, m: Msg, s: nat)
    ensures
      var whole := Finished(init) + Only(Pending(init), m.scan) + [m];
      Only(whole, s) == Only(Finished(init), s) + (if m.scan == s then Only(Pending(init), s) + [m] else [])
  {
    hide Only, Finished, Pending;
    var o := Only(Pending(init), m.scan);
    OnlyOne(m, s);
    OnlyOfFilters(Pending(init), s, m.scan);
    OnlyAppend(Finished(init), o, s);
    OnlyAppend(Finished(init) + o, [m], s);
    assert Only(Finished(init), s) + Only(o, s) + Only([m], s) == Only(Finished(init), s) + (Only(o, s) + Only([m], s));
    if m.scan != s {
      assert Only(o, s) + Only([m], s) == [];
    }
  }

  lemma OnlyNone(s: nat)
    ensures Only(Finished([]), s) == [] && Only([], s) == []
  {
  }

  // An open scan has all its messages pending and none finished; a closed one the other way round.
  lemma WhereMessagesAre(log: seq<Msg>, s: nat)
    requires SentinelsLast(log)
    ensures Only(Pending(log), s) == if Closed(log, s) then [] else Only(log, s)
    ensures Only(Finished(log), s) == if Closed(log, s) then Only(log, s) else []
  {
    PendingOf(log, s);
    FinishedOf(log, s);
  }

  /** The serial order keeps every scan's messages, in their order. */
  lemma SerialKeepsScans(log: seq<Msg>, s: nat)
    requires SentinelsLast(log)
    ensures Only(SerialOrder(log), s) == Only(log, s)
  {
    WhereMessagesAre(log, s);
    OnlyAppend(Finished(log), Pending(log), s);
  }

  ghost predicate BlockAt(log: seq<Msg>, s: nat, a: seq<Msg>, b: seq<Msg>, whole: seq<Msg>) {
    whole == a + Only(log, s) + b && Only(a, s) == [] && Only(b, s) == []
  }

  lemma Regroup(a: seq<Msg>, x: seq<Msg>, b: seq<Msg>, o: seq<Msg>, m: seq<Msg>)
    ensures a + x + b + o + m == a + x + (b + o + m)
  {
  }

  lemma BlockExtends(log: seq<Msg>, s: nat, a: seq<Msg>, b: seq<Msg>)
    requires log != [] && log[|log| - 1].scan != s
    requires var init := log[..|log| - 1]; BlockAt(init, s, a, b, Finished(init))
    ensures exists b' :: BlockAt(log, s, a, b', Finished(log))
  {
    var init, m := log[..|log| - 1], log[|log| - 1];
    var x := Only(init, s);
    assert Only(log, s) == x + [] == x;
    if m.Sentinel? {
      var o := Only(Pending(init), m.scan);
      OnlyOfFilters(Pending(init), s, m.scan);
      OnlyOne(m, s);
      OnlyAppend(b, o, s);
      OnlyAppend(b + o, [m], s);
      Regroup(a, x, b, o, [m]);
      assert Finished(log) == Finished(init) + o + [m];
      hide Only, Finished, Pending;
      assert BlockAt(log, s, a, b + o + [m], Finished(log));
    } else {
      assert BlockAt(log, s, a, b, Finished(log));
    }
  }

  /** Every finished scan is one contiguous block of the serial order, ended by its sentinel. */
  lemma {:induction false} FinishedIsOneBlock(log: seq<Msg>, s: nat)
    requires SentinelsLast(log) && Closed(log, s)
    ensures exists a, b :: BlockAt(log, s, a, b, Finished(log))
  {
    var n := |log| - 1;
    var init, m := log[..n], log[n];
    ClosedGrows(log, s);
    if Closed(init, s) {
      ClosedIsSilent(log, s);
      FinishedIsOneBlock(init, s);
      var a, b :| BlockAt(init, s, a, b, Finished(init));
      BlockExtends(log, s, a, b);
    } else {
      WhereMessagesAre(init, s);
      hide Closed, SentinelsLast;
      assert BlockAt(log, s, Finished(init), [], Finished(log));
    }
  }

  // The sentinels of a log, in order.
  function Sentinels(log: seq<Msg>): seq<Msg> {
    if log == [] then []
    else Sentinels(log[..|log| - 1]) + (if log[|log| - 1].Sentinel? then [log[|log| - 1]] else [])
  }

  lemma {:induction false} SentinelsAppend(a: seq<Msg>, b: seq<Msg>)
    ensures Sentinels(a + b) == Sentinels(a) + Sentinels(b)
  {
    if b == [] {
      assert a + b == a;
    } else {
      var n := |b| - 1;
      SentinelsAppend(a, b[..n]);
      assert (a + b)[..|a + b| - 1] == a + b[..n];
    }
  }

  lemma {:induction false} NoSentinels(log: seq<Msg>)
    requires forall i :: 0 <= i < |log| ==> log[i].Event?
    ensures Sentinels(log) == []
  {
    if log != [] {
      NoSentinels(log[..|log| - 1]);
    }
  }

  lemma SentinelsLastOf(log: seq<Msg>, m: Msg)
    ensures Sentinels(log + [m]) == Sentinels(log) + (if m.Sentinel? then [m] else [])
  {
    assert (log + [m])[..|log|] == log;
  }

  lemma OwnBlockSilent(log: seq<Msg>, s: nat)
    requires SentinelsLast(log)
    ensures Sentinels(Only(Pending(log), s)) == []
  {
    PendingMembers(log);
    OnlyWithoutMembers(Pending(log), s);
    hide SentinelsLast, Only, Pending, Sentinels;
    NoSentinels(Only(Pending(log), s));
  }

  lemma {:induction false} FinishedSentinels(log: seq<Msg>)
    requires SentinelsLast(log)
    ensures Sentinels(Finished(log)) == Sentinels(log)
  {
    if log != [] {
      hide SentinelsLast, Only, Finished, Pending, Sentinels;
      var n := |log| - 1;
      var init, m := log[..n], log[n];
      SentinelsLastPrefix(log);
      FinishedSentinels(init);
      OwnBlockSilent(init, m.scan);
      Unfold(log, m.scan);
      assert log == init + [m];
      SentinelsLastOf(init, m);
      var o := Only(Pending(init), m.scan);
      SentinelsAppend(Finished(init), o);
      SentinelsLastOf(Finished(init) + o, m);
    }
  }

  lemma SentinelsLastPrefix(log: seq<Msg>)
    requires SentinelsLast(log) && log != []
    ensures SentinelsLast(log[..|log| - 1])
  {
  }

  /** The blocks come in the order of the sentinels. */
  lemma SerialInSentinelOrder(log: seq<Msg>)
    requires SentinelsLast(log)
    ensures Sentinels(Finished(log)) == Sentinels(SerialOrder(log)) == Sentinels(log)
  {
    FinishedSentinels(log);
    PendingMembers(log);
    hide SentinelsLast, Finished, Pending, Sentinels;
    NoSentinels(Pending(log));
    SentinelsAppend(Finished(log), Pending(log));
  }
}
