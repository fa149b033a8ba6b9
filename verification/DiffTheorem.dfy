/**
 The diff of a completed scan against index_current before and after it. By serialisability a scan may
 be taken as one block: its events, then its sentinel.
 */
module DiffTheorem {
  import opened Paths
  import opened FileTree
  import opened Messages
  import opened Options
  import opened Tables
  import opened Serial
  import opened Snapshot

  function Block(s: nat, evs: seq<Ev>): seq<Msg> {
    if evs == [] then [] else Block(s, evs[..|evs| - 1]) + [Event(s, evs[|evs| - 1])]
  }

  // The tables know nothing yet of scan s, whose events are a walk below its root.
  ghost predicate Ready(t: Db, s: nat, root: string, evs: seq<Ev>) {
    && (forall p :: !RowsInside(HistoryOf(t.history, p), s))
    && (forall p :: p in t.current ==> t.current[p].scan != s)
    && (forall k :: (s, k) !in t.diffs)
    && DistinctPaths(evs) && AllInSubtree(root, evs)
  }

  // The path's rows are in scan order and all older than s.
  ghost predicate Older(rows: seq<Row>, s: nat) {
    && (forall i :: 0 <= i < |rows| ==> rows[i].scan < s)
    && (forall i, j :: 0 <= i < j < |rows| ==> rows[i].scan < rows[j].scan)
  }

  // Below the root, history is in scan order and s is the next scan.
  ghost predicate InOrder(t: Db, s: nat, root: string) {
    Agree(t) && forall p :: InSubtree(root, p) ==> Older(HistoryOf(t.history, p), s)
  }

  // ----- the events of the block -----

  // What the block's events do at one path.
  function AfterEvent(t: Db, s: nat, ev: Ev): seq<Row> {
    var rows, row := HistoryOf(t.history, ev.path), RowOf(s, ev);
    if ev.path in t.current && SameFingerprint(t.current[ev.path], row) then rows else rows + [row]
  }

  ghost predicate Absent(evs: seq<Ev>, p: string) {
    forall i :: 0 <= i < |evs| ==> evs[i].path != p
  }

  lemma {:induction false} EventsElsewhere(t: Db, s: nat, evs: seq<Ev>, p: string)
    requires Absent(evs, p)
    ensures SameAt(ApplyAll(t, Block(s, evs)), t, p)
    ensures ApplyAll(t, Block(s, evs)).diffs == t.diffs
  {
    if evs != [] {
      var n := |evs| - 1;
      EventsElsewhere(t, s, evs[..n], p);
      BlockStep(t, s, evs);
    }
  }

  lemma BlockStep(t: Db, s: nat, evs: seq<Ev>)
    requires evs != []
    ensures
      var n := |evs| - 1;
      ApplyAll(t, Block(s, evs)) == Upsert(ApplyAll(t, Block(s, evs[..n])), s, evs[n])
  {
    var b, m := Block(s, evs[..|evs| - 1]), Event(s, evs[|evs| - 1]);
    assert (b + [m])[..|b|] == b;
  }

  lemma {:induction false} EventsHere(t: Db, s: nat, evs: seq<Ev>, i: nat)
    requires DistinctPaths(evs) && i < |evs|
    ensures
      var d := ApplyAll(t, Block(s, evs));
      && evs[i].path in d.current && d.current[evs[i].path] == RowOf(s, evs[i])
      && HistoryOf(d.history, evs[i].path) == AfterEvent(t, s, evs[i])
      && d.diffs == t.diffs
  {
    var n := |evs| - 1;
    BlockStep(t, s, evs);
    if i == n {
      EventsElsewhere(t, s, evs[..n], evs[n].path);
    } else {
      EventsHere(t, s, evs[..n], i);
    }
  }

  // ----- the previous row -----

  lemma {:induction false} PreviousIsLastReal(rows: seq<Row>, s: nat)
    requires Older(rows, s)
    ensures Previous(rows, s) == LastReal(rows)
    ensures Previous(rows, s).Some? ==> rows != [] && Previous(rows, s).value.scan <= rows[|rows| - 1].scan
    ensures RowFor(rows, s).None?
  {
    if rows != [] {
      PreviousIsLastReal(rows[..|rows| - 1], s);
    }
  }

  lemma AppendOwn(rows: seq<Row>, r: Row, s: nat)
    requires r.scan == s
    ensures RowFor(rows + [r], s) == Some(r)
    ensures Previous(rows + [r], s) == Previous(rows, s)
  {
    assert (rows + [r])[..|rows|] == rows;
  }

  // ----- the diff -----

  function RowAt(current: map<string, Row>, p: string): Option<Row> {
    if p in current then Some(current[p]) else None
  }

  // Not in the index before and after, or with the same time and size.
  predicate Unchanged(before: Option<Row>, after: Option<Row>) {
    || (before.None? && after.None?)
    || (&& before.Some? && after.Some?
        && before.value.mtime == after.value.mtime && before.value.size == after.value.size)
  }

  predicate Present(row: Option<Row>) {
    row.Some? && !row.value.state.Deleted?
  }

  function SizeIn(row: Option<Row>): nat {
    if row.Some? then row.value.size else 0
  }

  // What the diff does say, when the query for the previous row finds `prev`.
  function Expected(before: Option<Row>, after: Option<Row>, prev: Option<Row>): Option<Diff> {
    if Unchanged(before, after) then None
    else if after.None? then Some(Diff(DiffDeleted, SizeIn(prev)))
    else if after.value.state.Error? then Some(Diff(DiffError, SizeIn(prev)))
    else Some(Diff(if Present(prev) then Changed else New, SizeIn(prev)))
  }

  // What the diff should say of a path whose row was `before` and is `after`.
  ghost predicate Right(before: Option<Row>, after: Option<Row>, d: Option<Diff>) {
    if Unchanged(before, after) then d.None?
    else
      && d.Some?
      && (after.None? <==> d.value.state.DiffDeleted?)
      && (after.Some? && after.value.state.Error? <==> d.value.state.DiffError?)
      && (after.Some? && !after.value.state.Error? && before.None? <==> d.value.state.New?)
      && (after.Some? && !after.value.state.Error? && before.Some? <==> d.value.state.Changed?)
      && (before.Some? ==> d.value.oldSize == before.value.size)
  }

  function DiffAt(t: Db, s: nat, p: string): Option<Diff> {
    if (s, p) in t.diffs then Some(t.diffs[(s, p)]) else None
  }

  lemma DiffRowsAt(h: map<string, seq<Row>>, s: nat, p: string)
    ensures (s, p) in DiffRows(Touched(h, s), s) <==> RowFor(HistoryOf(h, p), s).Some?
    ensures RowFor(HistoryOf(h, p), s).Some? ==>
              DiffRows(Touched(h, s), s)[(s, p)] == PathDiff(HistoryOf(h, p), s)
  {
    var touched := Touched(h, s);
    if RowFor(HistoryOf(h, p), s).Some? {
      assert p in touched;
    }
    hide PathDiff, RowFor;
  }

  lemma FinalDiff(d: Db, s: nat, root: string, canceled: bool, p: string)
    requires (s, p) !in d.diffs
    ensures
      var rows := HistoryOf(MarkDeleted(d, s, root, canceled).history, p);
      DiffAt(Finalize(d, s, root, canceled), s, p)
      == if RowFor(rows, s).Some? then Some(PathDiff(rows, s)) else None
  {
    DiffRowsAt(MarkDeleted(d, s, root, canceled).history, s, p);
    hide MarkHistory, GoneRows, CountsOf, RowsOf, DiffRows, Touched, PathDiff, RowFor, HistoryOf;
  }

  function Found(rows: seq<Row>, s: nat): Option<Diff> {
    if RowFor(rows, s).Some? then Some(PathDiff(rows, s)) else None
  }

  lemma VisitedDiff(t: Db, s: nat, ev: Ev)
    requires !RowsInside(HistoryOf(t.history, ev.path), s)
    ensures Found(AfterEvent(t, s, ev), s) ==
            Expected(RowAt(t.current, ev.path), Some(RowOf(s, ev)), Previous(HistoryOf(t.history, ev.path), s))
  {
    var rows := HistoryOf(t.history, ev.path);
    NoRowFor(rows, s);
    AppendOwn(rows, RowOf(s, ev), s);
    hide RowFor, Previous, RowsInside;
  }

  lemma GoneDiff(t: Db, s: nat, p: string)
    requires p in t.current
    ensures
      var rows := HistoryOf(t.history, p);
      Found(rows + [Gone(t.current[p], s, false)], s) == Expected(RowAt(t.current, p), None, Previous(rows, s))
  {
    AppendOwn(HistoryOf(t.history, p), Gone(t.current[p], s, false), s);
    hide RowFor, Previous;
  }

  // A changed row of index_current is one of the scan's own.
  predicate OwnChange(before: Option<Row>, after: Option<Row>) {
    after.Some? && !Unchanged(before, after) ==> after.value.state.Alive? || after.value.state.Error?
  }

  lemma VisitedExact(t: Db, s: nat, root: string, evs: seq<Ev>, canceled: bool, i: nat)
    requires Ready(t, s, root, evs) && i < |evs|
    ensures
      var f, p := Finalize(ApplyAll(t, Block(s, evs)), s, root, canceled), evs[i].path;
      && RowAt(f.current, p) == Some(RowOf(s, evs[i]))
      && DiffAt(f, s, p) == Expected(RowAt(t.current, p), RowAt(f.current, p), Previous(HistoryOf(t.history, p), s))
  {
    var p := evs[i].path;
    var d := ApplyAll(t, Block(s, evs));
    assert !RowsInside(HistoryOf(t.history, p), s) && (s, p) !in t.diffs;
    EventsHere(t, s, evs, i);
    hide Ready, ApplyAll, Block, Finalize, MarkDeleted, AfterEvent, HistoryOf, RowFor, PathDiff, Expected, RowsInside;
    assert p !in Unvisited(d.current, s, root);
    MarkedHistory(d, s, root, canceled, p);
    FinalDiff(d, s, root, canceled, p);
    UnmarkedKept(d, s, root, canceled, p);
    VisitedDiff(t, s, evs[i]);
  }

  lemma UnvisitedExact(t: Db, s: nat, root: string, evs: seq<Ev>, p: string)
    requires Ready(t, s, root, evs) && Absent(evs, p)
    ensures
      var f := Finalize(ApplyAll(t, Block(s, evs)), s, root, false);
      && (RowAt(f.current, p).None? || RowAt(f.current, p) == RowAt(t.current, p))
      && (!Under(root, p) ==> RowAt(f.current, p) == RowAt(t.current, p))
      && DiffAt(f, s, p) == Expected(RowAt(t.current, p), RowAt(f.current, p), Previous(HistoryOf(t.history, p), s))
  {
    var d := ApplyAll(t, Block(s, evs));
    var f := Finalize(d, s, root, false);
    var rows := HistoryOf(t.history, p);
    assert !RowsInside(rows, s) && (s, p) !in t.diffs;
    NoRowFor(rows, s);
    EventsElsewhere(t, s, evs, p);
    MarkedHistory(d, s, root, false, p);
    FinalDiff(d, s, root, false, p);
    if p in Unvisited(d.current, s, root) {
      assert p !in f.current;
      GoneDiff(t, s, p);
    } else {
      UnmarkedKept(d, s, root, false, p);
    }
  }

  /**
   What the diff says, whatever the ids: a row exactly for the paths whose fingerprint differs between index_current
   before and after the scan, labelled by the row the query for the previous state finds.
   */
  lemma DiffExact(t: Db, s: nat, root: string, evs: seq<Ev>, p: string)
    requires Ready(t, s, root, evs)
    ensures
      var f := ApplyAll(t, Block(s, evs) + [Sentinel(s, false, root)]);
      var before, after := RowAt(t.current, p), RowAt(f.current, p);
      && DiffAt(f, s, p) == Expected(before, after, Previous(HistoryOf(t.history, p), s))
      && OwnChange(before, after)
      && (!InSubtree(root, p) ==> before == after)
  {
    hide Finalize, DiffAt, RowAt, ApplyAll, Block, Expected, Previous, HistoryOf;
    ApplySnoc(t, Block(s, evs), Sentinel(s, false, root));
    if i :| 0 <= i < |evs| && evs[i].path == p {
      VisitedExact(t, s, root, evs, false, i);
    } else {
      UnvisitedExact(t, s, root, evs, p);
    }
  }

  // ----- canceled scans -----

  // The diff of a canceled scan: seen paths as for a finished one, indexed paths it did not reach as canceled.
  function ExpectedCut(seen: bool, under: bool, before: Option<Row>, after: Option<Row>, prev: Option<Row>)
    : Option<Diff>
  {
    if seen then Expected(before, after, prev)
    else if under && before.Some? then Some(Diff(DiffCanceled, SizeIn(prev)))
    else None
  }

  lemma CutDiff(t: Db, s: nat, p: string)
    requires p in t.current
    ensures
      var rows := HistoryOf(t.history, p);
      Found(rows + [Gone(t.current[p], s, true)], s) == Some(Diff(DiffCanceled, SizeIn(Previous(rows, s))))
  {
    AppendOwn(HistoryOf(t.history, p), Gone(t.current[p], s, true), s);
    hide RowFor, Previous;
  }

  lemma UnseenCut(t: Db, s: nat, root: string, evs: seq<Ev>, p: string)
    requires Ready(t, s, root, evs) && Absent(evs, p)
    ensures
      var f := Finalize(ApplyAll(t, Block(s, evs)), s, root, true);
      var before, after := RowAt(t.current, p), RowAt(f.current, p);
      && before == after
      && DiffAt(f, s, p) == ExpectedCut(false, Under(root, p), before, after, Previous(HistoryOf(t.history, p), s))
  {
    var d := ApplyAll(t, Block(s, evs));
    var rows := HistoryOf(t.history, p);
    assert !RowsInside(rows, s) && (s, p) !in t.diffs;
    assert p in t.current ==> t.current[p].scan != s;
    NoRowFor(rows, s);
    EventsElsewhere(t, s, evs, p);
    MarkedHistory(d, s, root, true, p);
    FinalDiff(d, s, root, true, p);
    CanceledFinalKeeps(d, s, root);
    hide Finalize, ApplyAll, Block, Ready;
    if p in t.current {
      CutDiff(t, s, p);
    }
  }

  /** The diff of a canceled scan as one block, whatever the ids. */
  lemma CanceledExact(t: Db, s: nat, root: string, evs: seq<Ev>, p: string)
    requires Ready(t, s, root, evs)
    ensures
      var f := ApplyAll(t, Block(s, evs) + [Sentinel(s, true, root)]);
      var before, after, seen := RowAt(t.current, p), RowAt(f.current, p), !Absent(evs, p);
      && DiffAt(f, s, p) == ExpectedCut(seen, Under(root, p), before, after, Previous(HistoryOf(t.history, p), s))
      && (!seen ==> before == after)
  {
    hide Finalize, DiffAt, RowAt, ApplyAll, Block, Expected, Previous, HistoryOf;
    ApplySnoc(t, Block(s, evs), Sentinel(s, true, root));
    if i :| 0 <= i < |evs| && evs[i].path == p {
      VisitedExact(t, s, root, evs, true, i);
    } else {
      UnseenCut(t, s, root, evs, p);
    }
  }

  // ----- right labels -----

  // The previous row, as far as a label and an old size show it, is the state the path was in.
  predicate Fits(before: Option<Row>, after: Option<Row>, prev: Option<Row>) {
    Unchanged(before, after) ||
    (&& (after.Some? && after.value.state.Alive? ==> Present(prev) == before.Some?)
     && (before.Some? ==> before.value.size == SizeIn(prev)))
  }

  /** Exactly when it is right. */
  lemma RightIff(before: Option<Row>, after: Option<Row>, prev: Option<Row>)
    requires OwnChange(before, after)
    ensures Right(before, after, Expected(before, after, prev)) <==> Fits(before, after, prev)
  {
  }

  lemma OrderFits(t: Db, s: nat, p: string, after: Option<Row>)
    requires AgreeAt(t, p) && Previous(HistoryOf(t.history, p), s) == LastReal(HistoryOf(t.history, p))
    ensures Fits(RowAt(t.current, p), after, Previous(HistoryOf(t.history, p), s))
  {
    hide Previous, LastReal;
  }

  /**
   Diff correctness, ids being in order: for a completed scan every path is labelled exactly according to
   index_current before and after it; unchanged fingerprints get no row and changed ones carry the previous size.
   */
  lemma DiffCorrect(t: Db, s: nat, root: string, evs: seq<Ev>, p: string)
    requires Ready(t, s, root, evs) && InOrder(t, s, root)
    ensures
      var f := ApplyAll(t, Block(s, evs) + [Sentinel(s, false, root)]);
      Right(RowAt(t.current, p), RowAt(f.current, p), DiffAt(f, s, p))
  {
    var f := ApplyAll(t, Block(s, evs) + [Sentinel(s, false, root)]);
    var before, after, prev := RowAt(t.current, p), RowAt(f.current, p), Previous(HistoryOf(t.history, p), s);
    hide Right, DiffAt, RowAt, ApplyAll, Block, Expected, Previous, HistoryOf, Ready, LastReal, Older;
    DiffExact(t, s, root, evs, p);
    if InSubtree(root, p) {
      PreviousIsLastReal(HistoryOf(t.history, p), s);
      assert AgreeAt(t, p);
      OrderFits(t, s, p, after);
    }
    RightIff(before, after, prev);
  }

  // ----- conservation -----

  function InTree(current: map<string, Row>, root: string): set<string> {
    set p | p in current && InSubtree(root, p)
  }

  // Paths the diff labels this way.
  function Labelled(t: Db, s: nat, state: ScanState): set<string> {
    set k | k in t.diffs && k.0 == s && t.diffs[k].state == state :: k.1
  }

  lemma AfterVisited(t: Db, s: nat, root: string, evs: seq<Ev>, i: nat)
    requires DistinctPaths(evs) && i < |evs|
    ensures
      var f := ApplyAll(t, Block(s, evs) + [Sentinel(s, false, root)]);
      evs[i].path in f.current && f.current[evs[i].path] == RowOf(s, evs[i])
  {
    var b, m := Block(s, evs), Sentinel(s, false, root);
    var d := ApplyAll(t, b);
    ApplySnoc(t, b, m);
    EventsHere(t, s, evs, i);
    assert evs[i].path !in Unvisited(d.current, s, root);
    hide Finalize, Block, ApplyAll;
    UnmarkedKept(d, s, root, false, evs[i].path);
  }

  lemma AfterAbsent(t: Db, s: nat, root: string, evs: seq<Ev>, p: string)
    requires Absent(evs, p)
    ensures
      var f := ApplyAll(t, Block(s, evs) + [Sentinel(s, false, root)]);
      && (p in f.current ==> p in t.current && f.current[p] == t.current[p])
      && (p in t.current && !Under(root, p) ==> p in f.current)
  {
    var b, m := Block(s, evs), Sentinel(s, false, root);
    var d := ApplyAll(t, b);
    ApplySnoc(t, b, m);
    EventsElsewhere(t, s, evs, p);
    hide CountsOf, DiffRows, Touched, RowsOf, MarkHistory, GoneRows, Block, ApplyAll;
    if p !in Unvisited(d.current, s, root) {
      UnmarkedKept(d, s, root, false, p);
    }
  }

  lemma InDiff(f: Db, s: nat, p: string, state: ScanState)
    ensures p in Labelled(f, s, state) <==> DiffAt(f, s, p).Some? && DiffAt(f, s, p).value.state == state
  {
    if (s, p) in f.diffs && f.diffs[(s, p)].state == state {
      assert (s, p).1 in Labelled(f, s, state);
    }
  }

  // Changed paths that the query takes for absent, and so labels New.
  function WronglyNew(t: Db, f: Db, s: nat, root: string): set<string> {
    set p | p in InTree(t.current, root) && p in InTree(f.current, root)
         && !Unchanged(Some(t.current[p]), Some(f.current[p])) && !Present(Previous(HistoryOf(t.history, p), s))
  }

  // New paths that the query takes for present, and so does not label New.
  function MissedNew(t: Db, f: Db, s: nat, root: string): set<string> {
    set p | p in InTree(f.current, root) && p !in t.current && Present(Previous(HistoryOf(t.history, p), s))
  }

  lemma NewLabels(t: Db, s: nat, root: string, evs: seq<Ev>, p: string)
    requires Ready(t, s, root, evs) && (forall i :: 0 <= i < |evs| ==> evs[i].errno == 0)
    ensures
      var f := ApplyAll(t, Block(s, evs) + [Sentinel(s, false, root)]);
      var before, after := InTree(t.current, root), InTree(f.current, root);
      && (p in Labelled(f, s, New) <==>
            (p in after && p !in before && p !in MissedNew(t, f, s, root)) || p in WronglyNew(t, f, s, root))
      && (p in Labelled(f, s, DiffDeleted) <==> p in before && p !in after)
  {
    hide Ready, ApplyAll, Block, Labelled, DiffAt, Previous, HistoryOf, InSubtree, Expected, OwnChange, RowAt,
         WronglyNew,
         MissedNew, InTree, Unchanged, Present;
    var f := ApplyAll(t, Block(s, evs) + [Sentinel(s, false, root)]);
    ChangedIsAlive(t, s, root, evs, p);
    DiffExact(t, s, root, evs, p);
    ExpectedLabel(RowAt(t.current, p), RowAt(f.current, p), Previous(HistoryOf(t.history, p), s));
    InDiff(f, s, p, New);
    InDiff(f, s, p, DiffDeleted);
    Mistaken(t, f, s, root, p);
  }

  lemma ExpectedLabel(before: Option<Row>, after: Option<Row>, prev: Option<Row>)
    requires after.Some? && !Unchanged(before, after) ==> after.value.state.Alive?
    ensures
      var d := Expected(before, after, prev);
      && (d.Some? && d.value.state == New <==> after.Some? && !Unchanged(before, after) && !Present(prev))
      && (d.Some? && d.value.state == DiffDeleted <==> before.Some? && after.None?)
  {
  }

  lemma Mistaken(t: Db, f: Db, s: nat, root: string, p: string)
    requires !InSubtree(root, p) ==> RowAt(t.current, p) == RowAt(f.current, p)
    ensures
      var before, after := RowAt(t.current, p), RowAt(f.current, p);
      var found := Present(Previous(HistoryOf(t.history, p), s));
      && (p in WronglyNew(t, f, s, root) <==> before.Some? && after.Some? && !Unchanged(before, after) && !found)
      && (p in MissedNew(t, f, s, root) <==> before.None? && after.Some? && found)
      && (before.None? && after.Some? ==> !Unchanged(before, after))
      && (p in InTree(f.current, root) && p !in InTree(t.current, root) <==> before.None? && after.Some?)
      && (p in InTree(t.current, root) && p !in InTree(f.current, root) <==> before.Some? && after.None?)
  {
    hide Previous, HistoryOf, InSubtree;
  }

  lemma ChangedIsAlive(t: Db, s: nat, root: string, evs: seq<Ev>, p: string)
    requires Ready(t, s, root, evs) && (forall i :: 0 <= i < |evs| ==> evs[i].errno == 0)
    ensures
      var f := ApplyAll(t, Block(s, evs) + [Sentinel(s, false, root)]);
      var before, after := RowAt(t.current, p), RowAt(f.current, p);
      after.Some? && !Unchanged(before, after) ==> after.value.state.Alive?
  {
    hide ApplyAll, Block;
    if i :| 0 <= i < |evs| && evs[i].path == p {
      AfterVisited(t, s, root, evs, i);
    } else {
      AfterAbsent(t, s, root, evs, p);
    }
  }

  lemma Balance(before: set<string>, after: set<string>, added: set<string>, gone: set<string>,
                wrong: set<string>, missed: set<string>)
    requires forall p :: p in added <==> (p in after && p !in before && p !in missed) || p in wrong
    requires forall p :: p in gone <==> p in before && p !in after
    requires wrong <= before && missed <= after - before
    ensures |after| + |gone| + |wrong| == |before| + |added| + |missed|
  {
    assert after + gone == before + (after - before);
    assert |after + gone| == |after| + |gone| by { assert after !! gone; }
    assert |before + (after - before)| == |before| + |after - before|;
    assert added == ((after - before) - missed) + wrong;
    assert |added| == |(after - before) - missed| + |wrong| by { assert ((after - before) - missed) !! wrong; }
    assert |(after - before) - missed| == |after - before| - |missed|;
  }

  /**
   Rows and labels balance in every error-free scan, whatever the ids: rows before and after differ by the New and
   Deleted labels, corrected by the paths the query for the previous row mistakes.
   */
  lemma RowsBalance(t: Db, s: nat, root: string, evs: seq<Ev>)
    requires Ready(t, s, root, evs) && (forall i :: 0 <= i < |evs| ==> evs[i].errno == 0)
    ensures
      var f := ApplyAll(t, Block(s, evs) + [Sentinel(s, false, root)]);
      |InTree(f.current, root)| + |Labelled(f, s, DiffDeleted)| + |WronglyNew(t, f, s, root)|
      == |InTree(t.current, root)| + |Labelled(f, s, New)| + |MissedNew(t, f, s, root)|
  {
    var f := ApplyAll(t, Block(s, evs) + [Sentinel(s, false, root)]);
    var before, after := InTree(t.current, root), InTree(f.current, root);
    var added, gone := Labelled(f, s, New), Labelled(f, s, DiffDeleted);
    var wrong, missed := WronglyNew(t, f, s, root), MissedNew(t, f, s, root);
    assert wrong <= before && missed <= after - before;
    hide Ready, InTree, Labelled, ApplyAll, Block, WronglyNew, MissedNew;
    forall p
      ensures p in added <==> (p in after && p !in before && p !in missed) || p in wrong
      ensures p in gone <==> p in before && p !in after
    {
      NewLabels(t, s, root, evs, p);
    }
    Balance(before, after, added, gone, wrong, missed);
  }

  lemma NoMistakes(t: Db, f: Db, s: nat, root: string)
    requires InOrder(t, s, root)
    ensures WronglyNew(t, f, s, root) == {} && MissedNew(t, f, s, root) == {}
  {
    forall p | InSubtree(root, p) ensures Present(Previous(HistoryOf(t.history, p), s)) <==> p in t.current {
      assert AgreeAt(t, p);
      PreviousIsLastReal(HistoryOf(t.history, p), s);
    }
    hide Previous, HistoryOf, Present, InSubtree, Agree, Older;
  }

  /** Conservation, ids being in order: for an error-free scan, rows after = rows before + New - Deleted. */
  lemma RowsConserved(t: Db, s: nat, root: string, evs: seq<Ev>)
    requires Ready(t, s, root, evs) && InOrder(t, s, root) && (forall i :: 0 <= i < |evs| ==> evs[i].errno == 0)
    ensures
      var f := ApplyAll(t, Block(s, evs) + [Sentinel(s, false, root)]);
      |InTree(f.current, root)| + |Labelled(f, s, DiffDeleted)| == |InTree(t.current, root)| + |Labelled(f, s, New)|
  {
    hide Ready, InTree, Labelled, ApplyAll, Block, WronglyNew, MissedNew, InOrder;
    RowsBalance(t, s, root, evs);
    NoMistakes(t, ApplyAll(t, Block(s, evs) + [Sentinel(s, false, root)]), s, root);
  }
}
