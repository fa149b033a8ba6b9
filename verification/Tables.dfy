/** The index tables and what the exporter's statements do to them, SQL writes taken as succeeding. */
module Tables {
  import opened Options
  import opened Paths
  import opened FileTree
  import opened Messages

  datatype EventState = Alive | Error | Deleted | Canceled

  // A row of index_current, or of index_history where `scan` is last_scan_id. The path is the key.
  datatype Row = Row(scan: nat, kind: NodeType, mtime: int, size: nat, state: EventState)

  datatype ScanState = New | DiffError | DiffDeleted | DiffCanceled | Changed

  datatype Diff = Diff(state: ScanState, oldSize: nat)

  datatype Counts = Counts(dirs: nat, files: nat, links: nat, size: nat)

  datatype Task = Task(root: string, counts: Counts)

  // History rows of one path are kept in insertion order.
  datatype Db = Db(
    current: map<string, Row>,
    history: map<string, seq<Row>>,
    diffs: map<(nat, string), Diff>,
    tasks: map<nat, Task>)

  function HistoryOf(h: map<string, seq<Row>>, p: string): seq<Row> {
    if p in h then h[p] else []
  }

  function RowOf(s: nat, ev: Ev): Row {
    Row(s, ev.kind, ev.mtime, ev.size, if ev.errno == 0 then Alive else Error)
  }

  predicate SameFingerprint(a: Row, b: Row) {
    a.mtime == b.mtime && a.size == b.size
  }

  // IndexWriter::upsert. Sizes are natural, so the source's -1 placeholder never matches.
  function Upsert(t: Db, s: nat, ev: Ev): Db {
    var p, row := ev.path, RowOf(s, ev);
    t.(current := t.current[p := row],
       history := if p in t.current && SameFingerprint(t.current[p], row) then t.history
                  else t.history[p := HistoryOf(t.history, p) + [row]])
  }

  // Paths under the root that the scan did not visit.
  function Unvisited(current: map<string, Row>, s: nat, root: string): set<string> {
    set p | p in current && Under(root, p) && current[p].scan != s
  }

  function Gone(row: Row, s: nat, canceled: bool): Row {
    row.(scan := s, state := if canceled then Canceled else Deleted)
  }

  function MarkHistory(h: map<string, seq<Row>>, gone: map<string, Row>): map<string, seq<Row>> {
    map p | p in h.Keys + gone.Keys :: if p in gone then HistoryOf(h, p) + [gone[p]] else h[p]
  }

  // The rows mark_deleted appends.
  function GoneRows(current: map<string, Row>, s: nat, root: string, canceled: bool): map<string, Row> {
    map p | p in Unvisited(current, s, root) :: Gone(current[p], s, canceled)
  }

  // IndexWriter::mark_deleted.
  function MarkDeleted(t: Db, s: nat, root: string, canceled: bool): Db {
    t.(history := MarkHistory(t.history, GoneRows(t.current, s, root, canceled)),
       current := if canceled then t.current else t.current - Unvisited(t.current, s, root))
  }

  // The latest row by scan id below s that is not Canceled: `ORDER BY last_scan_id DESC LIMIT 1`.
  function Previous(rows: seq<Row>, s: nat): Option<Row> {
    if rows == [] then None
    else
      var last, before := rows[|rows| - 1], Previous(rows[..|rows| - 1], s);
      if last.scan < s && !last.state.Canceled? && (before.Some? ==> before.value.scan <= last.scan) then Some(last)
      else before
  }

  // The row of scan s, if there is one.
  function RowFor(rows: seq<Row>, s: nat): Option<Row> {
    if rows == [] then None
    else if rows[|rows| - 1].scan == s then Some(rows[|rows| - 1])
    else RowFor(rows[..|rows| - 1], s)
  }

  // One row of find_scan_diff_and_upsert_scandiff.
  function DiffOf(state: EventState, prev: Option<Row>): Diff {
    var oldSize := if prev.Some? then prev.value.size else 0;
    match state
    case Alive => Diff(if prev.None? || prev.value.state.Deleted? then New else Changed, oldSize)
    case Error => Diff(DiffError, oldSize)
    case Deleted => Diff(DiffDeleted, oldSize)
    case Canceled => Diff(DiffCanceled, oldSize)
  }

  // The history rows the diff query of scan s can see.
  function Touched(h: map<string, seq<Row>>, s: nat): map<string, seq<Row>> {
    map p | p in h && RowFor(h[p], s).Some? :: h[p]
  }

  function PathDiff(rows: seq<Row>, s: nat): Diff
    requires RowFor(rows, s).Some?
  {
    DiffOf(RowFor(rows, s).value.state, Previous(rows, s))
  }

  function DiffRows(touched: map<string, seq<Row>>, s: nat): map<(nat, string), Diff> {
    map p | p in touched && RowFor(touched[p], s).Some? :: (s, p) := PathDiff(touched[p], s)
  }

  // What upsert_count aggregates: `WHERE scan_id = ?`.
  function RowsOf(current: map<string, Row>, s: nat): map<string, Row> {
    map p | p in current && current[p].scan == s :: current[p]
  }

  ghost function TotalSize(m: map<string, Row>): nat
    decreases |m|
  {
    if m == map[] then 0
    else
      var p :| p in m;
      assert |m - {p}| < |m| by { assert (m - {p}).Keys == m.Keys - {p}; }
      m[p].size + TotalSize(m - {p})
  }

  lemma TotalSizeSplit(m: map<string, Row>, p: string)
    requires p in m
    ensures TotalSize(m) == m[p].size + TotalSize(m - {p})
    decreases |m|
  {
    var q :| q in m && TotalSize(m) == m[q].size + TotalSize(m - {q});
    if q != p {
      assert (m - {q}).Keys == m.Keys - {q} && (m - {p}).Keys == m.Keys - {p};
      TotalSizeSplit(m - {q}, p);
      TotalSizeSplit(m - {p}, q);
      assert m - {q} - {p} == m - {p} - {q};
    }
  }

  lemma SizeInsert(m: map<string, Row>, p: string, r: Row)
    requires p !in m
    ensures TotalSize(m[p := r]) == TotalSize(m) + r.size
  {
    assert m[p := r] - {p} == m;
    TotalSizeSplit(m[p := r], p);
  }

  function OfKind(m: map<string, Row>, k: NodeType): set<string> {
    set p | p in m && m[p].kind == k
  }

  ghost function CountsOf(m: map<string, Row>): Counts {
    Counts(|OfKind(m, DIR)|, |OfKind(m, FILE)|, |OfKind(m, LINK)|, TotalSize(m))
  }

  // ExportManager::finalize_scan, in its order: task row, deletions, diff, counts.
  ghost function Finalize(t: Db, s: nat, root: string, canceled: bool): Db {
    var d := MarkDeleted(t, s, root, canceled);
    d.(diffs := d.diffs + DiffRows(Touched(d.history, s), s),
       tasks := d.tasks[s := Task(root, CountsOf(RowsOf(d.current, s)))])
  }

  ghost function Apply(t: Db, m: Msg): Db {
    match m
    case Event(s, ev) => Upsert(t, s, ev)
    case Sentinel(s, canceled, root) => Finalize(t, s, root, canceled)
  }

  ghost function ApplyAll(t: Db, log: seq<Msg>): Db {
    if log == [] then t else Apply(ApplyAll(t, log[..|log| - 1]), log[|log| - 1])
  }

  lemma ApplySnoc(t: Db, log: seq<Msg>, m: Msg)
    ensures ApplyAll(t, log + [m]) == Apply(ApplyAll(t, log), m)
  {
    assert (log + [m])[..|log|] == log;
  }

  lemma {:induction false} ApplyAppend(t: Db, a: seq<Msg>, b: seq<Msg>)
    ensures ApplyAll(t, a + b) == ApplyAll(ApplyAll(t, a), b)
  {
    if b == [] {
      assert a + b == a;
    } else {
      var n := |b| - 1;
      ApplyAppend(t, a, b[..n]);
      assert (a + b)[..|a + b| - 1] == a + b[..n];
    }
  }

  // ----- index_current against index_history -----

  // The latest row that is not Canceled.
  function LastReal(rows: seq<Row>): Option<Row> {
    if rows == [] then None
    else if !rows[|rows| - 1].state.Canceled? then Some(rows[|rows| - 1])
    else LastReal(rows[..|rows| - 1])
  }

  ghost predicate AgreeAt(t: Db, p: string) {
    var last := LastReal(HistoryOf(t.history, p));
    && (p in t.current <==> last.Some? && !last.value.state.Deleted?)
    && (p in t.current ==> t.current[p].mtime == last.value.mtime && t.current[p].size == last.value.size)
  }

  ghost predicate Agree(t: Db) {
    forall p :: AgreeAt(t, p)
  }

  lemma LastRealAppend(rows: seq<Row>, r: Row)
    ensures LastReal(rows + [r]) == if r.state.Canceled? then LastReal(rows) else Some(r)
  {
    assert (rows + [r])[..|rows|] == rows;
  }

  // The row records the event for scan s.
  predicate Records(row: Row, s: nat, ev: Ev) {
    && row.scan == s && row.kind == ev.kind && row.mtime == ev.mtime && row.size == ev.size
    && row.state == if ev.errno == 0 then Alive else Error
  }

  /**
   What one event writes: its row replaces the path's row in index_current, and is appended to the path's history iff
   the path was not indexed with the same time and size. Nothing else changes.
   */
  lemma EventRecorded(t: Db, s: nat, ev: Ev, p: string)
    ensures
      var d := Upsert(t, s, ev);
      var rows, rows' := HistoryOf(t.history, p), HistoryOf(d.history, p);
      var known := p in t.current && t.current[p].mtime == ev.mtime && t.current[p].size == ev.size;
      && (p == ev.path ==> p in d.current && Records(d.current[p], s, ev))
      && (p != ev.path ==> (p in d.current <==> p in t.current) && (p in d.current ==> d.current[p] == t.current[p]))
      && (if p == ev.path && !known
          then |rows'| == |rows| + 1 && rows'[..|rows|] == rows && Records(rows'[|rows|], s, ev)
          else rows' == rows)
      && d.diffs == t.diffs && d.tasks == t.tasks
  {
  }

  lemma UpsertAgrees(t: Db, s: nat, ev: Ev)
    requires Agree(t)
    ensures Agree(Upsert(t, s, ev))
  {
    var t' := Upsert(t, s, ev);
    LastRealAppend(HistoryOf(t.history, ev.path), RowOf(s, ev));
    forall p ensures AgreeAt(t', p) {
      assert AgreeAt(t, p);
    }
  }

  lemma MarkedHistory(t: Db, s: nat, root: string, canceled: bool, p: string)
    ensures
      var gone := Unvisited(t.current, s, root);
      HistoryOf(MarkDeleted(t, s, root, canceled).history, p)
      == if p in gone then HistoryOf(t.history, p) + [Gone(t.current[p], s, canceled)] else HistoryOf(t.history, p)
  {
  }

  lemma MarkDeletedAgrees(t: Db, s: nat, root: string, canceled: bool)
    requires Agree(t)
    ensures Agree(MarkDeleted(t, s, root, canceled))
  {
    var t' := MarkDeleted(t, s, root, canceled);
    var gone := Unvisited(t.current, s, root);
    forall p ensures AgreeAt(t', p) {
      assert AgreeAt(t, p);
      MarkedHistory(t, s, root, canceled, p);
      if p in gone {
        LastRealAppend(HistoryOf(t.history, p), Gone(t.current[p], s, canceled));
      }
    }
  }

  /**
   Index agrees with history, after any messages, canceled scans included: a path is in index_current
   iff its latest non-Canceled history row exists and is not Deleted, with the same mtime and size.
   */
  lemma {:induction false} IndexAgreesWithHistory(t: Db, log: seq<Msg>)
    requires Agree(t)
    ensures Agree(ApplyAll(t, log))
  {
    if log != [] {
      var n := |log| - 1;
      IndexAgreesWithHistory(t, log[..n]);
      var d := ApplyAll(t, log[..n]);
      match log[n]
      case Event(s, ev) => UpsertAgrees(d, s, ev);
      case Sentinel(s, canceled, root) =>
        MarkDeletedAgrees(d, s, root, canceled);
        FinalizeAgrees(d, s, root, canceled);
    }
  }

  lemma FinalizeAgrees(t: Db, s: nat, root: string, canceled: bool)
    requires Agree(MarkDeleted(t, s, root, canceled))
    ensures Agree(Finalize(t, s, root, canceled))
  {
    var d, f := MarkDeleted(t, s, root, canceled), Finalize(t, s, root, canceled);
    forall p ensures AgreeAt(f, p) {
      assert AgreeAt(d, p);
    }
  }
}
