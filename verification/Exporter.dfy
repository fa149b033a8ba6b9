/** ExportManager: the single consumer of the result queue, with its batches and transactions. */
module Exporter {
  import opened FileTree
  import opened Messages
  import opened Options
  import opened Tables

  function NumEvents(log: seq<Msg>): nat {
    if log == [] then 0 else NumEvents(log[..|log| - 1]) + (if log[|log| - 1].Event? then 1 else 0)
  }

  function FinishedScans(log: seq<Msg>): set<nat> {
    set m | m in log && m.Sentinel? :: m.scan
  }

  // The roots released by notify_export_done, in order.
  function ReleasedRoots(log: seq<Msg>): seq<string> {
    if log == [] then []
    else ReleasedRoots(log[..|log| - 1]) + (if log[|log| - 1].Sentinel? then [log[|log| - 1].root] else [])
  }

  class ExportManager {
    const batchSize: nat                       // WRITE_BATCH_SIZE
    var tables: Db                             // what this connection sees
    var committed: Db                          // what other connections see
    var inTransaction: bool
    var batchCount: nat
    var pendingScanRows: map<nat, string>      // submit_root of inserted task rows
    var exportedMap: set<nat>
    var released: seq<string>                  // calls of notify_export_done
    var exportRunning: int
    var exportFinished: int

    // Between batches nothing is left uncommitted.
    ghost predicate Idle()
      reads this
    {
      batchCount == 0 && !inTransaction && committed == tables
    }

    // While a batch is open its transaction is, and only then.
    ghost predicate Consistent()
      reads this
    {
      (inTransaction <==> batchCount > 0) && (!inTransaction ==> committed == tables)
    }

    // A full batch is committed at once.
    ghost predicate Valid()
      reads this
    {
      Consistent() && (batchCount == 0 || batchCount < batchSize)
    }

    constructor (batch: nat, db: Db)
      ensures Idle() && Valid() && tables == db && batchSize == batch
      ensures pendingScanRows == map[] && exportedMap == {} && released == []
      ensures exportRunning == exportFinished == 0
    {
      batchSize := batch;
      tables, committed, inTransaction, batchCount := db, db, false, 0;
      pendingScanRows, exportedMap, released := map[], {}, [];
      exportRunning, exportFinished := 0, 0;
    }

    // A transaction must not be open already.
    method Begin()
      requires !inTransaction
      modifies this`inTransaction
      ensures inTransaction
    {
      inTransaction := true;
    }

    method Commit()
      requires inTransaction
      modifies this`inTransaction, this`committed
      ensures !inTransaction && committed == tables
    {
      committed := tables;
      inTransaction := false;
    }

    /** IndexWriter::upsert, inside the batch's transaction. */
    method UpsertEvent(s: nat, row: Ev)
      requires inTransaction
      modifies this`tables
      ensures tables == Upsert(old(tables), s, row)
    {
      var latestMtime: int, latestSize: int := -1, -1;
      if row.path in tables.current {
        latestMtime := tables.current[row.path].mtime;
        latestSize := tables.current[row.path].size;
      }
      var state := if row.errno == 0 then Alive else Error;
      var r := Row(s, row.kind, row.mtime, row.size, state);
      tables := tables.(current := tables.current[row.path := r]);
      if row.mtime == latestMtime && row.size == latestSize {
        return;
      }
      tables := tables.(history := tables.history[row.path := HistoryOf(tables.history, row.path) + [r]]);
    }

    method MarkDeletedRows(s: nat, root: string, canceled: bool)
      requires !inTransaction
      modifies this`tables, this`committed, this`inTransaction
      ensures tables == MarkDeleted(old(tables), s, root, canceled) && committed == tables && !inTransaction
    {
      Begin();
      tables := tables.(history := MarkHistory(tables.history, GoneRows(tables.current, s, root, canceled)));
      if !canceled {
        tables := tables.(current := tables.current - Unvisited(tables.current, s, root));
      }
      Commit();
    }

    /** IndexReader::find_scan_diff_and_upsert_scandiff. */
    method FindScanDiff(s: nat)
      requires !inTransaction
      modifies this`tables, this`committed, this`inTransaction
      ensures tables == old(tables).(diffs := old(tables).diffs + DiffRows(Touched(old(tables).history, s), s))
      ensures committed == tables && !inTransaction
    {
      Begin();
      var diffs := DiffLoop(tables.diffs, tables.history, s);
      tables := tables.(diffs := diffs);
      Commit();
    }

    /** ScanTable::upsert_count: one aggregate over index_current. */
    method UpsertCount(s: nat, root: string)
      requires !inTransaction
      modifies this`tables, this`committed, this`inTransaction
      ensures
        var task := Task(root, CountsOf(RowsOf(old(tables).current, s)));
        tables == old(tables).(tasks := old(tables).tasks[s := task])
      ensures committed == tables && !inTransaction
    {
      Begin();
      var rows := RowsOf(tables.current, s);
      var total := SumRows(rows);
      var counts := Counts(|OfKind(rows, DIR)|, |OfKind(rows, FILE)|, |OfKind(rows, LINK)|, total);
      tables := tables.(tasks := tables.tasks[s := Task(root, counts)]);
      Commit();
    }

    method CommitBatch()
      requires Consistent()
      modifies this`inTransaction, this`committed, this`batchCount, this`exportRunning, this`exportFinished
      ensures Idle()
      ensures exportRunning == old(exportRunning) - old(batchCount)
      ensures exportFinished == old(exportFinished) + old(batchCount)
    {
      if batchCount > 0 {
        Commit();
        exportRunning := exportRunning - batchCount;
        exportFinished := exportFinished + batchCount;
        batchCount := 0;
      }
    }

    /** finalize_scan; `found` is false where get_scan_task throws. */
    method FinalizeScan(s: nat, canceled: bool, path: string) returns (found: bool)
      requires Idle()
      requires s in pendingScanRows ==> pendingScanRows[s] == "" || pendingScanRows[s] == path
      modifies this`tables, this`committed, this`inTransaction, this`pendingScanRows, this`exportedMap, this`released
      ensures Idle() && (found <==> s in old(pendingScanRows))
      ensures pendingScanRows == old(pendingScanRows) - {s}
      ensures found ==>
                && tables == Finalize(old(tables), s, path, canceled)
                && exportedMap == old(exportedMap) + {s}
                && released == old(released) + [path]
      ensures !found ==> tables == old(tables) && exportedMap == old(exportedMap) && released == old(released)
    {
      hide MarkDeleted, DiffRows, Touched, RowsOf, CountsOf;
      found := s in pendingScanRows;
      if !found {
        return;
      }
      var root := if pendingScanRows[s] == "" then path else pendingScanRows[s];
      pendingScanRows := pendingScanRows - {s};
      ghost var before := tables;
      Begin();
      tables := tables.(tasks := tables.tasks[s := Task(root, Counts(0, 0, 0, 0))]);
      Commit();
      TasksAside(before, tables.tasks, s, root, canceled);
      MarkDeletedRows(s, root, canceled);
      FindScanDiff(s);
      UpsertCount(s, root);
      assert tables.tasks == before.tasks[s := Task(root, CountsOf(RowsOf(tables.current, s)))];
      exportedMap := exportedMap + {s};
      released := released + [root];
    }

    /** One turn of the consumer loop; `ok` is false where it ends with an exception. */
    method Consume(m: Msg) returns (ok: bool)
      requires Valid()
      requires m.Sentinel? && m.scan in pendingScanRows ==>
                 pendingScanRows[m.scan] == "" || pendingScanRows[m.scan] == m.root
      modifies this
      ensures Valid() && (ok <==> m.Event? || m.scan in old(pendingScanRows))
      ensures tables == if ok then Apply(old(tables), m) else old(tables)
      ensures exportedMap == if ok && m.Sentinel? then old(exportedMap) + {m.scan} else old(exportedMap)
      ensures released == if ok && m.Sentinel? then old(released) + [m.root] else old(released)
      ensures pendingScanRows == if m.Sentinel? then old(pendingScanRows) - {m.scan} else old(pendingScanRows)
      ensures exportRunning - batchCount == old(exportRunning) - old(batchCount)
      ensures exportFinished + batchCount == old(exportFinished) + old(batchCount) + (if m.Event? then 1 else 0)
      ensures m.Sentinel? ==> Idle()
      ensures m.Event? ==> batchCount == if old(batchCount) + 1 >= batchSize then 0 else old(batchCount) + 1
    {
      hide Upsert, Finalize;
      if m.Sentinel? {
        CommitBatch();
        ok := FinalizeScan(m.scan, m.canceled, m.root);
      } else {
        if batchCount == 0 {
          Begin();
        }
        exportRunning := exportRunning + 1;
        UpsertEvent(m.scan, m.ev);
        batchCount := batchCount + 1;
        if batchCount >= batchSize {
          CommitBatch();
        }
        ok := true;
      }
    }

    // Task rows agree with the sentinels still to come.
    ghost predicate RowsMatch(stream: seq<Msg>)
      reads this
    {
      Matching(pendingScanRows, stream)
    }

    /**
     write_result_to_db over the messages popped so far; inserts[k] are the task rows that insert_scan_task adds after
     message k - 1 was handled and before message k is. Whatever the batch size, every transaction is opened outside
     any other, all work is committed at the end, and the tables are those of applying the messages one by one. It
     stops early exactly at the first sentinel whose task row has not been inserted.
     */
    method WriteResultToDb(stream: seq<Msg>, inserts: seq<map<nat, string>>) returns (consumed: nat, fatal: bool)
      requires Idle() && RowsMatch(stream) && |inserts| == |stream|
      requires forall k :: 0 <= k < |inserts| ==> Matching(inserts[k], stream)
      modifies this
      ensures Idle() && consumed <= |stream| && (fatal <==> consumed < |stream|)
      ensures tables == ApplyAll(old(tables), stream[..consumed])
      ensures exportedMap == old(exportedMap) + FinishedScans(stream[..consumed])
      ensures released == old(released) + ReleasedRoots(stream[..consumed])
      ensures exportRunning == old(exportRunning)
      ensures exportFinished == old(exportFinished) + NumEvents(stream[..consumed])
      ensures forall k :: 0 <= k < consumed ==> HasRow(old(pendingScanRows), stream, inserts, k)
      ensures fatal ==> !HasRow(old(pendingScanRows), stream, inserts, consumed)
      ensures pendingScanRows == RowsLeft(old(pendingScanRows), stream, inserts, consumed)
                                 + (if fatal then inserts[consumed] else map[])
    {
      hide ApplyAll, Apply, FinishedScans, ReleasedRoots, NumEvents, Matching, RowsLeft, Finalize, Upsert;
      consumed := 0;
      fatal := false;
      ConsumedNone(tables, stream);
      RowsLeftNone(pendingScanRows, stream, inserts);
      while consumed < |stream| && !fatal
        invariant consumed <= |stream| && Valid() && RowsMatch(stream)
        invariant fatal ==> consumed < |stream| && Idle()
        invariant fatal ==> !HasRow(old(pendingScanRows), stream, inserts, consumed)
        invariant forall k :: 0 <= k < consumed ==> HasRow(old(pendingScanRows), stream, inserts, k)
        invariant tables == ApplyAll(old(tables), stream[..consumed])
        invariant exportedMap == old(exportedMap) + FinishedScans(stream[..consumed])
        invariant released == old(released) + ReleasedRoots(stream[..consumed])
        invariant exportRunning == old(exportRunning) + batchCount
        invariant exportFinished + batchCount == old(exportFinished) + NumEvents(stream[..consumed])
        invariant pendingScanRows == RowsLeft(old(pendingScanRows), stream, inserts, consumed)
                                     + (if fatal then inserts[consumed] else map[])
        decreases |stream| - consumed, !fatal
      {
        Consumed(old(tables), stream, consumed);
        ConsumedScans(stream, consumed);
        RowsLeftStep(old(pendingScanRows), stream, inserts, consumed);
        InsertedMatch(pendingScanRows, inserts[consumed], stream, consumed);
        pendingScanRows := pendingScanRows + inserts[consumed];
        var ok := Consume(stream[consumed]);
        if ok {
          consumed := consumed + 1;
        } else {
          fatal := true;
        }
      }
      CommitBatch();
    }
  }

  // A row's submit_root, where it has one, is the root its sentinel carries.
  ghost predicate Matching(rows: map<nat, string>, stream: seq<Msg>) {
    forall i :: 0 <= i < |stream| && stream[i].Sentinel? && stream[i].scan in rows ==>
      rows[stream[i].scan] == "" || rows[stream[i].scan] == stream[i].root
  }

  // The rows left after the first k messages.
  ghost function RowsLeft(rows: map<nat, string>, stream: seq<Msg>, inserts: seq<map<nat, string>>, k: nat): map<nat,
    string>
    requires k <= |stream| == |inserts|
  {
    if k == 0 then rows
    else
      var before := RowsLeft(rows, stream, inserts, k - 1) + inserts[k - 1];
      if stream[k - 1].Sentinel? then before - {stream[k - 1].scan} else before
  }

  lemma RowsLeftStep(rows: map<nat, string>, stream: seq<Msg>, inserts: seq<map<nat, string>>, k: nat)
    requires k < |stream| == |inserts|
    ensures
      var before := RowsLeft(rows, stream, inserts, k) + inserts[k];
      && RowsLeft(rows, stream, inserts, k + 1) == (if stream[k].Sentinel? then before - {stream[k].scan} else before)
      && (stream[k].scan !in before ==> before - {stream[k].scan} == before)
      && RowsLeft(rows, stream, inserts, k) + map[] == RowsLeft(rows, stream, inserts, k)
      && RowsLeft(rows, stream, inserts, k + 1) + map[] == RowsLeft(rows, stream, inserts, k + 1)
  {
  }

  lemma RowsLeftNone(rows: map<nat, string>, stream: seq<Msg>, inserts: seq<map<nat, string>>)
    requires |stream| == |inserts|
    ensures RowsLeft(rows, stream, inserts, 0) + map[] == rows
  {
  }

  // If message k is a sentinel, its row is there when it is handled.
  ghost predicate HasRow(rows: map<nat, string>, stream: seq<Msg>, inserts: seq<map<nat, string>>, k: nat)
    requires k < |stream| == |inserts|
  {
    stream[k].Sentinel? ==> stream[k].scan in RowsLeft(rows, stream, inserts, k) + inserts[k]
  }

  lemma InsertedMatch(rows: map<nat, string>, more: map<nat, string>, stream: seq<Msg>, k: nat)
    requires Matching(rows, stream) && Matching(more, stream) && k < |stream|
    ensures Matching(rows + more, stream)
    ensures Matching((rows + more) - {stream[k].scan}, stream)
    ensures
      var all, m := rows + more, stream[k];
      m.Sentinel? && m.scan in all ==> all[m.scan] == "" || all[m.scan] == m.root
  {
  }

  /** The loop over the rows of the diff query, which come in no particular order. */
  method DiffLoop(start: map<(nat, string), Diff>, h: map<string, seq<Row>>, s: nat)
    returns (diffs: map<(nat, string), Diff>)
    ensures diffs == start + DiffRows(Touched(h, s), s)
  {
    hide Touched, RowFor, Previous, DiffOf, DiffRows, DiffSoFar;
    var touched := Touched(h, s);
    var rest := touched.Keys;
    DiffEnds(start, h, s);
    diffs := start;
    while rest != {}
      invariant rest <= touched.Keys
      invariant diffs == DiffSoFar(start, h, s, rest)
      decreases |rest|
    {
      var p :| p in rest;
      DiffInsert(start, h, rest, s, p);
      var d := Classify(RowFor(touched[p], s).value.state, Previous(touched[p], s));
      diffs := diffs[(s, p) := d];
      rest := rest - {p};
    }
  }

  // The table once all touched paths but the rest are done.
  ghost function DiffSoFar(start: map<(nat, string), Diff>, h: map<string, seq<Row>>, s: nat, rest: set<string>)
    : map<(nat, string), Diff>
  {
    start + DiffRows(Touched(h, s) - rest, s)
  }

  lemma MinusKeys(m: map<string, seq<Row>>)
    ensures m - m.Keys == map[] && m - {} == m
  {
  }

  lemma NoDiffRows(s: nat)
    ensures DiffRows(map[], s) == map[]
  {
  }

  lemma DiffEnds(start: map<(nat, string), Diff>, h: map<string, seq<Row>>, s: nat)
    ensures DiffSoFar(start, h, s, Touched(h, s).Keys) == start
    ensures DiffSoFar(start, h, s, {}) == start + DiffRows(Touched(h, s), s)
  {
    hide Touched, DiffRows;
    MinusKeys(Touched(h, s));
    NoDiffRows(s);
  }

  lemma TasksAside(t: Db, tasks: map<nat, Task>, s: nat, root: string, canceled: bool)
    ensures MarkDeleted(t.(tasks := tasks), s, root, canceled) == MarkDeleted(t, s, root, canceled).(tasks := tasks)
    ensures MarkDeleted(t, s, root, canceled).tasks == t.tasks
  {
    hide MarkHistory, GoneRows, Unvisited;
  }

  lemma TouchedStep(h: map<string, seq<Row>>, rest: set<string>, s: nat, p: string)
    requires rest <= Touched(h, s).Keys && p in rest
    ensures
      var touched := Touched(h, s);
      && RowFor(touched[p], s).Some? && p !in touched - rest
      && touched - (rest - {p}) == (touched - rest)[p := touched[p]]
      && (forall q :: q in touched - rest ==> RowFor((touched - rest)[q], s).Some?)
  {
    hide RowFor;
  }

  lemma DiffInsert(start: map<(nat, string), Diff>, h: map<string, seq<Row>>, rest: set<string>, s: nat, p: string)
    requires rest <= Touched(h, s).Keys && p in rest
    ensures RowFor(Touched(h, s)[p], s).Some?
    ensures DiffSoFar(start, h, s, rest - {p})
         == DiffSoFar(start, h, s, rest)[(s, p) := PathDiff(Touched(h, s)[p], s)]
  {
    hide Touched, DiffRows, PathDiff, RowFor;
    var touched := Touched(h, s);
    TouchedStep(h, rest, s, p);
    DiffRowsInsert(touched - rest, s, p, touched[p]);
  }

  lemma DiffRowsInsert(seen: map<string, seq<Row>>, s: nat, p: string, rows: seq<Row>)
    requires p !in seen && RowFor(rows, s).Some?
    requires forall q :: q in seen ==> RowFor(seen[q], s).Some?
    ensures DiffRows(seen[p := rows], s) == DiffRows(seen, s)[(s, p) := PathDiff(rows, s)]
  {
    hide PathDiff, RowFor;
  }

  /** The classification inside the diff loop: what the label tells of the path before and after the scan. */
  method Classify(state: EventState, prev: Option<Row>) returns (d: Diff)
    ensures d.state.New? <==> state.Alive? && !(prev.Some? && !prev.value.state.Deleted?)
    ensures d.state.Changed? <==> state.Alive? && prev.Some? && !prev.value.state.Deleted?
    ensures d.state.DiffDeleted? <==> state.Deleted?
    ensures d.state.DiffError? <==> state.Error?
    ensures d.state.DiffCanceled? <==> state.Canceled?
    ensures d.oldSize == if prev.Some? then prev.value.size else 0
    ensures d == DiffOf(state, prev)
  {
    var oldSize := 0;
    if prev.Some? {
      oldSize := prev.value.size;
    }
    match state
    case Alive =>
      if prev.None? || prev.value.state.Deleted? {
        d := Diff(New, oldSize);
      } else {
        d := Diff(Changed, oldSize);
      }
    case Error => d := Diff(DiffError, oldSize);
    case Deleted => d := Diff(DiffDeleted, oldSize);
    case Canceled => d := Diff(DiffCanceled, oldSize);
  }

  /** The SUM of the aggregate. */
  method SumRows(rows: map<string, Row>) returns (total: nat)
    ensures total == TotalSize(rows)
  {
    total := 0;
    var rest := rows;
    while rest != map[]
      invariant total + TotalSize(rest) == TotalSize(rows)
      decreases |rest|
    {
      var p :| p in rest;
      assert (rest - {p}).Keys == rest.Keys - {p};
      TotalSizeSplit(rest, p);
      total := total + rest[p].size;
      rest := rest - {p};
    }
  }

  // The effect of one more message on everything the loop tracks.
  lemma ConsumedScans(stream: seq<Msg>, n: nat)
    requires n < |stream|
    ensures FinishedScans(stream[..n + 1])
         == if stream[n].Sentinel? then FinishedScans(stream[..n]) + {stream[n].scan} else FinishedScans(stream[..n])
  {
    var a, b, m := stream[..n], stream[..n + 1], stream[n];
    assert b == a + [m];
    forall s | s in FinishedScans(a) ensures s in FinishedScans(b) {
      var x :| x in a && x.Sentinel? && x.scan == s;
      assert x in b;
    }
    if m.Sentinel? {
      assert b[n] == m;
    }
  }

  lemma Consumed(t: Db, stream: seq<Msg>, n: nat)
    requires n < |stream|
    ensures
      var a, b, m := stream[..n], stream[..n + 1], stream[n];
      && ApplyAll(t, b) == Apply(ApplyAll(t, a), m)
      && ReleasedRoots(b) == ReleasedRoots(a) + (if m.Sentinel? then [m.root] else [])
      && NumEvents(b) == NumEvents(a) + (if m.Event? then 1 else 0)
  {
    var a, b, m := stream[..n], stream[..n + 1], stream[n];
    assert b == a + [m] && b[..n] == a;
    ApplySnoc(t, a, m);
    hide Apply, ApplyAll;
  }

  lemma ConsumedNone(t: Db, stream: seq<Msg>)
    ensures ApplyAll(t, stream[..0]) == t && FinishedScans(stream[..0]) == {}
    ensures ReleasedRoots(stream[..0]) == [] && NumEvents(stream[..0]) == 0
    ensures stream[..|stream|] == stream
  {
  }
}
