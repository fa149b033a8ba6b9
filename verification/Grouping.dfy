/** The path grouping of IndexReader: common parents, second-layer folders and their totals. */
module Grouping {
  import opened Paths
  import opened Tables

  // ----- get_common_parent -----

  // r is an ancestor-or-self of both, and every other one is an ancestor-or-self of r.
  ghost predicate DeepestCommon(r: string, a: string, b: string) {
    && InSubtree(r, a) && InSubtree(r, b)
    && forall p :: InSubtree(p, a) && InSubtree(p, b) ==> InSubtree(p, r)
  }

  lemma CommonPrefixLength(p: string, a: string, b: string, i: nat)
    requires i <= |a| && i <= |b| && a[..i] == b[..i]
    requires i < |a| && i < |b| ==> a[i] != b[i]
    requires InSubtree(p, a) && InSubtree(p, b)
    ensures |p| <= i && p == a[..|p|]
    ensures |p| < i ==> a[|p|] == '/'
    ensures |p| == i ==> (i == |a| || a[i] == '/') && (i == |b| || b[i] == '/')
  {
    assert p == a[..|p|] && p == b[..|p|];
    assert forall j :: 0 <= j < |p| ==> a[j] == p[j] == b[j];
  }

  lemma CutIsDeepest(a: string, b: string, i: nat, r: string)
    requires i <= |a| && i <= |b| && a[..i] == b[..i]
    requires i < |a| && i < |b| ==> a[i] != b[i]
    requires |r| <= i && r == a[..|r|] && InSubtree(r, a) && InSubtree(r, b)
    requires |r| < i ==> forall j :: |r| < j < i ==> a[j] != '/'
    requires |r| < i ==> !((i == |a| || a[i] == '/') && (i == |b| || b[i] == '/'))
    ensures DeepestCommon(r, a, b)
  {
    forall p | InSubtree(p, a) && InSubtree(p, b) ensures InSubtree(p, r) {
      CommonPrefixLength(p, a, b, i);
      assert |p| <= |r|;
      if |p| < |r| {
        assert r[|p|] == '/' && r[..|p| + 1] == p + "/";
      }
    }
  }

  lemma CutIsAncestor(a: string, i: nat, cut: nat)
    requires cut < i <= |a| && a[..i][cut] == '/'
    ensures a[..i][..cut] == a[..cut] && InSubtree(a[..cut], a)
  {
    assert a[..cut] + "/" == a[..cut + 1];
  }

  lemma BoundaryIsAncestor(a: string, i: nat)
    requires i <= |a| && (i == |a| || a[i] == '/')
    ensures InSubtree(a[..i], a)
  {
    assert i < |a| ==> a[..i] + "/" == a[..i + 1];
  }

  // There is at most one.
  lemma DeepestUnique(r: string, d: string, a: string, b: string)
    requires DeepestCommon(r, a, b) && DeepestCommon(d, a, b)
    ensures r == d
  {
    assert InSubtree(r, d) && InSubtree(d, r);
  }

  // Without a boundary or a slash in the common prefix there is none.
  lemma NoneCommon(a: string, b: string, i: nat, d: string)
    requires i <= |a| && i <= |b| && a[..i] == b[..i]
    requires i < |a| && i < |b| ==> a[i] != b[i]
    requires forall j :: 0 <= j < i ==> a[j] != '/'
    requires !((i == |a| || a[i] == '/') && (i == |b| || b[i] == '/'))
    ensures !(InSubtree(d, a) && InSubtree(d, b))
  {
    if InSubtree(d, a) && InSubtree(d, b) {
      CommonPrefixLength(d, a, b, i);
    }
  }

  // A path without its trailing slash.
  function Trimmed(p: string): string {
    if |p| > 1 && p[|p| - 1] == '/' then p[..|p| - 1] else p
  }

  /** find_last_of('/'): -1 stands for npos. */
  method FindLastSlash(s: string) returns (cut: int)
    ensures -1 <= cut < |s|
    ensures cut >= 0 ==> s[cut] == '/'
    ensures forall j :: cut < j < |s| ==> s[j] != '/'
  {
    cut := |s| - 1;
    while cut >= 0 && s[cut] != '/'
      invariant -1 <= cut < |s|
      invariant forall j :: cut < j < |s| ==> s[j] != '/'
    {
      cut := cut - 1;
    }
  }

  /**
   get_common_parent, for all strings: the deepest common ancestor-or-self without its trailing slash, and the empty
   string where there is no common ancestor.
   */
  method GetCommonParent(a: string, b: string) returns (r: string)
    ensures r <= a && r <= b
    ensures forall d :: DeepestCommon(d, a, b) ==> r == Trimmed(d)
    ensures r != "" ==> exists d :: DeepestCommon(d, a, b)
    ensures (exists d :: InSubtree(d, a) && InSubtree(d, b)) ==> exists d :: DeepestCommon(d, a, b)
  {
    hide DeepestCommon, InSubtree;
    var n := if |a| > |b| then |b| else |a|;
    var i := 0;
    while i < n && a[i] == b[i]
      invariant 0 <= i <= n
      invariant a[..i] == b[..i]
    {
      i := i + 1;
    }
    if i == 0 {
      NothingShared(a, b);
      return "";
    }
    var boundary := (i == |a| || a[i] == '/') && (i == |b| || b[i] == '/');
    var prefix := a[..i];
    assert prefix == b[..i];
    if !boundary {
      var cut := FindLastSlash(prefix);
      assert forall j :: cut < j < i ==> prefix[j] == a[j];
      if cut == -1 {
        NoDeepest(a, b, i);
        return "";
      }
      CutIsAncestor(a, i, cut);
      CutIsAncestor(b, i, cut);
      prefix := prefix[..cut];
    } else {
      BoundaryIsAncestor(a, i);
      BoundaryIsAncestor(b, i);
    }
    CutIsDeepest(a, b, i, prefix);
    OneDeepest(prefix, a, b);
    if |prefix| > 1 && prefix[|prefix| - 1] == '/' {
      prefix := prefix[..|prefix| - 1];
    }
    r := prefix;
  }

  lemma OneDeepest(r: string, a: string, b: string)
    requires DeepestCommon(r, a, b)
    ensures forall d :: DeepestCommon(d, a, b) ==> d == r
  {
    hide DeepestCommon;
    forall d | DeepestCommon(d, a, b) ensures d == r {
      DeepestUnique(r, d, a, b);
    }
  }

  lemma NoDeepest(a: string, b: string, i: nat)
    requires i <= |a| && i <= |b| && a[..i] == b[..i]
    requires i < |a| && i < |b| ==> a[i] != b[i]
    requires forall j :: 0 <= j < i ==> a[j] != '/'
    requires !((i == |a| || a[i] == '/') && (i == |b| || b[i] == '/'))
    ensures forall d :: !(InSubtree(d, a) && InSubtree(d, b)) && !DeepestCommon(d, a, b)
  {
    hide InSubtree;
    forall d ensures !(InSubtree(d, a) && InSubtree(d, b)) && !DeepestCommon(d, a, b) {
      NoneCommon(a, b, i, d);
    }
  }

  // No common first character: only the empty path can be shared.
  lemma NothingShared(a: string, b: string)
    requires a == "" || b == "" || a[0] != b[0]
    ensures forall d :: DeepestCommon(d, a, b) ==> d == ""
    ensures (exists d :: InSubtree(d, a) && InSubtree(d, b)) ==> exists d :: DeepestCommon(d, a, b)
  {
    forall d | InSubtree(d, a) && InSubtree(d, b) ensures d == "" && DeepestCommon(d, a, b) {
      CommonPrefixLength(d, a, b, 0);
      CutIsDeepest(a, b, 0, d);
    }
  }

  // ----- get_snd_layer -----

  // string::find(c) from the start; the length stands for npos.
  function Find(s: string, c: char): (pos: nat)
    ensures pos <= |s| && c !in s[..pos]
    ensures pos < |s| ==> s[pos] == c
  {
    if s == "" then 0
    else if s[0] == c then 0
    else
      var pos := Find(s[1..], c);
      assert s[..pos + 1] == [s[0]] + s[1..][..pos];
      pos + 1
  }

  function GetSndLayer(path: string, root: string): string
    requires Under(root, path)
  {
    var after := path[|root| + 1..];
    var pos := Find(after, '/');
    if pos == |after| then path else root + "/" + after[..pos]
  }

  // One component below the root.
  predicate DirectChild(root: string, p: string) {
    Under(root, p) && '/' !in p[|root| + 1..]
  }

  lemma SndLayerIsAncestor(path: string, root: string)
    requires Under(root, path)
    ensures DirectChild(root, GetSndLayer(path, root)) && InSubtree(GetSndLayer(path, root), path)
  {
    var after := path[|root| + 1..];
    var pos := Find(after, '/');
    assert path == root + "/" + after;
    assert after[..|after|] == after;
    if pos < |after| {
      var r := root + "/" + after[..pos];
      assert r[|root| + 1..] == after[..pos];
      assert path[..|r| + 1] == r + "/";
    }
  }

  lemma InTake(s: string)
    ensures forall m, n :: 0 <= m < n <= |s| ==> s[m] in s[..n]
  {
    forall m, n | 0 <= m < n <= |s| ensures s[m] in s[..n] {
      assert s[..n][m] == s[m];
    }
  }

  lemma FindUnique(s: string, c: char, m: nat)
    requires m <= |s| && c !in s[..m] && (m < |s| ==> s[m] == c)
    ensures m == Find(s, c)
  {
    InTake(s);
  }

  /** Every path under the root has exactly one direct child of the root as ancestor-or-self: its second layer. */
  lemma SndLayerUnique(path: string, root: string, k: string)
    requires Under(root, path)
    ensures DirectChild(root, k) && InSubtree(k, path) <==> k == GetSndLayer(path, root)
  {
    SndLayerIsAncestor(path, root);
    if DirectChild(root, k) && InSubtree(k, path) {
      var after, m := path[|root| + 1..], |k| - |root| - 1;
      assert k == path[..|k|];
      assert k[|root| + 1..] == after[..m];
      assert m < |after| ==> after[m] == path[|k|] == '/';
      FindUnique(after, '/', m);
    }
  }

  // ----- group_by_folder_in_snd_layer -----

  // The rows that add to a folder: all under the root except direct children that are not directories.
  predicate Grouped(rows: map<string, Row>, root: string, p: string) {
    p in rows && Under(root, p) && !(DirectChild(root, p) && !rows[p].kind.DIR?)
  }

  ghost function GroupedRows(rows: map<string, Row>, root: string): map<string, Row> {
    map p | p in rows && Grouped(rows, root, p) :: rows[p]
  }

  // The rows credited to folder k: those inside its subtree.
  ghost function FolderRows(rows: map<string, Row>, root: string, k: string): map<string, Row> {
    map p | p in rows && Grouped(rows, root, p) && DirectChild(root, k) && InSubtree(k, p) :: rows[p]
  }

  ghost function SumOf(m: map<string, nat>): nat
    decreases |m|
  {
    if m == map[] then 0
    else
      var p :| p in m;
      assert |m - {p}| < |m| by { assert (m - {p}).Keys == m.Keys - {p}; }
      m[p] + SumOf(m - {p})
  }

  lemma {:induction false} SumOfSplit(m: map<string, nat>, p: string)
    requires p in m
    ensures SumOf(m) == m[p] + SumOf(m - {p})
    decreases |m|
  {
    var q :| q in m && SumOf(m) == m[q] + SumOf(m - {q});
    if q != p {
      assert (m - {q}).Keys == m.Keys - {q} && (m - {p}).Keys == m.Keys - {p};
      SumOfSplit(m - {q}, p);
      SumOfSplit(m - {p}, q);
      assert m - {q} - {p} == m - {p} - {q};
    }
  }

  function ValueAt(m: map<string, nat>, k: string): nat {
    if k in m then m[k] else 0
  }

  lemma SumOfAdd(m: map<string, nat>, k: string, size: nat)
    ensures SumOf(m[k := ValueAt(m, k) + size]) == SumOf(m) + size
  {
    var m' := m[k := ValueAt(m, k) + size];
    SumOfSplit(m', k);
    assert m' - {k} == m - {k};
    if k in m {
      SumOfSplit(m, k);
    } else {
      assert m - {k} == m;
    }
  }

  // What the loop has built from the rows read so far.
  ghost predicate Totals(sizes: map<string, nat>, start: map<string, nat>, rows: map<string, Row>, root: string) {
    && (forall k :: k in sizes <==> k in start || FolderRows(rows, root, k) != map[])
    && (forall k :: ValueAt(sizes, k) == ValueAt(start, k) + TotalSize(FolderRows(rows, root, k)))
    && SumOf(sizes) == SumOf(start) + TotalSize(GroupedRows(rows, root))
  }

  lemma SkipRow(rows: map<string, Row>, root: string, p: string, row: Row, k: string)
    requires p !in rows && !Grouped(rows[p := row], root, p)
    ensures FolderRows(rows[p := row], root, k) == FolderRows(rows, root, k)
    ensures GroupedRows(rows[p := row], root) == GroupedRows(rows, root)
  {
  }

  lemma CreditRow(rows: map<string, Row>, root: string, p: string, row: Row, k: string)
    requires p !in rows && Grouped(rows[p := row], root, p)
    ensures FolderRows(rows[p := row], root, k) ==
            if k == GetSndLayer(p, root) then FolderRows(rows, root, k)[p := row] else FolderRows(rows, root, k)
    ensures p !in GroupedRows(rows, root)
    ensures GroupedRows(rows[p := row], root) == GroupedRows(rows, root)[p := row]
  {
    SndLayerUnique(p, root, k);
  }

  lemma TotalsSkip(sizes: map<string, nat>, start: map<string, nat>, rows: map<string, Row>, root: string, p: string,
                   row: Row)
    requires Totals(sizes, start, rows, root) && p !in rows && !Grouped(rows[p := row], root, p)
    ensures Totals(sizes, start, rows[p := row], root)
  {
    forall k ensures FolderRows(rows[p := row], root, k) == FolderRows(rows, root, k) {
      SkipRow(rows, root, p, row, k);
    }
    SkipRow(rows, root, p, row, "");
  }

  lemma FolderGrows(sizes: map<string, nat>, start: map<string, nat>, rows: map<string, Row>, root: string,
                    p: string, row: Row, k: string)
    requires Totals(sizes, start, rows, root) && p !in rows && Grouped(rows[p := row], root, p)
    ensures
      var layer := GetSndLayer(p, root);
      var sizes' := sizes[layer := ValueAt(sizes, layer) + row.size];
      && (k in sizes' <==> k in start || FolderRows(rows[p := row], root, k) != map[])
      && ValueAt(sizes', k) == ValueAt(start, k) + TotalSize(FolderRows(rows[p := row], root, k))
  {
    CreditRow(rows, root, p, row, k);
    SizeInsert(FolderRows(rows, root, k), p, row);
    assert p in FolderRows(rows, root, k)[p := row];
  }

  lemma SumGrows(sizes: map<string, nat>, start: map<string, nat>, rows: map<string, Row>, root: string,
                 p: string, row: Row, layer: string)
    requires SumOf(sizes) == SumOf(start) + TotalSize(GroupedRows(rows, root))
    requires p !in rows && Grouped(rows[p := row], root, p)
    ensures SumOf(sizes[layer := ValueAt(sizes, layer) + row.size]) ==
            SumOf(start) + TotalSize(GroupedRows(rows[p := row], root))
  {
    hide FolderRows, GroupedRows, SumOf, TotalSize, ValueAt, Grouped;
    CreditRow(rows, root, p, row, layer);
    SumOfAdd(sizes, layer, row.size);
    SizeInsert(GroupedRows(rows, root), p, row);
  }

  lemma TotalsCredit(sizes: map<string, nat>, start: map<string, nat>, rows: map<string, Row>, root: string,
                     p: string, row: Row)
    requires Totals(sizes, start, rows, root) && p !in rows && Grouped(rows[p := row], root, p)
    ensures
      var layer := GetSndLayer(p, root);
      Totals(sizes[layer := ValueAt(sizes, layer) + row.size], start, rows[p := row], root)
  {
    hide FolderRows, GroupedRows, SumOf, TotalSize, GetSndLayer, ValueAt;
    var layer := GetSndLayer(p, root);
    var sizes' := sizes[layer := ValueAt(sizes, layer) + row.size];
    forall k
      ensures k in sizes' <==> k in start || FolderRows(rows[p := row], root, k) != map[]
      ensures ValueAt(sizes', k) == ValueAt(start, k) + TotalSize(FolderRows(rows[p := row], root, k))
    {
      FolderGrows(sizes, start, rows, root, p, row, k);
    }
    SumGrows(sizes, start, rows, root, p, row, layer);
  }

  lemma TotalsStart(sizes: map<string, nat>, root: string)
    ensures Totals(sizes, sizes, map[], root)
  {
    assert forall k :: FolderRows(map[], root, k) == map[];
    assert GroupedRows(map[], root) == map[];
  }

  lemma LayerOfDirect(p: string, root: string)
    requires Under(root, p)
    ensures p == GetSndLayer(p, root) <==> DirectChild(root, p)
  {
    SndLayerUnique(p, root, p);
  }

  /**
   Folder totals: each row under the root adds its size to its second-layer folder, direct children that are
   not directories aside, so the totals grow by exactly the size of the grouped rows. Rows come in any order.
   */
  method GroupByFolderInSndLayer(current: map<string, Row>, root: string, sizes0: map<string, nat>)
    returns (sizes: map<string, nat>)
    ensures forall k :: k in sizes <==> k in sizes0 || FolderRows(current, root, k) != map[]
    ensures forall k :: ValueAt(sizes, k) == ValueAt(sizes0, k) + TotalSize(FolderRows(current, root, k))
    ensures SumOf(sizes) == SumOf(sizes0) + TotalSize(GroupedRows(current, root))
  {
    hide FolderRows, GroupedRows, SumOf, TotalSize, Totals, GetSndLayer;
    sizes := sizes0;
    var todo := set p | p in current && Under(root, p);
    ghost var rows: map<string, Row> := map[];
    TotalsStart(sizes, root);
    while todo != {}
      invariant todo <= current.Keys && forall p :: p in todo ==> Under(root, p)
      invariant forall p :: p in rows <==> p in current && Under(root, p) && p !in todo
      invariant forall p :: p in rows ==> rows[p] == current[p]
      invariant Totals(sizes, sizes0, rows, root)
      decreases todo
    {
      var path :| path in todo;
      var row := current[path];
      var layer := GetSndLayer(path, root);
      LayerOfDirect(path, root);
      if path == layer && !row.kind.DIR? {
        TotalsSkip(sizes, sizes0, rows, root, path, row);
      } else {
        TotalsCredit(sizes, sizes0, rows, root, path, row);
        sizes := sizes[layer := ValueAt(sizes, layer) + row.size];
      }
      rows := rows[path := row];
      todo := todo - {path};
    }
    TotalsEnd(sizes, sizes0, current, root, rows);
  }

  lemma TotalsEnd(sizes: map<string, nat>, start: map<string, nat>, current: map<string, Row>, root: string,
                  rows: map<string, Row>)
    requires Totals(sizes, start, rows, root)
    requires forall p :: p in rows <==> p in current && Under(root, p)
    requires forall p :: p in rows ==> rows[p] == current[p]
    ensures Totals(sizes, start, current, root)
    ensures forall k :: k in sizes <==> k in start || FolderRows(current, root, k) != map[]
    ensures forall k :: ValueAt(sizes, k) == ValueAt(start, k) + TotalSize(FolderRows(current, root, k))
    ensures SumOf(sizes) == SumOf(start) + TotalSize(GroupedRows(current, root))
  {
    assert GroupedRows(rows, root) == GroupedRows(current, root);
    assert forall k :: FolderRows(rows, root, k) == FolderRows(current, root, k);
  }
}
