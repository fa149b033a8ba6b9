/** The scanned filesystem as a static finite tree, and what scanning one node of it yields. */
module FileTree {
  import opened Paths

  datatype NodeType = UNKNOWN | DIR | FILE | LINK

  // What lstat, opendir and readdir answer for one path. Entries may include "." and "..".
  datatype Node =
    | Missing(errno: nat)
    | Link(mtime: int, blocks: nat)
    | File(mtime: int, blocks: nat)
    | Locked(mtime: int, blocks: nat, errno: nat)
    | Dir(mtime: int, blocks: nat, entries: seq<Entry>)

  datatype Entry = Entry(name: string, node: Node)

  // The fields of a FileEvent other than the scan id.
  datatype Ev = Ev(path: string, kind: NodeType, mtime: int, size: nat, errno: nat)

  // One job: a path and what is found there.
  datatype Work = Work(path: string, node: Node)

  const BLOCK := 512

  function EventOf(w: Work): Ev {
    match w.node
    case Missing(errno) => Ev(w.path, UNKNOWN, 0, 0, errno)
    case Link(mtime, blocks) => Ev(w.path, LINK, mtime, blocks * BLOCK, 0)
    case File(mtime, blocks) => Ev(w.path, FILE, mtime, blocks * BLOCK, 0)
    case Locked(mtime, blocks, errno) => Ev(w.path, DIR, mtime, blocks * BLOCK, errno)
    case Dir(mtime, blocks, _) => Ev(w.path, DIR, mtime, blocks * BLOCK, 0)
  }

  predicate IsDot(name: string) {
    name == "." || name == ".."
  }

  function ChildrenOf(path: string, entries: seq<Entry>): (ws: seq<Work>)
    ensures SizeAll(ws) <= EntriesSize(entries)
  {
    if entries == [] then []
    else
      var last := entries[|entries| - 1];
      var ws := ChildrenOf(path, entries[..|entries| - 1]);
      if IsDot(last.name) then ws
      else
        var c := Work(path + "/" + last.name, last.node);
        assert (ws + [c])[..|ws|] == ws;
        ws + [c]
  }

  function Children(w: Work): (ws: seq<Work>)
    ensures SizeAll(ws) < Size(w)
  {
    if w.node.Dir? then ChildrenOf(w.path, w.node.entries) else []
  }

  // Number of tree nodes, dot entries included.
  function NodeSize(n: Node): nat
    decreases n, 1
  {
    if n.Dir? then 1 + EntriesSize(n.entries) else 1
  }

  function EntriesSize(es: seq<Entry>): nat
    decreases es, 0
  {
    if es == [] then 0
    else EntriesSize(es[..|es| - 1]) + NodeSize(es[|es| - 1].node)
  }

  function Size(w: Work): (n: nat)
    ensures n > 0
  {
    NodeSize(w.node)
  }

  function SizeAll(ws: seq<Work>): nat {
    if ws == [] then 0 else SizeAll(ws[..|ws| - 1]) + Size(ws[|ws| - 1])
  }

  // How often a recursive walk of w reports the event e.
  function Occurs(w: Work, e: Ev): nat
    decreases Size(w), 0
  {
    (if EventOf(w) == e then 1 else 0) + OccursAll(Children(w), e)
  }

  function OccursAll(ws: seq<Work>, e: Ev): nat
    decreases SizeAll(ws), 1
  {
    if ws == [] then 0
    else OccursAll(ws[..|ws| - 1], e) + Occurs(ws[|ws| - 1], e)
  }

  // The recursive depth-first walk: a node, then its children in directory order.
  function Preorder(w: Work): (s: seq<Ev>)
    decreases Size(w), 0
  {
    [EventOf(w)] + PreorderAll(Children(w))
  }

  function PreorderAll(ws: seq<Work>): seq<Ev>
    decreases SizeAll(ws), 1
  {
    if ws == [] then [] else PreorderAll(ws[..|ws| - 1]) + Preorder(ws[|ws| - 1])
  }

  lemma Walk(w: Work)
    ensures Preorder(w) == [EventOf(w)] + PreorderAll(Children(w))
    ensures SizeAll(Children(w)) < Size(w)
  {
  }

  /** Occurs counts exactly the preorder walk. */
  lemma {:induction false} OccursCountsPreorder(w: Work, e: Ev)
    ensures Occurs(w, e) == multiset(Preorder(w))[e]
    decreases Size(w), 0
  {
    OccursAllCountsPreorder(Children(w), e);
  }

  lemma {:induction false} OccursAllCountsPreorder(ws: seq<Work>, e: Ev)
    ensures OccursAll(ws, e) == multiset(PreorderAll(ws))[e]
    decreases SizeAll(ws), 1
  {
    if ws != [] {
      OccursAllCountsPreorder(ws[..|ws| - 1], e);
      OccursCountsPreorder(ws[|ws| - 1], e);
    }
  }

  // Sibling names are distinct and free of slashes, as a directory guarantees.
  predicate WellFormed(n: Node)
    decreases n, 1
  {
    n.Dir? ==> EntriesWellFormed(n.entries)
  }

  predicate EntriesWellFormed(es: seq<Entry>)
    decreases es, 0
  {
    es != [] ==>
      var n := |es| - 1;
      && '/' !in es[n].name
      && WellFormed(es[n].node)
      && (forall i :: 0 <= i < n ==> es[i].name != es[n].name)
      && EntriesWellFormed(es[..n])
  }

  predicate DistinctPaths(s: seq<Ev>) {
    forall i, j :: 0 <= i < j < |s| ==> s[i].path != s[j].path
  }

  ghost predicate AllUnder(root: string, s: seq<Ev>) {
    forall i :: 0 <= i < |s| ==> Under(root, s[i].path)
  }

  ghost predicate AllInSubtree(root: string, s: seq<Ev>) {
    forall i :: 0 <= i < |s| ==> InSubtree(root, s[i].path)
  }

  // No path of s lies in the subtree of root.
  ghost predicate Avoids(root: string, s: seq<Ev>) {
    forall i :: 0 <= i < |s| ==> !InSubtree(root, s[i].path)
  }

  lemma SlashFreeSiblings(path: string, a: string, b: string)
    requires '/' !in a && '/' !in b && a != b
    ensures !PathsOverlap(path + "/" + a, path + "/" + b)
  {
    var x, y := path + "/" + a, path + "/" + b;
    assert x[|path| + 1..] == a && y[|path| + 1..] == b;
    assert |b| < |a| ==> x[|y|] == a[|b|] && a[|b|] != '/';
    assert |a| < |b| ==> y[|x|] == b[|a|] && b[|a|] != '/';
  }

  lemma AppendDistinct(root: string, s: seq<Ev>, t: seq<Ev>)
    requires DistinctPaths(s) && DistinctPaths(t)
    requires Avoids(root, s) && AllInSubtree(root, t)
    ensures DistinctPaths(s + t)
  {
  }

  /** Every node of a well-formed tree has its own path, and all paths stay below the root. */
  lemma {:induction false} PreorderPathsDistinct(w: Work)
    requires WellFormed(w.node)
    ensures DistinctPaths(Preorder(w)) && AllInSubtree(w.path, Preorder(w))
    decreases w.node, 1
  {
    var t := PreorderAll(Children(w));
    if w.node.Dir? {
      EntriesPathsDistinct(w.path, w.node.entries);
    }
    assert AllUnder(w.path, t) && DistinctPaths(t);
    forall j | 0 <= j < |t| ensures t[j].path != w.path {
      assert Under(w.path, t[j].path);
    }
    assert Preorder(w) == [EventOf(w)] + t;
  }

  lemma {:induction false} EntriesPathsDistinct(path: string, es: seq<Entry>)
    requires EntriesWellFormed(es)
    ensures DistinctPaths(PreorderAll(ChildrenOf(path, es)))
    ensures AllUnder(path, PreorderAll(ChildrenOf(path, es)))
    decreases es, 0
  {
    if es != [] {
      var n := |es| - 1;
      EntriesPathsDistinct(path, es[..n]);
      hide Preorder, PreorderAll, ChildrenOf;
      ChildrenStep(path, es);
      if !IsDot(es[n].name) {
        var c := Work(path + "/" + es[n].name, es[n].node);
        PreorderPathsDistinct(c);
        NewNameAvoided(path, es[..n], es[n].name);
        WalkExtends(path, ChildrenOf(path, es[..n]), c);
      }
    }
  }

  lemma PreorderAllSnoc(ws: seq<Work>, c: Work)
    ensures PreorderAll(ws + [c]) == PreorderAll(ws) + Preorder(c)
    ensures SizeAll(ws + [c]) == SizeAll(ws) + Size(c)
  {
    hide Preorder, Size;
    assert (ws + [c])[..|ws|] == ws;
  }

  lemma WalkExtends(path: string, init: seq<Work>, c: Work)
    requires Under(path, c.path)
    requires DistinctPaths(PreorderAll(init)) && AllUnder(path, PreorderAll(init))
    requires DistinctPaths(Preorder(c)) && AllInSubtree(c.path, Preorder(c))
    requires Avoids(c.path, PreorderAll(init))
    ensures DistinctPaths(PreorderAll(init + [c])) && AllUnder(path, PreorderAll(init + [c]))
  {
    hide Preorder, PreorderAll;
    var s, t := PreorderAll(init), Preorder(c);
    PreorderAllSnoc(init, c);
    AppendDistinct(c.path, s, t);
    forall i | 0 <= i < |t| ensures Under(path, t[i].path) {
      InSubtreeTransitive(path, c.path, t[i].path);
    }
  }

  lemma ChildrenStep(path: string, es: seq<Entry>)
    requires es != []
    ensures
      var n := |es| - 1;
      ChildrenOf(path, es) ==
      if IsDot(es[n].name) then ChildrenOf(path, es[..n])
      else ChildrenOf(path, es[..n]) + [Work(path + "/" + es[n].name, es[n].node)]
  {
    hide EntriesSize, SizeAll, IsDot;
  }

  // A name not among the entries leads to a subtree that the walk of the entries never enters.
  lemma {:induction false} NewNameAvoided(path: string, es: seq<Entry>, name: string)
    requires EntriesWellFormed(es) && '/' !in name
    requires forall i :: 0 <= i < |es| ==> es[i].name != name
    ensures Avoids(path + "/" + name, PreorderAll(ChildrenOf(path, es)))
    decreases es
  {
    if es != [] {
      var n := |es| - 1;
      NewNameAvoided(path, es[..n], name);
      hide Preorder, PreorderAll, ChildrenOf;
      ChildrenStep(path, es);
      if !IsDot(es[n].name) {
        var c := Work(path + "/" + es[n].name, es[n].node);
        PreorderAllSnoc(ChildrenOf(path, es[..n]), c);
        PreorderPathsDistinct(c);
        SiblingAvoided(path, es[n].name, name, Preorder(c));
      }
    }
  }

  lemma SiblingAvoided(path: string, a: string, b: string, s: seq<Ev>)
    requires '/' !in a && '/' !in b && a != b && AllInSubtree(path + "/" + a, s)
    ensures Avoids(path + "/" + b, s)
  {
    SlashFreeSiblings(path, a, b);
    hide PathsOverlap, InSubtree;
    OverlapIffSubtreesMeet(path + "/" + a, path + "/" + b);
  }

  lemma ChildrenNone(path: string)
    ensures ChildrenOf(path, []) == []
  {
  }

  // ----- what is found at a path -----

  // Walking the directory tree at `path` by names reaches the node n at p.
  ghost predicate Finds(path: string, node: Node, p: string, n: Node)
    decreases node
  {
    || (p == path && n == node)
    || (node.Dir? && exists i :: 0 <= i < |node.entries| && FindsIn(path, node.entries[i], p, n))
  }

  ghost predicate FindsIn(path: string, e: Entry, p: string, n: Node)
    decreases e
  {
    e.name != "." && e.name != ".." && Finds(path + "/" + e.name, e.node, p, n)
  }

  function ErrnoOf(n: Node): nat {
    if n.Missing? || n.Locked? then n.errno else 0
  }

  function MtimeOf(n: Node): int {
    if n.Missing? then 0 else n.mtime
  }

  function BytesOf(n: Node): nat {
    if n.Missing? then 0 else 512 * n.blocks
  }

  // The type recorded for each kind of node.
  predicate TypeIs(kind: NodeType, n: Node) {
    && (kind.LINK? <==> n.Link?)
    && (kind.FILE? <==> n.File?)
    && (kind.DIR? <==> n.Dir? || n.Locked?)
    && (kind.UNKNOWN? <==> n.Missing?)
  }

  predicate Describes(ev: Ev, n: Node) {
    TypeIs(ev.kind, n) && ev.mtime == MtimeOf(n) && ev.size == BytesOf(n) && ev.errno == ErrnoOf(n)
  }

  ghost predicate Reports(w: Work, ev: Ev) {
    exists n :: Finds(w.path, w.node, ev.path, n) && Describes(ev, n)
  }

  lemma OwnEvent(w: Work)
    ensures EventOf(w).path == w.path && Describes(EventOf(w), w.node)
    ensures forall ev: Ev :: ev.path == w.path && Describes(ev, w.node) ==> ev == EventOf(w)
  {
  }

  ghost predicate ReportsOne(path: string, e: Entry, ev: Ev) {
    exists n :: FindsIn(path, e, ev.path, n) && Describes(ev, n)
  }

  ghost predicate ReportsSome(path: string, es: seq<Entry>, ev: Ev) {
    exists i :: 0 <= i < |es| && ReportsOne(path, es[i], ev)
  }

  lemma ReportsSnoc(path: string, es: seq<Entry>, ev: Ev)
    requires es != []
    ensures
      var n := |es| - 1;
      ReportsSome(path, es, ev) <==> ReportsSome(path, es[..n], ev) || ReportsOne(path, es[n], ev)
  {
    hide ReportsOne;
    var n := |es| - 1;
    if i :| 0 <= i < n && ReportsOne(path, es[i], ev) {
      assert ReportsOne(path, es[..n][i], ev);
    }
    if i :| 0 <= i < n && ReportsOne(path, es[..n][i], ev) {
      assert ReportsOne(path, es[i], ev);
    }
  }

  lemma ReportsEntry(path: string, e: Entry, ev: Ev)
    ensures ReportsOne(path, e, ev) <==>
            e.name != "." && e.name != ".." && Reports(Work(path + "/" + e.name, e.node), ev)
  {
    hide Describes;
    if ReportsOne(path, e, ev) {
      var n :| FindsIn(path, e, ev.path, n) && Describes(ev, n);
      assert Finds(path + "/" + e.name, e.node, ev.path, n);
    }
    if e.name != "." && e.name != ".." && Reports(Work(path + "/" + e.name, e.node), ev) {
      var n :| Finds(path + "/" + e.name, e.node, ev.path, n) && Describes(ev, n);
      assert FindsIn(path, e, ev.path, n);
    }
  }

  lemma ReportsSplit(w: Work, ev: Ev)
    ensures Reports(w, ev) <==>
            ev == EventOf(w) ||
            (w.node.Dir? && ReportsSome(w.path, w.node.entries, ev))
  {
    OwnEvent(w);
    hide Describes, EventOf;
    if Reports(w, ev) {
      var n :| Finds(w.path, w.node, ev.path, n) && Describes(ev, n);
      if !(ev.path == w.path && n == w.node) {
        var i :| 0 <= i < |w.node.entries| && FindsIn(w.path, w.node.entries[i], ev.path, n);
        assert ReportsOne(w.path, w.node.entries[i], ev);
      }
    }
    if ev == EventOf(w) {
      assert Finds(w.path, w.node, ev.path, w.node);
    }
    if w.node.Dir? && ReportsSome(w.path, w.node.entries, ev) {
      var i :| 0 <= i < |w.node.entries| && ReportsOne(w.path, w.node.entries[i], ev);
      var n :| FindsIn(w.path, w.node.entries[i], ev.path, n) && Describes(ev, n);
      assert Finds(w.path, w.node, ev.path, n);
    }
  }

  /** The walk reports exactly the nodes that names lead to, each with its type, time, size and error. */
  lemma {:induction false} WalkReportsNodes(w: Work, ev: Ev)
    ensures ev in Preorder(w) <==> Reports(w, ev)
    decreases w.node, 1
  {
    hide Reports, ReportsOne, ReportsSome, Preorder, EventOf;
    ReportsSplit(w, ev);
    Walk(w);
    if w.node.Dir? {
      EntriesReported(w.path, w.node.entries, ev);
    } else {
      hide Children;
      NoChildren(w);
    }
  }

  lemma NoChildren(w: Work)
    requires !w.node.Dir?
    ensures PreorderAll(Children(w)) == []
  {
  }

  lemma {:induction false} EntriesReported(path: string, es: seq<Entry>, ev: Ev)
    ensures ev in PreorderAll(ChildrenOf(path, es)) <==> ReportsSome(path, es, ev)
    decreases es, 0
  {
    if es == [] {
      ChildrenNone(path);
    } else {
      var n := |es| - 1;
      EntriesReported(path, es[..n], ev);
      hide Reports, ReportsOne, ReportsSome, Preorder, PreorderAll, ChildrenOf, EntriesSize, SizeAll;
      ChildrenStep(path, es);
      ReportsSnoc(path, es, ev);
      ReportsEntry(path, es[n], ev);
      if !IsDot(es[n].name) {
        var c := Work(path + "/" + es[n].name, es[n].node);
        PreorderAllSnoc(ChildrenOf(path, es[..n]), c);
        WalkReportsNodes(c, ev);
      }
    }
  }

  // The entries that became children, by position.
  ghost predicate Chosen(path: string, es: seq<Entry>, ws: seq<Work>, at: seq<nat>) {
    && |at| == |ws| && (forall k, l :: 0 <= k < l < |at| ==> at[k] < at[l])
    && (forall k :: 0 <= k < |at| ==>
          at[k] < |es| && ws[k] == Work(path + "/" + es[at[k]].name, es[at[k]].node))
    && (forall i :: 0 <= i < |es| ==> (i in at <==> es[i].name != "." && es[i].name != ".."))
  }

  lemma ChosenNone(path: string)
    ensures Chosen(path, [], [], [])
  {
  }

  lemma ChosenSkip(path: string, es: seq<Entry>, e: Entry, ws: seq<Work>, at: seq<nat>)
    requires Chosen(path, es, ws, at) && IsDot(e.name)
    ensures Chosen(path, es + [e], ws, at)
  {
    assert |es| !in at;
  }

  lemma ChosenTake(path: string, es: seq<Entry>, e: Entry, ws: seq<Work>, at: seq<nat>)
    requires Chosen(path, es, ws, at) && !IsDot(e.name)
    ensures Chosen(path, es + [e], ws + [Work(path + "/" + e.name, e.node)], at + [|es|])
  {
    var n := |es|;
    forall i | 0 <= i < n + 1
      ensures i in at + [n] <==> (es + [e])[i].name != "." && (es + [e])[i].name != ".."
    {
      assert i in at + [n] <==> i in at || i == n;
    }
  }

  /** The children are the directory's entries but "." and "..", in the order of the directory. */
  lemma {:induction false} ChildrenInOrder(path: string, es: seq<Entry>) returns (at: seq<nat>)
    ensures Chosen(path, es, ChildrenOf(path, es), at)
  {
    hide Chosen, ChildrenOf, IsDot, EntriesSize, SizeAll;
    if es == [] {
      at := [];
      ChosenNone(path);
      ChildrenNone(path);
    } else {
      var n := |es| - 1;
      at := ChildrenInOrder(path, es[..n]);
      ChildrenStep(path, es);
      assert es == es[..n] + [es[n]];
      if IsDot(es[n].name) {
        ChosenSkip(path, es[..n], es[n], ChildrenOf(path, es[..n]), at);
      } else {
        ChosenTake(path, es[..n], es[n], ChildrenOf(path, es[..n]), at);
        at := at + [n];
      }
    }
  }

  /** scan_one_node: the reported event and the vector its readdir loop fills. */
  method ScanOneNode(w: Work) returns (event: Ev, children: seq<Work>)
    ensures event.path == w.path && Describes(event, w.node)
    ensures event == EventOf(w)
    ensures children == Children(w)
  {
    children := [];
    match w.node {
      case Missing(errno) =>
        event := Ev(w.path, UNKNOWN, 0, 0, errno);
      case Link(mtime, blocks) =>
        event := Ev(w.path, LINK, mtime, blocks * 512, 0);
      case File(mtime, blocks) =>
        event := Ev(w.path, FILE, mtime, blocks * 512, 0);
      case Locked(mtime, blocks, errno) =>
        event := Ev(w.path, DIR, mtime, blocks * 512, errno);
      case Dir(mtime, blocks, entries) =>
        event := Ev(w.path, DIR, mtime, blocks * 512, 0);
        children := ReadEntries(w.path, entries);
    }
  }

  /** The readdir loop. */
  method ReadEntries(path: string, entries: seq<Entry>) returns (children: seq<Work>)
    ensures children == ChildrenOf(path, entries)
    ensures exists at :: Chosen(path, entries, children, at)
  {
    hide ChildrenOf, IsDot, SizeAll, EntriesSize, Size;
    children := [];
    ChildrenNone(path);
    var i := 0;
    while i < |entries|
      invariant 0 <= i <= |entries|
      invariant children == ChildrenOf(path, entries[..i])
    {
      ChildrenStep(path, entries[..i + 1]);
      assert entries[..i + 1][..i] == entries[..i];
      if !IsDot(entries[i].name) {
        children := children + [Work(path + "/" + entries[i].name, entries[i].node)];
      }
      i := i + 1;
    }
    assert entries[..i] == entries;
    ghost var at := ChildrenInOrder(path, entries);
  }
}
