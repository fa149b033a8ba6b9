/**
 A root can be refused as soon as there are two workers and two scans at a time: both workers pass the check for
 enough slots before either pushes. The refusal can then leave the dispatcher waiting for ever.
 */
module DaemonRefusal {
  import opened Paths
  import opened FileTree
  import opened Messages
  import opened Daemon
  import opened DaemonInvariant
  import opened DaemonLiveness
  import T = DaemonTheorems
  import S = SchedulerModel
  import E = ScanEngine

  // ----- roots and a tree -----

  function Xs(n: nat): (s: string)
    ensures |s| == n && '/' !in s && '.' !in s && 'f' !in s && 'g' !in s
  {
    if n == 0 then "" else Xs(n - 1) + "x"
  }

  function Root(k: nat): string {
    "/" + Xs(k)
  }

  lemma RootsApart(i: nat, j: nat)
    requires i != j
    ensures !PathsOverlap(Root(i), Root(j)) && Root(i) != ""
  {
    var a, b := Root(i), Root(j);
    assert |a| == i + 1 && |b| == j + 1;
    assert i < j ==> b[i + 1] == Xs(j)[i];
    assert j < i ==> a[j + 1] == Xs(i)[j];
  }

  function LeafF(): Entry {
    Entry("f", File(0, 0))
  }

  function DirG(): Entry {
    Entry("g", Dir(0, 0, [Entry("h", File(0, 0))]))
  }

  function Entries(n: nat): seq<Entry> {
    if n == 0 then [LeafF(), DirG()] else Entries(n - 1) + [Entry(Xs(n), File(0, 0))]
  }

  function Tree(n: nat): Work {
    Work(Root(1), Dir(0, 0, Entries(n)))
  }

  function F(): Work {
    Work(Root(1) + "/f", File(0, 0))
  }

  function G(): Work {
    Work(Root(1) + "/g", Dir(0, 0, [Entry("h", File(0, 0))]))
  }

  function H(): Work {
    Work(Root(1) + "/g" + "/" + "h", File(0, 0))
  }

  lemma {:induction false} EntriesShape(n: nat)
    ensures |Entries(n)| == n + 2 && EntriesWellFormed(Entries(n))
    ensures forall i :: 0 <= i < n + 2 ==>
              Entries(n)[i].name == if i == 0 then "f" else if i == 1 then "g" else Xs(i - 1)
  {
    if n > 0 {
      EntriesShape(n - 1);
      assert Entries(n)[..n + 1] == Entries(n - 1);
      forall i | 0 <= i < n + 1 ensures Entries(n)[i].name != Xs(n) {
        assert |Entries(n)[i].name| == |Xs(n)| ==> 'f' in Entries(n)[i].name || 'g' in Entries(n)[i].name;
      }
    } else {
      var es := Entries(0);
      assert es[..1] == [es[0]] && [es[0]][..0] == [];
      var hs := [Entry("h", File(0, 0))];
      assert hs[..0] == [];
    }
  }

  lemma ShortChildren(path: string)
    ensures ChildrenOf(path, [Entry("h", File(0, 0))]) == [Work(path + "/" + "h", File(0, 0))]
    ensures ChildrenOf(path, [LeafF(), DirG()])
         == [Work(path + "/" + "f", LeafF().node), Work(path + "/" + "g", DirG().node)]
  {
    ChildrenNone(path);
    ChildrenStep(path, [Entry("h", File(0, 0))]);
    assert [Entry("h", File(0, 0))][..0] == [];
    ChildrenStep(path, [LeafF()]);
    assert [LeafF()][..0] == [];
    ChildrenStep(path, [LeafF(), DirG()]);
    assert [LeafF(), DirG()][..1] == [LeafF()];
    hide ChildrenOf;
  }

  lemma ChildrenGrow(path: string, es: seq<Entry>, e: Entry)
    requires !IsDot(e.name)
    ensures ChildrenOf(path, es + [e]) == ChildrenOf(path, es) + [Work(path + "/" + e.name, e.node)]
  {
    hide ChildrenOf, IsDot;
    assert (es + [e])[..|es|] == es;
    ChildrenStep(path, es + [e]);
  }

  lemma NotDot(n: nat)
    requires n > 0
    ensures !IsDot(Xs(n))
  {
    assert Xs(n)[0] in Xs(n);
  }

  lemma BaseChildren()
    ensures ChildrenOf(Root(1), Entries(0)) == [F(), G()]
  {
    hide ChildrenOf, Root;
    ShortChildren(Root(1));
    assert Root(1) + "/" + "f" == Root(1) + "/f" && Root(1) + "/" + "g" == Root(1) + "/g";
  }

  lemma {:induction false} TreeChildren(n: nat)
    ensures
      var ws := ChildrenOf(Root(1), Entries(n));
      |ws| == n + 2 && ws[0] == F() && ws[1] == G()
  {
    hide ChildrenOf, Root, F, G, Xs;
    if n == 0 {
      BaseChildren();
    } else {
      TreeChildren(n - 1);
      NotDot(n);
      ChildrenGrow(Root(1), Entries(n - 1), Entry(Xs(n), File(0, 0)));
    }
  }

  // ----- the scheduler asks for scan k + 1 -----

  // Nothing is queued in the scheduler and nobody is inside start_new_scan.
  predicate Calm(d: System) {
    && d.sched.disp.Waiting? && !d.sched.managerFull && d.sched.queue == [] && d.sched.pending == 0
    && d.engine.call.NoCall? && !d.engine.dispatchFailed && d.available == 0
    && d.sched.queueMax > 0
  }

  // Only ids 1..k and their roots have been used.
  ghost predicate Used(d: System, k: nat) {
    && (forall id :: id in d.sched.state || id in d.engine.ctx || id in d.engine.registry ==> id <= k)
    && (forall r :: r in d.sched.roots ==> exists i: nat :: i <= k && r == Root(i))
  }

  function NewScan(k: nat, node: Node, accepted: bool): E.Ctx {
    E.Ctx(Work(Root(k), node), false, 1, accepted, false)
  }

  lemma SubmitOk(d: System, k: nat)
    requires Calm(d) && Used(d, k)
    ensures S.SubmitResult(d.sched, k + 1, Root(k + 1)) == S.Ok
  {
    hide Root;
    forall r | r in d.sched.roots ensures r != Root(k + 1) && !PathsOverlap(Root(k + 1), r) {
      var i: nat :| i <= k && r == Root(i);
      RootsApart(k + 1, i);
      OverlapsItself(r);
    }
    RootsApart(k + 1, k);
  }

  lemma OverlapsItself(r: string)
    ensures PathsOverlap(r, r)
  {
  }

  // The dispatcher is at try_push for scan k + 1.
  ghost predicate Asking(d: System, d': System, k: nat, node: Node) {
    var e := S.PendingRoot(k + 1, Root(k + 1));
    && d'.engine == d.engine.(ctx := d.engine.ctx[k + 1 := NewScan(k + 1, node, false)],
                              registry := d.engine.registry + {k + 1}, call := E.Added(k + 1, Work(Root(k + 1), node)))
    && d'.sched == d.sched.(state := d.sched.state[k + 1 := S.DISPATCHING], roots := d.sched.roots + {Root(k + 1)},
                            queue := [e], pending := 1, entries := d.sched.entries + [e], disp := S.Calling(e))
    && d'.consumed == d.consumed && d'.available == d.available
  }

  lemma SubmitAndTake(d0: System, d: System, k: nat) returns (d': System)
    requires Reached(d0, d) && Calm(d) && Used(d, k) && d.sched.running < d.sched.maxConcurrent
    ensures Reached(d0, d')
    ensures
      var e := S.PendingRoot(k + 1, Root(k + 1));
      d' == d.(sched := d.sched.(state := d.sched.state[k + 1 := S.DISPATCHING], roots := d.sched.roots + {Root(k + 1)},
                                 queue := [e], pending := 1, entries := d.sched.entries + [e], disp := S.Calling(e)))
  {
    SubmitOk(d, k);
    hide Reached, Root, S.SubmitResult, Used;
    var e := S.PendingRoot(k + 1, Root(k + 1));
    var a := Do(d, Sched(S.Submit(k + 1, Root(k + 1))));
    Advance(d0, d, Sched(S.Submit(k + 1, Root(k + 1))));
    assert d.sched.queue + [e] == [e];
    assert a.sched == d.sched.(state := d.sched.state[k + 1 := S.PENDING], roots := d.sched.roots + {Root(k + 1)},
                               queue := [e], pending := 1, entries := d.sched.entries + [e]);
    Advance(d0, a, Sched(S.Take));
    d' := Do(a, Sched(S.Take));
    assert d.sched.state[k + 1 := S.PENDING][k + 1 := S.DISPATCHING] == d.sched.state[k + 1 := S.DISPATCHING];
  }

  lemma Ask(d0: System, d: System, k: nat, node: Node) returns (d': System)
    requires Reached(d0, d) && Calm(d) && Used(d, k) && d.sched.running < d.sched.maxConcurrent && WellFormed(node)
    ensures Reached(d0, d') && Asking(d, d', k, node)
  {
    var a := SubmitAndTake(d0, d, k);
    hide Reached, Root, WellFormed;
    Advance(d0, a, Start(node));
    var b := Do(a, Start(node));
    Advance(d0, b, Dispatch);
    d' := Do(b, Dispatch);
    var c := d.engine.ctx[k + 1 := E.Ctx(Work(Root(k + 1), node), false, 0, false, false)];
    assert c[k + 1 := NewScan(k + 1, node, false)] == d.engine.ctx[k + 1 := NewScan(k + 1, node, false)];
  }

  // Scan k + 1 has been accepted and nothing else has happened to the engine.
  ghost predicate Accepted(d: System, d': System, k: nat, node: Node) {
    && d'.engine == d.engine.(ctx := d.engine.ctx[k + 1 := NewScan(k + 1, node, true)],
                              registry := d.engine.registry + {k + 1},
                              queue := d.engine.queue + [E.Job(k + 1, Work(Root(k + 1), node), true)])
    && d'.sched.running == d.sched.running + 1 && d'.sched.maxConcurrent == d.sched.maxConcurrent
    && Calm(d')
  }

  lemma AcceptNext(d0: System, d: System, k: nat, node: Node) returns (d': System)
    requires Reached(d0, d) && Calm(d) && Used(d, k) && d.sched.running < d.sched.maxConcurrent && WellFormed(node)
    requires |d.engine.queue| < d.engine.slots
    ensures Reached(d0, d') && Accepted(d, d', k, node) && Used(d', k + 1)
  {
    var a := Ask(d0, d, k, node);
    d' := Finish(d0, d, a, k, node);
    StillUsed(d, d', k, node);
  }

  lemma Finish(d0: System, d: System, a: System, k: nat, node: Node) returns (d': System)
    requires Reached(d0, a) && Asking(d, a, k, node) && Calm(d) && |d.engine.queue| < d.engine.slots
    ensures Reached(d0, d') && Accepted(d, d', k, node)
    ensures d'.sched.state == d.sched.state[k + 1 := S.RUNNING] && d'.sched.roots == d.sched.roots + {Root(k + 1)}
  {
    hide Reached, Root;
    Advance(d0, a, Dispatch);
    var b := Do(a, Dispatch);
    Advance(d0, b, Sched(S.Complete));
    d' := Do(b, Sched(S.Complete));
    var e := S.PendingRoot(k + 1, Root(k + 1));
    assert [e][1..] == [];
    assert a.engine.ctx[k + 1 := NewScan(k + 1, node, true)] == d.engine.ctx[k + 1 := NewScan(k + 1, node, true)];
    assert a.sched.state[k + 1 := S.RUNNING] == d.sched.state[k + 1 := S.RUNNING];
  }

  lemma StillUsed(d: System, d': System, k: nat, node: Node)
    requires Used(d, k) && Accepted(d, d', k, node)
    requires d'.sched.state == d.sched.state[k + 1 := S.RUNNING] && d'.sched.roots == d.sched.roots + {Root(k + 1)}
    ensures Used(d', k + 1)
  {
    hide Root, Calm;
    forall r | r in d'.sched.roots ensures exists i: nat :: i <= k + 1 && r == Root(i) {
      if r in d.sched.roots {
        var i: nat :| i <= k && r == Root(i);
      } else {
        assert r == Root(k + 1);
      }
    }
  }

  // ----- the workers on scan 1 -----

  // One step of a worker whose only call is at pc.
  lemma Works(d0: System, d: System, w: nat, pc: E.Pc, eff: E.Effect, pc': E.Pc) returns (d': System)
    requires Reached(d0, d) && w < |d.engine.workers| && d.engine.workers[w] == [E.Frame(1, pc)] && 1 in d.engine.ctx
    requires E.StepPc(E.ViewOf(d.engine, 1), 1, pc) == (eff, E.Become(pc')) && !pc.NotifyFinished? && !pc.Tail?
    ensures Reached(d0, d')
    ensures d' == d.(engine := E.Apply(d.engine, 1, eff).(workers := d.engine.workers[w := [E.Frame(1, pc')]]))
  {
    hide Reached, E.StepPc, E.ViewOf;
    var f, f' := E.Frame(1, pc), E.Frame(1, pc');
    assert [f][..0] + [f'] == [f'];
    Advance(d0, d, WorkerStep(w));
    d' := Do(d, WorkerStep(w));
  }

  // Only scan 1's context and the workers' stacks have changed, and the queue.
  ghost predicate Moved(d: System, d': System, w: nat, pc: E.Pc, unfinished: int, queue: seq<E.Job>) {
    && w < |d.engine.workers| && 1 in d.engine.ctx
    && d' == d.(engine := d.engine.(
                  ctx := d.engine.ctx[1 := d.engine.ctx[1].(unfinished := unfinished)], queue := queue,
                  workers := d.engine.workers[w := [E.Frame(1, pc)]], log := d'.engine.log))
  }

  // Scan 1 is under way and worker w is at pc.
  predicate Here(d: System, w: nat, pc: E.Pc) {
    && 1 in d.engine.ctx && !d.engine.ctx[1].canceled
    && w < |d.engine.workers| && d.engine.workers[w] == [E.Frame(1, pc)]
  }

  lemma ToPush(d0: System, d: System, w: nat, rest: seq<Work>, child: Work) returns (d': System)
    requires Reached(d0, d) && Here(d, w, E.Loop(rest + [child]))
    requires 0 < d.engine.maxScans && |d.engine.queue| + d.engine.maxScans <= d.engine.slots
    ensures Reached(d0, d') && Here(d', w, E.Push(rest, child))
    ensures Moved(d, d', w, E.Push(rest, child), d.engine.ctx[1].unfinished + 1, d.engine.queue)
    ensures d'.engine.log == d.engine.log
  {
    hide Reached;
    assert (rest + [child])[..|rest|] == rest;
    var a := Works(d0, d, w, E.Loop(rest + [child]), E.Quiet, E.Add(rest, child));
    var b := Works(d0, a, w, E.Add(rest, child), E.Gain, E.Check(rest, child));
    d' := Works(d0, b, w, E.Check(rest, child), E.Quiet, E.Push(rest, child));
  }

  lemma FromPush(d0: System, d: System, w: nat, rest: seq<Work>, child: Work) returns (d': System)
    requires Reached(d0, d) && Here(d, w, E.Push(rest, child)) && |d.engine.queue| < d.engine.slots
    ensures Reached(d0, d') && Here(d', w, E.Loop(rest))
    ensures Moved(d, d', w, E.Loop(rest), d.engine.ctx[1].unfinished, d.engine.queue + [E.Job(1, child, false)])
    ensures d'.engine.log == d.engine.log
  {
    hide Reached;
    d' := Works(d0, d, w, E.Push(rest, child), E.Enqueue(child), E.Loop(rest));
    assert d.engine.ctx[1 := d.engine.ctx[1]] == d.engine.ctx;
  }

  lemma Pushes(d0: System, d: System, w: nat, rest: seq<Work>, child: Work) returns (d': System)
    requires Reached(d0, d) && Here(d, w, E.Loop(rest + [child]))
    requires 0 < d.engine.maxScans && |d.engine.queue| + d.engine.maxScans <= d.engine.slots
    ensures Reached(d0, d') && Here(d', w, E.Loop(rest))
    ensures Moved(d, d', w, E.Loop(rest), d.engine.ctx[1].unfinished + 1, d.engine.queue + [E.Job(1, child, false)])
    ensures d'.engine.log == d.engine.log
  {
    hide Reached, Here;
    var a := ToPush(d0, d, w, rest, child);
    d' := FromPush(d0, a, w, rest, child);
    assert d.engine.workers[w := [E.Frame(1, E.Push(rest, child))]][w := [E.Frame(1, E.Loop(rest))]]
        == d.engine.workers[w := [E.Frame(1, E.Loop(rest))]];
    var c, u := d.engine.ctx[1], d.engine.ctx[1].unfinished + 1;
    assert d.engine.ctx[1 := c.(unfinished := u)][1 := c.(unfinished := u)] == d.engine.ctx[1 := c.(unfinished := u)];
  }

  // Nothing but scan 1's work has gone on.
  ghost predicate SameRest(d: System, d': System) {
    && d'.sched == d.sched && d'.available == d.available && d'.consumed == d.consumed
    && d'.engine.slots == d.engine.slots && d'.engine.maxScans == d.engine.maxScans
    && d'.engine.call == d.engine.call && d'.engine.registry == d.engine.registry
    && d'.engine.dispatchFailed == d.engine.dispatchFailed && d'.engine.ctx.Keys == d.engine.ctx.Keys
    && |d'.engine.workers| == |d.engine.workers|
  }

  // And all of it by worker w.
  ghost predicate Kept(d: System, d': System, w: nat) {
    SameRest(d, d') && forall v :: 0 <= v < |d.engine.workers| && v != w ==> d'.engine.workers[v] == d.engine.workers[v]
  }

  lemma MovedKept(d: System, d': System, w: nat, pc: E.Pc, unfinished: int, queue: seq<E.Job>)
    requires Moved(d, d', w, pc, unfinished, queue)
    ensures Kept(d, d', w) && d'.engine.queue == queue
    ensures 1 in d'.engine.ctx && d'.engine.ctx[1].unfinished == unfinished
  {
  }

  lemma {:induction false} PushMany(d0: System, d: System, base: seq<Work>, more: seq<Work>) returns (d': System)
    requires Reached(d0, d) && Here(d, 0, E.Loop(base + more))
    requires 0 < d.engine.maxScans && |d.engine.queue| + |more| + d.engine.maxScans <= d.engine.slots + 1
    ensures Reached(d0, d') && Here(d', 0, E.Loop(base)) && Kept(d, d', 0)
    ensures |d'.engine.queue| == |d.engine.queue| + |more| && 1 in d.engine.ctx
    ensures d'.engine.ctx[1].unfinished == d.engine.ctx[1].unfinished + |more|
    decreases |more|
  {
    hide Reached, Moved;
    if more == [] {
      assert base + more == base;
      d' := d;
    } else {
      var n := |more| - 1;
      assert base + more == (base + more[..n]) + [more[n]];
      var a := Pushes(d0, d, 0, base + more[..n], more[n]);
      var queue := d.engine.queue + [E.Job(1, more[n], false)];
      MovedKept(d, a, 0, E.Loop(base + more[..n]), d.engine.ctx[1].unfinished + 1, queue);
      d' := PushMany(d0, a, base, more[..n]);
    }
  }

  lemma Pops(d0: System, d: System, w: nat, work: Work) returns (d': System)
    requires Reached(d0, d) && w < |d.engine.workers| && d.engine.workers[w] == [] && d.engine.queue != []
    requires
      var j := d.engine.queue[|d.engine.queue| - 1];
      j.scan == 1 && j.work == work && 1 in d.engine.ctx && !d.engine.ctx[1].canceled
    ensures Reached(d0, d') && Here(d', w, E.Enter(work)) && Kept(d, d', w)
    ensures |d'.engine.queue| == |d.engine.queue| - 1 && d'.engine.ctx == d.engine.ctx
  {
    hide Reached;
    Advance(d0, d, Pop(w));
    d' := Do(d, Pop(w));
  }

  lemma Scans(d0: System, d: System, w: nat, work: Work) returns (d': System)
    requires Reached(d0, d) && Here(d, w, E.Enter(work))
    ensures Reached(d0, d') && Here(d', w, E.Loop(Children(work))) && Kept(d, d', w)
    ensures d'.engine.queue == d.engine.queue && d'.engine.ctx == d.engine.ctx
  {
    hide Reached, Children;
    var a := Works(d0, d, w, E.Enter(work), E.Quiet, E.Scan(work));
    d' := Works(d0, a, w, E.Scan(work), E.Emit(Event(1, EventOf(work))), E.Loop(Children(work)));
  }

  lemma Ends(d0: System, d: System, w: nat) returns (d': System)
    requires Reached(d0, d) && Here(d, w, E.Loop([])) && d.engine.ctx[1].unfinished > 1
    ensures Reached(d0, d') && Here(d', w, E.Tail) && Kept(d, d', w)
    ensures d'.engine.queue == d.engine.queue
  {
    hide Reached;
    var a := Works(d0, d, w, E.Loop([]), E.Quiet, E.Finish);
    d' := Works(d0, a, w, E.Finish, E.Lose, E.Tail);
  }

  // ----- filling the queue -----

  predicate Limits(d: System, maxConcurrent: nat, slots: nat, threads: nat) {
    && d.sched.maxConcurrent == maxConcurrent && d.engine.maxScans == maxConcurrent && d.engine.slots == slots
    && |d.engine.workers| == threads && 2 <= maxConcurrent <= slots && 2 <= threads
  }

  // Scan 1 is accepted and worker 0 has all its children before it, but two.
  lemma Fill(d0: System, d: System, maxConcurrent: nat, slots: nat, threads: nat) returns (d': System)
    requires Reached(d0, d) && Limits(d, maxConcurrent, slots, threads) && Calm(d)
    requires d.engine.workers[0] == [] && d.engine.workers[1] == []
    requires 1 in d.engine.ctx && d.engine.ctx[1] == NewScan(1, Tree(slots - maxConcurrent).node, true)
    requires d.engine.queue == [E.Job(1, Tree(slots - maxConcurrent), true)]
    ensures Reached(d0, d') && Kept(d, d', 0) && Here(d', 0, E.Loop([F(), G()]))
    ensures |d'.engine.queue| == slots - maxConcurrent && d'.engine.ctx[1].unfinished > 0
  {
    hide Reached, Tree;
    var n := slots - maxConcurrent;
    var a := Pops(d0, d, 0, Tree(n));
    var b := Scans(d0, a, 0, Tree(n));
    var ws := Children(Tree(n));
    TreeShape(n);
    assert ws == [F(), G()] + ws[2..];
    d' := PushMany(d0, b, [F(), G()], ws[2..]);
  }

  lemma TreeShape(n: nat)
    ensures |Children(Tree(n))| == n + 2 && Children(Tree(n))[0] == F() && Children(Tree(n))[1] == G()
    ensures Children(G()) == [H()]
  {
    TreeChildren(n);
    ShortChildren(Root(1) + "/g");
    hide ChildrenOf, Root;
  }

  // Both workers pass the check before either pushes.
  lemma Race(d0: System, d: System, maxConcurrent: nat, slots: nat, threads: nat) returns (d': System)
    requires Reached(d0, d) && Limits(d, maxConcurrent, slots, threads)
    requires Here(d, 0, E.Loop([F(), G()])) && d.engine.workers[1] == []
    requires |d.engine.queue| == slots - maxConcurrent && d.engine.ctx[1].unfinished > 0
    ensures Reached(d0, d') && Here(d', 0, E.Push([], F())) && Here(d', 1, E.Push([], H()))
    ensures |d'.engine.queue| == slots - maxConcurrent && d'.engine.ctx[1].unfinished > 2
    ensures SameRest(d, d')
  {
    hide Reached, Moved, F, G, H, Children;
    assert [F(), G()] == [F()] + [G()];
    var a := Pushes(d0, d, 0, [F()], G());
    MovedKept(d, a, 0, E.Loop([F()]), d.engine.ctx[1].unfinished + 1, d.engine.queue + [E.Job(1, G(), false)]);
    var b := Pops(d0, a, 1, G());
    var c := Scans(d0, b, 1, G());
    TreeShape(0);
    assert [H()] == [] + [H()] && [F()] == [] + [F()];
    var e := ToPush(d0, c, 1, [], H());
    MovedKept(c, e, 1, E.Push([], H()), c.engine.ctx[1].unfinished + 1, c.engine.queue);
    assert Here(e, 0, E.Loop([F()]));
    d' := ToPush(d0, e, 0, [], F());
    MovedKept(e, d', 0, E.Push([], F()), e.engine.ctx[1].unfinished + 1, e.engine.queue);
  }

  lemma Overfill(d0: System, d: System, maxConcurrent: nat, slots: nat, threads: nat) returns (d': System)
    requires Reached(d0, d) && Limits(d, maxConcurrent, slots, threads)
    requires Here(d, 0, E.Push([], F())) && Here(d, 1, E.Push([], H()))
    requires |d.engine.queue| == slots - maxConcurrent && d.engine.ctx[1].unfinished > 2
    ensures Reached(d0, d') && Here(d', 0, E.Tail) && |d'.engine.queue| == slots - maxConcurrent + 2 && SameRest(d, d')
  {
    hide Reached, Moved, F, H;
    var a := FromPush(d0, d, 0, [], F());
    MovedKept(d, a, 0, E.Loop([]), d.engine.ctx[1].unfinished, d.engine.queue + [E.Job(1, F(), false)]);
    assert Here(a, 1, E.Push([], H()));
    var b := FromPush(d0, a, 1, [], H());
    MovedKept(a, b, 1, E.Loop([]), a.engine.ctx[1].unfinished, a.engine.queue + [E.Job(1, H(), false)]);
    assert Here(b, 0, E.Loop([]));
    d' := Ends(d0, b, 0);
  }

  // ----- the remaining scans -----

  lemma {:induction false} AcceptMany(d0: System, d: System, k: nat, m: nat) returns (d': System)
    requires Reached(d0, d) && Calm(d) && Used(d, k) && d.sched.running == k && 1 <= k <= m
    requires m <= d.sched.maxConcurrent && |d.engine.queue| + (m - k) <= d.engine.slots
    ensures Reached(d0, d') && Calm(d') && Used(d', m) && d'.sched.running == m
    ensures |d'.engine.queue| == |d.engine.queue| + (m - k) && d'.engine.workers == d.engine.workers
    ensures d'.engine.slots == d.engine.slots && d'.sched.maxConcurrent == d.sched.maxConcurrent
    ensures 1 in d.engine.ctx ==> 1 in d'.engine.ctx && d'.engine.ctx[1] == d.engine.ctx[1]
    decreases m - k
  {
    hide Reached, Used, Calm;
    if k == m {
      d' := d;
    } else {
      var a := AcceptNext(d0, d, k, File(0, 0));
      d' := AcceptMany(d0, a, k + 1, m);
    }
  }

  lemma Begins(maxConcurrent: nat, queueMax: nat, slots: nat, threads: nat) returns (d: System)
    requires 2 <= maxConcurrent <= slots && 2 <= threads && queueMax > 0
    ensures Reached(Init(maxConcurrent, queueMax, slots, threads), d)
    ensures Limits(d, maxConcurrent, slots, threads) && Calm(d) && Used(d, 1) && d.sched.running == 1
    ensures d.engine.workers[0] == [] && d.engine.workers[1] == []
    ensures 1 in d.engine.ctx && d.engine.ctx[1] == NewScan(1, Tree(slots - maxConcurrent).node, true)
    ensures d.engine.queue == [E.Job(1, Tree(slots - maxConcurrent), true)]
  {
    hide Reached, Used, WellFormed, Tree;
    var d0, n := Init(maxConcurrent, queueMax, slots, threads), slots - maxConcurrent;
    Starts(maxConcurrent, queueMax, slots, threads);
    TreeIsTree(n);
    d := AcceptNext(d0, d0, 0, Tree(n).node);
    assert [] + [E.Job(1, Tree(n), true)] == [E.Job(1, Tree(n), true)];
  }

  lemma Starts(maxConcurrent: nat, queueMax: nat, slots: nat, threads: nat)
    requires maxConcurrent > 0 && queueMax > 0
    ensures var d := Init(maxConcurrent, queueMax, slots, threads); Reached(d, d) && Calm(d) && Used(d, 0)
  {
    var d := Init(maxConcurrent, queueMax, slots, threads);
    var none: seq<Action> := [];
    assert Legal(d, none) && After(d, none) == d;
  }

  lemma TreeIsTree(n: nat)
    ensures WellFormed(Tree(n).node) && Tree(n) == Work(Root(1), Tree(n).node)
  {
    EntriesShape(n);
    hide EntriesWellFormed, Entries;
  }

  lemma RestKeepsUsed(d: System, d': System, k: nat)
    requires SameRest(d, d') && Calm(d) && Used(d, k)
    ensures Calm(d') && Used(d', k)
  {
  }

  // All slots are taken, the scheduler is about to start one more scan, and worker 0 is at the end of a call.
  ghost predicate Brink(d: System, maxConcurrent: nat, slots: nat)
    requires maxConcurrent > 0
  {
    && Calm(d) && Used(d, maxConcurrent - 1) && d.sched.running == maxConcurrent - 1
    && d.sched.maxConcurrent == maxConcurrent && d.engine.slots == slots == |d.engine.queue|
    && Here(d, 0, E.Tail)
  }

  lemma ReachBrink(maxConcurrent: nat, queueMax: nat, slots: nat, threads: nat) returns (d: System)
    requires 2 <= maxConcurrent <= slots && 2 <= threads && queueMax > 0
    ensures Reached(Init(maxConcurrent, queueMax, slots, threads), d) && Brink(d, maxConcurrent, slots)
  {
    hide Reached, Used, Calm, Tree, F, G, H;
    var d0 := Init(maxConcurrent, queueMax, slots, threads);
    var a := Begins(maxConcurrent, queueMax, slots, threads);
    var b := Fill(d0, a, maxConcurrent, slots, threads);
    RestKeepsUsed(a, b, 1);
    var c := Race(d0, b, maxConcurrent, slots, threads);
    RestKeepsUsed(b, c, 1);
    var e := Overfill(d0, c, maxConcurrent, slots, threads);
    RestKeepsUsed(c, e, 1);
    d := AcceptMany(d0, e, 1, maxConcurrent - 1);
  }

  // ----- the refusal -----

  lemma RefusalReachable(maxConcurrent: nat, queueMax: nat, slots: nat, threads: nat) returns (run: seq<Action>)
    requires 2 <= maxConcurrent <= slots && 2 <= threads && queueMax > 0
    ensures Legal(Init(maxConcurrent, queueMax, slots, threads), run)
    ensures
      var d := After(Init(maxConcurrent, queueMax, slots, threads), run);
      d.engine.call.Added? && !Accepts(d.engine)
  {
    var d0 := Init(maxConcurrent, queueMax, slots, threads);
    hide Legal, After, Used;
    var d := ReachBrink(maxConcurrent, queueMax, slots, threads);
    var a := Ask(d0, d, maxConcurrent - 1, File(0, 0));
    run := RunTo(d0, a);
  }

  /**
   Exactly when roots always find a slot, given as many slots as concurrent scans: iff there is at most one worker or at
   most one scan at a time.
   */
  lemma RootNeverRefusedIff(maxConcurrent: nat, queueMax: nat, slots: nat, threads: nat)
    requires 0 < maxConcurrent <= slots && queueMax > 0
    ensures
      var d0 := Init(maxConcurrent, queueMax, slots, threads);
      (forall run :: Legal(d0, run) && After(d0, run).engine.call.Added? ==> Accepts(After(d0, run).engine))
      <==> threads <= 1 || maxConcurrent == 1
  {
    var d0 := Init(maxConcurrent, queueMax, slots, threads);
    hide Legal, After;
    if threads <= 1 || maxConcurrent == 1 {
      forall run | Legal(d0, run) && After(d0, run).engine.call.Added? ensures Accepts(After(d0, run).engine) {
        T.RootNeverRefused(maxConcurrent, queueMax, slots, threads, run);
      }
    } else {
      var run := RefusalReachable(maxConcurrent, queueMax, slots, threads);
    }
  }

  // ----- and its aftermath -----

  // start_new_scan gives up, and raises the flag; worker 0 takes it before the dispatcher is back.
  lemma GivesUp(d0: System, d: System, k: nat) returns (d': System)
    requires Reached(d0, d) && d.engine.call.Added? && d.engine.call.scan == k && k in d.engine.ctx
    requires |d.engine.queue| >= d.engine.slots && Here(d, 0, E.Tail) && k != 1 && d.sched.disp.Calling?
    ensures Reached(d0, d') && d'.engine.call.Flagged? && d'.engine.call.scan == k && k in d'.engine.ctx
    ensures d'.engine.dispatchFailed && Here(d', 0, E.Tail) && d'.sched == d.sched && d'.available == d.available
  {
    hide Reached;
    Advance(d0, d, Dispatch);
    var a := Do(d, Dispatch);
    Advance(d0, a, Dispatch);
    var b := Do(a, Dispatch);
    Advance(d0, b, Dispatch);
    d' := Do(b, Dispatch);
  }

  lemma FlagTaken(d0: System, d: System, k: nat) returns (d': System)
    requires Reached(d0, d) && d.engine.call.Flagged? && d.engine.call.scan == k && k in d.engine.ctx
    requires d.engine.dispatchFailed && Here(d, 0, E.Tail) && d.sched.disp.Calling? && d.available == 0
    ensures Reached(d0, d') && d'.engine.call.Flagged? && d'.engine.call.scan == k && k in d'.engine.ctx
    ensures !d'.engine.dispatchFailed && d'.available == 0
    ensures d'.sched == d.sched.(managerFull := false)
  {
    hide Reached;
    var f := E.Frame(1, E.Tail);
    assert [f][..0] + [] == [];
    Advance(d0, d, WorkerStep(0));
    var a := Do(d, WorkerStep(0));
    Advance(d0, a, Available);
    d' := Do(a, Available);
  }

  lemma ComesBack(d0: System, d: System, k: nat) returns (d': System)
    requires Reached(d0, d) && d.engine.call.Flagged? && d.engine.call.scan == k && k in d.engine.ctx
    requires !d.engine.dispatchFailed && d.available == 0
    requires d.sched.disp.Calling? && d.sched.disp.entry.id == k && k in d.sched.state && d.sched.state[k].DISPATCHING?
    ensures Reached(d0, d') && d'.sched.managerFull && !d'.engine.dispatchFailed && d'.available == 0
    ensures k in d'.sched.state && d'.sched.state[k].PENDING?
  {
    hide Reached;
    Advance(d0, d, Dispatch);
    var a := Do(d, Dispatch);
    Advance(d0, a, Sched(S.Complete));
    d' := Do(a, Sched(S.Complete));
  }

  /** The dispatcher can be left waiting for ever with a scan PENDING, as soon as a root can be refused. */
  lemma DispatcherSticks(maxConcurrent: nat, queueMax: nat, slots: nat, threads: nat) returns (run: seq<Action>)
    requires 2 <= maxConcurrent <= slots && 2 <= threads && queueMax > 0
    ensures Legal(Init(maxConcurrent, queueMax, slots, threads), run)
    ensures
      var d := After(Init(maxConcurrent, queueMax, slots, threads), run);
      && d.sched.managerFull && !WillBeTold(d)
      && maxConcurrent in d.sched.state && d.sched.state[maxConcurrent].PENDING?
  {
    var d0 := Init(maxConcurrent, queueMax, slots, threads);
    hide Legal, After, Used;
    var d := ReachBrink(maxConcurrent, queueMax, slots, threads);
    var a := Ask(d0, d, maxConcurrent - 1, File(0, 0));
    assert Here(a, 0, E.Tail) && a.sched.disp.entry.id == maxConcurrent;
    hide Asking, Brink, Calm, Reached;
    var b := GivesUp(d0, a, maxConcurrent);
    var c := FlagTaken(d0, b, maxConcurrent);
    var e := ComesBack(d0, c, maxConcurrent);
    run := RunTo(d0, e);
  }

  // No root has been refused.
  ghost predicate NoRefusal(d: System) {
    && !d.engine.call.WasFull? && !d.engine.call.Subbed? && !d.engine.call.Flagged?
    && (d.sched.disp.Returned? ==> !d.sched.disp.full)
    && !d.sched.managerFull
  }

  lemma SchedulerNoRefusal(s: S.Sched, a: S.Action)
    requires S.Enabled(s, a) && !a.Full? && (s.disp.Returned? ==> !s.disp.full) && !s.managerFull
    ensures S.Do(s, a).disp.Returned? ==> !S.Do(s, a).disp.full
    ensures !S.Do(s, a).managerFull
  {
  }

  lemma EngineNoRefusal(e: E.Engine, a: E.Action)
    requires E.Enabled(e, a) && !e.call.WasFull? && !e.call.Subbed? && !e.call.Flagged?
    requires a.RootStep? && e.call.Added? ==> Accepts(e)
    ensures var c := E.Do(e, a).call; !c.WasFull? && !c.Subbed? && !c.Flagged?
  {
  }

  lemma DoNoRefusal(d: System, a: Action)
    requires Enabled(d, a) && NoRefusal(d) && (d.engine.call.Added? ==> Accepts(d.engine))
    ensures NoRefusal(Do(d, a))
  {
    hide S.Do, S.Enabled, E.Do;
    match a
    case Sched(x) => SchedulerNoRefusal(d.sched, x);
    case Available => AvailableEnabled(d.sched); SchedulerNoRefusal(d.sched, S.Available);
    case Start(node) => EngineNoRefusal(d.engine, RootAction(d.sched.disp.entry, node));
    case Refuse => RefuseEnabled(d.sched); SchedulerNoRefusal(d.sched, S.Fail);
    case Dispatch =>
      EngineNoRefusal(d.engine, E.RootStep);
      if Accepts(d.engine) {
        RefuseEnabled(d.sched);
        SchedulerNoRefusal(d.sched, S.Accept);
      }
    case Pop(w) => EngineNoRefusal(d.engine, E.Pop(w));
    case WorkerStep(w) =>
      EngineNoRefusal(d.engine, E.Step(w));
      if Tells(d.engine, w) {
        SchedulerNoRefusal(d.sched, S.Finished(E.Top(d.engine.workers[w]).scan));
      }
    case CancelCall(id) =>
      SchedulerNoRefusal(d.sched, S.CancelCall(id));
      EngineNoRefusal(d.engine, E.Cancel(id));
    case DispatcherCancel => CancelNoRefusal(d);
    case Consume =>
    case ExportDone(id) => SchedulerNoRefusal(d.sched, S.ExportDone(id));
  }

  lemma CancelNoRefusal(d: System)
    requires Enabled(d, DispatcherCancel) && NoRefusal(d)
    ensures NoRefusal(Do(d, DispatcherCancel))
  {
    SchedulerNoRefusal(d.sched, S.DispatcherCancel);
    EngineNoRefusal(d.engine, E.Cancel(d.sched.disp.id));
  }

  lemma {:induction false} RunNoRefusal(maxConcurrent: nat, queueMax: nat, slots: nat, threads: nat, run: seq<Action>)
    requires 0 < maxConcurrent <= slots && queueMax > 0 && (threads <= 1 || maxConcurrent == 1)
    requires Legal(Init(maxConcurrent, queueMax, slots, threads), run)
    ensures NoRefusal(After(Init(maxConcurrent, queueMax, slots, threads), run))
    decreases |run|
  {
    if run != [] {
      hide NoRefusal, Do, Enabled;
      var n := |run| - 1;
      RunNoRefusal(maxConcurrent, queueMax, slots, threads, run[..n]);
      T.RootNeverRefused(maxConcurrent, queueMax, slots, threads, run[..n]);
      DoNoRefusal(After(Init(maxConcurrent, queueMax, slots, threads), run[..n]), run[n]);
    }
  }

  /**
   Dispatch liveness, given as many slots as concurrent scans: a dispatcher told "queue full" can always dispatch again
   iff there is at most one worker or at most one scan at a time, in which case it is never told so.
   */
  lemma NeverStuckIff(maxConcurrent: nat, queueMax: nat, slots: nat, threads: nat)
    requires 0 < maxConcurrent <= slots && queueMax > 0
    ensures
      var d0 := Init(maxConcurrent, queueMax, slots, threads);
      (forall run :: Legal(d0, run) && After(d0, run).sched.managerFull ==> Resumable(After(d0, run)))
      <==> threads <= 1 || maxConcurrent == 1
  {
    var d0 := Init(maxConcurrent, queueMax, slots, threads);
    hide Legal, After, Resumable, WillBeTold;
    if threads <= 1 || maxConcurrent == 1 {
      forall run | Legal(d0, run) ensures !After(d0, run).sched.managerFull {
        RunNoRefusal(maxConcurrent, queueMax, slots, threads, run);
      }
    } else {
      var run := DispatcherSticks(maxConcurrent, queueMax, slots, threads);
      DispatcherResumesIff(maxConcurrent, queueMax, slots, threads, run);
    }
  }
}
