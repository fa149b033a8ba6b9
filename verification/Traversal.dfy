/**
 One worker on its own: worker_job, task_on_job_submit, task_on_job_finish and the loop of work_forever run
 sequentially over the LIFO queue, for one scan. Other threads may cancel the scan or stop the pool at any moment.
 */
module Traversal {
  import opened FileTree
  import opened JobQueue
  import ScanEngine

  // The walk still to come when the queue is popped from its end.
  function Future(stack: seq<Work>): seq<Ev> {
    if stack == [] then [] else Preorder(stack[|stack| - 1]) + Future(stack[..|stack| - 1])
  }

  lemma PreorderAllOne(c: Work)
    ensures PreorderAll([c]) == Preorder(c)
  {
    hide Preorder;
    assert [c][..0] == [];
    assert PreorderAll([]) == [];
  }

  lemma {:induction false} PreorderAllCons(c: Work, ws: seq<Work>)
    ensures PreorderAll([c] + ws) == Preorder(c) + PreorderAll(ws)
    decreases |ws|
  {
    if ws == [] {
      assert [c] + ws == [c];
      PreorderAllOne(c);
    } else {
      hide Preorder, PreorderAll;
      var n := |ws| - 1;
      var init, last := ws[..n], ws[n];
      assert ws == init + [last] && [c] + ws == ([c] + init) + [last];
      PreorderAllCons(c, init);
      PreorderAllSnoc([c] + init, last);
      PreorderAllSnoc(init, last);
    }
  }

  lemma {:induction false} SizeBoundsLength(ws: seq<Work>)
    ensures |ws| <= SizeAll(ws)
  {
    if ws != [] {
      SizeBoundsLength(ws[..|ws| - 1]);
    }
  }

  lemma {:induction false} SizeAllMember(ws: seq<Work>, i: nat)
    requires i < |ws|
    ensures Size(ws[i]) <= SizeAll(ws)
  {
    if i < |ws| - 1 {
      SizeAllMember(ws[..|ws| - 1], i);
    }
  }

  lemma FutureSnoc(stack: seq<Work>, c: Work)
    ensures Future(stack + [c]) == Preorder(c) + Future(stack)
    ensures SizeAll(stack + [c]) == SizeAll(stack) + Size(c)
  {
    assert (stack + [c])[..|stack|] == stack;
  }

  lemma TakeSnoc(children: seq<Work>, i: nat)
    requires i < |children|
    ensures PreorderAll(children[..i + 1]) == PreorderAll(children[..i]) + Preorder(children[i])
    ensures SizeAll(children[..i + 1]) == SizeAll(children[..i]) + Size(children[i])
    ensures PreorderAll(children[i..]) == Preorder(children[i]) + PreorderAll(children[i + 1..])
  {
    hide Preorder, PreorderAll, Size, SizeAll;
    assert children[..i + 1] == children[..i] + [children[i]];
    PreorderAllSnoc(children[..i], children[i]);
    PreorderAllCons(children[i], children[i + 1..]);
    assert [children[i]] + children[i + 1..] == children[i..];
  }

  lemma Empties()
    ensures PreorderAll([]) == [] && Future([]) == [] && SizeAll([]) == 0
  {
  }

  // a is part of b, and all of it iff `whole`.
  ghost predicate Part(whole: bool, a: multiset<Ev>, b: multiset<Ev>) {
    a <= b && (whole <==> a == b)
  }

  lemma PartOfPart(w: bool, a: multiset<Ev>, b: multiset<Ev>, v: bool, c: multiset<Ev>)
    requires Part(w, a, b) && Part(v, b, c)
    ensures Part(w && v, a, c)
  {
  }

  lemma PartPlus(w: bool, a: multiset<Ev>, b: multiset<Ev>, x: multiset<Ev>)
    requires Part(w, a, b)
    ensures Part(w, a + x, b + x)
  {
    if a + x == b + x {
      assert a == (a + x) - x && b == (b + x) - x;
    }
  }

  lemma PartLost(a: multiset<Ev>, lost: seq<Ev>)
    requires lost != []
    ensures Part(false, a, a + multiset(lost))
  {
    assert lost[0] in multiset(lost);
    assert (a + multiset(lost))[lost[0]] > a[lost[0]];
  }

  // Reported, queued and still-unsubmitted work make up the part of `total` not yet lost, within a bound on its size.
  ghost predicate Left(whole: bool, total: multiset<Ev>, bound: nat, log: seq<Ev>, stack: seq<Work>, rest: seq<Work>) {
    && Part(whole, multiset(log) + multiset(Future(stack)) + multiset(PreorderAll(rest)), total)
    && SizeAll(stack) + SizeAll(rest) <= bound
  }

  // A call of worker_job took `work` from one state to another, possibly scanning descendants inline; nothing of it was
  // lost iff `whole`.
  ghost predicate Did(whole: bool, work: Work, log0: seq<Ev>, stack0: seq<Work>, log: seq<Ev>, stack: seq<Work>) {
    && log0 <= log
    && Part(whole, multiset(log) + multiset(Future(stack)),
            multiset(log0) + multiset(Preorder(work)) + multiset(Future(stack0)))
    && SizeAll(stack) <= SizeAll(stack0) + SizeAll(Children(work))
  }

  // It reported its own node only and left the walk of its children on top of the stack.
  ghost predicate DepthFirst(work: Work, log0: seq<Ev>, stack0: seq<Work>, log: seq<Ev>, stack: seq<Work>) {
    && log == log0 + [EventOf(work)]
    && Future(stack) == PreorderAll(Children(work)) + Future(stack0)
  }

  // The children were handed on, all of them iff `whole`.
  ghost predicate Submitted(whole: bool, ws: seq<Work>, log0: seq<Ev>, stack0: seq<Work>,
                            log: seq<Ev>, stack: seq<Work>)
  {
    && log0 <= log
    && Part(whole, multiset(log) + multiset(Future(stack)),
            multiset(log0) + multiset(Future(stack0)) + multiset(PreorderAll(ws)))
    && SizeAll(stack) <= SizeAll(stack0) + SizeAll(ws)
  }

  lemma LeftStart(ws: seq<Work>, log: seq<Ev>, stack: seq<Work>)
    ensures Left(true, multiset(log) + multiset(Future(stack)) + multiset(PreorderAll(ws)),
                 SizeAll(stack) + SizeAll(ws), log, stack, ws)
  {
  }

  // A child was queued or run inline.
  ghost predicate Handed(whole: bool, child: Work, log0: seq<Ev>, stack0: seq<Work>, log: seq<Ev>, stack: seq<Work>) {
    && log0 <= log
    && Part(whole, multiset(log) + multiset(Future(stack)),
            multiset(log0) + multiset(Preorder(child)) + multiset(Future(stack0)))
    && SizeAll(stack) <= SizeAll(stack0) + Size(child)
  }

  lemma HandedToQueue(child: Work, log: seq<Ev>, stack: seq<Work>)
    ensures Handed(true, child, log, stack, log, stack + [child])
  {
    hide Preorder, Future, SizeAll, Size;
    FutureSnoc(stack, child);
  }

  lemma HandedInline(whole: bool, child: Work, log0: seq<Ev>, stack0: seq<Work>, log: seq<Ev>, stack: seq<Work>)
    requires Did(whole, child, log0, stack0, log, stack)
    ensures Handed(whole, child, log0, stack0, log, stack)
  {
    hide Preorder, Future, SizeAll, Size, Children, Part;
    Walk(child);
  }

  lemma LeftHanded(whole: bool, total: multiset<Ev>, bound: nat, log0: seq<Ev>, stack0: seq<Work>,
                   ws: seq<Work>, i: nat, own: bool, log: seq<Ev>, stack: seq<Work>)
    requires i < |ws| && Left(whole, total, bound, log0, stack0, ws[..i + 1])
    requires Handed(own, ws[i], log0, stack0, log, stack)
    ensures Left(own && whole, total, bound, log, stack, ws[..i]) && log0 <= log
  {
    hide Preorder, PreorderAll, Future, SizeAll, Size, Part;
    TakeSnoc(ws, i);
    var a, b := multiset(log) + multiset(Future(stack)), multiset(log0) + multiset(Future(stack0));
    var c, all := multiset(PreorderAll(ws[..i])), multiset(log0) + multiset(Preorder(ws[i])) + multiset(Future(stack0));
    assert all + c == b + (c + multiset(Preorder(ws[i])));
    PartPlus(own, a, all, c);
    PartOfPart(own, a + c, b + multiset(PreorderAll(ws[..i + 1])), whole, total);
  }

  // The loop ends; whatever was not submitted is lost.
  lemma LeftEnd(whole: bool, ws: seq<Work>, log0: seq<Ev>, stack0: seq<Work>, log: seq<Ev>, stack: seq<Work>,
                rest: seq<Work>)
    requires Left(whole, multiset(log0) + multiset(Future(stack0)) + multiset(PreorderAll(ws)),
                  SizeAll(stack0) + SizeAll(ws), log, stack, rest)
    requires log0 <= log
    ensures Submitted(whole && rest == [], ws, log0, stack0, log, stack)
  {
    hide Preorder, PreorderAll, Future, Size, SizeAll, Part;
    var total := multiset(log0) + multiset(Future(stack0)) + multiset(PreorderAll(ws));
    var a := multiset(log) + multiset(Future(stack));
    Empties();
    if rest == [] {
      assert a + multiset(PreorderAll(rest)) == a;
    } else {
      WalkNotEmpty(rest);
      PartLost(a, PreorderAll(rest));
      PartOfPart(false, a, a + multiset(PreorderAll(rest)), whole, total);
    }
  }

  // A node was reported and its children were handed on.
  lemma DidWork(whole: bool, work: Work, log0: seq<Ev>, stack0: seq<Work>, log: seq<Ev>, stack: seq<Work>)
    requires Submitted(whole, Children(work), log0 + [EventOf(work)], stack0, log, stack)
    ensures Did(whole, work, log0, stack0, log, stack)
  {
    hide Preorder, PreorderAll, Future, Size, SizeAll, Children, Part, EventOf;
    Walk(work);
    var e, w := [EventOf(work)], PreorderAll(Children(work));
    assert multiset(log0 + e) + multiset(Future(stack0)) + multiset(w)
        == multiset(log0) + multiset(e + w) + multiset(Future(stack0));
    assert log0 <= log0 + e;
  }

  lemma WalkNotEmpty(ws: seq<Work>)
    requires ws != []
    ensures PreorderAll(ws) != []
  {
    var n := |ws| - 1;
    assert ws == ws[..n] + [ws[n]];
    Walk(ws[n]);
    hide Preorder, PreorderAll;
    PreorderAllSnoc(ws[..n], ws[n]);
  }

  // A call that found its scan canceled reports nothing.
  lemma DidNothing(work: Work, log: seq<Ev>, stack: seq<Work>)
    ensures Did(false, work, log, stack, log, stack)
  {
    hide Preorder, PreorderAll, Future, Size, SizeAll, Children, Part;
    Walk(work);
    var a := multiset(log) + multiset(Future(stack));
    PartLost(a, Preorder(work));
    assert multiset(log) + multiset(Preorder(work)) + multiset(Future(stack)) == a + multiset(Preorder(work));
  }

  lemma StackedUp(ws: seq<Work>, i: nat, stack0: seq<Work>, stack: seq<Work>)
    requires i < |ws| && Future(stack) == PreorderAll(ws[i + 1..]) + Future(stack0)
    ensures Future(stack + [ws[i]]) == PreorderAll(ws[i..]) + Future(stack0)
  {
    hide Preorder, PreorderAll, Future, Size, SizeAll;
    TakeSnoc(ws, i);
    FutureSnoc(stack, ws[i]);
  }

  // The state between two jobs of a scan of `root`.
  ghost predicate Between(whole: bool, root: Work, log: seq<Ev>, stack: seq<Work>) {
    && Part(whole, multiset(log) + multiset(Future(stack)), multiset(Preorder(root)))
    && SizeAll(stack) <= Size(root)
  }

  lemma BetweenStart(root: Work)
    ensures Between(true, root, [], [root]) && [] + Future([root]) == Preorder(root)
  {
    hide Preorder, Size;
    Empties();
    FutureSnoc([], root);
    assert [] + [root] == [root];
  }

  lemma BetweenStep(whole: bool, root: Work, log0: seq<Ev>, stack0: seq<Work>, own: bool, log: seq<Ev>,
                    stack: seq<Work>)
    requires stack0 != [] && Between(whole, root, log0, stack0)
    requires var n := |stack0| - 1; Did(own, stack0[n], log0, stack0[..n], log, stack)
    ensures Between(own && whole, root, log, stack) && SizeAll(stack) < SizeAll(stack0)
  {
    hide Preorder, PreorderAll, Future, SizeAll, Size, Children, Part;
    var n := |stack0| - 1;
    assert stack0[..n] + [stack0[n]] == stack0;
    FutureSnoc(stack0[..n], stack0[n]);
    Walk(stack0[n]);
    var before := multiset(log0) + multiset(Future(stack0));
    assert multiset(log0) + multiset(Preorder(stack0[n])) + multiset(Future(stack0[..n])) == before;
    PartOfPart(own, multiset(log) + multiset(Future(stack)), before, whole, multiset(Preorder(root)));
  }

  lemma BetweenEnd(whole: bool, root: Work, log: seq<Ev>, stack: seq<Work>)
    requires stack == [] && Between(whole, root, log, stack)
    ensures Part(whole, multiset(log), multiset(Preorder(root))) && Future(stack) == []
  {
    hide Preorder, Part;
    Empties();
    assert multiset(log) + multiset(Future(stack)) == multiset(log);
  }

  lemma StackedAll(work: Work, log0: seq<Ev>, stack0: seq<Work>, log: seq<Ev>, stack: seq<Work>)
    requires log == log0 + [EventOf(work)] && Future(stack) == PreorderAll(Children(work)) + Future(stack0)
    ensures DepthFirst(work, log0, stack0, log, stack)
  {
  }

  lemma Regroup<T>(a: seq<T>, b: T, c: seq<T>, d: seq<T>)
    ensures (a + [b]) + (c + d) == a + (([b] + c) + d)
  {
  }

  lemma DepthFirstStep(log0: seq<Ev>, stack0: seq<Work>, log: seq<Ev>, stack: seq<Work>)
    requires stack0 != []
    requires var n := |stack0| - 1; DepthFirst(stack0[n], log0, stack0[..n], log, stack)
    ensures log + Future(stack) == log0 + Future(stack0)
  {
    hide Preorder, PreorderAll, Future, SizeAll, Size, Children, EventOf;
    var n := |stack0| - 1;
    var work, rest := stack0[n], stack0[..n];
    assert rest + [work] == stack0;
    FutureSnoc(rest, work);
    Walk(work);
    Regroup(log0, EventOf(work), PreorderAll(Children(work)), Future(rest));
  }

  lemma RoomForChildren(whole: bool, root: Work, log: seq<Ev>, stack: seq<Work>)
    requires stack != [] && Between(whole, root, log, stack)
    ensures var n := |stack| - 1; n + |Children(stack[n])| <= Size(root)
  {
    hide Preorder, PreorderAll, Future, SizeAll, Size, Children;
    var n := |stack| - 1;
    assert stack[..n] + [stack[n]] == stack;
    FutureSnoc(stack[..n], stack[n]);
    Walk(stack[n]);
    SizeBoundsLength(stack[..n]);
    SizeBoundsLength(Children(stack[n]));
  }

  lemma OneSentinel(sentinels: seq<bool>)
    requires |sentinels| == 1
    ensures sentinels == [true] || sentinels == [false]
  {
    if sentinels[0] {
      assert sentinels == [true];
    } else {
      assert sentinels == [false];
    }
  }

  class Scanner {
    const pool: BoundedQueue<Work>
    const maxScans: nat
    var unfinished: int         // unfinished_jobs
    var log: seq<Ev>            // events in the result queue
    var sentinels: seq<bool>    // sentinels in the result queue, by is_canceled

    // What other threads do: how many more loads of the canceled flag read false, and how many more submissions
    // reach the pool before it is stopped.
    var loadsLeft: nat
    var submitsLeft: nat

    ghost var sawFull: bool     // a submission of a child was answered Full
    ghost var cut: bool         // work was dropped because of a cancel or a stop

    ghost predicate Valid()
      reads this, pool
    {
      pool.Valid() && pool.policy.Lifo? && (cut ==> loadsLeft == 0 || pool.stopFlag)
    }

    constructor (slots: nat, scans: nat, loads: nat, submits: nat)
      ensures Valid() && fresh(pool) && pool.container == [] && pool.capacity == slots && !pool.stopFlag
      ensures maxScans == scans && loadsLeft == loads && submitsLeft == submits
      ensures unfinished == 0 && log == [] && sentinels == [] && !sawFull && !cut
    {
      pool := new BoundedQueue<Work>(Lifo, slots);
      maxScans, loadsLeft, submitsLeft := scans, loads, submits;
      unfinished, log, sentinels, sawFull, cut := 0, [], [], false, false;
    }

    // canceled.load(): once it reads true it stays true.
    method LoadCanceled() returns (canceled: bool)
      modifies this`loadsLeft
      ensures canceled <==> old(loadsLeft) == 0
      ensures loadsLeft == if canceled then 0 else old(loadsLeft) - 1
    {
      canceled := loadsLeft == 0;
      if !canceled {
        loadsLeft := loadsLeft - 1;
      }
    }

    /** task_on_job_submit: where the job goes, with the rollback of a submission to a stopped pool. */
    method TaskOnJobSubmit(data: Work, isRoot: bool) returns (result: SubmitResult)
      requires Valid()
      modifies pool, this`unfinished, this`sentinels, this`loadsLeft, this`submitsLeft, this`sawFull, this`cut
      ensures Valid() && (old(pool.stopFlag) ==> pool.stopFlag) && loadsLeft <= old(loadsLeft)
      ensures
        var used := |old(pool.container)|;
        if !isRoot && !(pool.capacity - used > ScanEngine.Reserved(maxScans)) then result.Full?
        else if pool.stopFlag then result.Shutdown?
        else result == if used < pool.capacity then Pushed else Full
      ensures !old(pool.stopFlag) && old(submitsLeft) > 0 ==> !pool.stopFlag
      ensures pool.container == if result.Pushed? then old(pool.container) + [data] else old(pool.container)
      ensures unfinished == if result.Shutdown? then old(unfinished) else old(unfinished) + 1
      ensures sentinels == old(sentinels)
                           + (if result.Shutdown? && old(unfinished) == 0 then [old(loadsLeft) == 0] else [])
      ensures !(result.Shutdown? && old(unfinished) == 0) ==> loadsLeft == old(loadsLeft)
      ensures sawFull == (old(sawFull) || (result.Full? && !isRoot)) && cut == (old(cut) || result.Shutdown?)
    {
      hide ScanEngine.Reserved;
      unfinished := unfinished + 1;
      var used := pool.JobsInQueue();
      var free := if pool.capacity > used then pool.capacity - used else 0;
      if !isRoot && !(free > ScanEngine.Reserved(maxScans)) {
        result := Full;
      } else {
        if submitsLeft == 0 {
          pool.Stop();
        } else {
          submitsLeft := submitsLeft - 1;
        }
        result := pool.TryPushItem(data);
        if result.Shutdown? {
          cut := true;
          TaskOnJobFinish();
        }
      }
      sawFull := sawFull || (result.Full? && !isRoot);
    }

    method TaskOnJobFinish()
      modifies this`unfinished, this`sentinels, this`loadsLeft
      ensures unfinished == old(unfinished) - 1
      ensures sentinels == old(sentinels) + (if old(unfinished) == 1 then [old(loadsLeft) == 0] else [])
      ensures loadsLeft == if old(unfinished) == 1 && old(loadsLeft) > 0 then old(loadsLeft) - 1 else old(loadsLeft)
    {
      unfinished := unfinished - 1;
      if unfinished == 0 {
        var canceled := LoadCanceled();
        sentinels := sentinels + [canceled];
      }
    }

    /**
     worker_job, with `depth` calls open. What it adds to the result queue and to the job queue together is
     the walk of `work`, all of it iff no cancel or stop cut it short (`whole`); without a Full it reports only its own
     node and stacks up the walk of its children. Each node reported took a load of the flag that read false, and a
     call made after the cancel does nothing.
     */
    method WorkerJob(work: Work, ghost depth: nat) returns (ghost whole: bool)
      requires Valid() && depth > 0 && unfinished == |pool.container| + depth
      modifies this, pool
      ensures Valid() && unfinished == |pool.container| + depth - 1
      ensures (old(pool.stopFlag) ==> pool.stopFlag) && loadsLeft <= old(loadsLeft) && (old(sawFull) ==> sawFull)
      ensures old(sentinels) <= sentinels && |sentinels| == |old(sentinels)| + (if unfinished == 0 then 1 else 0)
      ensures unfinished == 0 && !sentinels[|old(sentinels)|] ==> !cut || pool.stopFlag
      ensures unfinished == 0 && sentinels[|old(sentinels)|] ==> loadsLeft == 0
      ensures unfinished == 0 && !sentinels[|old(sentinels)|] ==> old(loadsLeft) > 0
      ensures |log| - |old(log)| <= old(loadsLeft) - loadsLeft
      ensures old(loadsLeft) == 0 ==> !whole && log == old(log) && pool.container == old(pool.container)
      ensures cut == (old(cut) || !whole)
      ensures Did(whole, work, old(log), old(pool.container), log, pool.container)
      ensures whole && !sawFull ==>
                DepthFirst(work, old(log), old(pool.container), log, pool.container)
      ensures |old(pool.container)| + |Children(work)| + ScanEngine.Reserved(maxScans) <= pool.capacity ==>
                sawFull == old(sawFull)
      decreases Size(work), 0
    {
      hide Preorder, PreorderAll, Future, SizeAll, Size, Children, EventOf, Did, DepthFirst, Submitted,
           ScanEngine.Reserved;
      ghost var stack, before := pool.container, log;
      var canceled := LoadCanceled();
      if canceled {
        whole, cut := false, true;
        DidNothing(work, log, pool.container);
      } else {
        var event, children := ScanOneNode(work);
        log := log + [event];
        Walk(work);
        whole := SubmitChildren(children, depth);
        DidWork(whole, work, before, stack, log, pool.container);
        if whole && !sawFull {
          StackedAll(work, before, stack, log, pool.container);
        }
      }
      TaskOnJobFinish();
    }

    /** worker_job's descending loop over the children of one node. */
    method SubmitChildren(children: seq<Work>, ghost depth: nat) returns (ghost whole: bool)
      requires Valid() && depth > 0 && unfinished == |pool.container| + depth
      modifies this, pool
      ensures Valid() && unfinished == |pool.container| + depth && sentinels == old(sentinels)
      ensures (old(pool.stopFlag) ==> pool.stopFlag) && loadsLeft <= old(loadsLeft) && (old(sawFull) ==> sawFull)
      ensures |log| - |old(log)| <= old(loadsLeft) - loadsLeft
      ensures old(loadsLeft) == 0 ==> log == old(log) && pool.container == old(pool.container)
      ensures cut == (old(cut) || !whole)
      ensures Submitted(whole, children, old(log), old(pool.container), log, pool.container)
      ensures whole && !sawFull ==>
                log == old(log) && Future(pool.container) == PreorderAll(children) + Future(old(pool.container))
      ensures |old(pool.container)| + |children| + ScanEngine.Reserved(maxScans) <= pool.capacity ==>
                sawFull == old(sawFull)
      decreases SizeAll(children), 2
    {
      hide Preorder, PreorderAll, Future, SizeAll, Size, Left, Handed, Submitted, ScanEngine.Reserved;
      ghost var stack, before := pool.container, log;
      ghost var total := multiset(log) + multiset(Future(stack)) + multiset(PreorderAll(children));
      ghost var bound := SizeAll(stack) + SizeAll(children);
      ghost var room := |stack| + |children| + ScanEngine.Reserved(maxScans) <= pool.capacity;
      LeftStart(children, before, stack);
      Empties();
      assert children[..|children|] == children && children[|children|..] == [] && children[0..] == children;
      whole := true;
      var i := |children|;
      var stopped := false;
      while i > 0 && !stopped
        invariant 0 <= i <= |children|
        invariant Valid() && unfinished == |pool.container| + depth && sentinels == old(sentinels)
        invariant (old(pool.stopFlag) ==> pool.stopFlag) && loadsLeft <= old(loadsLeft) && (old(sawFull) ==> sawFull)
        invariant before <= log && cut == (old(cut) || !whole || stopped)
        invariant stopped ==> i > 0
        invariant |log| - |before| <= old(loadsLeft) - loadsLeft
        invariant old(loadsLeft) == 0 ==> log == before && pool.container == stack
        invariant Left(whole, total, bound, log, pool.container, children[..i])
        invariant whole && !sawFull ==> log == before
        invariant whole && !sawFull ==> Future(pool.container) == PreorderAll(children[i..]) + Future(stack)
        invariant room ==> sawFull == old(sawFull) && |pool.container| <= |stack| + |children| - i
        decreases i, !stopped
      {
        var canceled := LoadCanceled();
        if canceled {
          cut, stopped := true, true;
        } else {
          ghost var log0, stack0 := log, pool.container;
          SizeAllMember(children, i - 1);
          ghost var own;
          stopped, own := SubmitOrRun(children[i - 1], depth);
          if !stopped {
            i := i - 1;
            LeftHanded(whole, total, bound, log0, stack0, children, i, own, log, pool.container);
            whole := own && whole;
            if whole && !sawFull {
              StackedUp(children, i, stack, stack0);
            }
          }
        }
      }
      LeftEnd(whole, children, before, stack, log, pool.container, children[..i]);
      whole := whole && !stopped;
    }

    /** The body of worker_job's loop: a child is queued, or run inline when the queue is full; a stop ends the loop. */
    method SubmitOrRun(child: Work, ghost depth: nat) returns (stopped: bool, ghost own: bool)
      requires Valid() && depth > 0 && unfinished == |pool.container| + depth
      modifies this, pool
      ensures Valid() && unfinished == |pool.container| + depth && sentinels == old(sentinels)
      ensures (old(pool.stopFlag) ==> pool.stopFlag) && loadsLeft <= old(loadsLeft) && (old(sawFull) ==> sawFull)
      ensures |log| - |old(log)| <= old(loadsLeft) - loadsLeft
      ensures stopped ==> log == old(log) && pool.container == old(pool.container) && sawFull == old(sawFull) && cut
      ensures !stopped ==>
                && Handed(own, child, old(log), old(pool.container), log, pool.container)
                && cut == (old(cut) || !own)
      ensures !stopped && !sawFull ==>
                own && log == old(log) && pool.container == old(pool.container) + [child]
      ensures |old(pool.container)| + ScanEngine.Reserved(maxScans) < pool.capacity ==>
                sawFull == old(sawFull) && |pool.container| <= |old(pool.container)| + 1
      decreases Size(child), 1
    {
      hide Preorder, PreorderAll, Future, SizeAll, Size, Children, EventOf, Did, DepthFirst, Handed,
           ScanEngine.Reserved;
      ghost var log0, stack0 := log, pool.container;
      own := true;
      var result := TaskOnJobSubmit(child, false);
      stopped := result.Shutdown?;
      if result.Full? {
        own := WorkerJob(child, depth + 1);
        HandedInline(own, child, log0, stack0, log, pool.container);
      } else if result.Pushed? {
        HandedToQueue(child, log0, stack0);
      }
    }

    // The state between two jobs, when `loads` loads of the flag were to read false at the start.
    ghost predicate Scanning(root: Work, loads: nat)
      reads this, pool
    {
      && Valid() && unfinished == |pool.container|
      && (if |pool.container| == 0 then |sentinels| == 1 else sentinels == [])
      && (sentinels == [false] && !pool.stopFlag ==> !cut)
      && |log| <= loads - loadsLeft
      && (sentinels == [true] ==> loadsLeft == 0) && (sentinels == [false] ==> loads > 0)
      && Between(!cut, root, log, pool.container)
      && (!cut && !sawFull ==> log + Future(pool.container) == Preorder(root))
      && (Size(root) + ScanEngine.Reserved(maxScans) <= pool.capacity ==> !sawFull)
    }

    /** One turn of the worker's loop. */
    method RunNext(ghost root: Work, ghost loads: nat)
      requires Scanning(root, loads) && |pool.container| > 0
      modifies this, pool
      ensures Scanning(root, loads) && SizeAll(pool.container) < old(SizeAll(pool.container))
    {
      hide Preorder, PreorderAll, Future, SizeAll, Size, Children, EventOf, Between, Did, DepthFirst,
           ScanEngine.Reserved;
      ghost var whole0, log0, stack0 := !cut, log, pool.container;
      RoomForChildren(whole0, root, log0, stack0);
      var popped := pool.PopItem();
      ghost var own := WorkerJob(popped.value, 1);
      BetweenStep(whole0, root, log0, stack0, own, log, pool.container);
      if own && !sawFull {
        DepthFirstStep(log0, stack0, log, pool.container);
      }
    }

    /**
     A whole scan: the root is submitted and the worker pops until the queue is empty. One sentinel follows, and every
     node is reported exactly once iff no cancel and no stop cut the walk; never anything else, and never twice.
     Without a Full, and so whenever the slots suffice for the whole tree, the order is the recursive depth-first one.
     A root submitted to a stopped pool reports nothing, yet its rollback sends a sentinel.
     */
    method RunScan(root: Work) returns (started: bool)
      requires Valid() && unfinished == 0 && pool.container == [] && log == [] && sentinels == [] && !sawFull && !cut
      modifies this, pool
      ensures Valid() && unfinished == 0 && pool.container == []
      ensures !old(pool.stopFlag) && old(submitsLeft) > 0 ==> started == (pool.capacity > 0)
      ensures !started ==> log == [] && sentinels == if pool.stopFlag then [old(loadsLeft) == 0] else []
      ensures started ==> multiset(log) <= multiset(Preorder(root)) && |sentinels| == 1
      ensures started ==> |log| <= old(loadsLeft) && (sentinels == [true] ==> loadsLeft == 0)
      ensures started && old(loadsLeft) == 0 ==> log == [] && sentinels == [true]
      ensures started ==> (multiset(log) == multiset(Preorder(root)) <==> !cut)
      ensures started && sentinels == [false] && !pool.stopFlag ==> multiset(log) == multiset(Preorder(root))
      ensures started && !cut && !sawFull ==> log == Preorder(root)
      ensures Size(root) + ScanEngine.Reserved(maxScans) <= pool.capacity ==> !sawFull
    {
      hide Preorder, PreorderAll, Future, SizeAll, Size, Children, EventOf, Between, Did, DepthFirst;
      var result := TaskOnJobSubmit(root, true);
      if result.Full? {
        unfinished := unfinished - 1;
        return false;
      }
      if result.Shutdown? {
        return false;
      }
      BetweenStart(root);
      assert pool.container == [root];
      while |pool.container| > 0
        invariant Scanning(root, old(loadsLeft))
        decreases SizeAll(pool.container)
      {
        RunNext(root, old(loadsLeft));
      }
      BetweenEnd(!cut, root, log, pool.container);
      OneSentinel(sentinels);
      started := true;
    }
  }
}
