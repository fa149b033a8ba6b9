/** What the scheduler guarantees over whole runs before shutdown. */
module SchedulerTheorems {
  import opened Paths
  import opened SchedulerModel
  import opened SchedulerProofs

  lemma Reachable(maxConcurrent: nat, queueMax: nat, run: seq<Action>)
    requires maxConcurrent > 0 && queueMax > 0 && Legal(Init(maxConcurrent, queueMax), run)
    ensures Inv(After(Init(maxConcurrent, queueMax), run))
  {
    hide Inv;
    InitInv(maxConcurrent, queueMax);
    RunKeeps(Init(maxConcurrent, queueMax), run);
  }

  lemma {:induction false} LimitsFixed(s: Sched, run: seq<Action>)
    requires Legal(s, run)
    ensures After(s, run).maxConcurrent == s.maxConcurrent && After(s, run).queueMax == s.queueMax
    decreases |run|
  {
    if run != [] {
      var n := |run| - 1;
      LimitsFixed(s, run[..n]);
      LimitsKept(After(s, run[..n]), run[n]);
    }
  }

  lemma LimitsKept(s: Sched, a: Action)
    requires Enabled(s, a)
    ensures Do(s, a).maxConcurrent == s.maxConcurrent && Do(s, a).queueMax == s.queueMax
  {
  }

  // Accepted by the manager and not yet reported finished.
  function Active(s: Sched): set<nat> {
    s.accepted - s.notified
  }

  lemma ActiveSplit(s: Sched)
    requires Inv(s)
    ensures |Active(s)| <= s.maxConcurrent
    ensures 0 <= |Active(s)| - s.running <= 1
    ensures Busy(s.disp) == {} ==> s.running == |Active(s)|
    ensures Busy(s.disp) != {} ==> |Active(s) - Busy(s.disp)| < s.maxConcurrent
  {
    hide QueueOk, WaitOk, PendingOk, CancelsOk, OrderOk, LockOk, FrontOk;
    var others := Others(s.disp, s.accepted, s.notified);
    assert Active(s) - Busy(s.disp) == others;
    if Busy(s.disp) != {} {
      SetShrinks(Active(s), s.disp.entry.id);
      assert |Busy(s.disp)| == 1;
    } else {
      assert Active(s) == others;
    }
  }

  // The dispatcher holds an accepted scan that the counter does not show, or has counted down before up.
  predicate Lags(s: Sched) {
    && s.disp.Returned? && s.disp.accept
    && (s.disp.entry.id !in s.notified || (s.disp.entry.id in s.state && s.state[s.disp.entry.id].CANCELED?))
  }

  lemma RunningExact(s: Sched)
    requires Inv(s)
    ensures s.running == |Active(s)| - (if Lags(s) then 1 else 0)
  {
    hide QueueOk, WaitOk, PendingOk, CancelsOk, OrderOk, LockOk, FrontOk;
    var others := Others(s.disp, s.accepted, s.notified);
    if s.disp.Returned? && s.disp.entry.id in Active(s) {
      assert others == Active(s) - {s.disp.entry.id};
    } else {
      assert others == Active(s);
    }
  }

  /**
   Concurrency ceiling: the scans accepted by the manager and not yet reported finished never exceed
   the limit, and the counter is their exact number, but for one scan in the dispatcher's hands.
   */
  lemma ConcurrencyCeiling(maxConcurrent: nat, queueMax: nat, run: seq<Action>)
    requires maxConcurrent > 0 && queueMax > 0 && Legal(Init(maxConcurrent, queueMax), run)
    ensures
      var s := After(Init(maxConcurrent, queueMax), run);
      && |Active(s)| <= maxConcurrent
      && s.running == |Active(s)| - (if Lags(s) then 1 else 0)
      && (s.running == |Active(s)| <==> !Lags(s))
      && (s.disp.Waiting? ==> s.running == |Active(s)|)
  {
    Reachable(maxConcurrent, queueMax, run);
    LimitsFixed(Init(maxConcurrent, queueMax), run);
    ActiveSplit(After(Init(maxConcurrent, queueMax), run));
    RunningExact(After(Init(maxConcurrent, queueMax), run));
  }

  /** The counter is negative exactly when it lags and nothing is active. */
  lemma NegativeIff(maxConcurrent: nat, queueMax: nat, run: seq<Action>)
    requires maxConcurrent > 0 && queueMax > 0 && Legal(Init(maxConcurrent, queueMax), run)
    ensures
      var s := After(Init(maxConcurrent, queueMax), run);
      && s.running >= -1
      && (s.running < 0 <==> Lags(s) && Active(s) == {})
  {
    Reachable(maxConcurrent, queueMax, run);
    RunningExact(After(Init(maxConcurrent, queueMax), run));
  }

  lemma Extend(s: Sched, run: seq<Action>, a: Action)
    requires Legal(s, run) && Enabled(After(s, run), a)
    ensures Legal(s, run + [a]) && After(s, run + [a]) == Do(After(s, run), a)
  {
    assert (run + [a])[..|run|] == run;
  }

  /** The lag is real: a cancel and a completion inside the dispatch gap drive the counter to -1. */
  lemma CounterCanBeNegative()
    ensures
      var run := [Submit(1, "/a"), Take, Accept, Cancel(1), Finished(1)];
      Legal(Init(1, 1), run) && After(Init(1, 1), run).running == -1
  {
    var s0, r3 := Init(1, 1), [Submit(1, "/a"), Take, Accept];
    FirstAccept();
    Extend(s0, r3, Cancel(1));
    Extend(s0, r3 + [Cancel(1)], Finished(1));
    assert r3 + [Cancel(1)] + [Finished(1)] == [Submit(1, "/a"), Take, Accept, Cancel(1), Finished(1)];
  }

  // The one submission, handed to the manager.
  function FirstDispatch(): Sched {
    var e := PendingRoot(1, "/a");
    Init(1, 1).(state := map[1 := DISPATCHING], roots := {"/a"}, queue := [e], pending := 1, entries := [e],
                disp := Calling(e))
  }

  lemma FirstTake()
    ensures
      var run := [Submit(1, "/a"), Take];
      Legal(Init(1, 1), run) && After(Init(1, 1), run) == FirstDispatch()
  {
    var e, s0, r1 := PendingRoot(1, "/a"), Init(1, 1), [Submit(1, "/a")];
    Extend(s0, [], Submit(1, "/a"));
    assert [] + r1 == r1;
    var s1 := s0.(state := map[1 := PENDING], roots := {"/a"}, queue := [e], pending := 1, entries := [e]);
    assert After(s0, r1) == s1;
    Extend(s0, r1, Take);
    assert r1 + [Take] == [Submit(1, "/a"), Take];
  }

  lemma FirstAccept()
    ensures
      var run := [Submit(1, "/a"), Take, Accept];
      Legal(Init(1, 1), run) &&
      var s := After(Init(1, 1), run);
      s.state == map[1 := DISPATCHING] && s.accepted == {1} && s.notified == {} && s.running == 0
  {
    hide Legal, After;
    FirstTake();
    Extend(Init(1, 1), [Submit(1, "/a"), Take], Accept);
    assert [Submit(1, "/a"), Take] + [Accept] == [Submit(1, "/a"), Take, Accept];
  }

  /**
   Pending accounting: the counter is the number of queued scans that are not DROPPED and stays within
   0..QUEUE_MAX_SIZE; only the front entry can be mid-dispatch.
   */
  lemma PendingAccounting(maxConcurrent: nat, queueMax: nat, run: seq<Action>)
    requires maxConcurrent > 0 && queueMax > 0 && Legal(Init(maxConcurrent, queueMax), run)
    ensures
      var s := After(Init(maxConcurrent, queueMax), run);
      && s.pending == |PendingIds(s.queue, s.state)|
      && 0 <= s.pending <= queueMax
      && (forall k :: 1 <= k < |s.queue| ==>
            s.queue[k].id in s.state
            && (s.state[s.queue[k].id].PENDING? || s.state[s.queue[k].id].DROPPED?))
      && (s.disp.Calling? || s.disp.Returned? ==> s.queue != [] && s.queue[0] == s.disp.entry)
  {
    Reachable(maxConcurrent, queueMax, run);
    LimitsFixed(Init(maxConcurrent, queueMax), run);
    hide QueueOk, WaitOk, StatesOk, CancelsOk, RunningOk, OrderOk, LockOk;
  }

  /**
   Acceptance order: the manager accepts scans in the order the scheduler accepted them, whatever
   retries and drops happen in between.
   */
  lemma AcceptedInOrder(maxConcurrent: nat, queueMax: nat, run: seq<Action>)
    requires maxConcurrent > 0 && queueMax > 0 && Legal(Init(maxConcurrent, queueMax), run)
    ensures
      var s := After(Init(maxConcurrent, queueMax), run);
      && DistinctIds(s.entries)
      && (forall i :: 0 <= i < |s.order| ==> s.order[i] < |s.entries| && s.entries[s.order[i]].id in s.accepted)
      && (forall i, j :: 0 <= i < j < |s.order| ==> s.order[i] < s.order[j])
      && (forall id :: id in s.accepted ==> exists i :: At(s.entries, s.order, i, id))
  {
    Reachable(maxConcurrent, queueMax, run);
    hide FrontOk, WaitOk, PendingOk, StatesOk, CancelsOk, RunningOk, LockOk;
  }

  // ----- lifecycle -----

  lemma FinalKept(s: Sched, a: Action, id: nat)
    requires Enabled(s, a) && id in s.state && Final(s.state[id])
    ensures id in Do(s, a).state && Do(s, a).state[id] == s.state[id]
  {
  }

  /** DONE, DROPPED, FAILED and CANCELED are absorbing. */
  lemma {:induction false} FinalForever(s: Sched, run: seq<Action>, id: nat)
    requires Legal(s, run) && id in s.state && Final(s.state[id])
    ensures id in After(s, run).state && After(s, run).state[id] == s.state[id]
    decreases |run|
  {
    if run != [] {
      var n := |run| - 1;
      FinalForever(s, run[..n], id);
      FinalKept(After(s, run[..n]), run[n], id);
    }
  }

  /**
   At most one cancel per id returns true, and the scans for which one did are exactly those CANCELED
   or DROPPED.
   */
  lemma CancelsExact(maxConcurrent: nat, queueMax: nat, run: seq<Action>)
    requires maxConcurrent > 0 && queueMax > 0 && Legal(Init(maxConcurrent, queueMax), run)
    ensures
      var s := After(Init(maxConcurrent, queueMax), run);
      && (forall i, j :: 0 <= i < j < |s.cancels| ==> s.cancels[i] != s.cancels[j])
      && (forall id :: id in s.cancels <==> id in s.state && (s.state[id].CANCELED? || s.state[id].DROPPED?))
  {
    Reachable(maxConcurrent, queueMax, run);
    hide QueueOk, FrontOk, WaitOk, PendingOk, StatesOk, RunningOk, OrderOk, LockOk;
  }

  /** A scan whose cancel returned true is never DONE, and no later cancel of it returns true. */
  lemma CanceledNeverDone(s: Sched, id: nat, run: seq<Action>)
    requires CancelResult(s, id) && Legal(DoCancel(s, id), run)
    ensures
      var s' := After(DoCancel(s, id), run);
      id in s'.state && !s'.state[id].DONE? && !CancelResult(s', id)
  {
    FinalForever(DoCancel(s, id), run, id);
  }

  // ----- answers -----

  // The subtree of the root meets that of a submission whose export is not done.
  ghost predicate Conflicts(entries: seq<PendingRoot>, exported: set<nat>, root: string) {
    exists i, p ::
      0 <= i < |entries| && entries[i].id !in exported && InSubtree(root, p) && InSubtree(entries[i].root, p)
  }

  lemma OverlapIffConflicts(s: Sched, root: string)
    requires LockOk(s.entries, s.exported, s.roots)
    ensures NonOverlapping(s.roots, root) <==> !Conflicts(s.entries, s.exported, root)
  {
    hide PathsOverlap, InSubtree;
    if Conflicts(s.entries, s.exported, root) {
      var i, p :| 0 <= i < |s.entries| && s.entries[i].id !in s.exported
        && InSubtree(root, p) && InSubtree(s.entries[i].root, p);
      OverlapIffSubtreesMeet(root, s.entries[i].root);
    }
    if !NonOverlapping(s.roots, root) {
      SameOverlaps(root);
      var r :| r in s.roots && PathsOverlap(root, r);
      var i :| Holds(s.entries, s.exported, i, r);
      OverlapIffSubtreesMeet(root, r);
    }
  }

  lemma SameOverlaps(r: string)
    ensures PathsOverlap(r, r)
  {
  }

  /** What a submission is answered, in terms of the scans waiting and the roots not yet exported. */
  lemma SubmitAnswers(s: Sched, id: nat, root: string)
    requires Inv(s)
    ensures
      var answer, waiting := SubmitResult(s, id, root), |PendingIds(s.queue, s.state)|;
      var conflict := Conflicts(s.entries, s.exported, root);
      && (answer.Invalid? <==> root == "")
      && (answer.QueueFull? <==> root != "" && waiting == s.queueMax)
      && (answer.OverlapConflict? <==> root != "" && waiting < s.queueMax && conflict)
      && (answer.InternalError? <==> root != "" && waiting < s.queueMax && !conflict && id in s.state)
      && (answer.Ok? <==> root != "" && waiting < s.queueMax && !conflict && id !in s.state)
  {
    hide QueueOk, FrontOk, WaitOk, StatesOk, CancelsOk, RunningOk, OrderOk, LockOk, PendingIds, NonOverlapping,
         Conflicts;
    OverlapIffConflicts(s, root);
  }

  /**
   When the dispatcher takes an entry: whenever it waits, the manager is not known to be full, fewer scans than the
   limit are active, and some queued scan is not DROPPED.
   */
  lemma TakesIff(maxConcurrent: nat, queueMax: nat, run: seq<Action>)
    requires maxConcurrent > 0 && queueMax > 0 && Legal(Init(maxConcurrent, queueMax), run)
    ensures
      var s := After(Init(maxConcurrent, queueMax), run);
      Enabled(s, Take) <==>
        && s.disp.Waiting? && !s.managerFull && |Active(s)| < maxConcurrent
        && exists e :: e in s.queue && e.id in s.state && !s.state[e.id].DROPPED?
  {
    hide Inv, After, Legal, Active;
    var s := After(Init(maxConcurrent, queueMax), run);
    Reachable(maxConcurrent, queueMax, run);
    LimitsFixed(Init(maxConcurrent, queueMax), run);
    RunningExact(s);
    SomePending(s);
    EmptyHasNone(s);
  }

  lemma EmptyHasNone(s: Sched)
    ensures s.queue == [] ==> forall e :: e !in s.queue
  {
  }

  lemma SomePending(s: Sched)
    requires Inv(s)
    ensures s.pending != 0 <==> exists e :: e in s.queue && e.id in s.state && !s.state[e.id].DROPPED?
  {
    hide QueueOk, FrontOk, WaitOk, StatesOk, CancelsOk, RunningOk, OrderOk, LockOk;
    var ids := PendingIds(s.queue, s.state);
    if s.pending != 0 {
      var id :| id in ids;
    }
    if e :| e in s.queue && e.id in s.state && !s.state[e.id].DROPPED? {
      assert e.id in ids;
    }
  }

  // ----- the overlap lock -----

  /**
   Overlap lock: in every reachable state the locked roots are exactly those of submissions not yet
   exported, and these are pairwise non-overlapping.
   */
  lemma OverlapLock(maxConcurrent: nat, queueMax: nat, run: seq<Action>)
    requires maxConcurrent > 0 && queueMax > 0 && Legal(Init(maxConcurrent, queueMax), run)
    ensures
      var s := After(Init(maxConcurrent, queueMax), run);
      && (forall r :: r in s.roots <==> exists i :: Holds(s.entries, s.exported, i, r))
      && (forall i, j ::
            0 <= i < j < |s.entries| && s.entries[i].id !in s.exported && s.entries[j].id !in s.exported ==>
              !PathsOverlap(s.entries[i].root, s.entries[j].root))
  {
    Reachable(maxConcurrent, queueMax, run);
    hide QueueOk, FrontOk, WaitOk, PendingOk, StatesOk, CancelsOk, RunningOk, OrderOk;
  }

  lemma LockedRefused(s: Sched, i: nat, id: nat, root: string)
    requires Inv(s) && i < |s.entries| && s.entries[i].id !in s.exported && PathsOverlap(root, s.entries[i].root)
    ensures SubmitResult(s, id, root) != Ok
  {
    hide QueueOk, FrontOk, WaitOk, PendingOk, StatesOk, CancelsOk, RunningOk, OrderOk;
    assert s.entries[i].root in s.roots;
  }

  lemma {:induction false} EntriesGrow(s: Sched, run: seq<Action>)
    requires Legal(s, run)
    ensures s.entries <= After(s, run).entries
    decreases |run|
  {
    if run != [] {
      var n := |run| - 1;
      EntriesGrow(s, run[..n]);
      EntriesKept(After(s, run[..n]), run[n]);
    }
  }

  lemma EntriesKept(s: Sched, a: Action)
    requires Enabled(s, a)
    ensures s.entries <= Do(s, a).entries
  {
  }

  // The manager has not accepted the scan and is not being asked to.
  predicate NeverToRun(s: Sched, id: nat) {
    id !in s.accepted && !(s.disp.Calling? && s.disp.entry.id == id)
  }

  lemma NeverToRunKept(s: Sched, a: Action, id: nat)
    requires Inv(s) && Enabled(s, a) && id in s.state && Final(s.state[id]) && NeverToRun(s, id)
    ensures NeverToRun(Do(s, a), id)
  {
    hide Inv;
  }

  lemma {:induction false} NeverRuns(s: Sched, run: seq<Action>, id: nat)
    requires Inv(s) && Legal(s, run) && id in s.state && Final(s.state[id]) && NeverToRun(s, id)
    ensures Inv(After(s, run)) && NeverToRun(After(s, run), id)
    decreases |run|
  {
    hide Inv, NeverToRun, Do, Enabled;
    if run != [] {
      var n := |run| - 1;
      NeverRuns(s, run[..n], id);
      FinalForever(s, run[..n], id);
      NeverToRunKept(After(s, run[..n]), run[n], id);
      DoKeeps(After(s, run[..n]), run[n]);
    }
  }

  lemma UnacceptedNotExported(s: Sched, id: nat)
    requires Inv(s) && id !in s.accepted
    ensures id !in s.exported
  {
    hide QueueOk, FrontOk, WaitOk, PendingOk, CancelsOk, RunningOk, OrderOk, LockOk;
  }

  /**
   A scan that ended without having been accepted keeps its root for ever: after any further run every
   submission that overlaps it is still refused.
   */
  lemma UnacceptedRootStaysLocked(s: Sched, i: nat, run: seq<Action>, id: nat, root: string)
    requires Inv(s) && i < |s.entries| && s.entries[i].id in s.state && Final(s.state[s.entries[i].id])
    requires NeverToRun(s, s.entries[i].id) && Legal(s, run)
    ensures s.entries[i].root in After(s, run).roots
    ensures PathsOverlap(root, s.entries[i].root) ==> SubmitResult(After(s, run), id, root) != Ok
  {
    hide Inv, PathsOverlap, SubmitResult;
    NeverRuns(s, run, s.entries[i].id);
    EntriesGrow(s, run);
    UnacceptedNotExported(After(s, run), s.entries[i].id);
    LockedRoot(After(s, run), i);
    if PathsOverlap(root, s.entries[i].root) {
      LockedRefused(After(s, run), i, id, root);
    }
  }

  lemma LockedRoot(s: Sched, i: nat)
    requires Inv(s) && i < |s.entries| && s.entries[i].id !in s.exported
    ensures s.entries[i].root in s.roots
  {
    hide QueueOk, FrontOk, WaitOk, PendingOk, StatesOk, CancelsOk, RunningOk, OrderOk;
  }

  ghost predicate Releasable(s: Sched, root: string) {
    exists run :: Legal(s, run) && root !in After(s, run).roots
  }

  lemma LegalNone(s: Sched)
    ensures Legal(s, []) && After(s, []) == s
  {
  }

  lemma EntryFacts(s: Sched, i: nat)
    requires Inv(s) && i < |s.entries|
    ensures RootOf(s.entries, s.entries[i].id) == s.entries[i].root
    ensures s.exported <= s.notified <= s.accepted
  {
    hide FrontOk, WaitOk, PendingOk, CancelsOk, RunningOk, OrderOk, LockOk;
    RootOfEntry(s.entries, i);
  }

  // From an accepted scan's state, its report and its export release the root.
  lemma AcceptedReleasable(s: Sched, run: seq<Action>, i: nat)
    requires Legal(s, run) && i < |s.entries| && s.entries[i].id in After(s, run).accepted
    requires s.entries[i].id !in After(s, run).exported && After(s, run).entries == s.entries
    requires RootOf(s.entries, s.entries[i].id) == s.entries[i].root
    ensures Releasable(s, s.entries[i].root)
  {
    var id := s.entries[i].id;
    var told := run;
    if id !in After(s, run).notified {
      told := run + [Finished(id)];
      Extend(s, run, Finished(id));
    }
    Extend(s, told, ExportDone(id));
    assert s.entries[i].root !in After(s, told + [ExportDone(id)]).roots;
  }

  /**
   Exactly when the root of an ended scan can still be released: iff the manager has accepted the scan, or
   is being asked to.
   */
  lemma ReleasableIff(s: Sched, i: nat)
    requires Inv(s) && i < |s.entries| && s.entries[i].id in s.state && Final(s.state[s.entries[i].id])
    requires s.entries[i].id !in s.exported
    ensures Releasable(s, s.entries[i].root) <==> !NeverToRun(s, s.entries[i].id)
  {
    hide Inv, Legal, After;
    var id := s.entries[i].id;
    EntryFacts(s, i);
    LegalNone(s);
    if NeverToRun(s, id) {
      forall run | Legal(s, run) ensures s.entries[i].root in After(s, run).roots {
        UnacceptedRootStaysLocked(s, i, run, 0, "");
      }
    } else if id in s.accepted {
      AcceptedReleasable(s, [], i);
    } else {
      Extend(s, [], Accept);
      AcceptedReleasable(s, [] + [Accept], i);
    }
  }

  lemma CanceledOnFull()
    ensures
      var run := [Submit(1, "/a"), Take, Cancel(1), Full, Complete];
      && Legal(Init(1, 1), run)
      && After(Init(1, 1), run) == FirstDispatch().(state := map[1 := CANCELED], cancelCalls := {1}, cancels := [1],
                                                    queue := [], pending := 0, disp := Waiting)
  {
    hide Legal, After;
    var s0, r2 := Init(1, 1), [Submit(1, "/a"), Take];
    FirstTake();
    Extend(s0, r2, Cancel(1));
    Extend(s0, r2 + [Cancel(1)], Full);
    Extend(s0, r2 + [Cancel(1)] + [Full], Complete);
    assert r2 + [Cancel(1)] + [Full] + [Complete] == [Submit(1, "/a"), Take, Cancel(1), Full, Complete];
    assert [PendingRoot(1, "/a")][1..] == [];
  }

  /** One such end besides a drop: a scan canceled while the manager answers that its queue is full. */
  lemma CanceledOnFullStaysLocked()
    ensures
      var run := [Submit(1, "/a"), Take, Cancel(1), Full, Complete];
      Legal(Init(1, 1), run) &&
      var s := After(Init(1, 1), run);
      && s.state == map[1 := CANCELED] && s.queue == [] && s.disp.Waiting? && s.accepted == {}
      && "/a" in s.roots && !Releasable(s, "/a")
  {
    hide Legal, After, Inv, Releasable;
    var run := [Submit(1, "/a"), Take, Cancel(1), Full, Complete];
    CanceledOnFull();
    Reachable(1, 1, run);
    ReleasableIff(After(Init(1, 1), run), 0);
  }
}
