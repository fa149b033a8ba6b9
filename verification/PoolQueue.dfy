/**
 The thread pool on its queue: any number of try_push callers and a fixed set of workers that pop until the
 queue is stopped and drained. Leaving a critical section and notifying are separate stages, notify_one may
 wake any sleeper, wake-ups may be spurious, and shutdown may come at any time. An item is its submission
 number.
 */
module PoolQueue {
  import opened JobQueue
  import opened Counting

  datatype Thread =
    | Working       // starting, or inside job_fn
    | Asleep        // in cv.wait
    | Woken         // notified, about to take the lock again
    | Notifying     // popped, before notify_one
    | Leaving       // pop returned false, before the critical section of shutdown
    | Announcing    // before notify_all
    | Exited

  datatype Pool = Pool(
    q: Queue<nat>,
    workers: seq<Thread>,
    notifies: nat,          // submitters before notify_one
    broadcasts: nat,        // callers of ThreadPool::shutdown before notify_all
    pushed: nat,            // history: items accepted so far
    handed: seq<nat>)       // and items handed to workers

  datatype Action =
    | Submit
    | SubmitNotify(wakes: int)
    | PopSection(w: nat)
    | PopNotify(w: nat, wakes: int)
    | Stop
    | Broadcast
    | LeaveSection(w: nat)
    | LeaveNotify(w: nat)
    | Spurious(w: nat)

  function Init(policy: Policy, capacity: nat, threads: nat): Pool {
    Pool(Empty(policy, capacity), seq(threads, _ => Working), 0, 0, 0, [])
  }

  predicate Is(p: Pool, w: int, t: Thread) {
    0 <= w < |p.workers| && p.workers[w] == t
  }

  // notify_one wakes one sleeper; -1 when there is none.
  predicate Wakes(p: Pool, w: int) {
    Is(p, w, Asleep) || (w == -1 && Count(p.workers, Asleep) == 0)
  }

  function Wake(ts: seq<Thread>, w: int): seq<Thread> {
    if 0 <= w < |ts| then ts[w := Woken] else ts
  }

  function WakeAll(ts: seq<Thread>): seq<Thread> {
    seq(|ts|, i requires 0 <= i < |ts| => if ts[i].Asleep? then Woken else ts[i])
  }

  predicate Enabled(p: Pool, a: Action) {
    match a
    case Submit => true
    case SubmitNotify(who) => p.notifies > 0 && Wakes(p, who)
    case PopSection(w) => Is(p, w, Working) || Is(p, w, Woken)
    case PopNotify(w, who) => Is(p, w, Notifying) && Wakes(p, who)
    case Stop => true
    case Broadcast => p.broadcasts > 0
    case LeaveSection(w) => Is(p, w, Leaving)
    case LeaveNotify(w) => Is(p, w, Announcing)
    case Spurious(w) => Is(p, w, Asleep)
  }

  function Do(p: Pool, a: Action): Pool
    requires Enabled(p, a)
  {
    match a
    case Submit =>
      var (q, r) := TryPush(p.q, p.pushed);
      if r.Pushed? then p.(q := q, notifies := p.notifies + 1, pushed := p.pushed + 1) else p.(q := q)
    case SubmitNotify(who) => p.(notifies := p.notifies - 1, workers := Wake(p.workers, who))
    case PopSection(w) =>
      var (q, r) := Pop(p.q);
      if r.Item? then p.(q := q, workers := p.workers[w := Notifying], handed := p.handed + [r.value])
      else p.(q := q, workers := p.workers[w := if r.Wait? then Asleep else Leaving])
    case PopNotify(w, who) => p.(workers := Wake(p.workers[w := Working], who))
    case Stop => p.(q := p.q.(stop := true), broadcasts := p.broadcasts + 1)
    case Broadcast => p.(broadcasts := p.broadcasts - 1, workers := WakeAll(p.workers))
    case LeaveSection(w) => p.(q := p.q.(stop := true), workers := p.workers[w := Announcing])
    case LeaveNotify(w) => p.(workers := WakeAll(p.workers[w := Exited]))
    case Spurious(w) => p.(workers := p.workers[w := Woken])
  }

  predicate Legal(p: Pool, run: seq<Action>)
    decreases |run|, 0
  {
    run == [] ||
    var n := |run| - 1;
    Legal(p, run[..n]) && Enabled(After(p, run[..n]), run[n])
  }

  function After(p: Pool, run: seq<Action>): Pool
    requires Legal(p, run)
    decreases |run|, 1
  {
    if run == [] then p
    else
      var n := |run| - 1;
      Do(After(p, run[..n]), run[n])
  }

  // ----- every item in exactly one place -----

  // Item t is inside the queue or was handed out, once, if it was pushed, and is nowhere otherwise.
  ghost predicate Conserved(pushed: nat, handed: seq<nat>, container: seq<nat>) {
    forall t: nat :: multiset(handed)[t] + multiset(container)[t] == if t < pushed then 1 else 0
  }

  // A worker on its way out has seen the queue stopped and empty.
  ghost predicate LeftDrained(ts: seq<Thread>, stop: bool, container: seq<nat>) {
    forall w :: 0 <= w < |ts| && (ts[w].Leaving? || ts[w].Announcing? || ts[w].Exited?) ==>
                  stop && container == []
  }

  // Sleepers are owed a wake-up: by a notify under way for every item inside, by a notify_all once stopped.
  ghost predicate WakeUpsOwed(ts: seq<Thread>, notifies: nat, broadcasts: nat, stop: bool, size: nat) {
    Count(ts, Asleep) > 0 ==>
      && size <= Count(ts, Woken) + notifies
      && (stop ==> broadcasts + Count(ts, Announcing) > 0)
  }

  ghost predicate Inv(p: Pool) {
    && WithinCapacity(p.q)
    && Conserved(p.pushed, p.handed, p.q.container)
    && LeftDrained(p.workers, p.q.stop, p.q.container)
    && WakeUpsOwed(p.workers, p.notifies, p.broadcasts, p.q.stop, |p.q.container|)
  }

  lemma {:induction false} WakeAllCounts(ts: seq<Thread>, t: Thread)
    ensures Count(WakeAll(ts), t) ==
            if t.Asleep? then 0 else if t.Woken? then Count(ts, Woken) + Count(ts, Asleep) else Count(ts, t)
  {
    if ts != [] {
      var n := |ts| - 1;
      WakeAllCounts(ts[..n], t);
      assert WakeAll(ts)[..n] == WakeAll(ts[..n]);
    }
  }

  lemma PopConserves<T>(q: Queue<T>)
    requires q.container != []
    ensures Pop(q).1.Item?
    ensures multiset(q.container) == multiset(Pop(q).0.container) + multiset{Pop(q).1.value}
  {
    var n := |q.container| - 1;
    assert q.container == [q.container[0]] + q.container[1..];
    assert q.container == q.container[..n] + [q.container[n]];
  }

  lemma ItemsKept(p: Pool, a: Action)
    requires Conserved(p.pushed, p.handed, p.q.container) && Enabled(p, a)
    ensures Conserved(Do(p, a).pushed, Do(p, a).handed, Do(p, a).q.container)
  {
    if a.PopSection? && p.q.container != [] {
      PopConserves(p.q);
    }
  }

  lemma LeaversKept(p: Pool, a: Action)
    requires LeftDrained(p.workers, p.q.stop, p.q.container) && Enabled(p, a)
    ensures LeftDrained(Do(p, a).workers, Do(p, a).q.stop, Do(p, a).q.container)
  {
  }

  lemma PopOwed(p: Pool, w: nat)
    requires Inv(p) && Enabled(p, PopSection(w))
    ensures
      var r := Do(p, PopSection(w));
      WakeUpsOwed(r.workers, r.notifies, r.broadcasts, r.q.stop, |r.q.container|)
  {
    var t := Do(p, PopSection(w)).workers[w];
    CountUpdate(p.workers, w, t, Asleep);
    CountUpdate(p.workers, w, t, Woken);
    CountUpdate(p.workers, w, t, Announcing);
  }

  lemma WakeOwed(p: Pool, ts: seq<Thread>, who: int)
    requires Inv(p) && Wakes(p, who)
    requires |ts| == |p.workers| && (who >= 0 ==> ts[who].Asleep?)
    requires Count(ts, Asleep) == Count(p.workers, Asleep)
    requires Count(ts, Woken) == Count(p.workers, Woken)
    requires Count(ts, Announcing) == Count(p.workers, Announcing)
    ensures WakeUpsOwed(Wake(ts, who), p.notifies, p.broadcasts, p.q.stop, |p.q.container|)
    ensures p.notifies > 0 ==>
              WakeUpsOwed(Wake(ts, who), p.notifies - 1, p.broadcasts, p.q.stop, |p.q.container|)
  {
    if who >= 0 {
      CountUpdate(ts, who, Woken, Asleep);
      CountUpdate(ts, who, Woken, Woken);
      CountUpdate(ts, who, Woken, Announcing);
    }
  }

  lemma LeaveOwed(p: Pool, w: nat, t: Thread)
    requires Inv(p) && w < |p.workers|
    requires p.workers[w].Leaving? && t.Announcing?
    ensures WakeUpsOwed(p.workers[w := t], p.notifies, p.broadcasts, true, |p.q.container|)
  {
    CountUpdate(p.workers, w, t, Asleep);
    CountUpdate(p.workers, w, t, Woken);
    CountUpdate(p.workers, w, t, Announcing);
  }

  lemma PopNotifyCounts(ts: seq<Thread>, w: nat, t: Thread)
    requires w < |ts| && ts[w].Notifying? && !t.Working? && !t.Notifying?
    ensures Count(ts[w := Working], t) == Count(ts, t)
  {
    CountUpdate(ts, w, Working, t);
  }

  lemma OwedKept(p: Pool, a: Action)
    requires Inv(p) && Enabled(p, a)
    ensures
      var r := Do(p, a);
      WakeUpsOwed(r.workers, r.notifies, r.broadcasts, r.q.stop, |r.q.container|)
  {
    match a
    case Submit =>
    case SubmitNotify(who) => WakeOwed(p, p.workers, who);
    case PopSection(w) => PopOwed(p, w);
    case PopNotify(w, who) =>
      PopNotifyCounts(p.workers, w, Asleep);
      PopNotifyCounts(p.workers, w, Woken);
      PopNotifyCounts(p.workers, w, Announcing);
      WakeOwed(p, p.workers[w := Working], who);
    case Stop =>
    case Broadcast => WakeAllCounts(p.workers, Asleep);
    case LeaveSection(w) => LeaveOwed(p, w, Announcing);
    case LeaveNotify(w) => WakeAllCounts(p.workers[w := Exited], Asleep);
    case Spurious(w) => WakeOwed(p, p.workers, w);
  }

  lemma CapacityKept(p: Pool, a: Action)
    requires WithinCapacity(p.q) && Enabled(p, a)
    ensures WithinCapacity(Do(p, a).q) && Do(p, a).q.capacity == p.q.capacity
    ensures |Do(p, a).workers| == |p.workers|
    ensures p.q.stop ==> Do(p, a).q.stop && Do(p, a).pushed == p.pushed
  {
  }

  lemma DoKeeps(p: Pool, a: Action)
    requires Inv(p) && Enabled(p, a)
    ensures Inv(Do(p, a))
  {
    hide Conserved, LeftDrained, WakeUpsOwed, Do;
    CapacityKept(p, a);
    ItemsKept(p, a);
    LeaversKept(p, a);
    OwedKept(p, a);
  }

  lemma {:induction false} RunKeeps(p: Pool, run: seq<Action>)
    requires Inv(p) && Legal(p, run)
    ensures Inv(After(p, run))
    ensures After(p, run).q.capacity == p.q.capacity && |After(p, run).workers| == |p.workers|
    decreases |run|
  {
    if run != [] {
      var n := |run| - 1;
      RunKeeps(p, run[..n]);
      DoKeeps(After(p, run[..n]), run[n]);
      CapacityKept(After(p, run[..n]), run[n]);
    }
  }

  lemma InitKeeps(policy: Policy, capacity: nat, threads: nat)
    ensures Inv(Init(policy, capacity, threads))
  {
    CountConstant(threads, Working, Asleep);
  }

  function Submits(run: seq<Action>): nat {
    if run == [] then 0 else Submits(run[..|run| - 1]) + (if run[|run| - 1].Submit? then 1 else 0)
  }

  lemma CountersStep(p: Pool, a: Action)
    requires Enabled(p, a)
    ensures
      var r := Do(p, a);
      && r.q.submitted - r.pushed == p.q.submitted - p.pushed
      && r.q.submitted + r.q.failed == p.q.submitted + p.q.failed + (if a.Submit? then 1 else 0)
      && |r.handed| + |r.q.container| - r.pushed == |p.handed| + |p.q.container| - p.pushed
  {
  }

  /** The metrics: accepted and refused submissions, and items handed out or inside, add up. */
  lemma {:induction false} CountersExact(policy: Policy, capacity: nat, threads: nat, run: seq<Action>)
    requires Legal(Init(policy, capacity, threads), run)
    ensures
      var p := After(Init(policy, capacity, threads), run);
      && p.q.submitted == p.pushed == |p.handed| + |p.q.container|
      && p.q.submitted + p.q.failed == Submits(run)
    decreases |run|
  {
    if run != [] {
      hide Do, Enabled;
      var n := |run| - 1;
      CountersExact(policy, capacity, threads, run[..n]);
      CountersStep(After(Init(policy, capacity, threads), run[..n]), run[n]);
    }
  }

  // The notify_one calls of a run: those after a pop, or those after a submission.
  function NotifyCalls(run: seq<Action>, afterPop: bool): nat {
    if run == [] then 0
    else
      var a := run[|run| - 1];
      var before := NotifyCalls(run[..|run| - 1], afterPop);
      if (afterPop && a.PopNotify?) || (!afterPop && a.SubmitNotify?) then before + 1 else before
  }

  lemma WakeNotifying(p: Pool, ts: seq<Thread>, who: int)
    requires |ts| == |p.workers| && Wakes(p, who) && (who >= 0 ==> ts[who].Asleep?)
    ensures Count(Wake(ts, who), Notifying) == Count(ts, Notifying)
  {
    if who >= 0 {
      CountUpdate(ts, who, Woken, Notifying);
    }
  }

  lemma NotifyStep(p: Pool, a: Action)
    requires Enabled(p, a)
    ensures
      var r := Do(p, a);
      && Count(r.workers, Notifying) + (if a.PopNotify? then 1 else 0) - |r.handed|
         == Count(p.workers, Notifying) - |p.handed|
      && r.notifies + (if a.SubmitNotify? then 1 else 0) - r.pushed == p.notifies - p.pushed
  {
    match a
    case Submit =>
    case SubmitNotify(who) => WakeNotifying(p, p.workers, who);
    case PopSection(w) => CountUpdate(p.workers, w, Do(p, a).workers[w], Notifying);
    case PopNotify(w, who) =>
      CountUpdate(p.workers, w, Working, Notifying);
      WakeNotifying(p, p.workers[w := Working], who);
    case Stop =>
    case Broadcast => WakeAllCounts(p.workers, Notifying);
    case LeaveSection(w) => CountUpdate(p.workers, w, Announcing, Notifying);
    case LeaveNotify(w) =>
      CountUpdate(p.workers, w, Exited, Notifying);
      WakeAllCounts(p.workers[w := Exited], Notifying);
    case Spurious(w) => CountUpdate(p.workers, w, Woken, Notifying);
  }

  /** Every item pushed and every item handed out is followed by exactly one notify_one, made or under way. */
  lemma {:induction false} OneNotifyEach(policy: Policy, capacity: nat, threads: nat, run: seq<Action>)
    requires Legal(Init(policy, capacity, threads), run)
    ensures
      var p := After(Init(policy, capacity, threads), run);
      && NotifyCalls(run, false) + p.notifies == p.pushed
      && NotifyCalls(run, true) + Count(p.workers, Notifying) == |p.handed|
    decreases |run|
  {
    if run == [] {
      CountConstant(threads, Working, Notifying);
    } else {
      hide Do, Enabled;
      var n := |run| - 1;
      OneNotifyEach(policy, capacity, threads, run[..n]);
      NotifyStep(After(Init(policy, capacity, threads), run[..n]), run[n]);
    }
  }

  /** Size never exceeds the capacity, the queued metric is exact, and no item is lost or handed out twice. */
  lemma QueueBoundedAndExact(policy: Policy, capacity: nat, threads: nat, run: seq<Action>)
    requires Legal(Init(policy, capacity, threads), run)
    ensures
      var p := After(Init(policy, capacity, threads), run);
      && |p.q.container| == p.q.queued <= capacity
      && forall t: nat ::
           multiset(p.handed)[t] + multiset(p.q.container)[t] == if t < p.pushed then 1 else 0
  {
    InitKeeps(policy, capacity, threads);
    RunKeeps(Init(policy, capacity, threads), run);
  }

  /** While a worker sleeps, every item inside is matched by a worker already woken or a notify under way. */
  lemma SleepersOwedWakeUps(policy: Policy, capacity: nat, threads: nat, run: seq<Action>, w: nat)
    requires Legal(Init(policy, capacity, threads), run)
    requires Is(After(Init(policy, capacity, threads), run), w, Asleep)
    ensures
      var p := After(Init(policy, capacity, threads), run);
      && |p.q.container| <= Count(p.workers, Woken) + p.notifies
      && (p.q.stop ==> p.broadcasts + Count(p.workers, Announcing) > 0)
  {
    InitKeeps(policy, capacity, threads);
    RunKeeps(Init(policy, capacity, threads), run);
    CountMember(After(Init(policy, capacity, threads), run).workers, w);
  }

  /** Once any worker has exited the queue is stopped and every item ever pushed was handed out exactly once. */
  lemma ExitMeansDrained(policy: Policy, capacity: nat, threads: nat, run: seq<Action>, w: nat)
    requires Legal(Init(policy, capacity, threads), run)
    requires Is(After(Init(policy, capacity, threads), run), w, Exited)
    ensures
      var p := After(Init(policy, capacity, threads), run);
      && p.q.stop && p.q.container == []
      && forall t: nat :: multiset(p.handed)[t] == if t < p.pushed then 1 else 0
  {
    InitKeeps(policy, capacity, threads);
    RunKeeps(Init(policy, capacity, threads), run);
  }

  // ----- shutdown drains the queue and joins -----

  // Steps other than new calls of submit and shutdown.
  predicate Internal(a: Action) {
    !a.Submit? && !a.Stop?
  }

  function Weight(t: Thread): nat {
    match t
    case Exited => 0
    case Announcing => 1
    case Leaving => 2
    case Working => 3
    case Woken => 3
    case Notifying => 4
    case Asleep => 4
  }

  function Weights(ts: seq<Thread>): nat {
    if ts == [] then 0 else Weights(ts[..|ts| - 1]) + Weight(ts[|ts| - 1])
  }

  // What is left to do after shutdown.
  function Rank(p: Pool): nat {
    2 * |p.q.container| + Weights(p.workers) + p.notifies + p.broadcasts
  }

  lemma {:induction false} WeightsUpdate(ts: seq<Thread>, i: nat, x: Thread)
    requires i < |ts|
    ensures Weights(ts[i := x]) == Weights(ts) - Weight(ts[i]) + Weight(x)
  {
    var n := |ts| - 1;
    if i == n {
      assert ts[i := x][..n] == ts[..n];
    } else {
      WeightsUpdate(ts[..n], i, x);
      assert ts[i := x][..n] == ts[..n][i := x];
    }
  }

  lemma {:induction false} WakeAllLightens(ts: seq<Thread>)
    ensures Weights(WakeAll(ts)) <= Weights(ts)
  {
    if ts != [] {
      var n := |ts| - 1;
      WakeAllLightens(ts[..n]);
      assert WakeAll(ts)[..n] == WakeAll(ts[..n]);
    }
  }

  lemma WakeLightens(ts: seq<Thread>, who: int)
    requires 0 <= who < |ts| ==> ts[who].Asleep?
    ensures Weights(Wake(ts, who)) <= Weights(ts)
  {
    if 0 <= who < |ts| {
      WeightsUpdate(ts, who, Woken);
    }
  }

  lemma RankStep(p: Pool, a: Action)
    requires p.q.stop && Enabled(p, a)
    ensures Internal(a) ==> Rank(Do(p, a)) < Rank(p)
    ensures Rank(Do(p, a)) <= Rank(p) + (if a.Stop? then 1 else 0)
  {
    match a
    case Submit =>
    case SubmitNotify(who) => WakeLightens(p.workers, who);
    case PopSection(w) => WeightsUpdate(p.workers, w, Do(p, a).workers[w]);
    case PopNotify(w, who) =>
      WeightsUpdate(p.workers, w, Working);
      WakeLightens(p.workers[w := Working], who);
    case Stop =>
    case Broadcast => WakeAllLightens(p.workers);
    case LeaveSection(w) => WeightsUpdate(p.workers, w, Announcing);
    case LeaveNotify(w) =>
      WeightsUpdate(p.workers, w, Exited);
      WakeAllLightens(p.workers[w := Exited]);
    case Spurious(w) => WeightsUpdate(p.workers, w, Woken);
  }

  function InternalSteps(run: seq<Action>): nat {
    if run == [] then 0
    else InternalSteps(run[..|run| - 1]) + (if Internal(run[|run| - 1]) then 1 else 0)
  }

  function Stops(run: seq<Action>): nat {
    if run == [] then 0 else Stops(run[..|run| - 1]) + (if run[|run| - 1].Stop? then 1 else 0)
  }

  /** After shutdown the pool takes boundedly many more steps, however they interleave. */
  lemma {:induction false} DrainBounded(p: Pool, run: seq<Action>)
    requires p.q.stop && WithinCapacity(p.q) && Legal(p, run)
    ensures After(p, run).q.stop && WithinCapacity(After(p, run).q)
    ensures After(p, run).pushed == p.pushed
    ensures InternalSteps(run) + Rank(After(p, run)) <= Rank(p) + Stops(run)
    decreases |run|
  {
    if run != [] {
      var n := |run| - 1;
      DrainBounded(p, run[..n]);
      RankStep(After(p, run[..n]), run[n]);
      CapacityKept(After(p, run[..n]), run[n]);
    }
  }

  /** And it is never stuck: until every worker has exited some step of the pool is enabled. */
  lemma DrainNeverStuck(p: Pool) returns (a: Action)
    requires Inv(p) && p.q.stop
    requires exists w :: 0 <= w < |p.workers| && !p.workers[w].Exited?
    ensures Internal(a) && !a.Spurious? && Enabled(p, a)
  {
    var w :| 0 <= w < |p.workers| && !p.workers[w].Exited?;
    match p.workers[w] {
      case Working => a := PopSection(w);
      case Woken => a := PopSection(w);
      case Leaving => a := LeaveSection(w);
      case Announcing => a := LeaveNotify(w);
      case Notifying => a := PopNotify(w, Sleeper(p));
      case Asleep =>
        CountMember(p.workers, w);
        if p.broadcasts > 0 {
          a := Broadcast;
        } else {
          var v := SomeoneCounted(p.workers, Announcing);
          a := LeaveNotify(v);
        }
      case Exited => assert false;
    }
  }

  ghost function Sleeper(p: Pool): (w: int)
    ensures Wakes(p, w)
  {
    if Count(p.workers, Asleep) == 0 then -1
    else
      assert exists w :: Is(p, w, Asleep) by {
        var w := SomeoneCounted(p.workers, Asleep);
        assert Is(p, w, Asleep);
      }
      var w :| Is(p, w, Asleep); w
  }

  /** When a stopped pool has no step left, all workers have exited and every pushed item was handed out once. */
  lemma ShutdownDrains(policy: Policy, capacity: nat, threads: nat, run: seq<Action>)
    requires threads > 0 && Legal(Init(policy, capacity, threads), run)
    requires After(Init(policy, capacity, threads), run).q.stop
    requires forall a :: Internal(a) && !a.Spurious? ==> !Enabled(After(Init(policy, capacity, threads), run), a)
    ensures
      var p := After(Init(policy, capacity, threads), run);
      && (forall w :: 0 <= w < threads ==> Is(p, w, Exited))
      && (forall t: nat :: multiset(p.handed)[t] == if t < p.pushed then 1 else 0)
  {
    var p := After(Init(policy, capacity, threads), run);
    InitKeeps(policy, capacity, threads);
    RunKeeps(Init(policy, capacity, threads), run);
    if w :| 0 <= w < |p.workers| && !p.workers[w].Exited? {
      var a := DrainNeverStuck(p);
    }
    assert Is(p, 0, Exited);
    ExitMeansDrained(policy, capacity, threads, run, 0);
  }
}
