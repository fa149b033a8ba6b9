/**
 The result queue: blocking producers and one consumer share a single condition variable. A thread that
 has left its critical section but not yet called notify_one is a stage of its own, notify_one may wake
 any sleeper, and wake-ups may be spurious. Runs before shutdown.
 */
module WaitQueue {
  import opened JobQueue
  import opened Counting

  datatype Thread = Idle | Asleep | Woken | Notifying

  type Item = nat

  datatype State = State(
    q: Queue<Item>,
    consumer: Thread,
    producers: seq<Thread>,
    pushed: seq<Item>,        // history: items in the order they went in
    popped: seq<Item>)        // and came out

  datatype Who = Nobody | Consumer | Producer(i: nat)

  datatype Action =
    | PushSection(i: nat, item: Item)
    | PushNotify(i: nat, wakes: Who)
    | PopSection
    | PopNotify(wakes: Who)
    | Spurious(wakes: Who)

  function Init(capacity: nat, producers: nat): State {
    State(Empty(Fifo, capacity), Idle, seq(producers, _ => Idle), [], [])
  }

  predicate IsAsleep(s: State, who: Who) {
    match who
    case Nobody => false
    case Consumer => s.consumer.Asleep?
    case Producer(i) => i < |s.producers| && s.producers[i].Asleep?
  }

  // notify_one wakes one sleeper, if there is any.
  predicate Wakes(s: State, who: Who) {
    IsAsleep(s, who) || (who.Nobody? && !s.consumer.Asleep? && Count(s.producers, Asleep) == 0)
  }

  function Wake(s: State, who: Who): State
    requires who.Producer? ==> who.i < |s.producers|
  {
    match who
    case Nobody => s
    case Consumer => s.(consumer := Woken)
    case Producer(i) => s.(producers := s.producers[i := Woken])
  }

  predicate Enabled(s: State, a: Action) {
    match a
    case PushSection(i, _) => i < |s.producers| && (s.producers[i].Idle? || s.producers[i].Woken?)
    case PushNotify(i, who) => i < |s.producers| && s.producers[i].Notifying? && Wakes(s, who)
    case PopSection => s.consumer.Idle? || s.consumer.Woken?
    case PopNotify(who) => s.consumer.Notifying? && Wakes(s, who)
    case Spurious(who) => IsAsleep(s, who)
  }

  function Do(s: State, a: Action): State
    requires Enabled(s, a)
  {
    match a
    case PushSection(i, x) =>
      if MustWait(s.q) then s.(producers := s.producers[i := Asleep])
      else if s.q.stop then s.(producers := s.producers[i := Idle])
      else s.(q := Push(s.q, x), producers := s.producers[i := Notifying], pushed := s.pushed + [x])
    case PushNotify(i, who) => Wake(s.(producers := s.producers[i := Idle]), who)
    case PopSection =>
      var (q, r) := Pop(s.q);
      if r.Item? then s.(q := q, consumer := Notifying, popped := s.popped + [r.value])
      else s.(consumer := Asleep)
    case PopNotify(who) => Wake(s.(consumer := Idle), who)
    case Spurious(who) => Wake(s, who)
  }

  predicate Legal(s: State, run: seq<Action>)
    decreases |run|, 0
  {
    run == [] ||
    var n := |run| - 1;
    Legal(s, run[..n]) && Enabled(After(s, run[..n]), run[n])
  }

  function After(s: State, run: seq<Action>): State
    requires Legal(s, run)
    decreases |run|, 1
  {
    if run == [] then s
    else
      var n := |run| - 1;
      Do(After(s, run[..n]), run[n])
  }

  // ----- counting threads -----

  lemma {:induction false} CountsBound(ts: seq<Thread>)
    ensures Count(ts, Asleep) + Count(ts, Notifying) + Count(ts, Idle) + Count(ts, Woken) == |ts|
  {
    if ts != [] {
      CountsBound(ts[..|ts| - 1]);
      var t := ts[|ts| - 1];
      assert t.Asleep? || t.Notifying? || t.Idle? || t.Woken?;
    }
  }

  // ----- first in, first out -----

  ghost predicate InOrder(s: State) {
    && WithinCapacity(s.q) && !s.q.stop && s.q.policy.Fifo?
    && s.pushed == s.popped + s.q.container
  }

  lemma DoKeepsOrder(s: State, a: Action)
    requires InOrder(s) && Enabled(s, a)
    ensures InOrder(Do(s, a))
    ensures |Do(s, a).producers| == |s.producers| && Do(s, a).q.capacity == s.q.capacity
  {
    if a.PopSection? && s.q.container != [] {
      assert s.pushed == (s.popped + [s.q.container[0]]) + s.q.container[1..];
    }
  }

  /** What comes out of the queue is what went in, in the same order, and never more than fits is inside. */
  lemma {:induction false} FirstInFirstOut(capacity: nat, producers: nat, run: seq<Action>)
    requires Legal(Init(capacity, producers), run)
    ensures
      var s := After(Init(capacity, producers), run);
      && InOrder(s) && |s.producers| == producers && s.q.capacity == capacity
      && s.pushed == s.popped + s.q.container && |s.q.container| <= capacity
    decreases |run|
  {
    if run != [] {
      var n := |run| - 1;
      FirstInFirstOut(capacity, producers, run[..n]);
      DoKeepsOrder(After(Init(capacity, producers), run[..n]), run[n]);
    }
  }

  // ----- no lost wake-up -----

  ghost predicate Inv(s: State) {
    var asleep, size := Count(s.producers, Asleep), |s.q.container|;
    && InOrder(s)
    && (s.consumer.Asleep? ==> asleep == 0 && size <= Count(s.producers, Notifying))
    && (!s.consumer.Asleep? ==> asleep <= size + (if s.consumer.Notifying? then 1 else 0))
  }

  lemma PushKeeps(s: State, i: nat, x: Item)
    requires Inv(s) && |s.producers| <= s.q.capacity && Enabled(s, PushSection(i, x))
    ensures Inv(Do(s, PushSection(i, x)))
  {
    var next := if MustWait(s.q) then Asleep else Notifying;
    CountUpdate(s.producers, i, next, Asleep);
    CountUpdate(s.producers, i, next, Notifying);
    CountsBound(s.producers);
    CountMember(s.producers, i);
  }

  lemma WakeKeeps(s: State, who: Who, quiet: State)
    requires Wakes(s, who)
    requires Inv(s) && (who.Producer? ==> who.i < |quiet.producers|)
    requires quiet == s || (s.consumer.Notifying? && quiet == s.(consumer := Idle))
    ensures Inv(Wake(quiet, who))
  {
    if who.Producer? {
      CountUpdate(s.producers, who.i, Woken, Asleep);
      CountUpdate(s.producers, who.i, Woken, Notifying);
    }
  }

  lemma PushNotifyKeeps(s: State, i: nat, who: Who)
    requires Inv(s) && Enabled(s, PushNotify(i, who))
    ensures Inv(Do(s, PushNotify(i, who)))
  {
    var quiet := s.producers[i := Idle];
    CountUpdate(s.producers, i, Idle, Asleep);
    CountUpdate(s.producers, i, Idle, Notifying);
    if who.Producer? {
      CountUpdate(quiet, who.i, Woken, Asleep);
      CountUpdate(quiet, who.i, Woken, Notifying);
      CountMember(s.producers, who.i);
    }
  }

  lemma PopKeeps(s: State)
    requires Inv(s) && Enabled(s, PopSection)
    ensures Inv(Do(s, PopSection))
  {
    if s.q.container != [] {
      assert s.pushed == (s.popped + [s.q.container[0]]) + s.q.container[1..];
    }
  }

  lemma DoKeeps(s: State, a: Action)
    requires Inv(s) && |s.producers| <= s.q.capacity && Enabled(s, a)
    ensures Inv(Do(s, a))
    ensures |Do(s, a).producers| == |s.producers| && Do(s, a).q.capacity == s.q.capacity
  {
    match a
    case PushSection(i, x) => PushKeeps(s, i, x);
    case PushNotify(i, who) => PushNotifyKeeps(s, i, who);
    case PopSection => PopKeeps(s);
    case PopNotify(who) => WakeKeeps(s, who, s.(consumer := Idle));
    case Spurious(who) => WakeKeeps(s, who, s);
  }

  lemma {:induction false} RunKeeps(capacity: nat, producers: nat, run: seq<Action>)
    requires producers <= capacity && Legal(Init(capacity, producers), run)
    ensures
      var s := After(Init(capacity, producers), run);
      Inv(s) && |s.producers| == producers && s.q.capacity == capacity
    decreases |run|
  {
    if run == [] {
      CountConstant(producers, Idle, Asleep);
    } else {
      var n := |run| - 1;
      RunKeeps(capacity, producers, run[..n]);
      DoKeeps(After(Init(capacity, producers), run[..n]), run[n]);
    }
  }

  // The consumer sleeps un-notified while a producer sleeps too.
  predicate Conflict(s: State) {
    s.consumer.Asleep? && Count(s.producers, Asleep) > 0
  }

  /**
   No lost wake-up: with at least as much capacity as producers the consumer never sleeps un-notified
   while a producer does, and never while items wait without a producer about to notify.
   */
  lemma NoLostWakeUp(capacity: nat, producers: nat, run: seq<Action>)
    requires producers <= capacity && Legal(Init(capacity, producers), run)
    ensures
      var s := After(Init(capacity, producers), run);
      && !Conflict(s)
      && (s.consumer.Asleep? && s.q.container != [] ==> Count(s.producers, Notifying) > 0)
  {
    RunKeeps(capacity, producers, run);
  }

  // ----- and when it is lost -----

  ghost predicate Reachable(capacity: nat, producers: nat, s: State) {
    exists run :: Legal(Init(capacity, producers), run) && After(Init(capacity, producers), run) == s
  }

  predicate NoSpurious(run: seq<Action>) {
    forall i :: 0 <= i < |run| ==> !run[i].Spurious?
  }

  // Reached without any spurious wake-up.
  ghost predicate Reached(capacity: nat, producers: nat, s: State) {
    exists run :: Legal(Init(capacity, producers), run) && After(Init(capacity, producers), run) == s && NoSpurious(run)
  }

  lemma Extend(capacity: nat, producers: nat, s: State, a: Action)
    requires Reached(capacity, producers, s) && Enabled(s, a) && !a.Spurious?
    ensures Reached(capacity, producers, Do(s, a))
  {
    var run :|
      Legal(Init(capacity, producers), run) && After(Init(capacity, producers), run) == s && NoSpurious(run);
    var more := run + [a];
    assert more[..|run|] == run;
    assert Legal(Init(capacity, producers), more) && After(Init(capacity, producers), more) == Do(s, a);
    assert NoSpurious(more);
  }

  // Everybody sleeps, nobody is about to notify, and the queue is full.
  predicate Deadlocked(s: State) {
    && s.consumer.Asleep?
    && |s.q.container| == s.q.capacity
    && forall i :: 0 <= i < |s.producers| ==> s.producers[i].Asleep?
  }

  // The consumer sleeps; the first `full` producers have pushed and not yet notified.
  ghost predicate Filling(s: State, capacity: nat, producers: nat, full: nat) {
    && s.consumer.Asleep? && !s.q.stop && s.q.capacity == capacity && |s.q.container| == full
    && |s.producers| == producers
    && forall i :: 0 <= i < producers ==> s.producers[i] == if i < full then Notifying else Idle
  }

  lemma {:induction false} Fill(capacity: nat, producers: nat, full: nat) returns (s: State)
    requires full <= capacity && full <= producers
    ensures Reached(capacity, producers, s) && Filling(s, capacity, producers, full)
  {
    if full == 0 {
      var run: seq<Action> := [];
      assert After(Init(capacity, producers), run) == Init(capacity, producers) && NoSpurious(run);
      Extend(capacity, producers, Init(capacity, producers), PopSection);
      s := Do(Init(capacity, producers), PopSection);
    } else {
      var s0 := Fill(capacity, producers, full - 1);
      Extend(capacity, producers, s0, PushSection(full - 1, 0));
      s := Do(s0, PushSection(full - 1, 0));
    }
  }

  // The queue is full, one producer sleeps, and the first `spent` notifies have gone to it in vain.
  ghost predicate Spending(s: State, capacity: nat, producers: nat, spent: nat) {
    && s.consumer.Asleep? && !s.q.stop && s.q.capacity == capacity && |s.q.container| == capacity
    && |s.producers| == producers && capacity < producers
    && forall i :: 0 <= i < producers ==>
         s.producers[i] == if i == capacity then Asleep else if spent <= i < capacity then Notifying else Idle
  }

  lemma {:induction false} Spend(capacity: nat, producers: nat, spent: nat) returns (s: State)
    requires capacity < producers && spent <= capacity
    ensures Reached(capacity, producers, s) && Spending(s, capacity, producers, spent)
  {
    if spent == 0 {
      var s0 := Fill(capacity, producers, capacity);
      Extend(capacity, producers, s0, PushSection(capacity, 0));
      s := Do(s0, PushSection(capacity, 0));
    } else {
      var s0 := Spend(capacity, producers, spent - 1);
      var notify := PushNotify(spent - 1, Producer(capacity));
      Extend(capacity, producers, s0, notify);
      var s1 := Do(s0, notify);
      Extend(capacity, producers, s1, PushSection(capacity, 0));
      s := Do(s1, PushSection(capacity, 0));
    }
  }

  // The remaining producers find the queue full, one by one.
  ghost predicate Sinking(s: State, capacity: nat, producers: nat, down: nat) {
    && s.consumer.Asleep? && !s.q.stop && s.q.capacity == capacity && |s.q.container| == capacity
    && |s.producers| == producers && capacity < producers
    && forall i :: 0 <= i < producers ==> s.producers[i] == if i == capacity || i < down then Asleep else Idle
  }

  lemma {:induction false} Sink(capacity: nat, producers: nat, down: nat) returns (s: State)
    requires capacity < producers && down <= producers
    ensures Reached(capacity, producers, s) && Sinking(s, capacity, producers, down)
  {
    if down == 0 {
      s := Spend(capacity, producers, capacity);
    } else {
      s := Sink(capacity, producers, down - 1);
      if down - 1 != capacity {
        var push := PushSection(down - 1, 0);
        Extend(capacity, producers, s, push);
        s := Do(s, push);
      }
    }
  }

  /** With less capacity than producers a run without any spurious wake-up ends in a deadlock. */
  lemma DeadlockReachable(capacity: nat, producers: nat) returns (run: seq<Action>)
    requires capacity < producers
    ensures Legal(Init(capacity, producers), run) && NoSpurious(run)
    ensures var s := After(Init(capacity, producers), run); Deadlocked(s) && Conflict(s)
  {
    var s := Sink(capacity, producers, producers);
    CountMember(s.producers, capacity);
    run :| Legal(Init(capacity, producers), run) && After(Init(capacity, producers), run) == s && NoSpurious(run);
  }

  /** The wake-up is safe exactly when the capacity is at least the number of producers. */
  lemma SafeIffRoomForAll(capacity: nat, producers: nat)
    ensures (forall s :: Reachable(capacity, producers, s) ==> !Conflict(s)) <==> producers <= capacity
  {
    if producers <= capacity {
      forall s | Reachable(capacity, producers, s) ensures !Conflict(s) {
        var run :| Legal(Init(capacity, producers), run) && After(Init(capacity, producers), run) == s;
        NoLostWakeUp(capacity, producers, run);
      }
    } else {
      var run := DeadlockReachable(capacity, producers);
      var s := After(Init(capacity, producers), run);
      assert Reachable(capacity, producers, s) && Conflict(s);
    }
  }
}
