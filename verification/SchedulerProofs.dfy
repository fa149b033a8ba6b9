/** What every step of the scheduler keeps. */
module SchedulerProofs {
  import opened Paths
  import opened SchedulerModel

  type States = map<nat, RequestState>

  // The id between the two critical sections, if any.
  function Busy(d: Dispatcher): set<nat> {
    if d.Calling? || d.Returned? then {d.entry.id} else {}
  }

  // ----- the pending queue -----

  ghost predicate DistinctIds(es: seq<PendingRoot>) {
    forall i, j :: 0 <= i < j < |es| ==> es[i].id != es[j].id
  }

  // The queue is what is left of the submissions, in order.
  ghost predicate QueueOk(entries: seq<PendingRoot>, queue: seq<PendingRoot>, state: States) {
    && |queue| <= |entries|
    && queue == entries[|entries| - |queue|..]
    && DistinctIds(entries)
    && (forall i :: 0 <= i < |entries| ==> entries[i].id in state)
    && (forall id :: id in state ==> id > 0)
  }

  // Only the front entry can be past PENDING, and only while it is dispatched or already DONE.
  ghost predicate FrontOk(queue: seq<PendingRoot>, state: States, d: Dispatcher) {
    && (forall k :: 0 <= k < |queue| ==> queue[k].id in state)
    && (forall k :: 1 <= k < |queue| ==> state[queue[k].id].PENDING? || state[queue[k].id].DROPPED?)
    && (Busy(d) == {} && queue != [] ==>
          var st := state[queue[0].id];
          st.PENDING? || st.DROPPED? || st.DONE?)
    && (Busy(d) != {} ==>
          && queue != [] && queue[0] == d.entry
          && var st := state[d.entry.id];
          st.DISPATCHING? || st.CANCELED? || st.DONE?)
  }

  // Every PENDING scan is still queued.
  ghost predicate WaitOk(queue: seq<PendingRoot>, state: States) {
    forall id :: id in state && state[id].PENDING? ==> id in QueueIds(queue)
  }

  function QueueIds(queue: seq<PendingRoot>): set<nat> {
    set e | e in queue :: e.id
  }

  // Queue entries that are not DROPPED; ids are distinct, so this counts entries.
  function PendingIds(queue: seq<PendingRoot>, state: States): set<nat> {
    set e | e in queue && e.id in state && !state[e.id].DROPPED? :: e.id
  }

  ghost predicate PendingOk(pending: int, queueMax: nat, queue: seq<PendingRoot>, state: States) {
    pending == |PendingIds(queue, state)| && pending <= queueMax
  }

  // ----- states against history -----

  ghost predicate StateOk(st: RequestState, id: nat, d: Dispatcher, accepted: set<nat>, notified: set<nat>) {
    match st
    case PENDING => id !in accepted && id !in Busy(d)
    case DROPPED => id !in accepted && id !in Busy(d)
    case FAILED => id !in accepted && id !in Busy(d)
    case DISPATCHING => id in Busy(d) && id !in notified
    case RUNNING => id in accepted && id !in notified && id !in Busy(d)
    case DONE => id in notified
    case CANCELED => true
  }

  ghost predicate StatesOk(state: States, d: Dispatcher, accepted: set<nat>, notified: set<nat>, exported: set<nat>) {
    && (forall id :: id in state ==> StateOk(state[id], id, d, accepted, notified))
    && accepted <= state.Keys && notified <= accepted && exported <= notified
    && (d.Calling? ==> d.entry.id !in accepted)
    && (d.Returned? ==> (d.accept <==> d.entry.id in accepted))
  }

  // Cancels that returned true: at most one per id, exactly the dropped and canceled scans.
  ghost predicate CancelsOk(state: States, d: Dispatcher, cancels: seq<nat>, calls: set<nat>) {
    && (forall i, j :: 0 <= i < j < |cancels| ==> cancels[i] != cancels[j])
    && (forall id :: id in cancels <==> id in state && (state[id].CANCELED? || state[id].DROPPED?))
    && (forall id :: id in calls ==> id in state && state[id].CANCELED?)
    && (d.Canceling? ==> d.id in state && state[d.id].CANCELED?)
  }

  // ----- the counter of running scans -----

  // A scan canceled and finished before the dispatcher returned is counted down before up.
  function Early(d: Dispatcher, notified: set<nat>, state: States): nat {
    if d.Returned? && d.entry.id in notified && d.entry.id in state && state[d.entry.id].CANCELED? then 1 else 0
  }

  // Accepted, not yet reported finished, and not the one being dispatched.
  function Others(d: Dispatcher, accepted: set<nat>, notified: set<nat>): set<nat> {
    accepted - notified - Busy(d)
  }

  ghost predicate RunningOk(running: int, max: nat, state: States, d: Dispatcher, accepted: set<nat>,
                            notified: set<nat>) {
    && running == |Others(d, accepted, notified)| - Early(d, notified, state)
    && |Others(d, accepted, notified)| + |Busy(d)| <= max
  }

  // ----- acceptance order -----

  ghost predicate At(entries: seq<PendingRoot>, order: seq<nat>, i: int, id: nat) {
    0 <= i < |order| && order[i] < |entries| && entries[order[i]].id == id
  }

  ghost predicate OrderOk(entries: seq<PendingRoot>, left: nat, order: seq<nat>, accepted: set<nat>) {
    && left <= |entries|
    && (forall i :: 0 <= i < |order| ==>
          order[i] <= |entries| - left && order[i] < |entries| && entries[order[i]].id in accepted)
    && (forall i, j :: 0 <= i < j < |order| ==> order[i] < order[j])
    && (forall id :: id in accepted ==> exists i :: At(entries, order, i, id))
  }

  // ----- the overlap lock -----

  ghost predicate Holds(entries: seq<PendingRoot>, exported: set<nat>, i: int, r: string) {
    0 <= i < |entries| && entries[i].id !in exported && entries[i].root == r
  }

  // The locked roots are exactly those of submissions not yet exported, pairwise apart.
  ghost predicate LockOk(entries: seq<PendingRoot>, exported: set<nat>, roots: set<string>) {
    && (forall i :: 0 <= i < |entries| && entries[i].id !in exported ==> entries[i].root in roots)
    && (forall r :: r in roots ==> exists i :: Holds(entries, exported, i, r))
    && (forall i, j :: 0 <= i < j < |entries| && entries[i].id !in exported && entries[j].id !in exported ==>
          !PathsOverlap(entries[i].root, entries[j].root))
  }

  ghost predicate Inv(s: Sched) {
    && QueueOk(s.entries, s.queue, s.state)
    && FrontOk(s.queue, s.state, s.disp)
    && WaitOk(s.queue, s.state)
    && PendingOk(s.pending, s.queueMax, s.queue, s.state)
    && StatesOk(s.state, s.disp, s.accepted, s.notified, s.exported)
    && CancelsOk(s.state, s.disp, s.cancels, s.cancelCalls)
    && RunningOk(s.running, s.maxConcurrent, s.state, s.disp, s.accepted, s.notified)
    && OrderOk(s.entries, |s.queue|, s.order, s.accepted)
    && LockOk(s.entries, s.exported, s.roots)
  }

  // ----- facts about the pieces -----

  lemma FrontInEntries(entries: seq<PendingRoot>, queue: seq<PendingRoot>, state: States, k: nat)
    requires QueueOk(entries, queue, state) && k < |queue|
    ensures queue[k] == entries[|entries| - |queue| + k] && queue[k].id in state
    ensures forall j :: 0 <= j < |queue| && j != k ==> queue[j].id != queue[k].id
  {
    forall j | 0 <= j < |queue| && j != k ensures queue[j].id != queue[k].id {
      assert queue[j] == entries[|entries| - |queue| + j];
    }
  }

  lemma PoppedQueue(entries: seq<PendingRoot>, queue: seq<PendingRoot>, state: States)
    requires QueueOk(entries, queue, state) && queue != []
    ensures QueueOk(entries, queue[1..], state)
  {
  }

  lemma PoppedPending(entries: seq<PendingRoot>, queue: seq<PendingRoot>, state: States)
    requires QueueOk(entries, queue, state) && queue != []
    ensures
      var id := queue[0].id;
      PendingIds(queue[1..], state) == PendingIds(queue, state) - {id}
  {
    FrontInEntries(entries, queue, state, 0);
    var id := queue[0].id;
    forall e | e in queue[1..] ensures e.id != id {
      var k :| 0 <= k < |queue[1..]| && queue[1..][k] == e;
      assert e == queue[k + 1];
    }
    forall e | e in queue && e.id != id ensures e in queue[1..] {
      var k :| 0 <= k < |queue| && queue[k] == e;
      assert queue[1..][k - 1] == e;
    }
  }

  // Which queue entries a changed state still counts.
  lemma RestatedPending(queue: seq<PendingRoot>, state: States, id: nat, st: RequestState)
    requires id in state && !state[id].DROPPED?
    ensures !st.DROPPED? ==> PendingIds(queue, state[id := st]) == PendingIds(queue, state)
    ensures st.DROPPED? ==> PendingIds(queue, state[id := st]) == PendingIds(queue, state) - {id}
  {
  }

  lemma PendingMember(queue: seq<PendingRoot>, state: States, k: nat)
    requires k < |queue| && queue[k].id in state && !state[queue[k].id].DROPPED?
    ensures queue[k].id in PendingIds(queue, state)
  {
    assert queue[k] in queue;
  }

  // ----- submit -----

  lemma SubmitQueue(entries: seq<PendingRoot>, queue: seq<PendingRoot>, state: States, e: PendingRoot)
    requires QueueOk(entries, queue, state) && e.id > 0 && e.id !in state
    ensures QueueOk(entries + [e], queue + [e], state[e.id := PENDING])
  {
  }

  lemma SubmitFront(queue: seq<PendingRoot>, state: States, d: Dispatcher, e: PendingRoot)
    requires FrontOk(queue, state, d) && e.id !in state
    ensures FrontOk(queue + [e], state[e.id := PENDING], d)
  {
  }

  lemma SubmitPending(queue: seq<PendingRoot>, state: States, e: PendingRoot)
    requires e.id !in state
    ensures PendingIds(queue + [e], state[e.id := PENDING]) == PendingIds(queue, state) + {e.id}
  {
    var q, st := queue + [e], state[e.id := PENDING];
    assert q[|queue|] == e;
    forall id | id in PendingIds(queue, state) ensures id in PendingIds(q, st) {
      var x :| x in queue && x.id in state && !state[x.id].DROPPED? && x.id == id;
      assert x in q;
    }
  }

  lemma SubmitWait(queue: seq<PendingRoot>, state: States, e: PendingRoot)
    requires WaitOk(queue, state)
    ensures WaitOk(queue + [e], state[e.id := PENDING])
  {
    var q := queue + [e];
    assert q[|queue|] == e;
    forall id | id in QueueIds(queue) ensures id in QueueIds(q) {
      var x :| x in queue && x.id == id;
      assert x in q;
    }
  }

  lemma PoppedWait(queue: seq<PendingRoot>, state: States)
    requires WaitOk(queue, state) && queue != [] && queue[0].id in state && !state[queue[0].id].PENDING?
    ensures WaitOk(queue[1..], state)
  {
    forall id | id in QueueIds(queue) && id != queue[0].id ensures id in QueueIds(queue[1..]) {
      var x :| x in queue && x.id == id;
      var k :| 0 <= k < |queue| && queue[k] == x;
      assert queue[1..][k - 1] == x;
    }
  }

  lemma RestateWait(queue: seq<PendingRoot>, state: States, id: nat, st: RequestState)
    requires WaitOk(queue, state) && (st.PENDING? ==> queue != [] && queue[0].id == id)
    ensures WaitOk(queue, state[id := st])
  {
    if queue != [] {
      assert queue[0] in queue;
    }
  }

  lemma SubmitOrder(entries: seq<PendingRoot>, left: nat, order: seq<nat>, accepted: set<nat>, e: PendingRoot)
    requires OrderOk(entries, left, order, accepted)
    ensures OrderOk(entries + [e], left + 1, order, accepted)
  {
    forall id | id in accepted ensures exists i :: At(entries + [e], order, i, id) {
      var i :| At(entries, order, i, id);
      assert At(entries + [e], order, i, id);
    }
  }

  lemma SubmitLock(entries: seq<PendingRoot>, exported: set<nat>, roots: set<string>, e: PendingRoot)
    requires LockOk(entries, exported, roots) && NonOverlapping(roots, e.root) && e.id !in exported
    ensures LockOk(entries + [e], exported, roots + {e.root})
  {
    var es, n := entries + [e], |entries|;
    forall r | r in roots + {e.root} ensures exists i :: Holds(es, exported, i, r) {
      if r in roots {
        var i :| Holds(entries, exported, i, r);
        assert Holds(es, exported, i, r);
      } else {
        assert Holds(es, exported, n, r);
      }
    }
    forall i | 0 <= i < n && entries[i].id !in exported ensures !PathsOverlap(entries[i].root, e.root) {
      assert entries[i].root in roots;
    }
  }

  lemma SubmitCounted(pending: int, queueMax: nat, queue: seq<PendingRoot>, state: States, e: PendingRoot)
    requires PendingOk(pending, queueMax, queue, state) && pending < queueMax && e.id !in state
    ensures PendingOk(pending + 1, queueMax, queue + [e], state[e.id := PENDING])
  {
    SubmitPending(queue, state, e);
    assert e.id !in PendingIds(queue, state);
  }

  lemma SubmitStates(state: States, d: Dispatcher, accepted: set<nat>, notified: set<nat>, exported: set<nat>, id: nat)
    requires StatesOk(state, d, accepted, notified, exported) && id !in state && id !in Busy(d)
    ensures StatesOk(state[id := PENDING], d, accepted, notified, exported) && id !in exported
  {
    var state' := state[id := PENDING];
    forall x | x in state' ensures StateOk(state'[x], x, d, accepted, notified) {
      if x != id {
        assert StateOk(state[x], x, d, accepted, notified);
      }
    }
  }

  lemma SubmitCancels(state: States, d: Dispatcher, cancels: seq<nat>, calls: set<nat>, id: nat)
    requires CancelsOk(state, d, cancels, calls) && id !in state
    ensures CancelsOk(state[id := PENDING], d, cancels, calls)
  {
  }

  lemma SubmitRunning(running: int, max: nat, state: States, d: Dispatcher, accepted: set<nat>, notified: set<nat>,
                      id: nat)
    requires RunningOk(running, max, state, d, accepted, notified) && id !in state && id !in Busy(d)
    ensures RunningOk(running, max, state[id := PENDING], d, accepted, notified)
  {
  }

  lemma BusyKnown(queue: seq<PendingRoot>, state: States, d: Dispatcher)
    requires FrontOk(queue, state, d)
    ensures Busy(d) != {} ==> queue != [] && queue[0] == d.entry && d.entry.id in state
    ensures forall id :: id in Busy(d) ==> id in state
  {
  }

  lemma SubmitKeeps(s: Sched, id: nat, root: string)
    requires Inv(s) && id > 0
    ensures Inv(DoSubmit(s, id, root))
  {
    hide QueueOk, FrontOk, WaitOk, PendingOk, StatesOk, CancelsOk, RunningOk, OrderOk, LockOk;
    hide NonOverlapping, Busy;
    if SubmitResult(s, id, root) == Ok {
      var e := PendingRoot(id, root);
      BusyKnown(s.queue, s.state, s.disp);
      SubmitQueue(s.entries, s.queue, s.state, e);
      SubmitFront(s.queue, s.state, s.disp, e);
      SubmitWait(s.queue, s.state, e);
      SubmitCounted(s.pending, s.queueMax, s.queue, s.state, e);
      SubmitStates(s.state, s.disp, s.accepted, s.notified, s.exported, id);
      SubmitCancels(s.state, s.disp, s.cancels, s.cancelCalls, id);
      SubmitRunning(s.running, s.maxConcurrent, s.state, s.disp, s.accepted, s.notified, id);
      SubmitOrder(s.entries, |s.queue|, s.order, s.accepted, e);
      SubmitLock(s.entries, s.exported, s.roots, e);
    }
  }

  // ----- the dispatcher -----

  // Which state changes keep the history facts.
  lemma RestateStates(state: States, d: Dispatcher, accepted: set<nat>, notified: set<nat>, exported: set<nat>,
                      id: nat, st: RequestState, d': Dispatcher)
    requires StatesOk(state, d, accepted, notified, exported) && id in state
    requires StateOk(st, id, d', accepted, notified)
    requires forall x :: x != id ==> (x in Busy(d) <==> x in Busy(d'))
    requires d'.Calling? ==> d'.entry.id !in accepted
    requires d'.Returned? ==> (d'.accept <==> d'.entry.id in accepted)
    ensures StatesOk(state[id := st], d', accepted, notified, exported)
  {
    var state' := state[id := st];
    forall x | x in state' ensures StateOk(state'[x], x, d', accepted, notified) {
      if x != id {
        assert StateOk(state[x], x, d, accepted, notified);
      }
    }
  }

  lemma PopOrder(entries: seq<PendingRoot>, left: nat, order: seq<nat>, accepted: set<nat>)
    requires OrderOk(entries, left, order, accepted) && left > 0
    ensures OrderOk(entries, left - 1, order, accepted)
  {
  }

  lemma PopFrontOk(queue: seq<PendingRoot>, state: States, d: Dispatcher, d': Dispatcher)
    requires FrontOk(queue, state, d) && queue != [] && Busy(d') == {}
    ensures FrontOk(queue[1..], state, d')
  {
  }

  lemma SetShrinks(a: set<nat>, x: nat)
    ensures |a - {x}| == if x in a then |a| - 1 else |a|
  {
    if x !in a {
      assert a - {x} == a;
    }
  }

  lemma PoppedCount(pending: int, queueMax: nat, entries: seq<PendingRoot>, queue: seq<PendingRoot>, state: States)
    requires QueueOk(entries, queue, state) && PendingOk(pending, queueMax, queue, state) && queue != []
    ensures queue[0].id in state
    ensures PendingOk(if state[queue[0].id].DROPPED? then pending else pending - 1, queueMax, queue[1..], state)
  {
    FrontInEntries(entries, queue, state, 0);
    PoppedPending(entries, queue, state);
    SetShrinks(PendingIds(queue, state), queue[0].id);
    if !state[queue[0].id].DROPPED? {
      PendingMember(queue, state, 0);
    } else {
      assert queue[0].id !in PendingIds(queue, state);
    }
  }

  lemma FrontState(queue: seq<PendingRoot>, state: States, d: Dispatcher)
    requires FrontOk(queue, state, d) && queue != []
    ensures queue[0].id in state
  {
  }

  lemma TakePop(s: Sched)
    requires Inv(s) && Enabled(s, Take) && s.queue[0].id in s.state && !s.state[s.queue[0].id].PENDING?
    ensures Inv(DoTake(s))
  {
    hide QueueOk, FrontOk, WaitOk, PendingOk, StatesOk, CancelsOk, RunningOk, OrderOk, LockOk;
    FrontState(s.queue, s.state, s.disp);
    PoppedQueue(s.entries, s.queue, s.state);
    PoppedWait(s.queue, s.state);
    PoppedCount(s.pending, s.queueMax, s.entries, s.queue, s.state);
    PopFrontOk(s.queue, s.state, s.disp, s.disp);
    PopOrder(s.entries, |s.queue|, s.order, s.accepted);
  }

  lemma TakeFront(queue: seq<PendingRoot>, state: States, d: Dispatcher)
    requires FrontOk(queue, state, d) && Busy(d) == {} && queue != [] && state[queue[0].id].PENDING?
    requires forall j :: 1 <= j < |queue| ==> queue[j].id != queue[0].id
    ensures FrontOk(queue, state[queue[0].id := DISPATCHING], Calling(queue[0]))
  {
  }

  lemma TakeRunning(running: int, max: nat, state: States, d: Dispatcher, accepted: set<nat>, notified: set<nat>,
                    e: PendingRoot)
    requires RunningOk(running, max, state, d, accepted, notified) && d.Waiting? && running < max && e.id !in accepted
    ensures RunningOk(running, max, state[e.id := DISPATCHING], Calling(e), accepted, notified)
  {
    assert Others(Calling(e), accepted, notified) == Others(d, accepted, notified);
  }

  lemma RestateCancels(state: States, d: Dispatcher, cancels: seq<nat>, calls: set<nat>,
                       id: nat, st: RequestState, d': Dispatcher)
    requires CancelsOk(state, d, cancels, calls) && id in state
    requires !state[id].CANCELED? && !state[id].DROPPED? && !st.CANCELED? && !st.DROPPED?
    requires d'.Canceling? ==> d == d'
    ensures CancelsOk(state[id := st], d', cancels, calls)
  {
  }

  lemma PendingNotAccepted(state: States, d: Dispatcher, accepted: set<nat>, notified: set<nat>, exported: set<nat>,
                           id: nat)
    requires StatesOk(state, d, accepted, notified, exported) && id in state && state[id].PENDING?
    ensures id !in accepted && id !in notified
  {
    assert StateOk(state[id], id, d, accepted, notified);
  }

  lemma RestateQueue(entries: seq<PendingRoot>, queue: seq<PendingRoot>, state: States, id: nat, st: RequestState)
    requires QueueOk(entries, queue, state) && id in state
    ensures QueueOk(entries, queue, state[id := st])
  {
  }

  lemma RestateCounted(pending: int, queueMax: nat, queue: seq<PendingRoot>, state: States, id: nat, st: RequestState)
    requires PendingOk(pending, queueMax, queue, state) && id in state && !state[id].DROPPED? && !st.DROPPED?
    ensures PendingOk(pending, queueMax, queue, state[id := st])
  {
    RestatedPending(queue, state, id, st);
  }

  lemma TakeDispatch(s: Sched)
    requires Inv(s) && Enabled(s, Take) && s.queue[0].id in s.state && s.state[s.queue[0].id].PENDING?
    ensures Inv(DoTake(s))
  {
    hide QueueOk, FrontOk, WaitOk, PendingOk, StatesOk, CancelsOk, RunningOk, OrderOk, LockOk;
    var e := s.queue[0];
    FrontInEntries(s.entries, s.queue, s.state, 0);
    PendingNotAccepted(s.state, s.disp, s.accepted, s.notified, s.exported, e.id);
    RestateStates(s.state, s.disp, s.accepted, s.notified, s.exported, e.id, DISPATCHING, Calling(e));
    RestateCounted(s.pending, s.queueMax, s.queue, s.state, e.id, DISPATCHING);
    RestateQueue(s.entries, s.queue, s.state, e.id, DISPATCHING);
    RestateWait(s.queue, s.state, e.id, DISPATCHING);
    RestateCancels(s.state, s.disp, s.cancels, s.cancelCalls, e.id, DISPATCHING, Calling(e));
    TakeFront(s.queue, s.state, s.disp);
    TakeRunning(s.running, s.maxConcurrent, s.state, s.disp, s.accepted, s.notified, e);
  }

  // ----- what the manager answers -----

  lemma AcceptOrder(entries: seq<PendingRoot>, queue: seq<PendingRoot>, state: States, order: seq<nat>,
                    accepted: set<nat>)
    requires QueueOk(entries, queue, state) && OrderOk(entries, |queue|, order, accepted)
    requires queue != [] && queue[0].id !in accepted
    ensures OrderOk(entries, |queue|, order + [|entries| - |queue|], accepted + {queue[0].id})
  {
    var h := |entries| - |queue|;
    assert entries[h] == queue[0];
    var order' := order + [h];
    forall i | 0 <= i < |order| ensures order[i] < h {
      assert entries[order[i]].id in accepted;
    }
    forall id | id in accepted + {queue[0].id} ensures exists i :: At(entries, order', i, id) {
      if id in accepted {
        var i :| At(entries, order, i, id);
        assert At(entries, order', i, id);
      } else {
        assert At(entries, order', |order|, id);
      }
    }
  }

  lemma AcceptStates(state: States, d: Dispatcher, accepted: set<nat>, notified: set<nat>, exported: set<nat>)
    requires StatesOk(state, d, accepted, notified, exported) && d.Calling? && d.entry.id in state
    ensures StatesOk(state, Returned(d.entry, true, false), accepted + {d.entry.id}, notified, exported)
  {
    var d' := Returned(d.entry, true, false);
    forall x | x in state ensures StateOk(state[x], x, d', accepted + {d.entry.id}, notified) {
      assert StateOk(state[x], x, d, accepted, notified);
    }
  }

  lemma AcceptRunning(running: int, max: nat, state: States, d: Dispatcher, accepted: set<nat>, notified: set<nat>)
    requires RunningOk(running, max, state, d, accepted, notified) && d.Calling? && d.entry.id !in notified
    ensures RunningOk(running, max, state, Returned(d.entry, true, false), accepted + {d.entry.id}, notified)
  {
    assert Others(Returned(d.entry, true, false), accepted + {d.entry.id}, notified) == Others(d, accepted, notified);
  }

  lemma CallingFacts(state: States, d: Dispatcher, accepted: set<nat>, notified: set<nat>, exported: set<nat>)
    requires StatesOk(state, d, accepted, notified, exported) && d.Calling?
    ensures d.entry.id !in accepted && d.entry.id !in notified
  {
  }

  lemma OrderBound(entries: seq<PendingRoot>, queue: seq<PendingRoot>, state: States)
    requires QueueOk(entries, queue, state)
    ensures |queue| <= |entries|
  {
  }

  // The answer itself changes nothing the other threads see.
  lemma AnsweredFront(queue: seq<PendingRoot>, state: States, d: Dispatcher, d': Dispatcher)
    requires FrontOk(queue, state, d) && d.Calling? && d'.Returned? && d'.entry == d.entry
    ensures FrontOk(queue, state, d')
  {
  }

  lemma AnsweredCancels(state: States, d: Dispatcher, cancels: seq<nat>, calls: set<nat>, d': Dispatcher)
    requires CancelsOk(state, d, cancels, calls) && !d'.Canceling?
    ensures CancelsOk(state, d', cancels, calls)
  {
  }

  lemma AcceptKeeps(s: Sched)
    requires Inv(s) && Enabled(s, Accept)
    ensures Inv(Do(s, Accept))
  {
    hide QueueOk, FrontOk, WaitOk, PendingOk, StatesOk, CancelsOk, RunningOk, OrderOk, LockOk;
    BusyKnown(s.queue, s.state, s.disp);
    CallingFacts(s.state, s.disp, s.accepted, s.notified, s.exported);
    OrderBound(s.entries, s.queue, s.state);
    AcceptOrder(s.entries, s.queue, s.state, s.order, s.accepted);
    AcceptStates(s.state, s.disp, s.accepted, s.notified, s.exported);
    AcceptRunning(s.running, s.maxConcurrent, s.state, s.disp, s.accepted, s.notified);
    AnsweredFront(s.queue, s.state, s.disp, Returned(s.disp.entry, true, false));
    AnsweredCancels(s.state, s.disp, s.cancels, s.cancelCalls, Returned(s.disp.entry, true, false));
  }

  lemma RefuseStates(state: States, d: Dispatcher, accepted: set<nat>, notified: set<nat>, exported: set<nat>,
                     full: bool)
    requires StatesOk(state, d, accepted, notified, exported) && d.Calling?
    ensures StatesOk(state, Returned(d.entry, false, full), accepted, notified, exported)
  {
    var d' := Returned(d.entry, false, full);
    forall x | x in state ensures StateOk(state[x], x, d', accepted, notified) {
      assert StateOk(state[x], x, d, accepted, notified);
    }
  }

  lemma RefuseRunning(running: int, max: nat, state: States, d: Dispatcher, accepted: set<nat>, notified: set<nat>,
                      full: bool)
    requires RunningOk(running, max, state, d, accepted, notified) && d.Calling? && d.entry.id !in notified
    ensures RunningOk(running, max, state, Returned(d.entry, false, full), accepted, notified)
  {
    assert Others(Returned(d.entry, false, full), accepted, notified) == Others(d, accepted, notified);
  }

  lemma RefuseKeeps(s: Sched, full: bool)
    requires Inv(s) && s.disp.Calling?
    ensures Inv(s.(disp := Returned(s.disp.entry, false, full)))
  {
    hide QueueOk, FrontOk, WaitOk, PendingOk, StatesOk, CancelsOk, RunningOk, OrderOk, LockOk;
    var d' := Returned(s.disp.entry, false, full);
    BusyKnown(s.queue, s.state, s.disp);
    CallingFacts(s.state, s.disp, s.accepted, s.notified, s.exported);
    RefuseStates(s.state, s.disp, s.accepted, s.notified, s.exported, full);
    RefuseRunning(s.running, s.maxConcurrent, s.state, s.disp, s.accepted, s.notified, full);
    AnsweredFront(s.queue, s.state, s.disp, d');
    AnsweredCancels(s.state, s.disp, s.cancels, s.cancelCalls, d');
  }

  // ----- the second critical section -----

  // What is known when the dispatcher comes back.
  lemma ReturnFacts(s: Sched)
    requires Inv(s) && s.disp.Returned?
    ensures
      var e := s.disp.entry;
      && s.queue != [] && s.queue[0] == e && e.id in s.state
      && (s.state[e.id].DISPATCHING? || s.state[e.id].CANCELED? || s.state[e.id].DONE?)
      && (s.disp.accept <==> e.id in s.accepted)
      && (s.state[e.id].DISPATCHING? ==> e.id !in s.notified)
      && (s.state[e.id].DONE? ==> e.id in s.notified)
      && s.notified <= s.accepted
  {
    hide QueueOk, WaitOk, PendingOk, CancelsOk, RunningOk, OrderOk, LockOk;
    assert StateOk(s.state[s.disp.entry.id], s.disp.entry.id, s.disp, s.accepted, s.notified);
  }

  lemma ReturnRunning(running: int, max: nat, state: States, d: Dispatcher, accepted: set<nat>, notified: set<nat>,
                      state': States, d': Dispatcher)
    requires RunningOk(running, max, state, d, accepted, notified) && d.Returned? && Busy(d') == {}
    requires notified <= accepted
    ensures
      var id := d.entry.id;
      var up := if id in accepted && id !in notified then 1 else Early(d, notified, state);
      RunningOk(running + up, max, state', d', accepted, notified)
  {
    var id := d.entry.id;
    if id in accepted && id !in notified {
      assert Others(d', accepted, notified) == Others(d, accepted, notified) + {id};
    } else {
      assert Others(d', accepted, notified) == Others(d, accepted, notified);
    }
  }

  lemma ReleaseStates(state: States, d: Dispatcher, accepted: set<nat>, notified: set<nat>, exported: set<nat>,
                      d': Dispatcher)
    requires StatesOk(state, d, accepted, notified, exported) && d.Returned? && Busy(d') == {}
    requires d.entry.id in state && !state[d.entry.id].DISPATCHING?
    ensures StatesOk(state, d', accepted, notified, exported)
  {
    forall x | x in state ensures StateOk(state[x], x, d', accepted, notified) {
      assert StateOk(state[x], x, d, accepted, notified);
    }
  }

  lemma ReleaseCancels(state: States, d: Dispatcher, cancels: seq<nat>, calls: set<nat>, d': Dispatcher)
    requires CancelsOk(state, d, cancels, calls)
    requires d'.Canceling? ==> d'.id in state && state[d'.id].CANCELED?
    ensures CancelsOk(state, d', cancels, calls)
  {
  }

  lemma CompleteCanceled(s: Sched)
    requires Inv(s) && s.disp.Returned? && s.disp.entry.id in s.state && s.state[s.disp.entry.id].CANCELED?
    ensures Inv(DoComplete(s))
  {
    hide QueueOk, FrontOk, WaitOk, PendingOk, StatesOk, CancelsOk, RunningOk, OrderOk, LockOk;
    var id := s.disp.entry.id;
    var d' := if s.disp.accept then Canceling(id) else Waiting;
    ReturnFacts(s);
    PoppedQueue(s.entries, s.queue, s.state);
    PoppedWait(s.queue, s.state);
    PoppedCount(s.pending, s.queueMax, s.entries, s.queue, s.state);
    PopFrontOk(s.queue, s.state, s.disp, d');
    PopOrder(s.entries, |s.queue|, s.order, s.accepted);
    ReleaseStates(s.state, s.disp, s.accepted, s.notified, s.exported, d');
    ReleaseCancels(s.state, s.disp, s.cancels, s.cancelCalls, d');
    ReturnRunning(s.running, s.maxConcurrent, s.state, s.disp, s.accepted, s.notified, s.state, d');
  }

  lemma FrontRestated(queue: seq<PendingRoot>, state: States, d: Dispatcher, st: RequestState)
    requires FrontOk(queue, state, d) && Busy(d) != {}
    requires forall j :: 1 <= j < |queue| ==> queue[j].id != queue[0].id
    ensures FrontOk(queue[1..], state[d.entry.id := st], Waiting)
    ensures st.PENDING? ==> FrontOk(queue, state[d.entry.id := st], Waiting)
  {
  }

  // DISPATCHING -> RUNNING or FAILED: the entry leaves the queue.
  lemma CompletePopped(s: Sched, st: RequestState)
    requires Inv(s) && s.disp.Returned? && s.disp.entry.id in s.state && s.state[s.disp.entry.id].DISPATCHING?
    requires st == if s.disp.accept then RUNNING else FAILED
    requires !s.disp.accept ==> !s.disp.full
    ensures Inv(DoComplete(s))
  {
    hide QueueOk, FrontOk, WaitOk, PendingOk, StatesOk, CancelsOk, RunningOk, OrderOk, LockOk;
    var id := s.disp.entry.id;
    var state' := s.state[id := st];
    ReturnFacts(s);
    FrontInEntries(s.entries, s.queue, s.state, 0);
    RestateQueue(s.entries, s.queue, s.state, id, st);
    RestateWait(s.queue, s.state, id, st);
    RestateCounted(s.pending, s.queueMax, s.queue, s.state, id, st);
    RestateStates(s.state, s.disp, s.accepted, s.notified, s.exported, id, st, Waiting);
    RestateCancels(s.state, s.disp, s.cancels, s.cancelCalls, id, st, Waiting);
    FrontRestated(s.queue, s.state, s.disp, st);
    PoppedQueue(s.entries, s.queue, state');
    PoppedWait(s.queue, state');
    PoppedCount(s.pending, s.queueMax, s.entries, s.queue, state');
    PopOrder(s.entries, |s.queue|, s.order, s.accepted);
    ReturnRunning(s.running, s.maxConcurrent, s.state, s.disp, s.accepted, s.notified, state', Waiting);
  }

  // DISPATCHING -> PENDING: the entry stays at the front.
  lemma CompleteRetry(s: Sched)
    requires Inv(s) && s.disp.Returned? && s.disp.entry.id in s.state && s.state[s.disp.entry.id].DISPATCHING?
    requires !s.disp.accept && s.disp.full
    ensures Inv(DoComplete(s))
  {
    hide QueueOk, FrontOk, WaitOk, PendingOk, StatesOk, CancelsOk, RunningOk, OrderOk, LockOk;
    var id := s.disp.entry.id;
    ReturnFacts(s);
    FrontInEntries(s.entries, s.queue, s.state, 0);
    RestateQueue(s.entries, s.queue, s.state, id, PENDING);
    RestateWait(s.queue, s.state, id, PENDING);
    RestateCounted(s.pending, s.queueMax, s.queue, s.state, id, PENDING);
    RestateStates(s.state, s.disp, s.accepted, s.notified, s.exported, id, PENDING, Waiting);
    RestateCancels(s.state, s.disp, s.cancels, s.cancelCalls, id, PENDING, Waiting);
    FrontRestated(s.queue, s.state, s.disp, PENDING);
    ReturnRunning(s.running, s.maxConcurrent, s.state, s.disp, s.accepted, s.notified, s.state[id := PENDING], Waiting);
  }

  lemma FrontDone(queue: seq<PendingRoot>, state: States, d: Dispatcher)
    requires FrontOk(queue, state, d) && Busy(d) != {} && state[d.entry.id].DONE?
    ensures FrontOk(queue, state, Waiting)
  {
  }

  lemma CompleteDone(s: Sched)
    requires Inv(s) && s.disp.Returned? && s.disp.entry.id in s.state && s.state[s.disp.entry.id].DONE?
    ensures Inv(DoComplete(s))
  {
    hide QueueOk, FrontOk, WaitOk, PendingOk, StatesOk, CancelsOk, RunningOk, OrderOk, LockOk;
    ReturnFacts(s);
    FrontDone(s.queue, s.state, s.disp);
    ReleaseStates(s.state, s.disp, s.accepted, s.notified, s.exported, Waiting);
    ReleaseCancels(s.state, s.disp, s.cancels, s.cancelCalls, Waiting);
    ReturnRunning(s.running, s.maxConcurrent, s.state, s.disp, s.accepted, s.notified, s.state, Waiting);
  }

  lemma CompleteKeeps(s: Sched)
    requires Inv(s) && s.disp.Returned?
    ensures Inv(DoComplete(s))
  {
    ReturnFacts(s);
    hide Inv;
    var st := s.state[s.disp.entry.id];
    if st.CANCELED? {
      CompleteCanceled(s);
    } else if st.DONE? {
      CompleteDone(s);
    } else if s.disp.accept {
      CompletePopped(s, RUNNING);
    } else if s.disp.full {
      CompleteRetry(s);
    } else {
      CompletePopped(s, FAILED);
    }
  }

  lemma DispatcherCancelKeeps(s: Sched)
    requires Inv(s) && s.disp.Canceling?
    ensures Inv(s.(disp := Waiting))
  {
    hide QueueOk, WaitOk, PendingOk, OrderOk, LockOk;
    assert Others(s.disp, s.accepted, s.notified) == Others(Waiting, s.accepted, s.notified);
    forall x | x in s.state ensures StateOk(s.state[x], x, Waiting, s.accepted, s.notified) {
      assert StateOk(s.state[x], x, s.disp, s.accepted, s.notified);
    }
  }

  // ----- cancel -----

  lemma DropCounted(pending: int, queueMax: nat, queue: seq<PendingRoot>, state: States, id: nat)
    requires PendingOk(pending, queueMax, queue, state) && WaitOk(queue, state)
    requires id in state && state[id].PENDING?
    ensures PendingOk(pending - 1, queueMax, queue, state[id := DROPPED])
  {
    RestatedPending(queue, state, id, DROPPED);
    var x :| x in queue && x.id == id;
    assert id in PendingIds(queue, state);
    SetShrinks(PendingIds(queue, state), id);
  }

  lemma CancelFront(queue: seq<PendingRoot>, state: States, d: Dispatcher, id: nat, st: RequestState)
    requires FrontOk(queue, state, d) && id in state && !Final(state[id])
    requires st == if state[id].PENDING? then DROPPED else CANCELED
    ensures FrontOk(queue, state[id := st], d)
  {
  }

  lemma CancelCancels(state: States, d: Dispatcher, cancels: seq<nat>, calls: set<nat>, id: nat, st: RequestState)
    requires CancelsOk(state, d, cancels, calls) && id in state && !Final(state[id])
    requires st.DROPPED? || st.CANCELED?
    ensures CancelsOk(state[id := st], d, cancels + [id], if st.CANCELED? then calls + {id} else calls)
  {
    assert id !in cancels;
  }

  lemma CancelRunning(running: int, max: nat, state: States, d: Dispatcher, accepted: set<nat>, notified: set<nat>,
                      id: nat, st: RequestState)
    requires RunningOk(running, max, state, d, accepted, notified) && id in state && id !in notified
    ensures RunningOk(running, max, state[id := st], d, accepted, notified)
  {
  }

  lemma LiveFacts(state: States, d: Dispatcher, accepted: set<nat>, notified: set<nat>, exported: set<nat>, id: nat)
    requires StatesOk(state, d, accepted, notified, exported) && id in state && !Final(state[id])
    ensures id !in notified
    ensures state[id].PENDING? ==> StateOk(DROPPED, id, d, accepted, notified)
    ensures d.Calling? ==> d.entry.id !in accepted
    ensures d.Returned? ==> (d.accept <==> d.entry.id in accepted)
  {
    assert StateOk(state[id], id, d, accepted, notified);
  }

  lemma CancelKeeps(s: Sched, id: nat)
    requires Inv(s)
    ensures Inv(DoCancel(s, id))
  {
    hide QueueOk, FrontOk, WaitOk, PendingOk, StatesOk, CancelsOk, RunningOk, OrderOk, LockOk;
    if CancelResult(s, id) {
      var st := if s.state[id].PENDING? then DROPPED else CANCELED;
      LiveFacts(s.state, s.disp, s.accepted, s.notified, s.exported, id);
      RestateQueue(s.entries, s.queue, s.state, id, st);
      RestateWait(s.queue, s.state, id, st);
      CancelFront(s.queue, s.state, s.disp, id, st);
      CancelCancels(s.state, s.disp, s.cancels, s.cancelCalls, id, st);
      RestateStates(s.state, s.disp, s.accepted, s.notified, s.exported, id, st, s.disp);
      CancelRunning(s.running, s.maxConcurrent, s.state, s.disp, s.accepted, s.notified, id, st);
      if st.DROPPED? {
        DropCounted(s.pending, s.queueMax, s.queue, s.state, id);
      } else {
        RestateCounted(s.pending, s.queueMax, s.queue, s.state, id, st);
      }
    }
  }

  // ----- completion -----

  // A scan that may be reported finished is running, canceled or still being dispatched.
  lemma FinishFacts(state: States, d: Dispatcher, accepted: set<nat>, notified: set<nat>, exported: set<nat>, id: nat)
    requires StatesOk(state, d, accepted, notified, exported) && id in accepted && id !in notified
    ensures id in state && (state[id].RUNNING? || state[id].CANCELED? || state[id].DISPATCHING?)
    ensures state[id].RUNNING? ==> id !in Busy(d)
    ensures state[id].DISPATCHING? ==> id in Busy(d)
    ensures id in Busy(d) ==> d.Returned?
  {
    assert StateOk(state[id], id, d, accepted, notified);
  }

  lemma FinishStates(state: States, d: Dispatcher, accepted: set<nat>, notified: set<nat>, exported: set<nat>,
                     id: nat, st: RequestState)
    requires StatesOk(state, d, accepted, notified, exported) && id in accepted && id !in notified
    requires st.DONE? || st.CANCELED?
    ensures StatesOk(state[id := st], d, accepted, notified + {id}, exported)
  {
    var state' := state[id := st];
    forall x | x in state' ensures StateOk(state'[x], x, d, accepted, notified + {id}) {
      if x != id {
        assert StateOk(state[x], x, d, accepted, notified);
      }
    }
  }

  lemma OthersAfter(d: Dispatcher, accepted: set<nat>, notified: set<nat>, id: nat)
    requires id in accepted && id !in notified
    ensures |Others(d, accepted, notified + {id})|
         == |Others(d, accepted, notified)| - (if id in Busy(d) then 0 else 1)
  {
    assert Others(d, accepted, notified + {id}) == Others(d, accepted, notified) - {id};
    SetShrinks(Others(d, accepted, notified), id);
  }

  lemma FinishRunning(running: int, max: nat, state: States, d: Dispatcher, accepted: set<nat>, notified: set<nat>,
                      id: nat)
    requires RunningOk(running, max, state, d, accepted, notified)
    requires id in accepted && id !in notified && id in state
    requires state[id].RUNNING? || state[id].CANCELED? || state[id].DISPATCHING?
    requires state[id].RUNNING? ==> id !in Busy(d)
    requires state[id].DISPATCHING? ==> id in Busy(d)
    requires id in Busy(d) ==> d.Returned?
    ensures
      var st := if state[id].CANCELED? then CANCELED else DONE;
      var down := if state[id].DISPATCHING? then 0 else 1;
      RunningOk(running - down, max, state[id := st], d, accepted, notified + {id})
  {
    OthersAfter(d, accepted, notified, id);
    hide Others;
  }

  lemma FinishFront(queue: seq<PendingRoot>, state: States, d: Dispatcher, id: nat, st: RequestState)
    requires FrontOk(queue, state, d) && id in state
    requires state[id].RUNNING? || state[id].CANCELED? || state[id].DISPATCHING?
    requires st == if state[id].CANCELED? then CANCELED else DONE
    ensures FrontOk(queue, state[id := st], d)
  {
  }

  lemma FinishCancels(state: States, d: Dispatcher, cancels: seq<nat>, calls: set<nat>, id: nat, st: RequestState)
    requires CancelsOk(state, d, cancels, calls) && id in state
    requires state[id].RUNNING? || state[id].CANCELED? || state[id].DISPATCHING?
    requires st == if state[id].CANCELED? then CANCELED else DONE
    ensures CancelsOk(state[id := st], d, cancels, calls)
  {
  }

  lemma FinishedKeeps(s: Sched, id: nat)
    requires Inv(s) && id in s.accepted && id !in s.notified
    ensures Inv(DoFinished(s, id))
  {
    hide QueueOk, FrontOk, WaitOk, PendingOk, StatesOk, CancelsOk, RunningOk, OrderOk, LockOk;
    FinishFacts(s.state, s.disp, s.accepted, s.notified, s.exported, id);
    var st := if s.state[id].CANCELED? then CANCELED else DONE;
    assert st.CANCELED? ==> s.state[id := st] == s.state;
    RestateQueue(s.entries, s.queue, s.state, id, st);
    RestateWait(s.queue, s.state, id, st);
    RestateCounted(s.pending, s.queueMax, s.queue, s.state, id, st);
    FinishFront(s.queue, s.state, s.disp, id, st);
    FinishStates(s.state, s.disp, s.accepted, s.notified, s.exported, id, st);
    FinishCancels(s.state, s.disp, s.cancels, s.cancelCalls, id, st);
    FinishRunning(s.running, s.maxConcurrent, s.state, s.disp, s.accepted, s.notified, id);
  }

  // ----- export -----

  lemma {:induction false} RootOfEntry(entries: seq<PendingRoot>, i: nat)
    requires DistinctIds(entries) && i < |entries|
    ensures RootOf(entries, entries[i].id) == entries[i].root
  {
    if i < |entries| - 1 {
      RootOfEntry(entries[..|entries| - 1], i);
    }
  }

  lemma ReleaseLock(entries: seq<PendingRoot>, exported: set<nat>, roots: set<string>, i: nat)
    requires LockOk(entries, exported, roots) && DistinctIds(entries)
    requires i < |entries| && entries[i].id !in exported
    ensures LockOk(entries, exported + {entries[i].id}, roots - {entries[i].root})
  {
    var exported', roots' := exported + {entries[i].id}, roots - {entries[i].root};
    forall j | 0 <= j < |entries| && entries[j].id !in exported' ensures entries[j].root in roots' {
      OverlapSymmetric(entries[i].root, entries[j].root);
    }
    forall r | r in roots' ensures exists j :: Holds(entries, exported', j, r) {
      var j :| Holds(entries, exported, j, r);
      assert Holds(entries, exported', j, r);
    }
  }

  lemma ExportKeeps(s: Sched, id: nat)
    requires Inv(s) && Enabled(s, ExportDone(id))
    ensures Inv(Do(s, ExportDone(id)))
  {
    hide QueueOk, FrontOk, WaitOk, PendingOk, StatesOk, CancelsOk, RunningOk, OrderOk, LockOk, RootOf, DistinctIds,
         DoSubmit, DoTake, DoComplete, DoCancel, DoFinished;
    var i := ExportEntry(s, id);
    RootOfEntry(s.entries, i);
    ReleaseLock(s.entries, s.exported, s.roots, i);
    ExportStates(s.state, s.disp, s.accepted, s.notified, s.exported, id);
  }

  lemma ExportEntry(s: Sched, id: nat) returns (i: nat)
    requires Inv(s) && id in s.notified
    ensures i < |s.entries| && s.entries[i].id == id && DistinctIds(s.entries)
  {
    hide FrontOk, WaitOk, PendingOk, CancelsOk, RunningOk, LockOk;
    var k :| At(s.entries, s.order, k, id);
    i := s.order[k];
  }

  lemma ExportStates(state: States, d: Dispatcher, accepted: set<nat>, notified: set<nat>, exported: set<nat>, id: nat)
    requires StatesOk(state, d, accepted, notified, exported) && id in notified
    ensures StatesOk(state, d, accepted, notified, exported + {id})
  {
  }

  lemma CancelCallKeeps(state: States, d: Dispatcher, cancels: seq<nat>, calls: set<nat>, id: nat)
    requires CancelsOk(state, d, cancels, calls)
    ensures CancelsOk(state, d, cancels, calls - {id})
  {
  }

  lemma TakeKeeps(s: Sched)
    requires Inv(s) && Enabled(s, Take)
    ensures Inv(DoTake(s))
  {
    FrontState(s.queue, s.state, s.disp);
    if s.state[s.queue[0].id].PENDING? {
      TakeDispatch(s);
    } else {
      TakePop(s);
    }
  }

  lemma DoKeeps(s: Sched, a: Action)
    requires Inv(s) && Enabled(s, a)
    ensures Inv(Do(s, a))
  {
    hide QueueOk, FrontOk, WaitOk, PendingOk, StatesOk, CancelsOk, RunningOk, OrderOk, LockOk;
    match a
    case Submit(id, root) => SubmitKeeps(s, id, root);
    case Take => TakeKeeps(s);
    case Accept => AcceptKeeps(s);
    case Full => RefuseKeeps(s, true);
    case Fail => RefuseKeeps(s, false);
    case Complete => CompleteKeeps(s);
    case DispatcherCancel => DispatcherCancelKeeps(s);
    case Cancel(id) => CancelKeeps(s, id);
    case CancelCall(id) => CancelCallKeeps(s.state, s.disp, s.cancels, s.cancelCalls, id);
    case Finished(id) => FinishedKeeps(s, id);
    case Available =>
    case ExportDone(id) => ExportKeeps(s, id);
  }

  lemma InitInv(maxConcurrent: nat, queueMax: nat)
    requires maxConcurrent > 0 && queueMax > 0
    ensures Inv(Init(maxConcurrent, queueMax))
  {
  }

  /** The invariant over whole runs. */
  lemma {:induction false} RunKeeps(s: Sched, run: seq<Action>)
    requires Inv(s) && Legal(s, run)
    ensures Inv(After(s, run))
    decreases |run|
  {
    hide Inv;
    if run != [] {
      var n := |run| - 1;
      RunKeeps(s, run[..n]);
      DoKeeps(After(s, run[..n]), run[n]);
    }
  }
}
