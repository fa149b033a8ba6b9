/** JobQueue<T>: its critical sections, first as functions on the queue's value, then as the class. */
module JobQueue {

  datatype Policy = Lifo | Fifo

  datatype SubmitResult = Pushed | Full | Shutdown

  datatype PopResult<T> = Wait | Drained | Item(value: T)

  // The guarded fields and the bound metrics.
  datatype Queue<T> = Queue(
    policy: Policy, capacity: nat, container: seq<T>, stop: bool,
    submitted: nat, failed: nat, queued: int)

  function Empty<T>(policy: Policy, capacity: nat): Queue<T> {
    Queue(policy, capacity, [], false, 0, 0, 0)
  }

  function Put<T>(q: Queue<T>, x: T): Queue<T> {
    q.(container := q.container + [x], submitted := q.submitted + 1, queued := q.queued + 1)
  }

  // try_push.
  function TryPush<T>(q: Queue<T>, x: T): (Queue<T>, SubmitResult) {
    if q.stop then (q.(failed := q.failed + 1), Shutdown)
    else if |q.container| >= q.capacity then (q.(failed := q.failed + 1), Full)
    else (Put(q, x), Pushed)
  }

  // push, from one wait to the next: the item goes in, is dropped by shutdown, or the caller waits.
  predicate MustWait<T>(q: Queue<T>) {
    !q.stop && |q.container| >= q.capacity
  }

  function Push<T>(q: Queue<T>, x: T): Queue<T>
    requires !MustWait(q)
  {
    if q.stop then q else Put(q, x)
  }

  // pop, from one wait to the next.
  function Pop<T>(q: Queue<T>): (Queue<T>, PopResult<T>) {
    if q.container == [] then (q, if q.stop then Drained else Wait)
    else
      var n := |q.container| - 1;
      if q.policy.Fifo? then (q.(container := q.container[1..], queued := q.queued - 1), Item(q.container[0]))
      else (q.(container := q.container[..n], queued := q.queued - 1), Item(q.container[n]))
  }

  ghost predicate WithinCapacity<T>(q: Queue<T>) {
    |q.container| <= q.capacity && q.queued == |q.container|
  }

  /** LIFO returns the item pushed last, FIFO the one pushed first; the rest keeps its order. */
  lemma PopOrder<T>(q: Queue<T>, x: T)
    requires !q.stop && |q.container| < q.capacity
    ensures q.policy.Lifo? ==> Pop(Put(q, x)).1 == Item(x) && Pop(Put(q, x)).0.container == q.container
    ensures q.policy.Fifo? && q.container != [] ==>
              Pop(Put(q, x)).1 == Item(q.container[0]) && Pop(Put(q, x)).0.container == q.container[1..] + [x]
  {
    assert (q.container + [x])[..|q.container|] == q.container;
    if q.container != [] {
      assert (q.container + [x])[1..] == q.container[1..] + [x];
    }
  }

  class BoundedQueue<T> {
    const policy: Policy
    const capacity: nat
    var container: seq<T>
    var stopFlag: bool
    var submittedTotal: nat
    var submittedFailed: nat
    var queuedNumber: int

    ghost function View(): Queue<T>
      reads this
    {
      Queue(policy, capacity, container, stopFlag, submittedTotal, submittedFailed, queuedNumber)
    }

    ghost predicate Valid()
      reads this
    {
      WithinCapacity(View())
    }

    constructor (p: Policy, size: nat)
      ensures View() == Empty(p, size) && Valid()
    {
      policy, capacity := p, size;
      container, stopFlag := [], false;
      submittedTotal, submittedFailed, queuedNumber := 0, 0, 0;
    }

    method TryPushItem(item: T) returns (result: SubmitResult)
      requires Valid()
      modifies this
      ensures result.Shutdown? <==> old(stopFlag)
      ensures result.Full? <==> !old(stopFlag) && |old(container)| == capacity
      ensures container == if result.Pushed? then old(container) + [item] else old(container)
      ensures submittedTotal == old(submittedTotal) + (if result.Pushed? then 1 else 0)
      ensures submittedFailed == old(submittedFailed) + (if result.Pushed? then 0 else 1)
      ensures (View(), result) == TryPush(old(View()), item) && Valid()
    {
      if stopFlag {
        submittedFailed := submittedFailed + 1;
        return Shutdown;
      }
      if |container| >= capacity {
        submittedFailed := submittedFailed + 1;
        return Full;
      }
      container := container + [item];
      submittedTotal := submittedTotal + 1;
      queuedNumber := queuedNumber + 1;
      result := Pushed;
    }

    /** push once the caller holds the lock: `waits` sends it to the condition variable. */
    method PushItem(item: T) returns (waits: bool)
      requires Valid()
      modifies this
      ensures waits <==> !old(stopFlag) && |old(container)| == capacity
      ensures container == if waits || old(stopFlag) then old(container) else old(container) + [item]
      ensures waits == MustWait(old(View())) && Valid()
      ensures View() == if waits then old(View()) else Push(old(View()), item)
    {
      waits := !stopFlag && |container| >= capacity;
      if waits || stopFlag {
        return;
      }
      container := container + [item];
      submittedTotal := submittedTotal + 1;
      queuedNumber := queuedNumber + 1;
    }

    method PopItem() returns (result: PopResult<T>)
      requires Valid()
      modifies this
      ensures result.Drained? <==> old(container) == [] && old(stopFlag)
      ensures result.Wait? <==> old(container) == [] && !old(stopFlag)
      ensures old(container) != [] ==>
                if policy.Fifo? then [result.value] + container == old(container)
                else container + [result.value] == old(container)
      ensures (View(), result) == Pop(old(View())) && Valid()
    {
      if |container| == 0 {
        if stopFlag {
          return Drained;
        }
        return Wait;
      }
      match policy {
        case Fifo =>
          result := Item(container[0]);
          container := container[1..];
        case Lifo =>
          result := Item(container[|container| - 1]);
          container := container[..|container| - 1];
      }
      queuedNumber := queuedNumber - 1;
    }

    method Stop()
      requires Valid()
      modifies this`stopFlag
      ensures View() == old(View()).(stop := true) && Valid()
    {
      stopFlag := true;
    }

    method JobsInQueue() returns (n: nat)
      requires Valid()
      ensures n == |View().container| == View().queued <= capacity
    {
      n := |container|;
    }
  }
}
