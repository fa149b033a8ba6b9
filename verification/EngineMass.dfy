/**
 Bookkeeping for the scan engine: every queued job, open call and dispatcher position carries an
 integer mass of each token, so that the invariants become one balance equation per token.
 */
module EngineMass {
  import opened FileTree
  import opened Messages
  import opened ScanEngine
  import opened Counting

  datatype Token =
    | Unit(scan: nat)             // one unit of unfinished_jobs
    | Todo(scan: nat, ev: Ev)     // a node still to be reported
    | Notify(scan: nat)           // notify_scan_finished still to be called
    | Sent(scan: nat)             // the sentinel still to be pushed
    | Reg(scan: nat)              // past the zero crossing, registry entry still there
    | Live(scan: nat)             // any job or call of the scan
    | Clean(scan: nat)            // a sentinel decided to be uncanceled, still to be pushed
    | RootJob(scan: nat)          // the scan's root job, still queued
    | Fuel(scan: nat)             // steps that may still be taken for the scan
    | Slot                        // queued non-root jobs and workers between check and push

  function FuelOf(w: Work): nat
    decreases Size(w), 0
  {
    11 + FuelAll(Children(w))
  }

  function FuelAll(ws: seq<Work>): nat
    decreases SizeAll(ws), 1
  {
    if ws == [] then 0 else FuelAll(ws[..|ws| - 1]) + FuelOf(ws[|ws| - 1]) + 4
  }

  predicate Concerns(t: Token, s: nat) {
    t.Slot? || t.scan == s
  }

  function PcUnits(pc: Pc): nat {
    if pc.Check? || pc.Push? then 2
    else if pc.Enter? || pc.Scan? || pc.Loop? || pc.Add? || pc.Finish? then 1
    else 0
  }

  function PcTodo(pc: Pc, ev: Ev): nat {
    match pc
    case Enter(w) => Occurs(w, ev)
    case Scan(w) => Occurs(w, ev)
    case Loop(rest) => OccursAll(rest, ev)
    case Add(rest, c) => OccursAll(rest, ev) + Occurs(c, ev)
    case Check(rest, c) => OccursAll(rest, ev) + Occurs(c, ev)
    case Push(rest, c) => OccursAll(rest, ev) + Occurs(c, ev)
    case _ => 0
  }

  function PcFuel(pc: Pc): nat {
    match pc
    case Enter(w) => FuelOf(w) - 1
    case Scan(w) => FuelOf(w) - 2
    case Loop(rest) => 8 + FuelAll(rest)
    case Add(rest, c) => 8 + FuelAll(rest) + FuelOf(c) + 3
    case Check(rest, c) => 8 + FuelAll(rest) + FuelOf(c) + 2
    case Push(rest, c) => 8 + FuelAll(rest) + FuelOf(c) + 1
    case Finish => 7
    case NotifyFinished => 6
    case LoadCanceled => 5
    case Erase(_) => 4
    case PushSentinel(_, _) => 3
    case InsertRow(_) => 2
    case Tail => 1
  }

  function PcMass(pc: Pc, t: Token): nat {
    match t
    case Unit(_) => PcUnits(pc)
    case Todo(_, ev) => PcTodo(pc, ev)
    case Notify(_) => if pc.NotifyFinished? then 1 else 0
    case Sent(_) => if pc.NotifyFinished? || pc.LoadCanceled? || pc.Erase? || pc.PushSentinel? then 1 else 0
    case Reg(_) => if pc.NotifyFinished? || pc.LoadCanceled? || pc.Erase? then 1 else 0
    case Live(_) => 1
    case Clean(_) => if (pc.Erase? || pc.PushSentinel?) && !pc.canceled then 1 else 0
    case RootJob(_) => 0
    case Fuel(_) => PcFuel(pc)
    case Slot => if pc.Push? then 1 else 0
  }

  function FrameMass(f: Frame, t: Token): nat {
    if Concerns(t, f.scan) then PcMass(f.pc, t) else 0
  }

  function NextMass(s: nat, n: Next, t: Token): nat {
    match n
    case Become(pc) => FrameMass(Frame(s, pc), t)
    case Inline(rest, child) => FrameMass(Frame(s, Loop(rest)), t) + FrameMass(Frame(s, Enter(child)), t)
    case Return => 0
  }

  function StackMass(st: seq<Frame>, t: Token): nat {
    if st == [] then 0 else StackMass(st[..|st| - 1], t) + FrameMass(st[|st| - 1], t)
  }

  function WorkersMass(ws: seq<seq<Frame>>, t: Token): nat {
    if ws == [] then 0 else WorkersMass(ws[..|ws| - 1], t) + StackMass(ws[|ws| - 1], t)
  }

  function JobMass(j: Job, t: Token): nat {
    if !Concerns(t, j.scan) then 0
    else match t
      case Unit(_) => 1
      case Live(_) => 1
      case Todo(_, ev) => Occurs(j.work, ev)
      case Fuel(_) => FuelOf(j.work)
      case RootJob(_) => if j.root then 1 else 0
      case Slot => if j.root then 0 else 1
      case _ => 0
  }

  function QueueMass(q: seq<Job>, t: Token): nat {
    if q == [] then 0 else QueueMass(q[..|q| - 1], t) + JobMass(q[|q| - 1], t)
  }

  function EffectMass(s: nat, eff: Effect, t: Token): nat {
    if eff.Enqueue? then JobMass(Job(s, eff.child, false), t) else 0
  }

  function CallMass(c: Call, t: Token): nat {
    if c.NoCall? || !Concerns(t, c.scan) then 0
    else match t
      case Unit(_) => if c.Added? || c.WasFull? then 1 else 0
      case Todo(_, ev) => Occurs(c.work, ev)
      case Fuel(_) => FuelOf(c.work)
      case _ => 0
  }

  function Total(e: Engine, t: Token): nat {
    QueueMass(e.queue, t) + WorkersMass(e.workers, t) + CallMass(e.call, t)
  }

  // Messages already sent.
  function CountEvent(log: seq<Msg>, s: nat, ev: Ev): nat {
    Count(log, Event(s, ev))
  }

  function CountSentinel(log: seq<Msg>, s: nat): nat {
    if log == [] then 0
    else
      var m := log[|log| - 1];
      CountSentinel(log[..|log| - 1], s) + (if m.Sentinel? && m.scan == s then 1 else 0)
  }

  function CountClean(log: seq<Msg>, s: nat): nat {
    if log == [] then 0
    else
      var m := log[|log| - 1];
      CountClean(log[..|log| - 1], s) + (if m.Sentinel? && m.scan == s && !m.canceled then 1 else 0)
  }

  function CountNotify(ns: seq<nat>, s: nat): nat {
    Count(ns, s)
  }

  // What the context of a scan says.
  function Unfinished(e: Engine, s: nat): int {
    if s in e.ctx then e.ctx[s].unfinished else 0
  }

  function Crossed(e: Engine, s: nat): nat {
    if s in e.ctx && e.ctx[s].accepted && e.ctx[s].unfinished == 0 then 1 else 0
  }

  function Goal(e: Engine, s: nat, ev: Ev): nat {
    if s in e.ctx then Occurs(e.ctx[s].root, ev) else 0
  }

  ghost predicate Skipped(e: Engine, s: nat) {
    s in e.ctx && e.ctx[s].skipped
  }

  /** The balance each token keeps. */
  ghost predicate Balanced(e: Engine, t: Token) {
    var total := Total(e, t);
    match t
    case Unit(s) => total == Unfinished(e, s)
    case Todo(s, ev) =>
      var n := total + CountEvent(e.log, s, ev);
      n <= Goal(e, s, ev) && (!Skipped(e, s) ==> n == Goal(e, s, ev))
    case Notify(s) => total + CountNotify(e.notifies, s) == Crossed(e, s)
    case Sent(s) => total + CountSentinel(e.log, s) == Crossed(e, s)
    case Reg(s) =>
      && total <= Crossed(e, s)
      && (s in e.registry <==> s in e.ctx && (Crossed(e, s) == 1 ==> total == 1))
    case Live(s) => total > 0 ==> s in e.ctx && e.ctx[s].accepted
    case Clean(s) => total + CountClean(e.log, s) > 0 ==> Crossed(e, s) == 1 && !Skipped(e, s)
    case RootJob(s) => total <= 1 && (total > 0 ==> Total(e, Unit(s)) == 1)
    case Fuel(s) => total <= (if s in e.ctx then FuelOf(e.ctx[s].root) else 0)
    case Slot => total <= Ceiling(e)
  }

  // Q - M + T for M >= 1; queued non-root jobs and workers about to push stay within it.
  function Ceiling(e: Engine): nat {
    (if e.slots > Reserved(e.maxScans) then e.slots - Reserved(e.maxScans) - 1 else 0) + |e.workers|
  }

  // ----- sums -----

  lemma StackPush(st: seq<Frame>, f: Frame, t: Token)
    ensures StackMass(st + [f], t) == StackMass(st, t) + FrameMass(f, t)
  {
    assert (st + [f])[..|st|] == st;
  }

  lemma QueuePush(q: seq<Job>, j: Job, t: Token)
    ensures QueueMass(q + [j], t) == QueueMass(q, t) + JobMass(j, t)
  {
    assert (q + [j])[..|q|] == q;
  }

  lemma {:induction false} WorkersSplit(ws: seq<seq<Frame>>, w: nat, st: seq<Frame>, t: Token)
    requires w < |ws|
    ensures WorkersMass(ws[w := st], t) == WorkersMass(ws[w := []], t) + StackMass(st, t)
  {
    var n := |ws| - 1;
    if w == n {
      assert ws[w := st][..n] == ws[..n] && ws[w := []][..n] == ws[..n];
    } else {
      WorkersSplit(ws[..n], w, st, t);
      assert ws[w := st][..n] == ws[..n][w := st] && ws[w := []][..n] == ws[..n][w := []];
    }
  }

  lemma CountEventPush(log: seq<Msg>, m: Msg, s: nat, ev: Ev)
    ensures CountEvent(log + [m], s, ev) == CountEvent(log, s, ev) + (if m == Event(s, ev) then 1 else 0)
  {
    assert (log + [m])[..|log|] == log;
  }

  lemma CountSentinelPush(log: seq<Msg>, m: Msg, s: nat)
    ensures CountSentinel(log + [m], s) == CountSentinel(log, s) + (if m.Sentinel? && m.scan == s then 1 else 0)
    ensures CountClean(log + [m], s)
         == CountClean(log, s) + (if m.Sentinel? && m.scan == s && !m.canceled then 1 else 0)
  {
    assert (log + [m])[..|log|] == log;
  }

  lemma CountNotifyPush(ns: seq<nat>, n: nat, s: nat)
    ensures CountNotify(ns + [n], s) == CountNotify(ns, s) + (if n == s then 1 else 0)
  {
    assert (ns + [n])[..|ns|] == ns;
  }
}
