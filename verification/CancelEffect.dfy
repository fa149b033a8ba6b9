/** What a set canceled flag does to a scan, in every continuation. */
module CancelEffect {
  import opened FileTree
  import opened Messages
  import opened ScanEngine
  import opened EngineMass
  import opened EngineInvariant
  import opened EngineTheorems
  import opened CancelFlags

  // The flag of an accepted scan is set.
  ghost predicate FlagSet(e: Engine, s: nat) {
    s in e.ctx && e.ctx[s].accepted && e.ctx[s].canceled
  }

  lemma FlagStays(e: Engine, a: Action, s: nat)
    requires Inv(e) && Enabled(e, a) && FlagSet(e, s)
    ensures FlagSet(Do(e, a), s)
  {
    hide Balanced, CallersWait;
    if a.Step? {
      var f := Top(e.workers[a.w]);
      var step := StepPc(ViewOf(e, f.scan), f.scan, f.pc);
      EffectOnContexts(e, f.scan, step.0, s);
      hide StepPc;
    }
  }

  // The scan has left the registry.
  ghost predicate Unregistered(e: Engine, s: nat) {
    s in e.ctx && e.ctx[s].accepted && s !in e.registry
  }

  lemma FlagFrozen(e: Engine, a: Action, s: nat)
    requires Inv(e) && Enabled(e, a) && Unregistered(e, s)
    ensures Unregistered(Do(e, a), s) && Do(e, a).ctx[s].canceled == e.ctx[s].canceled
  {
    hide Balanced, CallersWait;
    if a.Step? {
      var f := Top(e.workers[a.w]);
      var step := StepPc(ViewOf(e, f.scan), f.scan, f.pc);
      EffectOnContexts(e, f.scan, step.0, s);
      hide StepPc;
    }
  }

  // ----- the sentinel will say so -----

  ghost predicate StackDoomed(st: seq<Frame>, s: nat) {
    st != [] && Top(st).scan == s && (Top(st).pc.Erase? || Top(st).pc.PushSentinel?) ==> Top(st).pc.canceled
  }

  // Whoever has read the flag has read true.
  ghost predicate Doomed(e: Engine, s: nat) {
    && FlagSet(e, s)
    && (forall w :: 0 <= w < |e.workers| ==> StackDoomed(e.workers[w], s))
    && LogDecided(e.log, s, true)
  }

  ghost predicate PassesOn(f: Frame, eff: Effect, next: Next, s: nat) {
    && (f.scan == s && next.Become? && (next.pc.Erase? || next.pc.PushSentinel?) ==> next.pc.canceled)
    && (eff.Emit? && eff.msg.Sentinel? && eff.msg.scan == s ==> eff.msg.canceled)
  }

  lemma PcPassesOn(v: View, f: Frame, s: nat)
    requires f.scan == s ==> v.canceled && (f.pc.Erase? || f.pc.PushSentinel? ==> f.pc.canceled)
    ensures var (eff, next) := StepPc(v, f.scan, f.pc); PassesOn(f, eff, next, s)
  {
  }

  lemma ResumedDoomed(st: seq<Frame>, next: Next, s: nat)
    requires st != [] && StackWaits(st)
    requires Top(st).scan == s && next.Become? && (next.pc.Erase? || next.pc.PushSentinel?) ==> next.pc.canceled
    ensures StackDoomed(st[..|st| - 1] + Resume(Top(st).scan, next), s)
  {
    var n, x := |st| - 1, Top(st).scan;
    if next.Return? {
      assert st[..n] + Resume(x, next) == st[..n];
    } else {
      assert Top(st[..n] + Resume(x, next)) == Resume(x, next)[|Resume(x, next)| - 1];
    }
  }

  lemma CommitDoomed(e: Engine, w: nat, eff: Effect, next: Next, s: nat)
    requires CallersWait(e.workers) && Enabled(e, Step(w))
    requires forall v :: 0 <= v < |e.workers| ==> StackDoomed(e.workers[v], s)
    requires LogDecided(e.log, s, true) && PassesOn(Top(e.workers[w]), eff, next, s)
    ensures
      var e' := Commit(e, w, eff, next);
      LogDecided(e'.log, s, true) && forall v :: 0 <= v < |e'.workers| ==> StackDoomed(e'.workers[v], s)
  {
    hide Apply, Resume, Skipped, Unfinished, StackDoomed;
    var f := Top(e.workers[w]);
    EffectOnContexts(e, f.scan, eff, 0);
    EffectLog(e, f.scan, eff);
    ResumedDoomed(e.workers[w], next, s);
  }

  lemma StepDoomed(e: Engine, w: nat, s: nat)
    requires Inv(e) && Enabled(e, Step(w)) && Doomed(e, s)
    ensures Doomed(Do(e, Step(w)), s)
  {
    FlagStays(e, Step(w), s);
    var f := Top(e.workers[w]);
    var v := ViewOf(e, f.scan);
    assert StackDoomed(e.workers[w], s);
    PcPassesOn(v, f, s);
    var step := StepPc(v, f.scan, f.pc);
    hide StepPc, Commit, FlagSet, LogDecided, PassesOn, StackDoomed, Balanced;
    CommitDoomed(e, w, step.0, step.1, s);
  }

  lemma DoDoomed(e: Engine, a: Action, s: nat)
    requires Inv(e) && Enabled(e, a) && Doomed(e, s)
    ensures Doomed(Do(e, a), s)
  {
    if a.Step? {
      StepDoomed(e, a.w, s);
    } else {
      FlagStays(e, a, s);
      hide Balanced, FlagSet;
      var e' := Do(e, a);
      forall w | 0 <= w < |e'.workers| ensures StackDoomed(e'.workers[w], s) {
        assert StackDoomed(e.workers[w], s);
      }
    }
  }

  // A flag set before the counter reaches zero is seen by whoever ends the scan.
  lemma EarlyFlagDooms(e: Engine, s: nat)
    requires Inv(e) && FlagSet(e, s) && e.ctx[s].unfinished > 0
    ensures Doomed(e, s)
  {
    assert Balanced(e, Sent(s));
    forall w | 0 <= w < |e.workers| ensures StackDoomed(e.workers[w], s) {
      if e.workers[w] != [] && Top(e.workers[w]).scan == s {
        var r := Exchange(e.workers, w, Return, Sent(s));
      }
    }
    forall i | 0 <= i < |e.log| && e.log[i].Sentinel? ensures e.log[i].scan != s {
      NoSentinelCounted(e.log, s, i);
    }
  }

  // ----- the walk stops -----

  // Past the test at the start of a call, or past the test in its loop.
  predicate PastTest(pc: Pc, inLoop: bool) {
    if inLoop then pc.Add? || pc.Check? || pc.Push? else pc.Scan?
  }

  function TopPast(st: seq<Frame>, s: nat, inLoop: bool): nat {
    if st != [] && Top(st).scan == s && PastTest(Top(st).pc, inLoop) then 1 else 0
  }

  // Running calls of the scan that will still report their node, or still submit a child.
  function Past(ws: seq<seq<Frame>>, s: nat, inLoop: bool): nat {
    if ws == [] then 0 else Past(ws[..|ws| - 1], s, inLoop) + TopPast(ws[|ws| - 1], s, inLoop)
  }

  lemma {:induction false} PastUpdate(ws: seq<seq<Frame>>, w: nat, st: seq<Frame>, s: nat, inLoop: bool)
    requires w < |ws|
    ensures Past(ws[w := st], s, inLoop) == Past(ws, s, inLoop) - TopPast(ws[w], s, inLoop) + TopPast(st, s, inLoop)
  {
    hide TopPast;
    var n := |ws| - 1;
    if w == n {
      assert ws[w := st][..n] == ws[..n];
    } else {
      PastUpdate(ws[..n], w, st, s, inLoop);
      assert ws[w := st][..n] == ws[..n][w := st];
    }
  }

  // What the scan has sent, and what it has queued.
  function Done(e: Engine, s: nat, inLoop: bool): nat {
    if inLoop then QueuedJobs(e.queue, s) else |EventsOf(e.log, s)|
  }

  function Gains(eff: Effect, s: nat, inLoop: bool): nat {
    if inLoop then if eff.Enqueue? then 1 else 0
    else if eff.Emit? && eff.msg.Event? && eff.msg.scan == s then 1 else 0
  }

  function NextPast(next: Next, inLoop: bool): nat {
    if next.Become? && PastTest(next.pc, inLoop) then 1 else 0
  }

  lemma PcStops(v: View, f: Frame, inLoop: bool)
    requires v.canceled
    ensures
      var (eff, next) := StepPc(v, f.scan, f.pc);
      Gains(eff, f.scan, inLoop) + NextPast(next, inLoop) <= if PastTest(f.pc, inLoop) then 1 else 0
  {
  }

  lemma EffectGains(e: Engine, x: nat, eff: Effect, s: nat, inLoop: bool)
    requires x in e.ctx && (eff.Emit? ==> eff.msg.scan == x)
    ensures Done(Apply(e, x, eff), s, inLoop) == Done(e, s, inLoop) + (if x == s then Gains(eff, s, inLoop) else 0)
  {
    if eff.Emit? {
      assert (e.log + [eff.msg])[..|e.log|] == e.log;
    }
    if eff.Enqueue? {
      var j := Job(x, eff.child, false);
      assert (e.queue + [j])[..|e.queue|] == e.queue;
    }
  }

  lemma ResumedPast(st: seq<Frame>, next: Next, s: nat, inLoop: bool)
    requires st != [] && StackWaits(st)
    ensures TopPast(st[..|st| - 1] + Resume(Top(st).scan, next), s, inLoop)
         == if Top(st).scan == s then NextPast(next, inLoop) else 0
  {
    var n, x := |st| - 1, Top(st).scan;
    if next.Return? {
      assert st[..n] + Resume(x, next) == st[..n];
    } else {
      assert Top(st[..n] + Resume(x, next)) == Resume(x, next)[|Resume(x, next)| - 1];
    }
  }

  lemma CommitStops(e: Engine, w: nat, eff: Effect, next: Next, s: nat, inLoop: bool)
    requires CallersWait(e.workers) && Enabled(e, Step(w)) && (eff.Emit? ==> eff.msg.scan == Top(e.workers[w]).scan)
    requires
      var f := Top(e.workers[w]);
      f.scan == s ==> Gains(eff, s, inLoop) + NextPast(next, inLoop) <= if PastTest(f.pc, inLoop) then 1 else 0
    ensures
      var e' := Commit(e, w, eff, next);
      Done(e', s, inLoop) + Past(e'.workers, s, inLoop) <= Done(e, s, inLoop) + Past(e.workers, s, inLoop)
  {
    hide Apply, Resume, Gains, NextPast, PastTest, Past;
    var f := Top(e.workers[w]);
    EffectOnContexts(e, f.scan, eff, 0);
    EffectGains(e, f.scan, eff, s, inLoop);
    ResumedPast(e.workers[w], next, s, inLoop);
    PastUpdate(e.workers, w, e.workers[w][..|e.workers[w]| - 1] + Resume(f.scan, next), s, inLoop);
  }

  lemma StepStops(e: Engine, w: nat, s: nat, inLoop: bool)
    requires Inv(e) && Enabled(e, Step(w)) && FlagSet(e, s)
    ensures
      var e' := Do(e, Step(w));
      Done(e', s, inLoop) + Past(e'.workers, s, inLoop) <= Done(e, s, inLoop) + Past(e.workers, s, inLoop)
  {
    var f := Top(e.workers[w]);
    var v := ViewOf(e, f.scan);
    PcUnit(v, f);
    if f.scan == s {
      PcStops(v, f, inLoop);
    }
    var step := StepPc(v, f.scan, f.pc);
    hide StepPc, Commit, Done, Past, Gains, NextPast, PastTest, Balanced;
    CommitStops(e, w, step.0, step.1, s, inLoop);
  }

  lemma PopStops(e: Engine, w: nat, s: nat, inLoop: bool)
    requires Enabled(e, Pop(w))
    ensures
      var e' := Do(e, Pop(w));
      Done(e', s, inLoop) + Past(e'.workers, s, inLoop) <= Done(e, s, inLoop) + Past(e.workers, s, inLoop)
  {
    hide Past;
    var job := e.queue[|e.queue| - 1];
    var st := [Frame(job.scan, Enter(job.work))];
    PastUpdate(e.workers, w, st, s, inLoop);
  }

  lemma CallStops(e: Engine, s: nat, inLoop: bool)
    requires Inv(e) && Enabled(e, RootStep) && FlagSet(e, s)
    ensures
      var e' := CallStep(e);
      Done(e', s, inLoop) + Past(e'.workers, s, inLoop) <= Done(e, s, inLoop) + Past(e.workers, s, inLoop)
  {
    hide Balanced, Past;
    var j := Job(e.call.scan, e.call.work, true);
    assert (e.queue + [j])[..|e.queue|] == e.queue;
  }

  lemma DoStops(e: Engine, a: Action, s: nat, inLoop: bool)
    requires Inv(e) && Enabled(e, a) && FlagSet(e, s)
    ensures
      var e' := Do(e, a);
      Done(e', s, inLoop) + Past(e'.workers, s, inLoop) <= Done(e, s, inLoop) + Past(e.workers, s, inLoop)
  {
    match a
    case Step(w) => StepStops(e, w, s, inLoop);
    case Pop(w) => PopStops(e, w, s, inLoop);
    case RootStep => CallStops(e, s, inLoop);
    case StartRoot(_, _) =>
    case Cancel(_) =>
  }
}
