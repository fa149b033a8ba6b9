/** A sentinel says "canceled" only if the scan's context was canceled. */
module CancelFlags {
  import opened FileTree
  import opened Messages
  import opened ScanEngine
  import opened EngineMass
  import opened EngineInvariant
  import opened EngineTheorems

  ghost predicate Canceled(ctx: map<nat, Ctx>, s: nat) {
    s in ctx && ctx[s].canceled
  }

  // The value a call has read from its context, once it has.
  predicate Flagged(pc: Pc) {
    (pc.Erase? || pc.PushSentinel?) && pc.canceled
  }

  ghost predicate StackFlags(st: seq<Frame>, ctx: map<nat, Ctx>) {
    st != [] && Flagged(Top(st).pc) ==> Canceled(ctx, Top(st).scan)
  }

  ghost predicate LogFlags(log: seq<Msg>, ctx: map<nat, Ctx>) {
    forall i :: 0 <= i < |log| && log[i].Sentinel? && log[i].canceled ==> Canceled(ctx, log[i].scan)
  }

  ghost predicate Flags(e: Engine) {
    (forall w :: 0 <= w < |e.workers| ==> StackFlags(e.workers[w], e.ctx)) && LogFlags(e.log, e.ctx)
  }

  // What one step reads it passes on truthfully.
  ghost predicate Truthful(v: View, s: nat, pc: Pc, eff: Effect, next: Next) {
    && (next.Become? && Flagged(next.pc) ==> v.canceled || Flagged(pc))
    && (eff.Emit? && eff.msg.Sentinel? && eff.msg.canceled ==> Flagged(pc) && eff.msg.scan == s)
  }

  lemma PcTruthful(v: View, s: nat, pc: Pc)
    ensures var (eff, next) := StepPc(v, s, pc); Truthful(v, s, pc, eff, next)
  {
  }

  lemma ResumedFlags(st: seq<Frame>, s: nat, next: Next, ctx: map<nat, Ctx>)
    requires st != [] && StackWaits(st)
    requires next.Become? && Flagged(next.pc) ==> Canceled(ctx, s)
    ensures StackFlags(st[..|st| - 1] + Resume(s, next), ctx)
  {
    var n := |st| - 1;
    if next.Return? {
      assert st[..n] + Resume(s, next) == st[..n];
    } else {
      assert Top(st[..n] + Resume(s, next)) == Resume(s, next)[|Resume(s, next)| - 1];
    }
  }

  lemma EffectLog(e: Engine, s: nat, eff: Effect)
    requires s in e.ctx
    ensures Apply(e, s, eff).log == if eff.Emit? then e.log + [eff.msg] else e.log
  {
  }

  lemma StepFlags(e: Engine, w: nat, eff: Effect, next: Next)
    requires Flags(e) && CallersWait(e.workers) && Enabled(e, Step(w))
    requires var f := Top(e.workers[w]); Truthful(ViewOf(e, f.scan), f.scan, f.pc, eff, next)
    ensures Flags(Commit(e, w, eff, next))
  {
    hide Apply, Resume, Skipped, Unfinished;
    var f := Top(e.workers[w]);
    EffectOnContexts(e, f.scan, eff, 0);
    EffectLog(e, f.scan, eff);
    var e' := Apply(e, f.scan, eff);
    assert StackFlags(e.workers[w], e.ctx);
    ResumedFlags(e.workers[w], f.scan, next, e'.ctx);
    assert LogFlags(e'.log, e'.ctx);
  }

  lemma CallFlags(e: Engine)
    requires Flags(e) && Inv(e) && LogOk(e) && Enabled(e, RootStep)
    ensures Flags(CallStep(e))
  {
    var e', s := CallStep(e), e.call.scan;
    forall w | 0 <= w < |e.workers| ensures StackFlags(e.workers[w], e'.ctx) {
      assert StackFlags(e.workers[w], e.ctx);
      if e.workers[w] != [] && Top(e.workers[w]).scan == s {
        FrameFacts(e, w);
      }
    }
  }

  lemma PopFlags(e: Engine, w: nat)
    requires Flags(e) && Enabled(e, Pop(w))
    ensures Flags(Do(e, Pop(w)))
  {
  }

  lemma CancelFlagsKept(e: Engine, s: nat)
    requires Flags(e)
    ensures Flags(Do(e, Cancel(s)))
  {
    var e' := Do(e, Cancel(s));
    forall w | 0 <= w < |e'.workers| ensures StackFlags(e'.workers[w], e'.ctx) {
      assert StackFlags(e.workers[w], e.ctx);
    }
  }

  lemma StartFlags(e: Engine, s: nat, root: Work)
    requires Flags(e) && Enabled(e, StartRoot(s, root))
    ensures Flags(Do(e, StartRoot(s, root)))
  {
    var e' := Do(e, StartRoot(s, root));
    forall w | 0 <= w < |e'.workers| ensures StackFlags(e'.workers[w], e'.ctx) {
      assert StackFlags(e.workers[w], e.ctx);
    }
  }

  lemma DoKeepsFlags(e: Engine, a: Action)
    requires Flags(e) && Inv(e) && LogOk(e) && Enabled(e, a)
    ensures Flags(Do(e, a))
  {
    match a
    case Pop(w) => PopFlags(e, w);
    case Step(w) =>
      var f := Top(e.workers[w]);
      var step := StepPc(ViewOf(e, f.scan), f.scan, f.pc);
      PcTruthful(ViewOf(e, f.scan), f.scan, f.pc);
      StepFlags(e, w, step.0, step.1);
    case StartRoot(s, root) => StartFlags(e, s, root);
    case RootStep => CallFlags(e);
    case Cancel(s) => CancelFlagsKept(e, s);
  }

  /** A sentinel marked canceled belongs to a context whose flag is set. */
  lemma {:induction false} CanceledSentinel(slots: nat, maxScans: nat, threads: nat, run: seq<Action>)
    requires Legal(Init(slots, maxScans, threads), run)
    ensures Flags(After(Init(slots, maxScans, threads), run))
    decreases |run|
  {
    if run != [] {
      hide Flags, Inv, LogOk, Do;
      var n := |run| - 1;
      CanceledSentinel(slots, maxScans, threads, run[..n]);
      RunOk(slots, maxScans, threads, run[..n]);
      DoKeepsFlags(After(Init(slots, maxScans, threads), run[..n]), run[n]);
    }
  }

  // ----- when a cancel takes effect -----

  predicate Ending(pc: Pc) {
    pc.NotifyFinished? || pc.LoadCanceled? || pc.Erase? || pc.PushSentinel?
  }

  // Whoever still ends scan s has read b.
  ghost predicate StackDecided(st: seq<Frame>, s: nat, b: bool) {
    st != [] && Top(st).scan == s && Ending(Top(st).pc) ==>
      (Top(st).pc.Erase? || Top(st).pc.PushSentinel?) && Top(st).pc.canceled == b
  }

  ghost predicate LogDecided(log: seq<Msg>, s: nat, b: bool) {
    forall i :: 0 <= i < |log| && log[i].Sentinel? && log[i].scan == s ==> log[i].canceled == b
  }

  ghost predicate Decided(e: Engine, s: nat, b: bool) {
    && Crossed(e, s) == 1
    && (forall w :: 0 <= w < |e.workers| ==> StackDecided(e.workers[w], s, b))
    && LogDecided(e.log, s, b)
  }

  // What a step may hand on once scan s is past zero.
  ghost predicate HandsOn(f: Frame, eff: Effect, next: Next, s: nat, b: bool) {
    && (f.scan == s && next.Become? && Ending(next.pc) ==>
          (next.pc.Erase? || next.pc.PushSentinel?) && next.pc.canceled == b)
    && (eff.Emit? && eff.msg.Sentinel? && eff.msg.scan == s ==> eff.msg.canceled == b)
  }

  lemma PcHandsOn(v: View, f: Frame, s: nat, b: bool)
    requires f.scan == s && Ending(f.pc) ==> (f.pc.Erase? || f.pc.PushSentinel?) && f.pc.canceled == b
    requires f.scan == s && f.pc.Finish? ==> v.unfinished != 1
    ensures var (eff, next) := StepPc(v, f.scan, f.pc); HandsOn(f, eff, next, s, b)
  {
  }

  lemma ResumedDecided(st: seq<Frame>, next: Next, s: nat, b: bool)
    requires st != [] && StackWaits(st)
    requires Top(st).scan == s && next.Become? && Ending(next.pc) ==>
               (next.pc.Erase? || next.pc.PushSentinel?) && next.pc.canceled == b
    ensures StackDecided(st[..|st| - 1] + Resume(Top(st).scan, next), s, b)
  {
    var n, x := |st| - 1, Top(st).scan;
    if next.Return? {
      assert st[..n] + Resume(x, next) == st[..n];
    } else {
      assert Top(st[..n] + Resume(x, next)) == Resume(x, next)[|Resume(x, next)| - 1];
    }
  }

  lemma CommitDecided(e: Engine, w: nat, eff: Effect, next: Next, s: nat, b: bool)
    requires CallersWait(e.workers) && Enabled(e, Step(w))
    requires forall v :: 0 <= v < |e.workers| && v != w ==> StackDecided(e.workers[v], s, b)
    requires LogDecided(e.log, s, b) && HandsOn(Top(e.workers[w]), eff, next, s, b)
    ensures
      var e' := Commit(e, w, eff, next);
      LogDecided(e'.log, s, b) && forall v :: 0 <= v < |e'.workers| ==> StackDecided(e'.workers[v], s, b)
  {
    hide Apply, Resume, Skipped, Unfinished, StackDecided;
    var f := Top(e.workers[w]);
    EffectOnContexts(e, f.scan, eff, 0);
    EffectLog(e, f.scan, eff);
    ResumedDecided(e.workers[w], next, s, b);
  }

  lemma StepCrossed(e: Engine, w: nat, s: nat)
    requires Inv(e) && Enabled(e, Step(w)) && Crossed(e, s) == 1
    ensures Crossed(Do(e, Step(w)), s) == 1
    ensures Top(e.workers[w]).scan == s ==> !Top(e.workers[w]).pc.Finish?
  {
    var f := Top(e.workers[w]);
    var v := ViewOf(e, f.scan);
    FrameFacts(e, w);
    PcUnit(v, f);
    var step := StepPc(v, f.scan, f.pc);
    hide StepPc;
    EffectOnCrossed(e, f.scan, step.0, s);
  }

  lemma StepDecided(e: Engine, w: nat, s: nat, b: bool)
    requires Inv(e) && Enabled(e, Step(w)) && Decided(e, s, b)
    ensures Decided(Do(e, Step(w)), s, b)
  {
    var f := Top(e.workers[w]);
    var v := ViewOf(e, f.scan);
    StepCrossed(e, w, s);
    assert StackDecided(e.workers[w], s, b);
    PcHandsOn(v, f, s, b);
    var step := StepPc(v, f.scan, f.pc);
    hide StepPc, Commit, Crossed, LogDecided, HandsOn, StackDecided, Balanced;
    CommitDecided(e, w, step.0, step.1, s, b);
  }

  lemma DoDecided(e: Engine, a: Action, s: nat, b: bool)
    requires Inv(e) && Enabled(e, a) && Decided(e, s, b)
    ensures Decided(Do(e, a), s, b)
  {
    if a.Step? {
      StepDecided(e, a.w, s, b);
    } else {
      hide Balanced;
      var e' := Do(e, a);
      forall w | 0 <= w < |e'.workers| ensures StackDecided(e'.workers[w], s, b) {
        assert StackDecided(e.workers[w], s, b);
      }
    }
  }

  lemma {:induction false} RunDecided(e: Engine, run: seq<Action>, s: nat, b: bool)
    requires Inv(e) && Decided(e, s, b) && Legal(e, run)
    ensures Decided(After(e, run), s, b)
    decreases |run|
  {
    if run != [] {
      hide Inv, Decided, Do, Enabled;
      var n := |run| - 1;
      RunDecided(e, run[..n], s, b);
      RunKeepsInv(e, run[..n]);
      DoDecided(After(e, run[..n]), run[n], s, b);
    }
  }

  // Only one thread ends a scan, and before it no sentinel is out.
  lemma OnlyEnder(e: Engine, w: nat, v: nat)
    requires Inv(e) && Enabled(e, Step(w)) && Ending(Top(e.workers[w]).pc) && v < |e.workers| && v != w
    ensures e.workers[v] != [] && Top(e.workers[v]).scan == Top(e.workers[w]).scan ==> !Ending(Top(e.workers[v]).pc)
    ensures Crossed(e, Top(e.workers[w]).scan) == 1 && CountSentinel(e.log, Top(e.workers[w]).scan) == 0
  {
    var s := Top(e.workers[w]).scan;
    assert Balanced(e, Sent(s));
    var r := Exchange(e.workers, w, Return, Sent(s));
    if e.workers[v] != [] {
      WorkersSplit(e.workers, w, e.workers[w][..|e.workers[w]| - 1], Sent(s));
      var rest := e.workers[w := e.workers[w][..|e.workers[w]| - 1] + Resume(s, Return)];
      assert rest[v] == e.workers[v];
      var r2 := Exchange(rest, v, Return, Sent(s));
    }
  }

  lemma EnderAlone(e: Engine, w: nat)
    requires Inv(e) && Enabled(e, Step(w)) && Top(e.workers[w]).pc.LoadCanceled?
    ensures Crossed(e, Top(e.workers[w]).scan) == 1 && CountSentinel(e.log, Top(e.workers[w]).scan) == 0
  {
    var s := Top(e.workers[w]).scan;
    assert Balanced(e, Sent(s));
    var r := Exchange(e.workers, w, Return, Sent(s));
  }

  lemma LoadDecides(e: Engine, w: nat)
    requires Inv(e) && Enabled(e, Step(w)) && Top(e.workers[w]).pc.LoadCanceled?
    ensures var s := Top(e.workers[w]).scan; Decided(Do(e, Step(w)), s, e.ctx[s].canceled)
  {
    var f := Top(e.workers[w]);
    var s, b := f.scan, e.ctx[f.scan].canceled;
    EnderAlone(e, w);
    StepCrossed(e, w, s);
    forall v | 0 <= v < |e.workers| && v != w ensures StackDecided(e.workers[v], s, b) {
      OnlyEnder(e, w, v);
    }
    forall i | 0 <= i < |e.log| && e.log[i].Sentinel? ensures e.log[i].scan != s {
      NoSentinelCounted(e.log, s, i);
    }
    hide Commit, Crossed, StackDecided, Balanced;
    CommitDecided(e, w, Quiet, Become(Erase(b)), s, b);
  }

  /**
   When a cancel takes effect: in every continuation the scan's sentinel is marked canceled iff the flag was
   set at the moment the finishing thread read it.
   */
  lemma CancelTakesEffectIff(slots: nat, maxScans: nat, threads: nat, before: seq<Action>, w: nat,
                             after: seq<Action>, i: nat)
    requires Legal(Init(slots, maxScans, threads), before)
    requires
      var e := After(Init(slots, maxScans, threads), before);
      Enabled(e, Step(w)) && Top(e.workers[w]).pc.LoadCanceled?
    requires
      var e := After(Init(slots, maxScans, threads), before);
      Legal(Do(e, Step(w)), after) &&
      var log := After(Do(e, Step(w)), after).log;
      i < |log| && log[i].Sentinel? && log[i].scan == Top(e.workers[w]).scan
    ensures
      var e := After(Init(slots, maxScans, threads), before);
      After(Do(e, Step(w)), after).log[i].canceled <==> e.ctx[Top(e.workers[w]).scan].canceled
  {
    var e := After(Init(slots, maxScans, threads), before);
    RunOk(slots, maxScans, threads, before);
    DecidedEver(e, w, after);
  }

  lemma DecidedEver(e: Engine, w: nat, run: seq<Action>)
    requires Inv(e) && Enabled(e, Step(w)) && Top(e.workers[w]).pc.LoadCanceled? && Legal(Do(e, Step(w)), run)
    ensures
      var s := Top(e.workers[w]).scan;
      LogDecided(After(Do(e, Step(w)), run).log, s, e.ctx[s].canceled)
  {
    var s := Top(e.workers[w]).scan;
    StepKeepsInv(e, w);
    LoadDecides(e, w);
    hide Inv, Do, Legal, After, Crossed, LogDecided;
    RunDecided(Do(e, Step(w)), run, s, e.ctx[s].canceled);
  }
}
