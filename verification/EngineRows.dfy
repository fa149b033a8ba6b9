/** The task row of a finished scan: it is inserted after the sentinel, and agrees with it. */
module EngineRows {
  import opened FileTree
  import opened Messages
  import opened ScanEngine
  import opened EngineMass
  import opened EngineInvariant
  import opened EngineTheorems
  import opened CancelFlags
  import Serial

  // The scan's sentinel is out and says canceled.
  predicate SaysCanceled(log: seq<Msg>, s: nat) {
    exists i :: 0 <= i < |log| && log[i].Sentinel? && log[i].scan == s && log[i].canceled
  }

  predicate Inserting(st: seq<Frame>, s: nat) {
    st != [] && Top(st).scan == s && Top(st).pc.InsertRow?
  }

  // A row's end state against the flag and the sentinel.
  ghost predicate RowFits(row: bool, log: seq<Msg>, ctx: map<nat, Ctx>, s: nat) {
    (row ==> Canceled(ctx, s)) && Serial.Closed(log, s) && (SaysCanceled(log, s) ==> row)
  }

  ghost predicate FrameFits(f: Frame, log: seq<Msg>, ctx: map<nat, Ctx>) {
    match f.pc
    case Erase(c) => c ==> Canceled(ctx, f.scan)
    case PushSentinel(c, row) => (c ==> row) && (row ==> Canceled(ctx, f.scan))
    case InsertRow(row) => RowFits(row, log, ctx, f.scan)
    case _ => true
  }

  ghost predicate StackFits(st: seq<Frame>, log: seq<Msg>, ctx: map<nat, Ctx>) {
    st != [] ==> FrameFits(Top(st), log, ctx)
  }

  ghost predicate RowsFit(rows: map<nat, bool>, log: seq<Msg>, ctx: map<nat, Ctx>) {
    forall s :: s in rows ==> RowFits(rows[s], log, ctx, s)
  }

  // Every sentinel that is out has its row, or somebody is about to insert it.
  ghost predicate RowsDue(e: Engine) {
    forall s :: Serial.Closed(e.log, s) ==>
      s in e.rows || exists w :: 0 <= w < |e.workers| && Inserting(e.workers[w], s)
  }

  ghost predicate RowsOk(e: Engine) {
    && (forall w :: 0 <= w < |e.workers| ==> StackFits(e.workers[w], e.log, e.ctx))
    && RowsFit(e.rows, e.log, e.ctx)
    && RowsDue(e)
  }

  // ----- one step -----

  lemma ClosedPush(log: seq<Msg>, m: Msg, s: nat)
    ensures Serial.Closed(log + [m], s) <==> Serial.Closed(log, s) || (m.Sentinel? && m.scan == s)
    ensures SaysCanceled(log + [m], s) <==> SaysCanceled(log, s) || (m.Sentinel? && m.scan == s && m.canceled)
  {
    var all := log + [m];
    if Serial.Closed(log, s) {
      var i :| 0 <= i < |log| && log[i].Sentinel? && log[i].scan == s;
      assert all[i] == log[i];
    }
    if SaysCanceled(log, s) {
      var i :| 0 <= i < |log| && log[i].Sentinel? && log[i].scan == s && log[i].canceled;
      assert all[i] == log[i];
    }
    assert all[|log|] == m;
  }

  // The log and the contexts may move on where the scan has its sentinel out.
  lemma FitsLater(row: bool, log: seq<Msg>, m: Msg, ctx: map<nat, Ctx>, s: nat)
    requires RowFits(row, log, ctx, s) && (m.Sentinel? ==> m.scan != s)
    ensures RowFits(row, log + [m], ctx, s)
  {
    ClosedPush(log, m, s);
  }

  // Flags are only ever set.
  ghost predicate FlagsGrow(ctx: map<nat, Ctx>, ctx': map<nat, Ctx>) {
    forall s :: Canceled(ctx, s) ==> Canceled(ctx', s)
  }

  // The effect a call at pc has, as far as rows and sentinels are concerned.
  ghost predicate RowStep(v: View, f: Frame, eff: Effect, next: Next) {
    && (next.Become? && next.pc.Erase? ==> next.pc.canceled ==> v.canceled)
    && (next.Become? && next.pc.PushSentinel? ==>
          f.pc.Erase? && next.pc.canceled == f.pc.canceled && next.pc.rowCanceled == v.canceled)
    && (next.Become? && next.pc.InsertRow? ==>
          && f.pc.PushSentinel? && eff == Emit(Sentinel(f.scan, f.pc.canceled, v.root))
          && next.pc.rowCanceled == f.pc.rowCanceled)
    && (f.pc.InsertRow? ==> eff == PutRow(f.pc.rowCanceled))
    && (eff.PutRow? ==> f.pc.InsertRow?)
    && (eff.Emit? && eff.msg.Sentinel? ==> f.pc.PushSentinel? && next.Become? && next.pc.InsertRow?)
    && (eff.Emit? ==> eff.msg.scan == f.scan)
  }

  lemma PcRowStep(v: View, f: Frame)
    ensures var (eff, next) := StepPc(v, f.scan, f.pc); RowStep(v, f, eff, next)
  {
  }

  lemma EffectRows(e: Engine, s: nat, eff: Effect)
    requires s in e.ctx
    ensures Apply(e, s, eff).rows == if eff.PutRow? then e.rows[s := eff.canceled] else e.rows
    ensures Apply(e, s, eff).log == if eff.Emit? then e.log + [eff.msg] else e.log
    ensures forall x :: Canceled(Apply(e, s, eff).ctx, x) <==> Canceled(e.ctx, x)
  {
    EffectOnContexts(e, s, eff, 0);
  }

  lemma FrameFitsLater(f: Frame, log: seq<Msg>, log': seq<Msg>, ctx: map<nat, Ctx>, ctx': map<nat, Ctx>)
    requires FrameFits(f, log, ctx) && FlagsGrow(ctx, ctx')
    requires log' == log || exists m :: log' == log + [m] && (m.Sentinel? ==> !Serial.Closed(log, m.scan))
    ensures FrameFits(f, log', ctx')
  {
    hide Canceled;
    if f.pc.InsertRow? && log' != log {
      var m :| log' == log + [m] && (m.Sentinel? ==> !Serial.Closed(log, m.scan));
      FitsLater(f.pc.rowCanceled, log, m, ctx, f.scan);
    }
  }

  lemma RowsFitLater(rows: map<nat, bool>, log: seq<Msg>, log': seq<Msg>, ctx: map<nat, Ctx>, ctx': map<nat, Ctx>)
    requires RowsFit(rows, log, ctx) && FlagsGrow(ctx, ctx')
    requires log' == log || exists m :: log' == log + [m] && (m.Sentinel? ==> !Serial.Closed(log, m.scan))
    ensures RowsFit(rows, log', ctx')
  {
    hide Canceled, Serial.Closed, SaysCanceled;
    forall s | s in rows ensures RowFits(rows[s], log', ctx', s) {
      if log' != log {
        var m :| log' == log + [m] && (m.Sentinel? ==> !Serial.Closed(log, m.scan));
        FitsLater(rows[s], log, m, ctx, s);
      }
    }
  }

  // A sentinel is pushed only where none is out.
  lemma FirstSentinel(e: Engine, w: nat)
    requires Inv(e) && Enabled(e, Step(w)) && Top(e.workers[w]).pc.PushSentinel?
    ensures !Serial.Closed(e.log, Top(e.workers[w]).scan)
  {
    var s := Top(e.workers[w]).scan;
    EmitFacts(e, w);
    if Serial.Closed(e.log, s) {
      var i :| 0 <= i < |e.log| && e.log[i].Sentinel? && e.log[i].scan == s;
      NoSentinelCounted(e.log, s, i);
    }
  }

  // The frame that steps fits again.
  lemma NextFits(e: Engine, w: nat, eff: Effect, next: Next)
    requires Enabled(e, Step(w)) && RowsOk(e)
    requires var f := Top(e.workers[w]); RowStep(ViewOf(e, f.scan), f, eff, next)
    requires Top(e.workers[w]).pc.PushSentinel? ==> !Serial.Closed(e.log, Top(e.workers[w]).scan)
    ensures
      var f, e' := Top(e.workers[w]), Apply(e, Top(e.workers[w]).scan, eff);
      next.Become? ==> FrameFits(Frame(f.scan, next.pc), e'.log, e'.ctx)
  {
    var f := Top(e.workers[w]);
    assert StackFits(e.workers[w], e.log, e.ctx);
    EffectRows(e, f.scan, eff);
    hide Apply;
    if next.Become? && next.pc.InsertRow? {
      ClosedPush(e.log, eff.msg, f.scan);
      NotSaid(e.log, f.scan);
    }
  }

  lemma NotSaid(log: seq<Msg>, s: nat)
    requires !Serial.Closed(log, s)
    ensures !SaysCanceled(log, s)
  {
  }

  lemma ResumedFits(st: seq<Frame>, next: Next, log: seq<Msg>, ctx: map<nat, Ctx>)
    requires st != [] && StackWaits(st)
    requires next.Become? ==> FrameFits(Frame(Top(st).scan, next.pc), log, ctx)
    ensures StackFits(st[..|st| - 1] + Resume(Top(st).scan, next), log, ctx)
  {
    var n, x := |st| - 1, Top(st).scan;
    if next.Return? {
      assert st[..n] + Resume(x, next) == st[..n];
    } else {
      assert Top(st[..n] + Resume(x, next)) == Resume(x, next)[|Resume(x, next)| - 1];
    }
  }

  // The messages a step sends respect the sentinels that are out.
  lemma Later(e: Engine, s: nat, eff: Effect)
    requires s in e.ctx && (eff.Emit? && eff.msg.Sentinel? ==> !Serial.Closed(e.log, eff.msg.scan))
    ensures
      var log' := Apply(e, s, eff).log;
      log' == e.log || exists m :: log' == e.log + [m] && (m.Sentinel? ==> !Serial.Closed(e.log, m.scan))
  {
    EffectRows(e, s, eff);
  }

  lemma CommitRowsFit(e: Engine, w: nat, eff: Effect, next: Next)
    requires Inv(e) && Enabled(e, Step(w)) && RowsOk(e)
    requires var f := Top(e.workers[w]); RowStep(ViewOf(e, f.scan), f, eff, next)
    ensures
      var e' := Commit(e, w, eff, next);
      && (forall v :: 0 <= v < |e'.workers| ==> StackFits(e'.workers[v], e'.log, e'.ctx))
      && RowsFit(e'.rows, e'.log, e'.ctx)
  {
    hide Balanced, Apply, Resume, FrameFits, RowFits, RowsFit, Canceled, Serial.Closed, SaysCanceled;
    var f := Top(e.workers[w]);
    if f.pc.PushSentinel? {
      FirstSentinel(e, w);
    }
    var e' := Apply(e, f.scan, eff);
    EffectOnContexts(e, f.scan, eff, 0);
    EffectRows(e, f.scan, eff);
    Later(e, f.scan, eff);
    NextFits(e, w, eff, next);
    ResumedFits(e.workers[w], next, e'.log, e'.ctx);
    forall v | 0 <= v < |e.workers| && v != w ensures StackFits(e.workers[v], e'.log, e'.ctx) {
      if e.workers[v] != [] {
        assert StackFits(e.workers[v], e.log, e.ctx);
        FrameFitsLater(Top(e.workers[v]), e.log, e'.log, e.ctx, e'.ctx);
      }
    }
    RowsFitLater(e.rows, e.log, e'.log, e.ctx, e'.ctx);
    if eff.PutRow? {
      assert StackFits(e.workers[w], e.log, e.ctx);
      PutFits(e.rows, f, e.log, e.ctx, e'.ctx);
    }
  }

  lemma PutFits(rows: map<nat, bool>, f: Frame, log: seq<Msg>, ctx: map<nat, Ctx>, ctx': map<nat, Ctx>)
    requires RowsFit(rows, log, ctx') && FrameFits(f, log, ctx) && f.pc.InsertRow? && FlagsGrow(ctx, ctx')
    ensures RowsFit(rows[f.scan := f.pc.rowCanceled], log, ctx')
  {
    hide Canceled, Serial.Closed, SaysCanceled;
  }

  lemma CommitRowsDue(e: Engine, w: nat, eff: Effect, next: Next)
    requires Enabled(e, Step(w)) && RowsOk(e) && CallersWait(e.workers)
    requires var f := Top(e.workers[w]); RowStep(ViewOf(e, f.scan), f, eff, next)
    ensures RowsDue(Commit(e, w, eff, next))
  {
    hide Apply, FrameFits, RowFits, RowsFit, StackFits;
    var f, st := Top(e.workers[w]), e.workers[w];
    var e' := Commit(e, w, eff, next);
    EffectOnContexts(e, f.scan, eff, 0);
    EffectRows(e, f.scan, eff);
    forall s | Serial.Closed(e'.log, s)
      ensures s in e'.rows || exists v :: 0 <= v < |e'.workers| && Inserting(e'.workers[v], s)
    {
      if eff.Emit? {
        ClosedPush(e.log, eff.msg, s);
      }
      if !Serial.Closed(e.log, s) {
        assert s == f.scan && next.Become? && next.pc.InsertRow?;
        TopOfResume(st, next);
        assert Inserting(e'.workers[w], s);
      } else if s !in e.rows {
        var v :| 0 <= v < |e.workers| && Inserting(e.workers[v], s);
        if v != w {
          assert Inserting(e'.workers[v], s);
        }
      }
    }
  }

  lemma TopOfResume(st: seq<Frame>, next: Next)
    requires st != [] && next.Become?
    ensures
      var st' := st[..|st| - 1] + Resume(Top(st).scan, next);
      st' != [] && Top(st') == Frame(Top(st).scan, next.pc)
  {
  }

  lemma StepRows(e: Engine, w: nat)
    requires Inv(e) && Enabled(e, Step(w)) && RowsOk(e)
    ensures RowsOk(Do(e, Step(w)))
  {
    var f := Top(e.workers[w]);
    var v := ViewOf(e, f.scan);
    PcRowStep(v, f);
    var step := StepPc(v, f.scan, f.pc);
    hide StepPc, Commit, RowStep, RowsFit, RowsDue, StackFits, Balanced;
    CommitRowsFit(e, w, step.0, step.1);
    CommitRowsDue(e, w, step.0, step.1);
  }

  // ----- the other steps leave log and rows alone -----

  lemma OtherRows(e: Engine, e': Engine)
    requires RowsOk(e) && e'.log == e.log && e'.rows == e.rows && |e'.workers| == |e.workers|
    requires forall s :: Canceled(e.ctx, s) && Serial.Closed(e.log, s) ==> Canceled(e'.ctx, s)
    requires forall w :: 0 <= w < |e.workers| && e.workers[w] != [] ==>
               && e'.workers[w] == e.workers[w]
               && (Canceled(e.ctx, Top(e.workers[w]).scan) ==> Canceled(e'.ctx, Top(e.workers[w]).scan))
    requires forall w :: 0 <= w < |e.workers| && e.workers[w] == [] && e'.workers[w] != [] ==>
               Top(e'.workers[w]).pc.Enter?
    ensures RowsOk(e')
  {
    hide Canceled, Serial.Closed, SaysCanceled;
    forall w | 0 <= w < |e'.workers| ensures StackFits(e'.workers[w], e'.log, e'.ctx) {
      assert StackFits(e.workers[w], e.log, e.ctx);
    }
    forall s | Serial.Closed(e'.log, s)
      ensures s in e'.rows || exists w :: 0 <= w < |e'.workers| && Inserting(e'.workers[w], s)
    {
      if s !in e.rows {
        var w :| 0 <= w < |e.workers| && Inserting(e.workers[w], s);
        assert Inserting(e'.workers[w], s);
      }
    }
  }

  lemma CallRows(e: Engine)
    requires Inv(e) && LogOk(e) && RowsOk(e) && Enabled(e, RootStep)
    ensures RowsOk(CallStep(e))
  {
    var e', k := CallStep(e), e.call.scan;
    forall w | 0 <= w < |e.workers| && e.workers[w] != [] && Canceled(e.ctx, Top(e.workers[w]).scan)
      ensures Canceled(e'.ctx, Top(e.workers[w]).scan)
    {
      FrameFacts(e, w);
    }
    forall s | Canceled(e.ctx, s) && Serial.Closed(e.log, s) ensures Canceled(e'.ctx, s) {
      var i :| 0 <= i < |e.log| && e.log[i].Sentinel? && e.log[i].scan == s;
    }
    hide Balanced, RowsOk, LogOk, Canceled, Serial.Closed;
    OtherRows(e, e');
  }

  lemma DoRows(e: Engine, a: Action)
    requires Inv(e) && LogOk(e) && RowsOk(e) && Enabled(e, a)
    ensures RowsOk(Do(e, a))
  {
    if a.Step? {
      StepRows(e, a.w);
    } else if a.RootStep? {
      CallRows(e);
    } else {
      hide Inv, LogOk, RowsOk, Serial.Closed;
      OtherRows(e, Do(e, a));
    }
  }

  lemma {:induction false} RunRows(slots: nat, maxScans: nat, threads: nat, run: seq<Action>)
    requires Legal(Init(slots, maxScans, threads), run)
    ensures RowsOk(After(Init(slots, maxScans, threads), run))
    decreases |run|
  {
    if run != [] {
      hide Inv, LogOk, RowsOk, Do;
      var n := |run| - 1;
      RunRows(slots, maxScans, threads, run[..n]);
      RunOk(slots, maxScans, threads, run[..n]);
      DoRows(After(Init(slots, maxScans, threads), run[..n]), run[n]);
    }
  }

  /**
   Task rows: in every run a scan whose sentinel is out has its row inserted, or a worker is about to insert it; only
   such scans have rows. The row's end state is CANCELED if the sentinel is marked canceled, and only if the flag is
   set.
   */
  lemma RowForEverySentinel(slots: nat, maxScans: nat, threads: nat, run: seq<Action>, s: nat)
    requires Legal(Init(slots, maxScans, threads), run)
    ensures
      var e := After(Init(slots, maxScans, threads), run);
      && (Serial.Closed(e.log, s) ==> s in e.rows || exists w :: 0 <= w < |e.workers| && Inserting(e.workers[w], s))
      && (s in e.rows ==>
            && Serial.Closed(e.log, s)
            && (SaysCanceled(e.log, s) ==> e.rows[s]) && (e.rows[s] ==> Canceled(e.ctx, s)))
  {
    hide Legal, After, FrameFits;
    RunRows(slots, maxScans, threads, run);
    var e := After(Init(slots, maxScans, threads), run);
    assert s in e.rows ==> RowFits(e.rows[s], e.log, e.ctx, s);
  }
}
