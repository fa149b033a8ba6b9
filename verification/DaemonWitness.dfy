/**
 Three complete runs of the smallest daemon: one scan of one file. In the first the scan ends DONE; in the second a
 cancel returns true, yet the sentinel that reaches the exporter is uncanceled; in the third it comes in time.
 */
module DaemonWitness {
  import opened FileTree
  import opened Messages
  import opened Daemon
  import S = SchedulerModel
  import E = ScanEngine

  ghost predicate Here(d: System) {
    Reached(Init(1, 1, 1, 1), d)
  }

  lemma Goes(d: System, a: Action, d': System)
    requires Here(d) && Enabled(d, a) && Do(d, a) == d'
    ensures Here(d')
  {
    hide Enabled, Do, Reached;
    Advance(Init(1, 1, 1, 1), d, a);
  }

  function Entry(): S.PendingRoot {
    S.PendingRoot(1, "/a")
  }

  function Tree(): Work {
    Work("/a", File(0, 0))
  }

  // ----- the scheduler up to RUNNING -----

  function Submitted(): S.Sched {
    S.Init(1, 1).(state := map[1 := S.PENDING], roots := {"/a"}, queue := [Entry()], pending := 1, entries := [Entry()])
  }

  function Dispatching(): S.Sched {
    Submitted().(state := map[1 := S.DISPATCHING], disp := S.Calling(Entry()))
  }

  function Accepted(): S.Sched {
    Dispatching().(disp := S.Returned(Entry(), true, false), accepted := {1}, order := [0])
  }

  function Running(): S.Sched {
    Accepted().(queue := [], pending := 0, running := 1, state := map[1 := S.RUNNING], disp := S.Waiting)
  }

  lemma SchedulerSteps()
    ensures S.Do(S.Init(1, 1), S.Submit(1, "/a")) == Submitted()
    ensures S.Enabled(Submitted(), S.Take) && S.Do(Submitted(), S.Take) == Dispatching()
    ensures S.Do(Dispatching(), S.Accept) == Accepted()
    ensures S.Enabled(Accepted(), S.Complete) && S.Do(Accepted(), S.Complete) == Running()
  {
    SubmitStep();
    assert [Entry()][1..] == [];
  }

  lemma SubmitStep()
    ensures S.Do(S.Init(1, 1), S.Submit(1, "/a")) == Submitted()
  {
  }

  // ----- the engine -----

  function Empty(): E.Engine {
    E.Engine(1, 1, map[], {}, [], [[]], E.NoCall, false, map[], [], [])
  }

  function Context(unfinished: int, accepted: bool): E.Ctx {
    E.Ctx(Tree(), false, unfinished, accepted, false)
  }

  function InCall(call: E.Call, unfinished: int): E.Engine {
    Empty().(ctx := map[1 := Context(unfinished, false)], registry := {1}, call := call)
  }

  function Queued(): E.Engine {
    Empty().(ctx := map[1 := Context(1, true)], registry := {1}, queue := [E.Job(1, Tree(), true)])
  }

  // The one worker at pc.
  function At(pc: E.Pc, unfinished: int, log: seq<Msg>): E.Engine {
    Empty().(ctx := map[1 := Context(unfinished, true)], registry := {1}, workers := [[E.Frame(1, pc)]], log := log)
  }

  function Found(): seq<Msg> {
    [Event(1, EventOf(Tree()))]
  }

  // After the completion report.
  function Told1(pc: E.Pc, registry: set<nat>, log: seq<Msg>): E.Engine {
    At(pc, 0, log).(registry := registry, notifies := [1])
  }

  function Sent(): E.Engine {
    Told1(E.InsertRow(false), {}, Found() + [Sentinel(1, false, "/a")])
  }

  lemma CallSteps()
    ensures E.Do(Empty(), E.StartRoot(1, Tree())) == InCall(E.Registered(1, Tree()), 0)
    ensures E.Do(InCall(E.Registered(1, Tree()), 0), E.RootStep) == InCall(E.Added(1, Tree()), 1)
    ensures E.Do(InCall(E.Added(1, Tree()), 1), E.RootStep) == Queued()
    ensures E.Enabled(Queued(), E.Pop(0)) && E.Do(Queued(), E.Pop(0)) == At(E.Enter(Tree()), 1, [])
  {
    var job := E.Job(1, Tree(), true);
    assert [] + [job] == [job];
    assert [job][..0] == [];
    assert [[]][0 := [E.Frame(1, E.Enter(Tree()))]] == [[E.Frame(1, E.Enter(Tree()))]];
  }

  // A step of the one worker, given what its pc does.
  lemma OneFrame(e: E.Engine, pc: E.Pc, pc': E.Pc, eff: E.Effect, e': E.Engine)
    requires e.workers == [[E.Frame(1, pc)]] && 1 in e.ctx
    requires E.StepPc(E.ViewOf(e, 1), 1, pc) == (eff, E.Become(pc'))
    requires E.Apply(e, 1, eff).(workers := [[E.Frame(1, pc')]]) == e'
    ensures E.Enabled(e, E.Step(0)) && E.Do(e, E.Step(0)) == e'
  {
    hide E.StepPc, E.ViewOf;
    var f, f' := E.Frame(1, pc), E.Frame(1, pc');
    assert e.workers[0] == [f] && [f][..0] + [f'] == [f'];
    assert e.workers[0 := [f']] == [[f']];
  }

  lemma WorkSteps()
    ensures E.Do(At(E.Enter(Tree()), 1, []), E.Step(0)) == At(E.Scan(Tree()), 1, [])
    ensures E.Do(At(E.Scan(Tree()), 1, []), E.Step(0)) == At(E.Loop([]), 1, Found())
    ensures E.Do(At(E.Loop([]), 1, Found()), E.Step(0)) == At(E.Finish, 1, Found())
    ensures E.Do(At(E.Finish, 1, Found()), E.Step(0)) == At(E.NotifyFinished, 0, Found())
  {
    hide E.Do, E.Enabled;
    OneFrame(At(E.Enter(Tree()), 1, []), E.Enter(Tree()), E.Scan(Tree()), E.Quiet, At(E.Scan(Tree()), 1, []));
    OneFrame(At(E.Scan(Tree()), 1, []), E.Scan(Tree()), E.Loop([]), E.Emit(Event(1, EventOf(Tree()))),
             At(E.Loop([]), 1, Found()));
    OneFrame(At(E.Loop([]), 1, Found()), E.Loop([]), E.Finish, E.Quiet, At(E.Finish, 1, Found()));
    OneFrame(At(E.Finish, 1, Found()), E.Finish, E.NotifyFinished, E.Lose, At(E.NotifyFinished, 0, Found()));
  }

  lemma EndSteps()
    ensures E.Do(At(E.NotifyFinished, 0, Found()), E.Step(0)) == Told1(E.LoadCanceled, {1}, Found())
    ensures E.Do(Told1(E.LoadCanceled, {1}, Found()), E.Step(0)) == Told1(E.Erase(false), {1}, Found())
    ensures E.Do(Told1(E.Erase(false), {1}, Found()), E.Step(0)) == Told1(E.PushSentinel(false, false), {}, Found())
    ensures E.Do(Told1(E.PushSentinel(false, false), {}, Found()), E.Step(0)) == Sent()
  {
    hide E.Do, E.Enabled;
    OneFrame(At(E.NotifyFinished, 0, Found()), E.NotifyFinished, E.LoadCanceled, E.Tell,
             Told1(E.LoadCanceled, {1}, Found()));
    OneFrame(Told1(E.LoadCanceled, {1}, Found()), E.LoadCanceled, E.Erase(false), E.Quiet,
             Told1(E.Erase(false), {1}, Found()));
    OneFrame(Told1(E.Erase(false), {1}, Found()), E.Erase(false), E.PushSentinel(false, false), E.Unregister,
             Told1(E.PushSentinel(false, false), {}, Found()));
    OneFrame(Told1(E.PushSentinel(false, false), {}, Found()), E.PushSentinel(false, false), E.InsertRow(false),
             E.Emit(Sentinel(1, false, "/a")), Sent());
  }

  // The same worker after a cancel; `skipped` once it has dropped the file.
  function Cut(pc: E.Pc, unfinished: int, skipped: bool): E.Engine {
    At(pc, unfinished, []).(ctx := map[1 := E.Ctx(Tree(), true, unfinished, true, skipped)])
  }

  function CutTold(pc: E.Pc, registry: set<nat>, log: seq<Msg>): E.Engine {
    Cut(pc, 0, true).(registry := registry, notifies := [1], log := log)
  }

  lemma CutSteps()
    ensures E.Do(At(E.Enter(Tree()), 1, []), E.Cancel(1)) == Cut(E.Enter(Tree()), 1, false)
    ensures E.Do(Cut(E.Enter(Tree()), 1, false), E.Step(0)) == Cut(E.Finish, 1, true)
    ensures E.Do(Cut(E.Finish, 1, true), E.Step(0)) == Cut(E.NotifyFinished, 0, true)
    ensures E.Do(Cut(E.NotifyFinished, 0, true), E.Step(0)) == CutTold(E.LoadCanceled, {1}, [])
  {
    CutFlag();
    hide E.Do, E.Enabled;
    OneFrame(Cut(E.Enter(Tree()), 1, false), E.Enter(Tree()), E.Finish, E.Skip, Cut(E.Finish, 1, true));
    OneFrame(Cut(E.Finish, 1, true), E.Finish, E.NotifyFinished, E.Lose, Cut(E.NotifyFinished, 0, true));
    OneFrame(Cut(E.NotifyFinished, 0, true), E.NotifyFinished, E.LoadCanceled, E.Tell,
             CutTold(E.LoadCanceled, {1}, []));
  }

  lemma CutFlag()
    ensures E.Do(At(E.Enter(Tree()), 1, []), E.Cancel(1)) == Cut(E.Enter(Tree()), 1, false)
  {
  }

  lemma CutEnds()
    ensures E.Do(CutTold(E.LoadCanceled, {1}, []), E.Step(0)) == CutTold(E.Erase(true), {1}, [])
    ensures E.Do(CutTold(E.Erase(true), {1}, []), E.Step(0)) == CutTold(E.PushSentinel(true, true), {}, [])
    ensures E.Do(CutTold(E.PushSentinel(true, true), {}, []), E.Step(0))
         == CutTold(E.InsertRow(true), {}, [Sentinel(1, true, "/a")])
  {
    hide E.Do, E.Enabled;
    OneFrame(CutTold(E.LoadCanceled, {1}, []), E.LoadCanceled, E.Erase(true), E.Quiet, CutTold(E.Erase(true), {1}, []));
    OneFrame(CutTold(E.Erase(true), {1}, []), E.Erase(true), E.PushSentinel(true, true), E.Unregister,
             CutTold(E.PushSentinel(true, true), {}, []));
    OneFrame(CutTold(E.PushSentinel(true, true), {}, []), E.PushSentinel(true, true), E.InsertRow(true),
             E.Emit(Sentinel(1, true, "/a")), CutTold(E.InsertRow(true), {}, [Sentinel(1, true, "/a")]));
  }

  // ----- the runs -----

  lemma Begins()
    ensures Here(System(Dispatching(), Empty(), 0, 0))
  {
    var d0 := Init(1, 1, 1, 1);
    assert d0 == System(S.Init(1, 1), Empty(), 0, 0) by {
      var idle: seq<seq<E.Frame>> := [[]];
      assert seq(1, _ => []) == idle;
    }
    var none: seq<Action> := [];
    assert Legal(d0, none) && After(d0, none) == d0;
    assert Here(d0);
    SchedulerSteps();
    Goes(d0, Sched(S.Submit(1, "/a")), System(Submitted(), Empty(), 0, 0));
    Goes(System(Submitted(), Empty(), 0, 0), Sched(S.Take), System(Dispatching(), Empty(), 0, 0));
  }

  lemma IsAccepted()
    ensures Here(System(Accepted(), Queued(), 0, 0))
  {
    Begins();
    SchedulerSteps();
    CallSteps();
    hide E.Do, S.Do, Here;
    var d, r, a := Dispatching(), InCall(E.Registered(1, Tree()), 0), InCall(E.Added(1, Tree()), 1);
    Goes(System(d, Empty(), 0, 0), Start(File(0, 0)), System(d, r, 0, 0));
    Goes(System(d, r, 0, 0), Dispatch, System(d, a, 0, 0));
    Goes(System(d, a, 0, 0), Dispatch, System(Accepted(), Queued(), 0, 0));
  }

  // A worker's step that reports nothing to the scheduler.
  lemma Works(s: S.Sched, e: E.Engine, e': E.Engine)
    requires Here(System(s, e, 0, 0)) && E.Enabled(e, E.Step(0)) && E.Do(e, E.Step(0)) == e'
    requires !Tells(e, 0) && !TakesFlag(e, 0)
    ensures Here(System(s, e', 0, 0))
  {
    hide E.Do, Here;
    Goes(System(s, e, 0, 0), WorkerStep(0), System(s, e', 0, 0));
  }

  lemma Enters()
    ensures Here(System(Running(), At(E.Enter(Tree()), 1, []), 0, 0))
  {
    IsAccepted();
    SchedulerSteps();
    CallSteps();
    hide E.Do, S.Do, Here;
    var s := Running();
    Goes(System(Accepted(), Queued(), 0, 0), Sched(S.Complete), System(s, Queued(), 0, 0));
    Goes(System(s, Queued(), 0, 0), Pop(0), System(s, At(E.Enter(Tree()), 1, []), 0, 0));
  }

  lemma Crosses()
    ensures Here(System(Running(), At(E.NotifyFinished, 0, Found()), 0, 0))
  {
    Enters();
    WorkSteps();
    hide E.Do, S.Do, Here;
    var s := Running();
    Works(s, At(E.Enter(Tree()), 1, []), At(E.Scan(Tree()), 1, []));
    Works(s, At(E.Scan(Tree()), 1, []), At(E.Loop([]), 1, Found()));
    Works(s, At(E.Loop([]), 1, Found()), At(E.Finish, 1, Found()));
    Works(s, At(E.Finish, 1, Found()), At(E.NotifyFinished, 0, Found()));
  }

  lemma Ends(s: S.Sched)
    requires Here(System(s, At(E.NotifyFinished, 0, Found()), 0, 0)) && S.Enabled(s, S.Finished(1))
    ensures Here(System(S.Do(s, S.Finished(1)), Sent(), 0, 0))
  {
    EndSteps();
    hide E.Do, S.Do, S.Enabled, Here;
    var s' := S.Do(s, S.Finished(1));
    Goes(System(s, At(E.NotifyFinished, 0, Found()), 0, 0), WorkerStep(0),
         System(s', Told1(E.LoadCanceled, {1}, Found()), 0, 0));
    Works(s', Told1(E.LoadCanceled, {1}, Found()), Told1(E.Erase(false), {1}, Found()));
    Works(s', Told1(E.Erase(false), {1}, Found()), Told1(E.PushSentinel(false, false), {}, Found()));
    Works(s', Told1(E.PushSentinel(false, false), {}, Found()), Sent());
  }

  lemma FinishedStates()
    ensures S.Enabled(Running(), S.Finished(1)) && S.Do(Running(), S.Finished(1)).state == map[1 := S.DONE]
    ensures S.Do(Running(), S.Cancel(1)) == S.DoCancel(Running(), 1)
    ensures
      var s := S.DoCancel(Running(), 1);
      && S.Enabled(s, S.Finished(1)) && S.Do(s, S.Finished(1)).state == map[1 := S.CANCELED]
      && S.Do(s, S.Finished(1)).cancels == [1]
  {
  }

  /**
   A scan does complete: a run ends with the scan DONE, its file reported and its sentinel uncanceled. At that moment
   the sentinel can be popped although its task row is not inserted yet.
   */
  lemma ScanCompletes() returns (run: seq<Action>)
    ensures Legal(Init(1, 1, 1, 1), run)
    ensures
      var d := After(Init(1, 1, 1, 1), run);
      && 1 in d.sched.state && d.sched.state[1].DONE?
      && d.engine.log == [Event(1, Ev("/a", FILE, 0, 0, 0)), Sentinel(1, false, "/a")]
      && 1 !in d.engine.rows
  {
    hide Legal, After, S.Do, E.Do;
    Crosses();
    FinishedStates();
    Ends(Running());
    run := RunTo(Init(1, 1, 1, 1), System(S.Do(Running(), S.Finished(1)), Sent(), 0, 0));
  }

  /** A cancel can return true too late for the sentinel: the scan is CANCELED but exported as complete. */
  lemma CanceledButExportedAsComplete() returns (run: seq<Action>)
    ensures Legal(Init(1, 1, 1, 1), run)
    ensures
      var d := After(Init(1, 1, 1, 1), run);
      && 1 in d.sched.state && d.sched.state[1].CANCELED? && d.sched.cancels == [1]
      && d.engine.log == [Event(1, Ev("/a", FILE, 0, 0, 0)), Sentinel(1, false, "/a")]
  {
    hide Legal, After, S.Do, E.Do;
    Crosses();
    FinishedStates();
    var s := S.DoCancel(Running(), 1);
    Goes(System(Running(), At(E.NotifyFinished, 0, Found()), 0, 0), Sched(S.Cancel(1)),
            System(s, At(E.NotifyFinished, 0, Found()), 0, 0));
    Ends(s);
    run := RunTo(Init(1, 1, 1, 1), System(S.Do(s, S.Finished(1)), Sent(), 0, 0));
  }

  function CancelReturned(): S.Sched {
    S.DoCancel(Running(), 1)
  }

  lemma CancelStates()
    ensures S.Do(Running(), S.Cancel(1)) == CancelReturned()
    ensures S.Enabled(CancelReturned(), S.CancelCall(1))
    ensures
      var s := S.Do(CancelReturned(), S.CancelCall(1));
      && S.Enabled(s, S.Finished(1)) && S.Do(s, S.Finished(1)).state == map[1 := S.CANCELED]
      && S.Do(s, S.Finished(1)).cancels == [1]
  {
  }

  /** And one in time: the scan reports nothing and its sentinel is marked canceled. */
  lemma CanceledInTime() returns (run: seq<Action>)
    ensures Legal(Init(1, 1, 1, 1), run)
    ensures
      var d := After(Init(1, 1, 1, 1), run);
      && d.sched.state == map[1 := S.CANCELED] && d.sched.cancels == [1]
      && d.engine.log == [Sentinel(1, true, "/a")]
  {
    hide Legal, After, S.Do, E.Do, Here;
    Enters();
    CancelStates();
    CutSteps();
    CutEnds();
    var e := At(E.Enter(Tree()), 1, []);
    var s := S.Do(CancelReturned(), S.CancelCall(1));
    Goes(System(Running(), e, 0, 0), Sched(S.Cancel(1)), System(CancelReturned(), e, 0, 0));
    Goes(System(CancelReturned(), e, 0, 0), CancelCall(1), System(s, Cut(E.Enter(Tree()), 1, false), 0, 0));
    Works(s, Cut(E.Enter(Tree()), 1, false), Cut(E.Finish, 1, true));
    Works(s, Cut(E.Finish, 1, true), Cut(E.NotifyFinished, 0, true));
    run := CutRun(s);
  }

  lemma CutRun(s: S.Sched) returns (run: seq<Action>)
    requires Here(System(s, Cut(E.NotifyFinished, 0, true), 0, 0)) && S.Enabled(s, S.Finished(1))
    ensures Legal(Init(1, 1, 1, 1), run)
    ensures After(Init(1, 1, 1, 1), run)
         == System(S.Do(s, S.Finished(1)), CutTold(E.InsertRow(true), {}, [Sentinel(1, true, "/a")]), 0, 0)
  {
    CutSteps();
    CutEnds();
    var s' := S.Do(s, S.Finished(1));
    var last := System(s', CutTold(E.InsertRow(true), {}, [Sentinel(1, true, "/a")]), 0, 0);
    Reports(s);
    hide Legal, After, S.Do, E.Do, S.Enabled;
    Works(s', CutTold(E.LoadCanceled, {1}, []), CutTold(E.Erase(true), {1}, []));
    Works(s', CutTold(E.Erase(true), {1}, []), CutTold(E.PushSentinel(true, true), {}, []));
    Works(s', CutTold(E.PushSentinel(true, true), {}, []), last.engine);
    run := RunTo(Init(1, 1, 1, 1), last);
  }

  lemma Reports(s: S.Sched)
    requires Here(System(s, Cut(E.NotifyFinished, 0, true), 0, 0)) && S.Enabled(s, S.Finished(1))
    ensures Here(System(S.Do(s, S.Finished(1)), CutTold(E.LoadCanceled, {1}, []), 0, 0))
  {
    CutSteps();
    hide S.Do, E.Do, S.Enabled, Here;
    Goes(System(s, Cut(E.NotifyFinished, 0, true), 0, 0), WorkerStep(0),
         System(S.Do(s, S.Finished(1)), CutTold(E.LoadCanceled, {1}, []), 0, 0));
  }
}
