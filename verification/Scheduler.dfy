/** Scheduler: its fields, and its critical sections as methods over them. */
module Scheduler {
  import opened Paths
  import opened SchedulerModel
  import opened SchedulerProofs
  import ST = SchedulerTheorems

  class Scheduler {
    const maxConcurrent: nat
    const queueMax: nat
    var running: int
    var pending: int
    var managerFull: bool
    var state: map<nat, RequestState>
    var roots: set<string>
    var queue: seq<PendingRoot>

    // Where the dispatcher and the cancelling threads are, and what has happened so far.
    ghost var disp: Dispatcher
    ghost var cancelCalls: set<nat>
    ghost var entries: seq<PendingRoot>
    ghost var order: seq<nat>
    ghost var accepted: set<nat>
    ghost var notified: set<nat>
    ghost var exported: set<nat>
    ghost var cancels: seq<nat>

    ghost function View(): Sched
      reads this
    {
      Sched(maxConcurrent, queueMax, running, pending, managerFull, state, roots, queue, disp, cancelCalls,
            entries, order, accepted, notified, exported, cancels)
    }

    ghost predicate Valid()
      reads this
    {
      Inv(View())
    }

    // Configured zeros count as one.
    constructor (maxScans: nat, queueSize: nat)
      ensures View() == Init(if maxScans == 0 then 1 else maxScans, if queueSize == 0 then 1 else queueSize)
      ensures Valid()
    {
      maxConcurrent := if maxScans == 0 then 1 else maxScans;
      queueMax := if queueSize == 0 then 1 else queueSize;
      running, pending, managerFull := 0, 0, false;
      state, roots, queue := map[], {}, [];
      disp, cancelCalls, entries, order := Waiting, {}, [], [];
      accepted, notified, exported, cancels := {}, {}, {}, [];
      new;
      InitInv(maxConcurrent, queueMax);
    }

    /** check_non_overlap_path: true iff the path overlaps no locked root. */
    method CheckNonOverlapPath(path: string) returns (ok: bool)
      ensures ok <==> forall r :: r in roots ==> !PathsOverlap(path, r)
      ensures ok <==> NonOverlapping(roots, path)
    {
      if path in roots {
        return false;
      }
      var rest := roots;
      while rest != {}
        invariant rest <= roots
        invariant forall r :: r in roots - rest ==> !PathsOverlap(path, r)
        decreases |rest|
      {
        var r :| r in rest;
        if PathsOverlap(path, r) {
          return false;
        }
        rest := rest - {r};
      }
      ok := true;
    }

    /** submit_scan_root; `root` is the answer of normalize_path and `id` that of gen_scan_id. */
    method SubmitScanRoot(root: string, id: nat) returns (result: SubmitScanResult)
      requires Valid() && id > 0
      modifies this
      ensures
        var waiting, conflict := |old(PendingIds(queue, state))|, old(ST.Conflicts(entries, exported, root));
        && (result.Invalid? <==> root == "")
        && (result.QueueFull? <==> root != "" && waiting == queueMax)
        && (result.OverlapConflict? <==> root != "" && waiting < queueMax && conflict)
        && (result.InternalError? <==> root != "" && waiting < queueMax && !conflict && id in old(state))
      ensures View() == DoSubmit(old(View()), id, root) && Valid()
      ensures result == SubmitResult(old(View()), id, root)
    {
      hide Inv, ST.Conflicts;
      SubmitKeeps(View(), id, root);
      ST.SubmitAnswers(View(), id, root);
      if root == "" {
        return Invalid;
      }
      if pending >= queueMax {
        return QueueFull;
      }
      var ok := CheckNonOverlapPath(root);
      if !ok {
        return OverlapConflict;
      }
      if id in state {
        return InternalError;
      }
      state := state[id := PENDING];
      roots := roots + {root};
      var data := PendingRoot(id, root);
      queue := queue + [data];
      pending := pending + 1;
      entries := entries + [data];
      result := Ok;
    }

    /** run(), first critical section: `data` is the entry to hand to the manager, if any. */
    method TakeFront() returns (dispatch: bool, data: PendingRoot)
      requires Valid() && disp.Waiting? && CanTake(View())
      modifies this
      ensures View() == DoTake(old(View())) && Valid()
      ensures dispatch <==> disp == Calling(data)
      ensures data == old(queue)[0] && (dispatch <==> data.id in old(state) && old(state)[data.id].PENDING?)
      ensures queue == if dispatch then old(queue) else old(queue)[1..]
      ensures state == if dispatch then old(state)[data.id := DISPATCHING] else old(state)
    {
      hide Inv;
      TakeKeeps(View());
      data := queue[0];
      if data.id !in state || state[data.id] != PENDING {
        dispatch := false;
        queue := queue[1..];
        if data.id in state && state[data.id] != DROPPED {
          pending := pending - 1;
        }
      } else {
        dispatch := true;
        state := state[data.id := DISPATCHING];
        disp := Calling(data);
      }
    }

    method PopIfFront(id: nat)
      modifies this`queue
      ensures queue == PopFront(old(queue), id)
    {
      if queue != [] && queue[0].id == id {
        queue := queue[1..];
      }
    }

    /** run(), second critical section, with what the manager answered. */
    method Complete(data: PendingRoot, managerAccept: bool, queueFull: bool) returns (cancelAfterAccept: bool)
      requires Valid() && disp == Returned(data, managerAccept, queueFull)
      modifies this
      ensures View() == DoComplete(old(View())) && Valid()
      ensures cancelAfterAccept <==> disp == Canceling(data.id)
      ensures cancelAfterAccept <==> managerAccept && data.id in old(state) && old(state)[data.id].CANCELED?
      ensures data.id in old(state) && old(state)[data.id].DISPATCHING? ==>
                && var st := if managerAccept then RUNNING else if queueFull then PENDING else FAILED;
                && state == old(state)[data.id := st]
                && (managerFull <==> old(managerFull) || (!managerAccept && queueFull))
    {
      hide Inv, PopFront;
      CompleteKeeps(View());
      cancelAfterAccept := false;
      var id := data.id;
      disp := Waiting;
      if id !in state {
        return;
      }
      if state[id] == CANCELED {
        PopIfFront(id);
        pending := pending - 1;
        if managerAccept {
          cancelAfterAccept := true;
          running := running + 1;
          disp := Canceling(id);
        }
      } else if state[id] == DISPATCHING {
        if managerAccept {
          running := running + 1;
          state := state[id := RUNNING];
          PopIfFront(id);
          pending := pending - 1;
        } else if queueFull {
          managerFull := true;
          state := state[id := PENDING];
        } else {
          PopIfFront(id);
          pending := pending - 1;
          state := state[id := FAILED];
        }
      }
    }

    /** cancel: `callManager` says that manager.cancel_scan is called after the lock is released. */
    method Cancel(id: nat) returns (ok: bool, callManager: bool)
      requires Valid()
      modifies this
      ensures View() == DoCancel(old(View()), id) && Valid()
      ensures ok <==> id in old(state) &&
                      (old(state)[id].PENDING? || old(state)[id].DISPATCHING? || old(state)[id].RUNNING?)
      ensures ok ==> state == old(state)[id := if old(state)[id].PENDING? then DROPPED else CANCELED]
      ensures callManager <==> ok && !old(state)[id].PENDING?
      ensures cancelCalls == if callManager then old(cancelCalls) + {id} else old(cancelCalls)
    {
      hide Inv;
      CancelKeeps(View(), id);
      ok, callManager := false, false;
      if id !in state || Final(state[id]) {
        return;
      }
      ok := true;
      cancels := cancels + [id];
      if state[id] == RUNNING || state[id] == DISPATCHING {
        state := state[id := CANCELED];
        callManager := true;
        cancelCalls := cancelCalls + {id};
      } else {
        state := state[id := DROPPED];
        pending := pending - 1;
      }
    }

    /**
     notify_scan_finished, for any id. The invariant is kept for an unknown id and for one report of an accepted
     scan; the manager makes no other call.
     */
    method NotifyScanFinished(id: nat)
      requires Valid()
      modifies this`running, this`state, this`notified
      ensures
        var st := if id in old(state) then old(state)[id] else FAILED;
        && running == (if st.RUNNING? || st.CANCELED? then old(running) - 1 else old(running))
        && state == (if st.RUNNING? || st.DISPATCHING? then old(state)[id := DONE] else old(state))
      ensures id in accepted && id !in old(notified) ==> View() == DoFinished(old(View()), id) && Valid()
      ensures id !in old(state) ==> View() == old(View()) && Valid()
    {
      hide Inv, DoFinished;
      FinishedStep(View(), id);
      if id in accepted && id !in notified {
        FinishedKeeps(View(), id);
      }
      if id in accepted {
        notified := notified + {id};
      }
      if id in state {
        var st := state[id];
        if st == RUNNING || st == CANCELED {
          running := running - 1;
        }
        if st == RUNNING || st == DISPATCHING {
          state := state[id := DONE];
        }
      }
    }

    method NotifyDispatchAvailable()
      requires Valid()
      modifies this
      ensures View() == old(View()).(managerFull := false) && Valid()
    {
      hide Inv;
      DoKeeps(View(), Available);
      managerFull := false;
    }

    /**
     notify_export_done, for any root. The invariant is kept when nothing holds the root, and when it is the root
     of the scan `id` whose export this reports.
     */
    method NotifyExportDone(ghost id: nat, root: string)
      requires Valid()
      modifies this`roots, this`exported
      ensures roots == old(roots) - {root}
      ensures id in notified && id !in old(exported) && root == RootOf(entries, id) ==>
                View() == DoExportDone(old(View()), id) && Valid()
      ensures root !in old(roots) && id !in notified ==> View() == old(View()) && Valid()
    {
      hide Inv;
      if id in notified && id !in exported && root == RootOf(entries, id) {
        ExportKeeps(View(), id);
      }
      roots := roots - {root};
      exported := if id in notified then exported + {id} else exported;
    }

    /** get_state: what the daemon shows for each asked id. */
    method GetState(ids: seq<nat>) returns (states: seq<RequestState>)
      ensures |states| == |ids|
      ensures forall i :: 0 <= i < |ids| ==>
                && !states[i].DISPATCHING?
                && (ids[i] !in state ==> states[i] == FAILED)
                && (ids[i] in state && state[ids[i]].DISPATCHING? ==> states[i] == PENDING)
                && (ids[i] in state && !state[ids[i]].DISPATCHING? ==> states[i] == state[ids[i]])
    {
      states := [];
      for i := 0 to |ids|
        invariant |states| == i
        invariant forall k :: 0 <= k < i ==>
                    && !states[k].DISPATCHING?
                    && (ids[k] !in state ==> states[k] == FAILED)
                    && (ids[k] in state && state[ids[k]].DISPATCHING? ==> states[k] == PENDING)
                    && (ids[k] in state && !state[ids[k]].DISPATCHING? ==> states[k] == state[ids[k]])
      {
        if ids[i] !in state {
          states := states + [FAILED];
        } else if state[ids[i]] == DISPATCHING {
          states := states + [PENDING];
        } else {
          states := states + [state[ids[i]]];
        }
      }
    }
  }

  lemma FinishedStep(s: Sched, id: nat)
    requires Inv(s)
    ensures
      var s' := DoFinished(s, id);
      && s'.running ==
         (if id in s.state && (s.state[id].RUNNING? || s.state[id].CANCELED?) then s.running - 1 else s.running)
      && s'.state ==
         (if id in s.state && (s.state[id].RUNNING? || s.state[id].DISPATCHING?) then s.state[id := DONE] else s.state)
      && s' == s.(running := s'.running, state := s'.state, notified := s.notified + {id})
    ensures s.accepted <= s.state.Keys
  {
    hide QueueOk, FrontOk, WaitOk, PendingOk, CancelsOk, RunningOk, OrderOk, LockOk;
  }
}
