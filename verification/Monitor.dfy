/** drain_monitor_events, detach_monitored_threads and kill_crashed as they are written. Each computes its run
    in module MonitorRuns, for every behaviour of the target and the kernel. */
module Monitoring {
  import opened Bytes
  import opened Tids
  import opened MonitorRuns
  import Archive

  class Monitor {
    var tids: set<Tid>
    var exitSig: int
    var crashTid: int
    var leaderExited: bool
    var inGroupStop: bool
    /** The target and the kernel. */
    var k: Kernel

    ghost function Now(): State
      reads this
    {
      State(tids, exitSig, crashTid, leaderExited, inGroupStop, k)
    }

    constructor (k: Kernel)
      ensures Now() == State(k.reported, 0, 0, false, false, k)
    {
      this.k, tids := k, k.reported;
      exitSig, crashTid, leaderExited, inGroupStop := 0, 0, false, false;
    }

    // -------------------------------------------------------------- requests

    method Wait(tid: Tid, retried: bool) returns (w: WaitResult)
      modifies this`k
      ensures (w, k) == WaitStep(old(k), tid, retried)
    {
      var r := WaitStep(k, tid, retried);
      w, k := r.0, r.1;
    }

    method Cont(tid: Tid, sig: int) returns (ok: bool)
      modifies this`k
      ensures (ok, k) == ContStep(old(k), tid, sig)
    {
      var r := ContStep(k, tid, sig);
      ok, k := r.0, r.1;
    }

    method Detach(tid: Tid, sig: int)
      modifies this`k
      ensures k == DetachStep(old(k), tid, sig)
    {
      k := DetachStep(k, tid, sig);
    }

    method GetEventMsg(tid: Tid) returns (child: Option<Tid>)
      modifies this`k
      ensures (child, k) == EventMsgStep(old(k), tid)
    {
      var r := EventMsgStep(k, tid);
      child, k := r.0, r.1;
    }

    method Request(tid: Tid, listen: bool) returns (ok: bool)
      modifies this`k
      ensures (ok, k) == RequestStep(old(k), tid, listen)
    {
      var r := RequestStep(k, tid, listen);
      ok, k := r.0, r.1;
    }

    method GetRegs(tid: Tid) returns (stopped: bool)
      modifies this`k
      ensures (stopped, k) == RegsStep(old(k), tid)
    {
      var r := RegsStep(k, tid);
      stopped, k := r.0, r.1;
    }

    method IsZombie(tid: Tid) returns (zombie: bool)
      modifies this`k
      ensures (zombie, k) == ZombieStep(old(k), tid)
    {
      var r := ZombieStep(k, tid);
      zombie, k := r.0, r.1;
    }

    method Disposition(tid: Tid, sig: int) returns (answer: int)
      modifies this`k
      ensures (answer, k) == DispositionStep(old(k), tid, sig)
    {
      var r := DispositionStep(k, tid, sig);
      answer, k := r.0, r.1;
    }

    method Ask() returns (answer: int)
      modifies this`k
      ensures (answer, k) == AskStep(old(k))
    {
      var r := AskStep(k);
      answer, k := r.0, r.1;
    }

    // -------------------------------------------------------------- drain_monitor_events

    method CloneEvent(tid: Tid) returns (ok: bool)
      modifies this
      ensures (ok, Now()) == DrainClone(old(Now()), tid)
    {
      hide WaitStep, ContStep, DetachStep, EventMsgStep, AskStep;
      var named := GetEventMsg(tid);
      if named.None? { return false; }
      var child := named.value;
      tids := tids + {child};
      var w := Wait(child, true);
      if !w.Stop() { return false; }
      var membership := Ask();
      if membership < 0 { return false; }
      if membership == 0 {
        Detach(child, 0);
        tids := tids - {child};
        if exitSig == 0 {
          ok := Cont(tid, 0);
          return;
        }
        return true;
      }
      if exitSig == 0 {
        ok := Cont(tid, 0);
        if !ok { return; }
        ok := Cont(child, 0);
        return;
      }
      ok := true;
    }

    method Deliver(tid: Tid, sig: int) returns (ok: bool)
      modifies this
      ensures (ok, Now()) == DrainDelivery(old(Now()), tid, sig)
    {
      hide ContStep, DispositionStep, Archive.IsCoreDumpSignal;
      if Archive.IsCoreDumpSignal(sig) {
        var disposition := Disposition(tid, sig);
        if disposition < 0 {
          var _ := Cont(tid, sig);
          return false;
        }
        if disposition > 0 {
          ok := Cont(tid, sig);
          return;
        }
        if exitSig == 0 {
          exitSig, crashTid := sig, tid;
        }
        return true;
      }
      if IsJobStop(sig) {
        if exitSig == 0 {
          ok := Cont(tid, sig);
          return;
        }
      } else if exitSig == 0 {
        if sig == SIGCONT { inGroupStop := false; }
        ok := Cont(tid, sig);
        return;
      }
      ok := true;
    }

    /** The stop of one thread. */
    method HandleStop(tid: Tid, status: Status) returns (turn: Turn)
      requires status.Stopped?
      modifies this
      ensures (turn, Now()) == DrainStop(old(Now()), tid, status)
    {
      hide ContStep, RequestStep, DrainClone, DrainDelivery, IsJobStop;
      var ok := true;
      if status.event == Exec {
        tids, leaderExited, inGroupStop := {k.pid}, false, false;
        if exitSig == 0 {
          ok := Cont(tid, 0);
        }
        return if ok then Rebuild else Leave(Failed);
      }
      if status.event in {Clone, Fork, Vfork} {
        ok := CloneEvent(tid);
      } else if status.event == Exit {
        if tid == k.pid { leaderExited := true; }
        if exitSig == 0 {
          ok := Cont(tid, 0);
        }
      } else if status.event != NoEvent {
        if status.event == Stop && IsJobStop(status.sig) {
          ok := Request(tid, true);
          if ok { inGroupStop := true; }
        } else if exitSig == 0 {
          if status.event == Stop && status.sig == SIGTRAP { inGroupStop := false; }
          ok := Cont(tid, 0);
        }
      } else {
        ok := Deliver(tid, status.sig);
      }
      return if ok then Progress else Leave(Failed);
    }

    /** One thread's turn in the drain loop. */
    method Poll(tid: Tid) returns (turn: Turn)
      modifies this
      ensures (turn, Now()) == DrainOne(old(Now()), tid)
    {
      hide WaitStep, AskStep, DrainStop, Archive.IsCoreDumpSignal;
      var w := Wait(tid, false);
      if w.NoStatus? || w.Interrupted? { return Idle; }
      if w.NoChild? {
        if tid != k.pid {
          var membership := Ask();
          if membership == 0 {
            tids := tids - {tid};
            return Progress;
          }
        }
        var alive := Ask();
        if alive == 0 {
          tids := tids - {tid};
          return if tid == k.pid then Leave(ProcessGone) else Progress;
        }
        return Leave(Failed);
      }
      var status := w.status;
      if !status.Stopped? {
        var termSig := if status.Signaled? then status.sig else 0;
        tids := tids - {tid};
        if status.Signaled? && Archive.IsCoreDumpSignal(termSig) { return Leave(Failed); }
        if tid == k.pid { return Leave(ProcessGone); }
        return Progress;
      }
      turn := HandleStop(tid, status);
    }

    method TakeBack() returns (turn: Turn)
      modifies this
      ensures (turn, Now()) == Reconcile(old(Now()))
    {
      hide Deaths;
      var c := Current(k);
      k := Moved(k);
      if c.answer > 0 { return Leave(ProcessGone); }
      if c.answer < 0 {
        k := Trouble(k);
        return Leave(Failed);
      }
      var traced := set t | t in c.traced && Adoptable(k, crashTid, leaderExited, t);
      tids := tids + traced;
      k := k.(reported := k.reported + traced, used := k.used + traced);
      if c.yes {
        k := Trouble(k);
        return Leave(Failed);
      }
      return if tids == {} then Leave(ProcessGone) else Progress;
    }

    /** drain_monitor_events, for up to `rounds` passes over the recorded threads. */
    method Drain(rounds: nat) returns (state: DrainState)
      modifies this
      ensures (state, Now()) == DrainRun(old(Now()), rounds)
    {
      hide DrainOne, Reconcile;
      ghost var goal := DrainRun(Now(), rounds);
      var left := rounds;
      while left > 0
        invariant DrainRun(Now(), left) == goal
      {
        var progress, todo := false, tids;
        ghost var pass := DrainPass(Now(), todo, false);
        while todo != {}
          invariant DrainPass(Now(), todo, progress) == pass
          decreases |todo|
        {
          var tid := Least(todo);
          todo := todo - {tid};
          var turn := Poll(tid);
          match turn {
            case Idle =>
            case Progress => progress := true;
            case Rebuild => progress, todo := true, {};
            case Leave(s) => return s;
          }
        }
        if tids == {} {
          var turn := TakeBack();
          if turn.Leave? { return turn.state; }
          progress := true;
        }
        if !progress { return if exitSig != 0 then Crashed else Quiet; }
        left := left - 1;
      }
      state := Busy;
    }

    // -------------------------------------------------------------- detach_monitored_threads

    method Recover(tid: Tid, turns: nat) returns (kind: StopKind)
      modifies this`k
      ensures (kind, k) == RecoverRun(old(k), tid, turns)
    {
      hide WaitStep;
      for i := 0 to turns
        invariant RecoverRun(k, tid, turns - i) == RecoverRun(old(k), tid, turns)
      {
        var w := Wait(tid, true);
        if w.Stop() { return Real(w.status); }
        if w.Status? { return Gone; }
      }
      kind := Gone;
    }

    method WaitStoppedForDetach(tid: Tid) returns (kind: StopKind, rc: int)
      modifies this`k
      ensures (kind, rc, k) == AwaitStop(old(k), tid)
    {
      hide WaitStep, RecoverRun;
      var turns := Current(k).turns;
      var w := Wait(tid, true);
      if w.Stop() { return Real(w.status), 0; }
      if !w.NoChild? { return Gone, -1; }
      kind := Recover(tid, turns);
      rc := -1;
    }

    method StopThread(tid: Tid) returns (kind: StopKind, rc: int)
      modifies this`k
      ensures (kind, rc, k) == StopForDetach(old(k), tid, leaderExited)
    {
      hide WaitStep, RegsStep, RequestStep, AwaitStop, ZombieStep;
      rc := 0;
      var w := Wait(tid, false);
      if w.NoStatus? && tid == k.pid && leaderExited {
        var zombie := IsZombie(tid);
        if zombie { return ZombieLeader, rc; }
      }
      if w.Status? { return Real(w.status), rc; }
      if w.Interrupted? { rc := -1; }
      var stopped := GetRegs(tid);
      if stopped {
        w := Wait(tid, true);
        if w.NoChild? { rc := -1; }
        return (if w.Status? then Real(w.status) else Synthetic), rc;
      }
      var interrupted := Request(tid, false);
      if !interrupted { return Gone, rc; }
      var late;
      kind, late := WaitStoppedForDetach(tid);
      if late != 0 { rc := -1; }
    }

    /** detach_monitored_threads, for up to `limit` threads. */
    method DetachAll(limit: nat) returns (rc: int, done: bool)
      modifies this
      ensures Detached(rc, done, Now()) == DetachRun(old(Now()), limit)
    {
      hide StopForDetach, EventMsgStep, DetachStep;
      rc, done := 0, false;
      var pending, left := tids, limit;
      ghost var goal := DetachRun(Now(), limit);
      while pending != {}
        invariant DetachLoop(Now(), pending, rc, left) == goal
        decreases left
      {
        if left == 0 { return; }
        left := left - 1;
        var tid := Least(pending);
        pending := pending - {tid};
        ghost var none: set<Tid> := {};
        assert pending + none == pending;
        var kind, failed := StopThread(tid);
        if failed != 0 { rc := -1; }
        if kind.Gone? || kind.ZombieLeader? { continue; }
        if kind.Real? && kind.status.Stopped? && kind.status.event == Clone {
          var child := GetEventMsg(tid);
          if child.Some? {
            pending := pending + {child.value};
            tids := tids + {child.value};
          } else {
            rc := -1;
          }
        }
        var relay := if kind.Real? && kind.status.Delivery() then kind.status.sig else 0;
        Detach(tid, relay);
      }
      tids := {};
      done := true;
    }

    // -------------------------------------------------------------- kill_crashed

    method KillCrashed()
      modifies this
      ensures Now() == KillRun(old(Now()))
    {
      hide DetachStep;
      var todo := tids;
      while todo != {}
        invariant KillLoop(Now(), todo) == KillRun(old(Now()))
        decreases |todo|
      {
        var tid := Least(todo);
        todo := todo - {tid};
        if leaderExited && tid == k.pid { continue; }
        Detach(tid, exitSig);
      }
      tids := {};
    }
  }
}
