/** A run in which the recorded crash signal is dropped: a drain that has recorded a crash fails on another
    thread, and the monitor detaches. */
module CrashDrops {
  import opened Bytes
  import opened Tids
  import opened MonitorRuns
  import opened MonitorProofs
  import Archive

  const SIGABRT: int := 6
  const SIGSEGV: int := 11

  const silence := Choice([], {}, Silent, Exited, 1, false, 0, 0, {})

  /** The leader stops with SIGSEGV, by default fatal; the worker stops with SIGABRT, whose disposition cannot
      be read. During the detach the leader is found stopped without a status, and the worker is interrupted. */
  function Script(clock: nat): Choice {
    if clock == 0 then silence.(fate := Reports, status := Stopped(SIGSEGV, NoEvent))
    else if clock == 2 then silence.(fate := Reports, status := Stopped(SIGABRT, NoEvent))
    else if clock == 3 then silence.(answer := -1)
    else if clock == 6 then silence.(yes := true)
    else if clock == 12 then silence.(fate := Reports, status := Stopped(SIGTRAP, Stop))
    else silence
  }

  const leader: Tid := 1
  const worker: Tid := 2

  function Seized(): Kernel {
    Kernel(Script, 0, leader, {leader, worker}, {leader, worker}, {}, {}, {}, {}, map[],
           multiset{}, multiset{}, multiset{}, multiset{}, multiset{}, EMPTY_LOG)
  }

  function Start(): State {
    State({leader, worker}, 0, 0, false, false, Seized())
  }

  /** When the leader has crashed; what has been seen by then is in `log`. */
  function AfterCrash(log: Log): State {
    var k := Seized().(clock := 2, holding := map[leader := SIGSEGV], consumed := multiset{(leader, SIGSEGV)},
                       log := log);
    Start().(exitSig := SIGSEGV, crashTid := leader, k := k)
  }

  /** When the drain has failed. */
  function AfterDrain(log: Log): State {
    var k := Seized().(clock := 5, holding := map[leader := SIGSEGV],
                       consumed := multiset{(leader, SIGSEGV), (worker, SIGABRT)},
                       injected := multiset{(worker, SIGABRT)}, log := log);
    Start().(exitSig := SIGSEGV, crashTid := leader, k := k)
  }

  /** When the leader has been detached. */
  function AfterLeader(log: Log): State {
    var s := AfterDrain(log);
    s.(k := s.k.(clock := 9, reported := {worker}, holding := map[], dropped := multiset{(leader, SIGSEGV)}))
  }

  function AfterBoth(log: Log): State {
    var s := AfterLeader(log);
    s.(k := s.k.(clock := 14, reported := {}))
  }

  /** The two kernels differ in the log only. */
  ghost predicate Like(k: Kernel, k1: Kernel) {
    k1 == k.(log := k1.log)
  }

  lemma Waited(k: Kernel)
    requires k.script == Script
    ensures Moved(k) == k.(clock := k.clock + 1) && Current(k) == Script(k.clock)
  {}

  lemma SilentWait(k: Kernel, tid: Tid, retried: bool)
    requires k.script == Script && Script(k.clock).fate == Silent
    ensures var (w, k1) := WaitStep(k, tid, retried); w == NoStatus && Like(k.(clock := k.clock + 1), k1)
  {
    Waited(k);
    hide Moved;
  }

  lemma StopWait(k: Kernel, tid: Tid, retried: bool)
    requires k.script == Script && Script(k.clock).fate == Reports
    requires Possible(k.(clock := k.clock + 1), tid, Script(k.clock).status)
    ensures WaitStep(k, tid, retried)
         == (Status(Script(k.clock).status), Reported(k.(clock := k.clock + 1), tid, Script(k.clock).status))
  {
    Waited(k);
    hide Moved;
  }

  lemma LeastOf(tids: set<Tid>, tid: Tid)
    requires tid in tids && forall t :: t in tids ==> tid <= t
    ensures Least(tids) == tid
  {}

  lemma LeaderStops()
    ensures var (w, k) := WaitStep(Seized(), leader, false);
      w == Status(Stopped(SIGSEGV, NoEvent)) && k == AfterCrash(k.log).k.(clock := 1)
  {
    StopWait(Seized(), leader, false);
    hide WaitStep, Possible;
    var k := Reported(Seized().(clock := 1), leader, Stopped(SIGSEGV, NoEvent));
    assert k == AfterCrash(k.log).k.(clock := 1) by {
      assert k.holding == map[leader := SIGSEGV] && k.consumed == multiset{(leader, SIGSEGV)} && k.newborn == {};
    }
  }

  lemma LeaderCrashes()
    ensures var (turn, s) := DrainOne(Start(), leader); turn == Progress && s == AfterCrash(s.k.log)
  {
    LeaderStops();
    DrainOneStop(Start(), leader);
    var k1 := WaitStep(Seized(), leader, false).1;
    Asked(k1, leader, SIGSEGV);
    hide WaitStep, DispositionStep, DrainOne, Continue;
  }

  lemma WorkerFails(log: Log)
    ensures var (turn, s) := DrainOne(AfterCrash(log), worker); turn == Leave(Failed) && s == AfterDrain(s.k.log)
  {
    var s := AfterCrash(log);
    StopWait(s.k, worker, false);
    DrainOneStop(s, worker);
    var k1 := WaitStep(s.k, worker, false).1;
    Waited(k1);
    var k2 := DispositionStep(k1, worker, SIGABRT).1;
    Waited(k2);
    hide WaitStep, Moved, DrainOne, DispositionStep;
    assert DispositionStep(k1, worker, SIGABRT).0 == -1 && Like(k1.(clock := 4), k2) by {
      Asked(k1, worker, SIGABRT);
    }
    var k3 := ContStep(k2, worker, SIGABRT).1;
    assert k3 == AfterDrain(k3.log).k by {
      assert k3.consumed == AfterDrain(k3.log).k.consumed && k3.injected == AfterDrain(k3.log).k.injected;
      assert k3.holding == map[leader := SIGSEGV] && k3.parked == {} && k3.newborn == {};
    }
    hide ContStep;
    assert DrainDelivery(s.(k := k1), worker, SIGABRT) == (false, AfterDrain(k3.log));
  }

  lemma Asked(k: Kernel, tid: Tid, sig: int)
    requires k.script == Script
    ensures var (answer, k1) := DispositionStep(k, tid, sig);
      answer == Script(k.clock).answer && Like(k.(clock := k.clock + 1), k1)
  {
    Waited(k);
    hide Moved;
  }

  lemma PassOn(s: State, todo: set<Tid>, progress: bool, s1: State)
    requires todo != {} && DrainOne(s, Least(todo)) == (Progress, s1)
    ensures DrainPass(s, todo, progress) == DrainPass(s1, todo - {Least(todo)}, true)
  {
    hide DrainOne, Least;
  }

  lemma PassLeft(s: State, todo: set<Tid>, progress: bool, s1: State)
    requires todo != {} && DrainOne(s, Least(todo)) == (Leave(Failed), s1)
    ensures DrainPass(s, todo, progress) == (Left(Failed), s1)
  {
    hide DrainOne, Least;
  }

  lemma PassFails()
    ensures var (pass, s) := DrainPass(Start(), {leader, worker}, false);
      pass == Left(Failed) && s == AfterDrain(s.k.log)
  {
    LeaderCrashes();
    var s := DrainOne(Start(), leader).1;
    WorkerFails(s.k.log);
    var s1 := DrainOne(s, worker).1;
    LeastOf({leader, worker}, leader);
    LeastOf({worker}, worker);
    assert {leader, worker} - {leader} == {worker};
    hide DrainOne, DrainPass, Least, Start, AfterCrash, AfterDrain;
    PassOn(Start(), {leader, worker}, false, s);
    PassLeft(s, {worker}, true, s1);
  }

  lemma DrainFails(rounds: nat)
    requires rounds > 0
    ensures var (state, s) := DrainRun(Start(), rounds); state == Failed && s == AfterDrain(s.k.log)
  {
    PassFails();
    assert Start().tids == {leader, worker};
    hide DrainPass, Start, AfterDrain, Reconcile;
  }

  lemma LeaderStopped(log: Log)
    ensures var k := AfterDrain(log).k;
      var (kind, rc, k1) := StopForDetach(k, leader, false);
      kind == Synthetic && rc == 0 && Like(k.(clock := 8), k1)
  {
    var k := AfterDrain(log).k;
    SilentWait(k, leader, false);
    var k1 := WaitStep(k, leader, false).1;
    Waited(k1);
    var k2 := Moved(k1);
    SilentWait(k2, leader, true);
    hide WaitStep, Moved;
  }

  lemma LeaderDetached(log: Log)
    ensures var (child, rc, s) := DetachOne(AfterDrain(log), leader);
      child == None && rc == 0 && s == AfterLeader(s.k.log)
  {
    LeaderStopped(log);
    var k := StopForDetach(AfterDrain(log).k, leader, false).2;
    Waited(k);
    hide StopForDetach, Moved;
    var k1 := DetachStep(k, leader, 0);
    assert k1 == AfterLeader(k1.log).k by {
      assert k1.holding == map[] && k1.reported == {worker} && k1.parked == {};
      assert k1.dropped == multiset{(leader, SIGSEGV)};
    }
    hide DetachStep;
  }

  /** In the stop that the interrupt has led to. */
  function WorkerStopped(log: Log): Kernel {
    AfterLeader(log).k.(clock := 13, parked := {worker})
  }

  lemma WorkerAwaited(log: Log)
    ensures var (kind, rc, k) := AwaitStop(AfterLeader(log).k.(clock := 12), worker);
      kind == Real(Stopped(SIGTRAP, Stop)) && rc == 0 && k == WorkerStopped(k.log)
  {
    var k := AfterLeader(log).k;
    hide RecoverRun, WaitStep;
    StopWait(k.(clock := 12), worker, true);
    var k1 := Reported(k.(clock := 13), worker, Stopped(SIGTRAP, Stop));
    assert k1 == WorkerStopped(k1.log);
    hide Possible, Reported;
  }

  /** The way to a stop by an interrupt. */
  lemma InterruptPath(k: Kernel, tid: Tid) returns (log: Log)
    requires k.script == Script && Script(k.clock).fate == Silent && !Script(k.clock + 1).yes && tid in k.reported
    ensures var (kind, late, k1) := AwaitStop(k.(clock := k.clock + 3, log := log), tid);
      StopForDetach(k, tid, false) == (kind, if late != 0 then -1 else 0, k1)
  {
    SilentWait(k, tid, false);
    var k1 := WaitStep(k, tid, false).1;
    Waited(k1);
    Waited(Moved(k1));
    log := k1.log;
    hide WaitStep, Moved, AwaitStop, Script;
  }

  lemma WorkerInterrupted(log: Log)
    ensures var (kind, rc, k) := StopForDetach(AfterLeader(log).k, worker, false);
      kind == Real(Stopped(SIGTRAP, Stop)) && rc == 0 && k == WorkerStopped(k.log)
  {
    hide StopForDetach, AwaitStop, WorkerStopped;
    var later := InterruptPath(AfterLeader(log).k, worker);
    WorkerAwaited(later);
    assert AfterLeader(log).k.(clock := 12, log := later) == AfterLeader(later).k.(clock := 12);
  }

  lemma WorkerDetached(log: Log)
    ensures var (child, rc, s) := DetachOne(AfterLeader(log), worker);
      child == None && rc == 0 && s == AfterBoth(s.k.log)
  {
    WorkerInterrupted(log);
    var k := StopForDetach(AfterLeader(log).k, worker, false).2;
    Waited(k);
    hide StopForDetach, Moved;
    var k1 := DetachStep(k, worker, 0);
    assert k1 == AfterBoth(k1.log).k by {
      assert k1.parked == {} && k1.reported == {} && k1.holding == map[];
    }
    hide DetachStep;
  }

  lemma DetachSucceeds(log: Log, limit: nat)
    requires limit >= 2
    ensures var r := DetachRun(AfterDrain(log), limit); r == Detached(0, true, AfterBoth(r.s.k.log).(tids := {}))
  {
    LeaderDetached(log);
    var s := DetachOne(AfterDrain(log), leader).2;
    WorkerDetached(s.k.log);
    var s1 := DetachOne(s, worker).2;
    LeastOf({leader, worker}, leader);
    LeastOf({worker}, worker);
    assert AfterDrain(log).tids == {leader, worker} && s.tids == {leader, worker};
    assert {leader, worker} - {leader} + {} == {worker} && {worker} - {worker} + {} == {};
    hide DetachOne, Least, AfterDrain, AfterLeader, AfterBoth;
    assert DetachLoop(s, {worker}, 0, limit - 1) == DetachLoop(s1, {}, 0, limit - 2);
    assert DetachLoop(AfterDrain(log), {leader, worker}, 0, limit) == DetachLoop(s1, {}, 0, limit - 2);
  }

  /** From a monitor that has just seized the target: the drain records the crash of the leader and fails on
      the worker; the detach that follows succeeds and lets both threads go alive, and the crash signal, which
      was consumed, is neither injected nor lost with its thread. */
  lemma CrashDropped(rounds: nat, limit: nat)
    requires rounds >= 1 && limit >= 2
    ensures Fresh(Start())
    ensures var (state, s) := DrainRun(Start(), rounds);
      var r := DetachRun(s, limit);
      && state == Failed && s.exitSig == SIGSEGV && s.crashTid == leader && leader in s.k.holding
      && r.done && r.rc == 0 && r.s.k.reported == {} && r.s.k.lost == multiset{}
      && r.s.k.consumed[(leader, SIGSEGV)] == 1 && r.s.k.injected[(leader, SIGSEGV)] == 0
      && r.s.k.dropped == multiset{(leader, SIGSEGV)}
  {
    DrainFails(rounds);
    DetachSucceeds(DrainRun(Start(), rounds).1.k.log, limit);
    hide DrainRun, DetachRun;
  }
}
