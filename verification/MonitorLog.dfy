/** What every run of the drain asks and answers: which signals it passes on, which one it takes for the crash,
    whom it lets run, and when it stops. */
module MonitorAnswers {
  import opened Bytes
  import opened Tids
  import opened MonitorRuns
  import opened MonitorProofs
  import Archive

  ghost predicate IsCore(c: Delivery) {
    Archive.IsCoreDumpSignal(c.1)
  }

  /** Each delivery of a core-dumping signal was asked about exactly once, and there are no more injections of
      it than answers that clear it. */
  ghost predicate Fair(k: Kernel, c: Delivery) {
    k.consumed[c] == k.log.cleared[c] + multiset(k.log.fatal)[c] && k.injected[c] <= k.log.cleared[c]
  }

  ghost predicate Accounted(k: Kernel) {
    forall c: Delivery | IsCore(c) :: Fair(k, c)
  }

  /** The recorded crash is the first delivery that was answered default. */
  ghost predicate CrashIsFirst(s: State) {
    && (s.exitSig == 0 <==> s.k.log.fatal == [])
    && (s.exitSig != 0 ==> s.crashTid == s.k.log.fatal[0].0 && s.exitSig == s.k.log.fatal[0].1)
  }

  /** And no thread was continued out of a group stop, nor, since that delivery, for anything but to pass on a
      core-dumping signal. */
  ghost predicate Answered(s: State) {
    Accounted(s.k) && CrashIsFirst(s) && s.k.log.woken == {} && !s.k.log.thawed
  }

  /** The monitor knows whether the process is stopped by job control and whether its leader has exited, and has
      been told of no thread that a core-dumping signal killed before its stop was seen. */
  ghost predicate Flags(s: State) {
    && (s.exitSig == 0 ==> s.inGroupStop == s.k.log.jobStop)
    && s.leaderExited == s.k.log.leaderLeft && !s.k.log.uncaught
  }

  // ---------------------------------------------------------------- what each request does to the log

  /** Time passes. */
  ghost predicate Same(k: Kernel, k1: Kernel) {
    && k1.log == k.log && k1.consumed == k.consumed && k1.injected == k.injected
    && k1.newborn == k.newborn && k1.pid == k.pid && k1.used == k.used && k1.reported <= k.reported
  }

  lemma {:induction false} DeathsSame(k: Kernel, dead: seq<Tid>)
    ensures Same(k, Deaths(k, dead))
    decreases |dead|
  {
    if dead != [] { DeathsSame(Die(k, dead[0]), dead[1..]); }
  }

  lemma MovedSame(k: Kernel)
    ensures Same(k, Moved(k))
  {
    DeathsSame(k, Current(k).dead);
  }

  /** Nothing is answered and nobody is continued. */
  ghost predicate Steady(k: Kernel, k1: Kernel) {
    && k1.consumed == k.consumed && k1.injected == k.injected && k1.pid == k.pid
    && k1.log.cleared == k.log.cleared && k1.log.fatal == k.log.fatal && k1.log.woken == k.log.woken
    && k1.log.thawed == k.log.thawed && k1.log.listening <= k.log.listening
    && k1.log.jobStop == k.log.jobStop && k1.log.leaderLeft == k.log.leaderLeft
  }

  lemma AskSteady(k: Kernel)
    ensures var k1 := AskStep(k).1; Steady(k, k1) && k1.log.uncaught == k.log.uncaught
  {
    MovedSame(k);
    hide Moved;
  }

  lemma DetachSteady(k: Kernel, tid: Tid)
    ensures var k1 := DetachStep(k, tid, 0); Steady(k, k1) && k1.log.uncaught == k.log.uncaught
  {
    MovedSame(k);
    hide Moved;
  }

  lemma RequestSteady(k: Kernel, tid: Tid)
    ensures var k1 := RequestStep(k, tid, true).1; Steady(k, k1) && k1.log.uncaught == k.log.uncaught
  {
    MovedSame(k);
    hide Moved;
  }

  lemma EventMsgSteady(k: Kernel, tid: Tid)
    ensures var (child, k1) := EventMsgStep(k, tid);
      && Steady(k, k1) && k1.log.uncaught == k.log.uncaught
      && (child.Some? ==> child.value !in k1.log.listening)
  {
    MovedSame(k);
    hide Moved;
  }

  lemma WaitQuiet(k: Kernel, tid: Tid, retried: bool)
    requires !WaitStep(k, tid, retried).0.Stop()
    ensures var (w, k1) := WaitStep(k, tid, retried);
      k1 == if w.NoStatus? || w.Interrupted? then SeenNothing(Moved(k), tid, w.Interrupted?, retried)
            else SeenEnd(Moved(k), w, retried)
  {
    var c := Current(k);
    if Possible(Moved(k), tid, c.status) { ChildKnown(Moved(k), tid, c.status); }
    hide Moved, Reported, Possible, SeenNothing, SeenEnd;
  }

  /** A wait without a stop. */
  lemma WaitSteady(k: Kernel, tid: Tid, retried: bool)
    requires !WaitStep(k, tid, retried).0.Stop()
    ensures var (w, k1) := WaitStep(k, tid, retried);
      && Steady(k, k1)
      && (k1.log.uncaught <==>
            (k.log.uncaught || (w.Status? && w.status.Signaled? && Archive.IsCoreDumpSignal(w.status.sig))))
  {
    MovedSame(k);
    WaitQuiet(k, tid, retried);
    hide Moved, WaitStep, Archive.IsCoreDumpSignal;
  }

  /** A wait with a stop. */
  lemma WaitSeen(k: Kernel, tid: Tid, retried: bool)
    requires WaitStep(k, tid, retried).0.Stop()
    ensures var (w, k1) := WaitStep(k, tid, retried);
      Possible(Moved(k), tid, w.status) && k1 == Reported(Moved(k), tid, w.status) && Same(k, Moved(k))
  {
    MovedSame(k);
    hide Moved, Possible, Reported;
  }

  /** A first stop is no delivery, and says nothing about job control. */
  lemma BornSteady(k: Kernel, k1: Kernel, tid: Tid, status: Status)
    requires Same(k, k1) && Possible(k1, tid, status) && tid in k.newborn
    ensures var k2 := Reported(k1, tid, status);
      Steady(k, k2) && k2.log.uncaught == k.log.uncaught && tid !in k2.log.listening
  {}

  /** A thread is continued that is in no group stop. */
  ghost predicate Continued(k: Kernel, k1: Kernel, tid: Tid, sig: int) {
    && k1.consumed == k.consumed && k1.pid == k.pid
    && (k1.injected == k.injected || (sig != 0 && k1.injected == k.injected + multiset{(tid, sig)}))
    && k1.log.cleared == k.log.cleared && k1.log.fatal == k.log.fatal && k1.log.woken == k.log.woken
    && (k1.log.thawed ==> k.log.thawed || (k.log.fatal != [] && !Archive.IsCoreDumpSignal(sig)))
    && k1.log.listening <= k.log.listening && k1.log.jobStop == k.log.jobStop
    && k1.log.leaderLeft == k.log.leaderLeft && k1.log.uncaught == k.log.uncaught
  }

  lemma ContContinued(k: Kernel, tid: Tid, sig: int)
    requires tid !in k.log.listening
    ensures Continued(k, ContStep(k, tid, sig).1, tid, sig)
  {
    MovedSame(k);
    hide Moved;
    assert k.log.listening * {tid} == {};
  }

  lemma SteadyAnswered(s: State, s1: State)
    requires Answered(s) && Steady(s.k, s1.k) && s1.exitSig == s.exitSig && s1.crashTid == s.crashTid
    ensures Answered(s1)
  {
    forall c: Delivery | IsCore(c)
      ensures Fair(s1.k, c)
    {
      assert Fair(s.k, c);
    }
  }

  /** Without a signal, while there is no crash. */
  lemma ContAnswered(s: State, tid: Tid)
    requires Answered(s) && tid !in s.k.log.listening && s.exitSig == 0
    ensures var s1 := Continue(s, tid, 0).1; Answered(s1) && (Flags(s) ==> Flags(s1))
    ensures var s1 := Continue(s, tid, 0).1; s1.k.log.listening <= s.k.log.listening && s1.exitSig == 0
  {
    ContContinued(s.k, tid, 0);
    var s1 := Continue(s, tid, 0).1;
    hide ContStep;
    forall c: Delivery | IsCore(c)
      ensures Fair(s1.k, c)
    {
      assert Fair(s.k, c);
    }
  }

  // ---------------------------------------------------------------- the parts of a turn

  lemma DrainChildAnswers(s: State, tid: Tid, child: Tid)
    requires Answered(s) && Flags(s) && tid !in s.k.log.listening && child !in s.k.log.listening && tid != child
    requires child in s.k.reported ==> child in s.k.newborn
    ensures var (ok, s1) := DrainChild(s, tid, child);
      Answered(s1) && (ok ==> Flags(s1))
  {
    hide Answered, WaitStep, AskStep, DetachStep, Continue, Reported, Possible, Moved;
    var (w, k1) := WaitStep(s.k, child, true);
    var s1 := s.(k := k1);
    if w.Stop() {
      WaitSeen(s.k, child, true);
      ChildKnown(Moved(s.k), child, w.status);
      BornSteady(s.k, Moved(s.k), child, w.status);
      SteadyAnswered(s, s1);
      var (membership, k2) := AskStep(k1);
      var s2 := s.(k := k2);
      AskSteady(k1);
      SteadyAnswered(s1, s2);
      if membership == 0 {
        var s3 := s.(tids := s.tids - {child}, k := DetachStep(k2, child, 0));
        DetachSteady(k2, child);
        SteadyAnswered(s2, s3);
        if s.exitSig == 0 {
          ContAnswered(s3, tid);
        }
      } else if membership > 0 && s.exitSig == 0 {
        ContAnswered(s2, tid);
        var s3 := Continue(s2, tid, 0).1;
        ContAnswered(s3, child);
      }
    } else {
      WaitSteady(s.k, child, true);
      SteadyAnswered(s, s1);
    }
  }

  lemma ChildKnown(k: Kernel, child: Tid, status: Status)
    requires Possible(k, child, status)
    ensures child in k.reported && status.Stopped?
  {}

  lemma DrainCloneAnswers(s: State, tid: Tid)
    requires Inv(s) && Answered(s) && Flags(s) && tid !in s.k.log.listening
    ensures var (ok, s1) := DrainClone(s, tid);
      Answered(s1) && (ok ==> Flags(s1))
  {
    hide Inv, Answered, EventMsgStep, DrainChild;
    EventMsgInv(s, tid);
    EventMsgSteady(s.k, tid);
    var (child, k1) := EventMsgStep(s.k, tid);
    if child.Some? {
      var s1 := s.(tids := s.tids + {child.value}, k := k1);
      SteadyAnswered(s, s1);
      DrainChildAnswers(s1, tid, child.value);
    } else {
      SteadyAnswered(s, s.(k := k1));
    }
  }

  /** In the middle of a delivery: (tid, sig) has been consumed, and not asked about. */
  ghost predicate Pending(s: State, tid: Tid, sig: int) {
    && CrashIsFirst(s) && s.k.log.woken == {} && !s.k.log.thawed && tid !in s.k.log.listening
    && forall c: Delivery | IsCore(c) ::
         && s.k.consumed[c] == s.k.log.cleared[c] + multiset(s.k.log.fatal)[c] + (if c == (tid, sig) then 1 else 0)
         && s.k.injected[c] <= s.k.log.cleared[c]
  }

  lemma DrainDeliveryAnswers(s: State, tid: Tid, sig: int)
    requires Pending(s, tid, sig) && !s.k.log.uncaught && s.leaderExited == s.k.log.leaderLeft
    requires s.exitSig == 0 ==> s.k.log.jobStop == (s.inGroupStop && sig != SIGCONT)
    ensures var (ok, s1) := DrainDelivery(s, tid, sig);
      Answered(s1) && Flags(s1)
  {
    hide ContStep;
    if Archive.IsCoreDumpSignal(sig) {
      AskedAnswers(s, tid, sig);
    } else if s.exitSig == 0 {
      PassedAnswers(s, tid, sig);
      PassedAnswers(s.(inGroupStop := false), tid, sig);
    }
  }

  /** A core-dumping signal. */
  lemma AskedAnswers(s: State, tid: Tid, sig: int)
    requires Pending(s, tid, sig) && !s.k.log.uncaught && Archive.IsCoreDumpSignal(sig)
    requires s.leaderExited == s.k.log.leaderLeft
    requires s.exitSig == 0 ==> s.k.log.jobStop == s.inGroupStop
    ensures var (ok, s1) := DrainDelivery(s, tid, sig);
      Answered(s1) && Flags(s1)
  {
    var (answer, k1) := DispositionStep(s.k, tid, sig);
    var s1 := s.(k := k1);
    AskSteady(s.k);
    hide AskStep;
    if answer == 0 {
      FatalBooked(s, s1, tid, sig);
    } else {
      ClearedBooked(s, s1, tid, sig);
      ContContinued(k1, tid, sig);
      hide ContStep, DispositionStep;
      CoreContinued(s1, Continue(s1, tid, sig).1, tid, sig);
    }
  }

  lemma FatalBooked(s: State, s1: State, tid: Tid, sig: int)
    requires Pending(s, tid, sig) && Archive.IsCoreDumpSignal(sig) && s1 == s.(k := s1.k)
    requires s1.k.log.fatal == s.k.log.fatal + [(tid, sig)] && s1.k.log.cleared == s.k.log.cleared
    requires s1.k.consumed == s.k.consumed && s1.k.injected == s.k.injected && s1.k.log.woken == s.k.log.woken
    requires s1.k.log.thawed == s.k.log.thawed
    ensures var s2 := if s.exitSig == 0 then s1.(exitSig := sig, crashTid := tid) else s1;
      Answered(s2)
  {
    var fatal := s.k.log.fatal;
    assert multiset(fatal + [(tid, sig)]) == multiset(fatal) + multiset{(tid, sig)};
    hide Archive.IsCoreDumpSignal;
    assert sig != 0 by { NotZero(sig); }
  }

  lemma NotZero(sig: int)
    requires Archive.IsCoreDumpSignal(sig)
    ensures sig != 0
  {}

  /** Cleared, and not passed on yet. */
  ghost predicate Passing(s: State, tid: Tid, sig: int) {
    && CrashIsFirst(s) && s.k.log.woken == {} && !s.k.log.thawed && tid !in s.k.log.listening
    && forall c: Delivery | IsCore(c) ::
         && s.k.consumed[c] == s.k.log.cleared[c] + multiset(s.k.log.fatal)[c]
         && s.k.injected[c] + (if c == (tid, sig) then 1 else 0) <= s.k.log.cleared[c]
  }

  lemma ClearedBooked(s: State, s1: State, tid: Tid, sig: int)
    requires Pending(s, tid, sig) && s1 == s.(k := s1.k)
    requires s1.k.log.cleared == s.k.log.cleared + multiset{(tid, sig)} && s1.k.log.fatal == s.k.log.fatal
    requires s1.k.consumed == s.k.consumed && s1.k.injected == s.k.injected && s1.k.log.woken == s.k.log.woken
    requires s1.k.log.thawed == s.k.log.thawed && s1.k.log.listening <= s.k.log.listening
    ensures Passing(s1, tid, sig)
  {
    hide Archive.IsCoreDumpSignal;
  }

  lemma CoreContinued(s: State, s1: State, tid: Tid, sig: int)
    requires Passing(s, tid, sig) && IsCore((tid, sig)) && s1 == s.(k := s1.k) && Continued(s.k, s1.k, tid, sig)
    ensures Answered(s1)
  {
    forall c: Delivery | IsCore(c)
      ensures Fair(s1.k, c)
    {}
    assert forall c: Delivery :: !IsCore(c) ==> c != (tid, sig);
    hide Archive.IsCoreDumpSignal;
  }

  /** Any other signal is passed on while there is no crash. */
  lemma PassedAnswers(s: State, tid: Tid, sig: int)
    requires Pending(s, tid, sig) && !Archive.IsCoreDumpSignal(sig) && s.exitSig == 0
    ensures var s1 := Continue(s, tid, sig).1;
      && Answered(s1) && s1.k.log.uncaught == s.k.log.uncaught && s1.k.log.jobStop == s.k.log.jobStop
      && s1.k.log.leaderLeft == s.k.log.leaderLeft
  {
    ContContinued(s.k, tid, sig);
    var s1 := Continue(s, tid, sig).1;
    hide ContStep;
    assert !IsCore((tid, sig));
    forall c: Delivery | IsCore(c)
      ensures Fair(s1.k, c)
    {}
    hide Archive.IsCoreDumpSignal;
  }

  // ---------------------------------------------------------------- one turn

  /** The stop of one thread, as a wait has just reported it. */
  lemma DrainStopAnswers(s: State, k: Kernel, tid: Tid, status: Status)
    requires Going(s) && Answered(s) && Flags(s) && Same(s.k, k) && Possible(k, tid, status) && tid !in s.k.newborn
    requires Inv(s.(k := Reported(k, tid, status)))
    ensures var (turn, s1) := DrainStop(s.(k := Reported(k, tid, status)), tid, status);
      Answered(s1) && (!turn.Leave? ==> Flags(s1))
  {
    var s0 := s.(k := Reported(k, tid, status));
    hide *;
    if status.event == NoEvent {
      DeliverySeen(s, k, tid, status.sig);
      assert status == Stopped(status.sig, NoEvent) by { DeliveryIs(s, k, tid, status); }
      DeliveryTurn(s0, tid, status);
    } else {
      DeliveryIs(s, k, tid, status);
      EventSeen(s, k, tid, status);
      if status.event in {Clone, Fork, Vfork} {
        CloneTurn(s0, tid, status);
      } else if IsGroupStop(status) {
        ListenAnswers(s0, tid, status);
      } else {
        EventAnswers(s0, tid, status);
      }
    }
  }

  lemma DeliveryIs(s: State, k: Kernel, tid: Tid, status: Status)
    requires Possible(k, tid, status)
    ensures status.event == NoEvent ==> status == Stopped(status.sig, NoEvent)
    ensures status.event == Exec ==> tid == k.pid
  {}

  lemma DeliveryTurn(s: State, tid: Tid, status: Status)
    requires status.Delivery() && Pending(s, tid, status.sig) && !s.k.log.uncaught
    requires s.leaderExited == s.k.log.leaderLeft
    requires s.exitSig == 0 ==> s.k.log.jobStop == (s.inGroupStop && status.sig != SIGCONT)
    ensures var (turn, s1) := DrainStop(s, tid, status);
      Answered(s1) && (!turn.Leave? ==> Flags(s1))
  {
    hide Answered, Pending, DrainDelivery, Continue, DrainClone, RequestStep;
    DrainDeliveryAnswers(s, tid, status.sig);
  }

  lemma CloneTurn(s: State, tid: Tid, status: Status)
    requires Inv(s) && Answered(s) && Flags(s) && tid !in s.k.log.listening
    requires status.Stopped? && status.event in {Clone, Fork, Vfork}
    ensures var (turn, s1) := DrainStop(s, tid, status);
      Answered(s1) && (!turn.Leave? ==> Flags(s1))
  {
    hide Inv, Answered, Flags, DrainDelivery, Continue, DrainClone, RequestStep;
    DrainCloneAnswers(s, tid);
  }

  lemma ListenAnswers(s: State, tid: Tid, status: Status)
    requires Answered(s) && !s.k.log.uncaught && IsGroupStop(status) && (s.exitSig == 0 ==> s.k.log.jobStop)
    requires s.leaderExited == s.k.log.leaderLeft
    ensures var (turn, s1) := DrainStop(s, tid, status);
      Answered(s1) && (!turn.Leave? ==> Flags(s1))
  {
    hide RequestStep, Answered;
    RequestSteady(s.k, tid);
    var s1 := s.(k := RequestStep(s.k, tid, true).1);
    SteadyAnswered(s, s1);
    FlagFree(s1, true);
    assert s1.(inGroupStop := s1.inGroupStop) == s1;
  }

  lemma FlagFree(s: State, stopped: bool)
    ensures Answered(s) ==> Answered(s.(inGroupStop := stopped))
  {}

  lemma DeliverySeen(s: State, k: Kernel, tid: Tid, sig: int)
    requires Answered(s) && Flags(s) && Same(s.k, k) && tid !in s.k.newborn
    ensures var s0 := s.(k := Reported(k, tid, Stopped(sig, NoEvent)));
      && Pending(s0, tid, sig) && !s0.k.log.uncaught
      && (s.exitSig == 0 ==> s0.k.log.jobStop == (s.inGroupStop && sig != SIGCONT))
      && s0.leaderExited == s0.k.log.leaderLeft
  {
    var s0 := s.(k := Reported(k, tid, Stopped(sig, NoEvent)));
    forall c: Delivery | IsCore(c)
      ensures s0.k.consumed[c]
           == s0.k.log.cleared[c] + multiset(s0.k.log.fatal)[c] + (if c == (tid, sig) then 1 else 0)
      ensures s0.k.injected[c] <= s0.k.log.cleared[c]
    {
      assert Fair(s.k, c);
    }
    hide Archive.IsCoreDumpSignal;
  }

  /** Whether the leader has exited, by this stop. */
  function LeftBy(s: State, tid: Tid, status: Status): bool
    requires status.Stopped?
  {
    if tid == s.k.pid && status.event in {Exit, Exec} then status.event == Exit else s.leaderExited
  }

  lemma EventSeen(s: State, k: Kernel, tid: Tid, status: Status)
    requires Answered(s) && Flags(s) && Same(s.k, k) && tid !in s.k.newborn
    requires status.Stopped? && status.event != NoEvent && (status.event == Exec ==> tid == k.pid)
    ensures var s0 := s.(k := Reported(k, tid, status));
      && Answered(s0) && !s0.k.log.uncaught
      && (!IsGroupStop(status) ==> tid !in s0.k.log.listening)
      && (s.exitSig == 0 ==>
            s0.k.log.jobStop == (IsGroupStop(status) || (s.inGroupStop && !IsWakeUp(status))))
      && s0.k.log.leaderLeft == LeftBy(s0, tid, status) && (status.event == Exec ==> tid == s0.k.pid)
  {
    var s0 := s.(k := Reported(k, tid, status));
    forall c: Delivery | IsCore(c)
      ensures Fair(s0.k, c)
    {
      assert Fair(s.k, c);
    }
    hide Archive.IsCoreDumpSignal;
  }

  /** Exec, exit, and the event stops that are no group stop. */
  lemma EventAnswers(s: State, tid: Tid, status: Status)
    requires Answered(s) && !s.k.log.uncaught && tid !in s.k.log.listening
    requires status.Stopped? && status.event !in {NoEvent, Clone, Fork, Vfork} && !IsGroupStop(status)
    requires status.event == Exec ==> tid == s.k.pid
    requires s.exitSig == 0 && !IsWakeUp(status) ==> s.k.log.jobStop == s.inGroupStop
    requires s.exitSig == 0 && IsWakeUp(status) ==> !s.k.log.jobStop
    requires s.k.log.leaderLeft == LeftBy(s, tid, status)
    ensures var (turn, s1) := DrainStop(s, tid, status);
      Answered(s1) && (!turn.Leave? ==> Flags(s1))
  {
    hide ContStep, DrainClone, DrainDelivery, RequestStep, Accounted;
    if s.exitSig == 0 {
      var s1 := if status.event == Exec then s.(tids := {s.k.pid}, leaderExited := false, inGroupStop := false)
                else if status.event == Exit then (if tid == s.k.pid then s.(leaderExited := true) else s)
                else if status == Stopped(SIGTRAP, Stop) then s.(inGroupStop := false) else s;
      ContAnswered(s1, tid);
    }
  }

  lemma DrainOneAnswers(s: State, tid: Tid)
    requires Going(s) && Answered(s) && Flags(s)
    ensures var (turn, s1) := DrainOne(s, tid);
      Answered(s1) && (!turn.Leave? ==> Flags(s1))
  {
    GoingFacts(s);
    WaitInv(s, tid, false);
    var (w, k1) := WaitStep(s.k, tid, false);
    var s1 := s.(k := k1);
    hide Inv, Going, Answered, Flags, WaitStep, AskStep, DrainStop, Possible, Moved, Reported, KernelOk, Lapsed;
    if w.Stop() {
      WaitSeen(s.k, tid, false);
      NotNew(s, Moved(s.k), tid, w.status);
      DrainStopAnswers(s, Moved(s.k), tid, w.status);
    } else {
      WaitSteady(s.k, tid, false);
      SteadyAnswered(s, s1);
      QuietAnswers(s, tid);
    }
  }

  lemma NotNew(s: State, k: Kernel, tid: Tid, status: Status)
    requires Going(s) && Same(s.k, k) && Possible(k, tid, status)
    ensures tid !in s.k.newborn
  {}

  /** A turn without a stop. */
  lemma QuietAnswers(s: State, tid: Tid)
    requires var (w, k1) := WaitStep(s.k, tid, false);
      && !w.Stop() && Answered(s.(k := k1)) && Flags(s)
      && Steady(s.k, k1)
      && (k1.log.uncaught <==>
            (s.k.log.uncaught || (w.Status? && w.status.Signaled? && Archive.IsCoreDumpSignal(w.status.sig))))
    ensures var (turn, s1) := DrainOne(s, tid);
      Answered(s1) && (!turn.Leave? ==> Flags(s1))
  {
    hide WaitStep, AskStep, Answered, Archive.IsCoreDumpSignal;
    var (w, k1) := WaitStep(s.k, tid, false);
    var s1 := s.(k := k1);
    TidsFree(s1, tid);
    if w.NoChild? {
      AskSteady(k1);
      var k2 := AskStep(k1).1;
      SteadyAnswered(s1, s1.(k := k2));
      TidsFree(s1.(k := k2), tid);
      AskSteady(k2);
      var k3 := AskStep(k2).1;
      SteadyAnswered(s1.(k := k2), s1.(k := k3));
      TidsFree(s1.(k := k3), tid);
    }
  }

  lemma TidsFree(s: State, tid: Tid)
    ensures Answered(s) ==> Answered(s.(tids := s.tids - {tid}))
  {}

  // ---------------------------------------------------------------- whole runs

  lemma ReconcileAnswers(s: State)
    requires Answered(s) && Flags(s)
    ensures var (turn, s1) := Reconcile(s);
      Answered(s1) && (!turn.Leave? ==> Flags(s1))
  {
    MovedSame(s.k);
    var s1 := Reconcile(s).1;
    SteadyAnswered(s, s1);
    hide Moved, Answered;
  }

  lemma {:induction false} DrainPassAnswers(s: State, todo: set<Tid>, progress: bool)
    requires Going(s) && Answered(s) && Flags(s)
    ensures var (pass, s1) := DrainPass(s, todo, progress);
      Answered(s1) && (pass.Finished? ==> Flags(s1))
    decreases |todo|
  {
    hide Going, Answered, Flags, DrainOne, Inv, Calm, Honest;
    if todo != {} {
      var tid := Least(todo);
      DrainOneKeeps(s, tid);
      DrainOneAnswers(s, tid);
      var (turn, s1) := DrainOne(s, tid);
      if turn.Idle? || turn.Progress? {
        var more := turn.Progress? || progress;
        DrainPassAnswers(s1, todo - {tid}, more);
      }
    }
  }

  lemma {:induction false} DrainAnswers(s: State, rounds: nat)
    requires Going(s) && Answered(s) && Flags(s)
    ensures var (state, s1) := DrainRun(s, rounds);
      Answered(s1) && (state in {Quiet, Crashed, Busy} ==> Flags(s1))
    decreases rounds
  {
    hide Going, Answered, Flags, DrainPass, Reconcile, Inv, Calm, Honest;
    if rounds > 0 {
      DrainPassKeeps(s, s.tids, false);
      DrainPassAnswers(s, s.tids, false);
      DrainPassLeaves(s, s.tids, false);
      var (pass, s1) := DrainPass(s, s.tids, false);
      if pass.Finished? {
        ReconcileKeeps(s1);
        ReconcileAnswers(s1);
        ReconcileLeaves(s1);
        var (turn, s2) := Reconcile(s1);
        if s1.tids == {} {
          if !turn.Leave? {
            DrainAnswers(s2, rounds - 1);
          }
        } else if pass.progress {
          DrainAnswers(s1, rounds - 1);
        }
      }
    }
  }

  lemma FreshAnswered(s: State)
    requires Fresh(s)
    ensures Going(s) && Answered(s) && Flags(s)
  {
    FreshGoing(s);
    forall c: Delivery | IsCore(c)
      ensures Fair(s.k, c)
    {}
    hide Going;
  }

  /** From the start of the monitor, over any run of the drain. Every delivery of a core-dumping signal was asked
      about, is injected no more often than it was cleared, and the first that was answered default is the
      recorded crash: without one a settled drain is quiet, and with one it reports the crash with its thread
      and signal. From then on no thread is continued but to pass on such a signal; and at no time is one
      continued out of a group stop, which the monitor knows of. */
  lemma CrashDecided(s: State, rounds: nat)
    requires Fresh(s)
    ensures var (state, s1) := DrainRun(s, rounds); var g := s1.k.log;
      && (forall c: Delivery | IsCore(c) ::
            && s1.k.consumed[c] == g.cleared[c] + multiset(g.fatal)[c] && s1.k.injected[c] <= g.cleared[c])
      && (state == Quiet ==> g.fatal == [])
      && (state == Crashed ==> g.fatal != [])
      && (s1.exitSig != 0 <==> g.fatal != [])
      && (g.fatal != [] ==> s1.crashTid == g.fatal[0].0 && s1.exitSig == g.fatal[0].1)
      && !g.thawed && g.woken == {}
      && (state in {Quiet, Crashed} ==> !g.uncaught && s1.leaderExited == g.leaderLeft)
      && (state in {Quiet, Busy} && s1.exitSig == 0 ==> s1.inGroupStop == g.jobStop)
  {
    FreshAnswered(s);
    DrainKeeps(s, rounds);
    DrainAnswers(s, rounds);
    var s1 := DrainRun(s, rounds).1;
    hide DrainRun, Inv, Going, Calm, Honest;
    forall c: Delivery | IsCore(c)
      ensures s1.k.consumed[c] == s1.k.log.cleared[c] + multiset(s1.k.log.fatal)[c]
      ensures s1.k.injected[c] <= s1.k.log.cleared[c]
    {
      assert Fair(s1.k, c);
    }
  }

  /** In particular, a fatal delivery: when the wait for tid reports a core-dumping signal and its disposition is
      the default, the first such delivery is recorded with its thread, nothing is injected, and the thread
      stays held unless it is killed. */
  lemma FatalStopRecorded(s: State, tid: Tid, sig: int)
    requires Going(s) && s.exitSig == 0 && Archive.IsCoreDumpSignal(sig)
    requires var (w, k1) := WaitStep(s.k, tid, false); w == Status(Stopped(sig, NoEvent)) && Current(k1).answer == 0
    ensures var (turn, s1) := DrainOne(s, tid);
      && turn == Progress && s1.exitSig == sig && s1.crashTid == tid && s1.k.injected == s.k.injected
      && (tid in s1.k.reported ==> tid in s1.k.holding && s1.k.holding[tid] == sig)
  {
    var k1 := WaitStep(s.k, tid, false).1;
    DrainOneStop(s, tid);
    WaitSeen(s.k, tid, false);
    GoingFacts(s);
    WaitInv(s, tid, false);
    MovedOk(k1);
    MovedSame(k1);
    hide WaitStep, DrainOne, Moved, Going, Inv, Possible, KernelOk, Honest;
  }

  // ---------------------------------------------------------------- when a drain ends

  lemma DrainChildTrouble(s: State, tid: Tid, child: Tid)
    ensures var (ok, s1) := DrainChild(s, tid, child); ok || s1.k.log.trouble
  {
    hide DetachStep, Moved, Possible, Reported;
    if !WaitStep(s.k, child, true).0.Stop() { WaitQuiet(s.k, child, true); }
    hide WaitStep, Resume;
  }

  lemma DrainStopTrouble(s: State, tid: Tid, status: Status)
    requires status.Stopped?
    ensures var (turn, s1) := DrainStop(s, tid, status); turn.Leave? ==> turn.state == Failed && s1.k.log.trouble
  {
    hide DrainChild, Moved, Resume, Die, Archive.IsCoreDumpSignal, IsJobStop;
    if status.event in {Clone, Fork, Vfork} {
      var (child, k1) := EventMsgStep(s.k, tid);
      if child.Some? { DrainChildTrouble(s.(tids := s.tids + {child.value}, k := k1), tid, child.value); }
      hide EventMsgStep, ContStep, DrainDelivery, RequestStep;
    } else if status.event == NoEvent {
      DrainDeliveryTrouble(s, tid, status.sig);
      hide DrainDelivery, DrainClone, ContStep, RequestStep;
    } else {
      hide DrainDelivery, DrainClone;
    }
  }

  lemma DrainDeliveryTrouble(s: State, tid: Tid, sig: int)
    ensures var (ok, s1) := DrainDelivery(s, tid, sig); ok || s1.k.log.trouble
  {
    hide Continue, Archive.IsCoreDumpSignal, AskStep;
    AskMarks(s.k);
    ContTrouble(s.(k := DispositionStep(s.k, tid, sig).1), tid, sig);
    ContTrouble(s, tid, sig);
    ContTrouble(s.(inGroupStop := false), tid, sig);
  }

  lemma AskMarks(k: Kernel)
    ensures AskStep(k).0 < 0 ==> AskStep(k).1.log.trouble
  {
    hide Moved;
  }

  lemma ContTrouble(s: State, tid: Tid, sig: int)
    ensures var (ok, s1) := Continue(s, tid, sig); (s.k.log.trouble ==> s1.k.log.trouble) && (ok || s1.k.log.trouble)
  {
    MovedSame(s.k);
    hide Moved, Resume, Archive.IsCoreDumpSignal;
    ResumeLog(Moved(s.k), tid, sig);
  }

  lemma ResumeLog(k: Kernel, tid: Tid, sig: int)
    ensures Resume(k, tid, sig).log == k.log
  {}

  lemma DrainOneTrouble(s: State, tid: Tid)
    ensures var (turn, s1) := DrainOne(s, tid);
      && (turn == Leave(Failed) ==> s1.k.log.trouble)
      && (turn.Idle? ==> s1.tids == s.tids && s1.k.log.polled == s.k.log.polled + {tid})
  {
    var (w, k1) := WaitStep(s.k, tid, false);
    hide WaitStep, DrainStop, Archive.IsCoreDumpSignal, AskStep;
    if w.Stop() {
      DrainOneStop(s, tid);
      DrainStopTrouble(s.(k := k1), tid, w.status);
      NeverIdle(s.(k := k1), tid, w.status);
      hide DrainOne;
    } else {
      WaitNews(s.k, tid);
      AskTrouble(k1);
      AskTrouble(AskStep(k1).1);
    }
  }

  lemma NeverIdle(s: State, tid: Tid, status: Status)
    requires status.Stopped?
    ensures !DrainStop(s, tid, status).0.Idle?
  {
    hide DrainClone, DrainDelivery, RequestStep, Continue, IsJobStop;
  }

  lemma AskTrouble(k: Kernel)
    ensures k.log.trouble ==> AskStep(k).1.log.trouble
  {
    MovedSame(k);
    hide Moved;
  }

  /** A wait without a stop is news of an end, or none. */
  lemma WaitNews(k: Kernel, tid: Tid)
    requires !WaitStep(k, tid, false).0.Stop()
    ensures var (w, k1) := WaitStep(k, tid, false);
      && (w.NoStatus? || w.Interrupted? ==> k1.log.polled == k.log.polled + {tid})
      && (w.NoChild? || (w.Status? && w.status.Signaled? && Archive.IsCoreDumpSignal(w.status.sig)) ==> k1.log.trouble)
  {
    WaitQuiet(k, tid, false);
    MovedSame(k);
    hide Moved, WaitStep, Archive.IsCoreDumpSignal;
  }

  lemma {:induction false} DrainPassTrouble(s: State, todo: set<Tid>, progress: bool)
    ensures var (pass, s1) := DrainPass(s, todo, progress);
      && (pass == Left(Failed) ==> s1.k.log.trouble)
      && (pass == Finished(false) ==> s1.tids == s.tids && todo + s.k.log.polled <= s1.k.log.polled)
    decreases |todo|
  {
    if todo != {} {
      var tid := Least(todo);
      DrainOneTrouble(s, tid);
      var (turn, s1) := DrainOne(s, tid);
      hide DrainOne;
      DrainPassTrouble(s1, todo - {tid}, true);
      DrainPassTrouble(s1, todo - {tid}, progress);
      DrainPassProgress(s1, todo - {tid});
    }
  }

  lemma {:induction false} DrainPassProgress(s: State, todo: set<Tid>)
    ensures DrainPass(s, todo, true).0 != Finished(false)
    decreases |todo|
  {
    if todo != {} {
      var s1 := DrainOne(s, Least(todo)).1;
      hide DrainOne;
      DrainPassProgress(s1, todo - {Least(todo)});
    }
  }

  /** A drain fails only when a request of its has failed, and it settles only when every recorded thread has
      been polled without news since the last news of any. */
  lemma {:induction false} DrainEnds(s: State, rounds: nat)
    ensures var (state, s1) := DrainRun(s, rounds);
      && (state == Failed ==> s1.k.log.trouble)
      && (state in {Quiet, Crashed} ==> s1.tids != {} && s1.tids <= s1.k.log.polled)
    decreases rounds
  {
    hide DrainPass, Reconcile;
    if rounds > 0 {
      DrainPassTrouble(s, s.tids, false);
      DrainPassLeaves(s, s.tids, false);
      var (pass, s1) := DrainPass(s, s.tids, false);
      ReconcileTrouble(s1);
      var (turn, s2) := Reconcile(s1);
      if pass.Left? {
      } else if s1.tids == {} {
        if !turn.Leave? { DrainEnds(s2, rounds - 1); }
      } else if pass.progress {
        DrainEnds(s1, rounds - 1);
      } else {
        assert s1.tids + s.k.log.polled <= s1.k.log.polled;
      }
    }
  }

  lemma ReconcileTrouble(s: State)
    ensures var (turn, s1) := Reconcile(s); turn.Leave? ==> turn.state in {Failed, ProcessGone}
    ensures var (turn, s1) := Reconcile(s); turn == Leave(Failed) ==> s1.k.log.trouble
  {
    hide Moved;
  }

  /** A leader's turn ends the drain only when the leader is no tracee any more. */
  lemma DrainOneGone(s: State, tid: Tid)
    requires Going(s)
    ensures var (turn, s1) := DrainOne(s, tid); turn == Leave(ProcessGone) ==> s1.k.pid !in s1.k.reported
  {
    GoingFacts(s);
    WaitInv(s, tid, false);
    PidOld(s);
    var (w, k1) := WaitStep(s.k, tid, false);
    if w.Stop() {
      DrainStopTrouble(s.(k := k1), tid, w.status);
    } else {
      WaitQuiet(s.k, tid, false);
      MovedSame(s.k);
      AskShrinks(k1);
      AskShrinks(AskStep(k1).1);
    }
    hide Inv, Going, Moved, WaitStep, DrainStop, AskStep, Archive.IsCoreDumpSignal, Possible, Reported, Lapsed,
         KernelOk;
  }

  lemma PidOld(s: State)
    requires Inv(s)
    ensures s.k.pid !in s.k.newborn && s.k.reported <= s.tids
  {}

  lemma AskShrinks(k: Kernel)
    ensures var k1 := AskStep(k).1; k1.pid == k.pid && k1.reported <= k.reported
  {
    MovedSame(k);
    hide Moved;
  }

  lemma {:induction false} DrainPassGone(s: State, todo: set<Tid>, progress: bool)
    requires Going(s)
    ensures var (pass, s1) := DrainPass(s, todo, progress); pass == Left(ProcessGone) ==> s1.k.pid !in s1.k.reported
    decreases |todo|
  {
    if todo != {} {
      var tid := Least(todo);
      DrainOneGone(s, tid);
      DrainOneKeeps(s, tid);
      var (turn, s1) := DrainOne(s, tid);
      hide DrainOne, Going, Inv, Calm, Honest;
      if turn.Idle? || turn.Progress? { DrainPassGone(s1, todo - {tid}, turn.Progress? || progress); }
    }
  }

  lemma ReconcileGone(s: State)
    requires Going(s) && s.tids == {}
    ensures var (turn, s1) := Reconcile(s); turn == Leave(ProcessGone) ==> s1.k.pid !in s1.k.reported
  {
    GoingFacts(s);
    PidOld(s);
    MovedSame(s.k);
    hide Moved, Inv, Going;
  }

  /** The drain says that the process is gone only when its leader is no tracee any more. */
  lemma {:induction false} DrainGone(s: State, rounds: nat)
    requires Going(s)
    ensures var (state, s1) := DrainRun(s, rounds); state == ProcessGone ==> s1.k.pid !in s1.k.reported
    decreases rounds
  {
    hide DrainPass, Reconcile, Going, Inv, Calm, Honest;
    if rounds > 0 {
      DrainPassKeeps(s, s.tids, false);
      DrainPassGone(s, s.tids, false);
      DrainPassLeaves(s, s.tids, false);
      var (pass, s1) := DrainPass(s, s.tids, false);
      if pass.Left? {
      } else if s1.tids == {} {
        ReconcileKeeps(s1);
        ReconcileGone(s1);
        var (turn, s2) := Reconcile(s1);
        if !turn.Leave? { DrainGone(s2, rounds - 1); }
      } else if pass.progress {
        DrainGone(s1, rounds - 1);
      }
    }
  }

  // ---------------------------------------------------------------- when a detach ends

  /** A request has failed, or a wait was cut short. */
  predicate Hurt(k: Kernel) {
    k.log.trouble || k.log.interrupted
  }

  /** What has gone wrong stays, and no TID comes into use. */
  ghost predicate Remembers(k: Kernel, k1: Kernel) {
    (Hurt(k) ==> Hurt(k1)) && k1.used == k.used && k1.pid == k.pid
  }

  lemma WaitRemembers(k: Kernel, tid: Tid, retried: bool)
    ensures var (w, k1) := WaitStep(k, tid, retried);
      && Remembers(k, k1)
      && (w.Interrupted? || w.NoChild? || (retried && !w.Stop()) ==> Hurt(k1))
  {
    MovedSame(k);
    if WaitStep(k, tid, retried).0.Stop() { WaitSeen(k, tid, retried); } else { WaitQuiet(k, tid, retried); }
    hide Moved, WaitStep, Possible;
  }

  lemma OthersRemember(k: Kernel, tid: Tid, sig: int)
    ensures Remembers(k, RegsStep(k, tid).1) && Remembers(k, RequestStep(k, tid, false).1)
    ensures Remembers(k, ZombieStep(k, tid).1) && Remembers(k, DetachStep(k, tid, sig))
  {
    MovedSame(k);
    hide Moved;
  }

  lemma {:induction false} RecoverRemembers(k: Kernel, tid: Tid, turns: nat)
    ensures Remembers(k, RecoverRun(k, tid, turns).1)
    decreases turns
  {
    hide WaitStep, Hurt;
    if turns > 0 {
      WaitRemembers(k, tid, true);
      var (w, k1) := WaitStep(k, tid, true);
      if !w.Status? { RecoverRemembers(k1, tid, turns - 1); }
    }
  }

  lemma AwaitRemembers(k: Kernel, tid: Tid)
    ensures var (kind, rc, k1) := AwaitStop(k, tid); Remembers(k, k1) && (rc != 0 ==> Hurt(k1))
  {
    WaitRemembers(k, tid, true);
    RecoverRemembers(WaitStep(k, tid, true).1, tid, Current(k).turns);
    hide WaitStep, RecoverRun;
  }

  lemma StopRemembers(k: Kernel, tid: Tid, leaderExited: bool)
    ensures var (kind, rc, k1) := StopForDetach(k, tid, leaderExited); Remembers(k, k1) && (rc != 0 ==> Hurt(k1))
  {
    WaitRemembers(k, tid, false);
    var (w, k1) := WaitStep(k, tid, false);
    OthersRemember(k1, tid, 0);
    StopOfRemembers(k1, tid, if w.Interrupted? then -1 else 0);
    var k2 := ZombieStep(k1, tid).1;
    StopOfRemembers(k2, tid, 0);
    hide WaitStep, StopOf, ZombieStep;
  }

  lemma StopOfRemembers(k: Kernel, tid: Tid, rc: int)
    ensures var (kind, rc1, k1) := StopOf(k, tid, rc);
      Remembers(k, k1) && ((rc != 0 ==> Hurt(k)) ==> rc1 != 0 ==> Hurt(k1))
  {
    OthersRemember(k, tid, 0);
    var k1 := RegsStep(k, tid).1;
    WaitRemembers(k1, tid, true);
    OthersRemember(k1, tid, 0);
    AwaitRemembers(RequestStep(k1, tid, false).1, tid);
    hide WaitStep, AwaitStop, RegsStep, RequestStep;
  }

  /** One thread's turn: a failure leaves its mark, and the only TID that comes into use is a child to be
      detached in turn. */
  lemma DetachOneMarks(s: State, tid: Tid)
    ensures var (child, rc, s1) := DetachOne(s, tid);
      && (Hurt(s.k) || rc != 0 ==> Hurt(s1.k))
      && (if child.Some? then child.value !in s.k.used && s1.k.used == s.k.used + {child.value}
          else s1.k.used == s.k.used)
  {
    StopRemembers(s.k, tid, s.leaderExited);
    var (kind, rc, k1) := StopForDetach(s.k, tid, s.leaderExited);
    hide StopForDetach, EventMsgStep, DetachStep, Hurt;
    if kind.Real? && kind.status.Stopped? && kind.status.event == Clone {
      EventMsgMarks(k1, tid);
      OthersRemember(EventMsgStep(k1, tid).1, tid, 0);
    } else if !kind.Gone? && !kind.ZombieLeader? {
      OthersRemember(k1, tid, if kind.Real? && kind.status.Delivery() then kind.status.sig else 0);
    }
  }

  lemma EventMsgMarks(k: Kernel, tid: Tid)
    ensures var (child, k1) := EventMsgStep(k, tid);
      && (Hurt(k) || child.None? ==> Hurt(k1))
      && (if child.Some? then child.value !in k.used && k1.used == k.used + {child.value} else k1.used == k.used)
  {
    MovedSame(k);
    DieUsed(Moved(k), tid);
    hide Moved, Die;
  }

  lemma DieUsed(k: Kernel, tid: Tid)
    ensures var k1 := Die(k, tid); k1.used == k.used && k1.log == k.log
  {}

  lemma {:induction false} DetachLoopEnds(k0: Kernel, s: State, pending: set<Tid>, rc: int, limit: nat)
    requires k0.used <= s.k.used && (rc != 0 ==> Hurt(s.k))
    ensures var r := DetachLoop(s, pending, rc, limit);
      && (r.rc != 0 ==> Hurt(r.s.k)) && k0.used <= r.s.k.used
      && (!r.done ==> limit + |s.k.used - k0.used| < |pending| + |r.s.k.used - k0.used|)
    decreases limit
  {
    hide DetachOne, Hurt;
    if pending != {} && limit > 0 {
      var tid := Least(pending);
      DetachOneMarks(s, tid);
      var (child, failed, s1) := DetachOne(s, tid);
      TurnSizes(k0.used, s.k.used, s1.k.used, pending, tid, child);
      DetachLoopEnds(k0, s1, pending - {tid} + (if child.Some? then {child.value} else {}),
                     if failed != 0 then -1 else rc, limit - 1);
    }
  }

  /** One thread less, and one more only with a new TID. */
  lemma TurnSizes(used0: set<Tid>, used: set<Tid>, used1: set<Tid>, pending: set<Tid>, tid: Tid, child: Option<Tid>)
    requires used0 <= used && tid in pending
    requires if child.Some? then child.value !in used && used1 == used + {child.value} else used1 == used
    ensures var rest := pending - {tid} + (if child.Some? then {child.value} else {});
      used0 <= used1 && |rest| - |used1 - used0| <= |pending| - |used - used0| - 1
  {
    if child.Some? {
      assert used1 - used0 == used - used0 + {child.value};
      assert |pending - {tid} + {child.value}| <= |pending - {tid}| + 1;
    } else {
      assert pending - {tid} + {} == pending - {tid};
    }
  }

  /** detach_monitored_threads reports a failure only when a request or a wait of its has failed, and takes each
      thread once: the recorded ones and the children it finds on the way. */
  lemma DetachEnds(s: State, limit: nat)
    ensures var r := DetachRun(s, limit);
      && (r.rc != 0 ==> Hurt(r.s.k))
      && (limit >= |s.tids| + |r.s.k.used - s.k.used| ==> r.done)
  {
    hide DetachLoop, Hurt;
    DetachLoopEnds(s.k, s, s.tids, 0, limit);
    assert s.k.used - s.k.used == {};
  }
}
