/** What every run of the monitor keeps: who is recorded, and where each consumed delivery goes. */
module MonitorProofs {
  import opened Bytes
  import opened Tids
  import opened MonitorRuns
  import Archive

  // ---------------------------------------------------------------- the books

  function Count(holding: map<Tid, int>, c: Delivery): nat {
    if c.0 in holding && holding[c.0] == c.1 then 1 else 0
  }

  /** Each delivery that was consumed has been injected, lost, dropped, or is held. */
  ghost predicate Balanced(k: Kernel, c: Delivery) {
    k.consumed[c] + k.invented[c] == k.injected[c] + k.lost[c] + k.dropped[c] + Count(k.holding, c)
  }

  ghost predicate Ledger(k: Kernel) {
    forall c: Delivery :: Balanced(k, c)
  }

  ghost predicate Stops(k: Kernel) {
    && k.holding.Keys <= k.reported <= k.used && k.pid in k.used
    && k.newborn <= k.used - {k.pid}
    && (forall t :: t in k.holding ==> k.holding[t] > 0)
    && (k.dying + k.parked + k.newborn) !! k.holding.Keys
  }

  ghost predicate KernelOk(k: Kernel) {
    Stops(k) && Ledger(k)
  }

  /** What passing time changes: threads die, with the deliveries they are held in. */
  ghost predicate Lapsed(k: Kernel, k1: Kernel) {
    && k1.pid == k.pid && k1.used == k.used && k1.newborn == k.newborn && k1.dying == k.dying
    && k1.reported <= k.reported && k1.zombies >= k.zombies
    && k1.parked <= k.parked && k.parked * k1.reported <= k1.parked
    && (forall t :: t in k1.holding ==> t in k.holding && k1.holding[t] == k.holding[t])
    && k.holding.Keys * k1.reported <= k1.holding.Keys
    && k1.consumed == k.consumed && k1.injected == k.injected && k1.dropped == k.dropped && k1.invented == k.invented
    && k.lost <= k1.lost
  }

  lemma LoseOk(k: Kernel, t: Tid)
    requires KernelOk(k)
    ensures KernelOk(Lose(k, t)) && k.lost <= Lose(k, t).lost
  {
    var k1 := Lose(k, t);
    forall c: Delivery
      ensures Balanced(k1, c)
    {
      assert Balanced(k, c);
    }
  }

  lemma DieOk(k: Kernel, t: Tid)
    requires KernelOk(k)
    ensures KernelOk(Die(k, t)) && Lapsed(k, Die(k, t))
  {
    LoseOk(k, t);
    var k0, k1 := Lose(k, t), Die(k, t);
    forall c: Delivery
      ensures Balanced(k1, c)
    {
      assert Balanced(k0, c);
    }
  }

  lemma LapsedTwice(a: Kernel, b: Kernel, c: Kernel)
    requires Lapsed(a, b) && Lapsed(b, c)
    ensures Lapsed(a, c)
  {}

  lemma {:induction false} DeathsOk(k: Kernel, dead: seq<Tid>)
    requires KernelOk(k)
    ensures KernelOk(Deaths(k, dead)) && Lapsed(k, Deaths(k, dead))
    decreases |dead|
  {
    if dead != [] {
      hide Lapsed, KernelOk, Die;
      DieOk(k, dead[0]);
      DeathsOk(Die(k, dead[0]), dead[1..]);
      LapsedTwice(k, Die(k, dead[0]), Deaths(k, dead));
    }
  }

  lemma MovedOk(k: Kernel)
    requires KernelOk(k)
    ensures KernelOk(Moved(k)) && Lapsed(k, Moved(k))
  {
    DeathsOk(k, Current(k).dead);
    var k0, k1 := Deaths(k, Current(k).dead), Moved(k);
    forall c: Delivery
      ensures Balanced(k1, c)
    {
      assert Balanced(k0, c);
    }
  }

  lemma ReportedOk(k: Kernel, tid: Tid, status: Status)
    requires KernelOk(k) && Possible(k, tid, status)
    ensures KernelOk(Reported(k, tid, status))
  {
    var k1 := Reported(k, tid, status);
    if status.event == NoEvent {
      forall c: Delivery
        ensures Balanced(k1, c)
      {
        assert Balanced(k, c);
      }
    } else {
      LoseOk(k, tid);
      var k0 := Lose(k, tid);
      forall c: Delivery
        ensures Balanced(k1, c)
      {
        assert Balanced(k0, c);
      }
    }
  }

  lemma ResumeOk(k: Kernel, tid: Tid, sig: int)
    requires KernelOk(k)
    ensures KernelOk(Resume(k, tid, sig))
  {
    var k1 := Resume(k, tid, sig);
    forall c: Delivery
      ensures Balanced(k1, c)
    {
      assert Balanced(k, c);
    }
  }

  /** The books do not depend on who is known, parked or born. */
  lemma SameLedger(k: Kernel, k1: Kernel)
    requires Ledger(k) && k1.holding == k.holding && k1.consumed == k.consumed && k1.invented == k.invented
    requires k1.injected == k.injected && k1.lost == k.lost && k1.dropped == k.dropped
    ensures Ledger(k1)
  {
    forall c: Delivery
      ensures Balanced(k1, c)
    {
      assert Balanced(k, c);
    }
  }

  /** Nor on what has been seen and asked for. */
  lemma AnyLog(k: Kernel, log: Log)
    requires KernelOk(k)
    ensures KernelOk(k.(log := log)) && Lapsed(k, k.(log := log))
  {
    SameLedger(k, k.(log := log));
  }

  lemma DetachOk(k: Kernel, tid: Tid, sig: int)
    requires KernelOk(k)
    ensures KernelOk(DetachStep(k, tid, sig))
  {
    MovedOk(k);
    var k1 := Moved(k);
    ResumeOk(k1, tid, sig);
    SameLedger(if tid in k1.reported then Resume(k1, tid, sig) else k1, DetachStep(k, tid, sig));
  }

  // ---------------------------------------------------------------- the monitor's invariant

  /** tid may be resumed: it is not the recorded crash, nor a new image under an exited leader's TID. */
  ghost predicate MayResume(s: State, tid: Tid) {
    (s.exitSig != 0 ==> tid != s.crashTid) && (tid == s.k.pid && s.leaderExited ==> tid in s.k.dying)
  }

  /** Each tracee Arthur was told of is recorded; an exited leader is past its EXIT, or replaced by a new image
      in its exec stop; and the recorded crash holds its own signal, unless it was killed. */
  ghost predicate Inv(s: State) {
    && KernelOk(s.k) && s.k.reported <= s.tids
    && (s.leaderExited && s.k.pid in s.k.reported ==> s.k.pid in s.k.dying || s.k.pid in s.k.parked)
    && (s.exitSig != 0 ==>
          && Archive.IsCoreDumpSignal(s.exitSig) && s.crashTid > 0 && s.crashTid in s.k.used
          && (s.crashTid in s.k.holding ==> s.k.holding[s.crashTid] == s.exitSig)
          && (s.crashTid in s.k.reported && s.crashTid !in s.k.holding ==>
                s.crashTid in s.k.dying || s.crashTid in s.k.parked))
  }

  /** Without a crash nothing is held. */
  ghost predicate Calm(s: State) {
    s.exitSig == 0 ==> s.k.holding == map[]
  }

  /** Between two turns of the drain loop. */
  ghost predicate Going(s: State) {
    Inv(s) && Calm(s) && s.k.newborn !! s.k.reported && (s.exitSig == 0 ==> s.k.parked == {})
  }

  /** No delivery was dropped and none invented, and a recorded crash stays recorded. */
  ghost predicate Honest(s: State, s1: State) {
    && s1.k.dropped == s.k.dropped && s1.k.invented == s.k.invented && s1.k.pid == s.k.pid && s.k.used <= s1.k.used
    && (s.exitSig != 0 ==> s1.exitSig == s.exitSig && s1.crashTid == s.crashTid)
  }

  lemma LapsedInv(s: State, k: Kernel)
    requires Inv(s) && Lapsed(s.k, k) && KernelOk(k)
    ensures Inv(s.(k := k)) && Honest(s, s.(k := k))
  {
    hide KernelOk, Archive.IsCoreDumpSignal;
  }

  /** A thread that is held or parked, or dying, is not resumed by a wait. */
  lemma StopMayResume(s: State, tid: Tid, status: Status)
    requires Inv(s) && Possible(s.k, tid, status)
    ensures MayResume(s, tid) || status.event in {Exec, Exit}
  {
    hide KernelOk, Archive.IsCoreDumpSignal;
  }

  lemma ReportedInv(s: State, tid: Tid, status: Status)
    requires Inv(s) && Possible(s.k, tid, status)
    ensures var s1 := s.(k := Reported(s.k, tid, status)); Inv(s1) && Honest(s, s1)
  {
    ReportedOk(s.k, tid, status);
    hide Ledger, Archive.IsCoreDumpSignal;
  }

  lemma ContInv(s: State, tid: Tid, sig: int)
    requires Inv(s) && MayResume(s, tid)
    requires if tid in s.k.holding then s.k.holding[tid] == sig else sig == 0
    ensures var (ok, s1) := Continue(s, tid, sig);
      && Inv(s1) && Honest(s, s1) && s1 == s.(k := s1.k)
      && s1.k.holding.Keys <= s.k.holding.Keys - {tid} && s1.k.parked <= (if ok then s.k.parked - {tid} else s.k.parked)
      && s1.k.reported <= s.k.reported && s1.k.newborn == s.k.newborn && s1.k.dying == s.k.dying
  {
    MovedOk(s.k);
    var k := Moved(s.k);
    LapsedInv(s, k);
    ResumeOk(k, tid, sig);
    var k1 := Continue(s, tid, sig).1.k;
    AnyLog(if tid in k.reported then Resume(k, tid, sig) else k, k1.log);
    hide KernelOk, Archive.IsCoreDumpSignal, Moved, Lapsed;
  }

  /** A wait reports a stop that is possible by then, or nothing of the kind. */
  lemma WaitLapsed(k: Kernel, tid: Tid, retried: bool)
    requires KernelOk(k)
    ensures var (w, k1) := WaitStep(k, tid, retried);
      if w.Stop() then Possible(Moved(k), tid, w.status) && k1 == Reported(Moved(k), tid, w.status)
      else k1 == Moved(k).(log := k1.log) && KernelOk(k1) && Lapsed(k, k1)
  {
    MovedOk(k);
    var m, k1 := Moved(k), WaitStep(k, tid, retried).1;
    AnyLog(m, k1.log);
    LapsedTwice(k, m, m.(log := k1.log));
    hide Possible, Moved, Reported, KernelOk, Lapsed;
  }

  /** The wait for one thread. */
  lemma WaitInv(s: State, tid: Tid, retried: bool)
    requires Inv(s)
    ensures var (w, k1) := WaitStep(s.k, tid, retried);
      var s1, m := s.(k := k1), Moved(s.k);
      && Inv(s1) && Honest(s, s1) && Inv(s.(k := m)) && KernelOk(m) && Lapsed(s.k, m)
      && (if w.Stop() then Possible(m, tid, w.status) && k1 == Reported(m, tid, w.status)
                           && (MayResume(s, tid) || w.status.event in {Exec, Exit})
          else k1 == m.(log := k1.log) && KernelOk(k1) && Lapsed(s.k, k1))
      && (w.NoChild? ==> tid !in k1.reported || tid in k1.newborn)
      && (w.Status? && !w.Stop() ==> tid !in k1.reported)
  {
    MovedOk(s.k);
    var m := Moved(s.k);
    LapsedInv(s, m);
    var c := Current(s.k);
    if c.fate.Reports? && Possible(m, tid, c.status) {
      ReportedInv(s.(k := m), tid, c.status);
      StopMayResume(s.(k := m), tid, c.status);
    } else {
      WaitLapsed(s.k, tid, retried);
      LapsedInv(s, WaitStep(s.k, tid, retried).1);
    }
    hide Inv, Possible, Moved, Reported, KernelOk, Lapsed;
  }

  // ---------------------------------------------------------------- drain_monitor_events

  /** The child that a clone event names is recorded with it, and is new. */
  lemma EventMsgInv(s: State, tid: Tid)
    requires Inv(s)
    ensures var (child, k1) := EventMsgStep(s.k, tid);
      var s1 := s.(tids := s.tids + (if child.Some? then {child.value} else {}), k := k1);
      && Inv(s1) && Honest(s, s1)
      && k1.holding.Keys <= s.k.holding.Keys && k1.parked <= s.k.parked && k1.dying == s.k.dying
      && (child.None? ==> k1.reported <= s.k.reported && k1.newborn == s.k.newborn && tid !in k1.reported)
      && (child.Some? ==> child.value !in s.k.used && child.value != tid
                          && k1.reported <= s.k.reported + {child.value} && k1.newborn <= s.k.newborn + {child.value}
                          && (child.value in k1.reported ==> child.value in k1.newborn))
  {
    MovedOk(s.k);
    var m, c := Moved(s.k), Current(s.k);
    LapsedInv(s, m);
    var (child, k1) := EventMsgStep(s.k, tid);
    if child.Some? {
      SameLedger(m, k1);
      assert tid in m.used;
    } else {
      DieOk(m, tid);
      AnyLog(Die(m, tid), k1.log);
      LapsedTwice(m, Die(m, tid), k1);
      LapsedInv(s.(k := m), k1);
    }
    hide Ledger, Archive.IsCoreDumpSignal, Moved;
  }

  lemma DetachInv(s: State, tid: Tid, sig: int)
    requires Inv(s) && tid !in s.k.holding && sig == 0
    ensures var s1 := s.(k := DetachStep(s.k, tid, sig), tids := s.tids - {tid});
      && Inv(s1) && Honest(s, s1) && s1.k.holding.Keys <= s.k.holding.Keys && s1.k.parked <= s.k.parked - {tid}
      && s1.k.reported <= s.k.reported - {tid} && s1.k.newborn == s.k.newborn && s1.k.dying == s.k.dying
  {
    MovedOk(s.k);
    LapsedInv(s, Moved(s.k));
    DetachOk(s.k, tid, sig);
    hide Ledger, Archive.IsCoreDumpSignal, Moved;
  }

  lemma AskInv(s: State)
    requires Inv(s)
    ensures var s1 := s.(k := AskStep(s.k).1); Inv(s1) && Honest(s, s1) && Lapsed(s.k, s1.k) && KernelOk(s1.k)
  {
    MovedOk(s.k);
    AskLapsed(s.k);
    LapsedInv(s, AskStep(s.k).1);
  }

  lemma AskLapsed(k: Kernel)
    requires KernelOk(k)
    ensures Lapsed(k, AskStep(k).1) && KernelOk(AskStep(k).1)
  {
    MovedOk(k);
    var k1 := AskStep(k).1;
    AnyLog(Moved(k), k1.log);
    LapsedTwice(k, Moved(k), k1);
    hide Moved, Lapsed, KernelOk;
  }

  lemma DispositionInv(s: State, tid: Tid, sig: int)
    requires Inv(s)
    ensures var s1 := s.(k := DispositionStep(s.k, tid, sig).1); Inv(s1) && Honest(s, s1) && Lapsed(s.k, s1.k)
  {
    var k := AskStep(s.k).1;
    AskLapsed(s.k);
    var k1 := DispositionStep(s.k, tid, sig).1;
    AnyLog(k, k1.log);
    LapsedTwice(s.k, k, k1);
    LapsedInv(s, k1);
    hide AskStep, Lapsed, KernelOk;
  }

  lemma HonestTwice(a: State, b: State, c: State)
    requires Honest(a, b) && Honest(b, c)
    ensures Honest(a, c)
  {}

  /** In the middle of tid's own event stop. */
  ghost predicate Midway(s: State, tid: Tid) {
    Inv(s) && Calm(s) && MayResume(s, tid) && tid !in s.k.holding && (s.exitSig == 0 ==> s.k.parked <= {tid})
  }

  lemma LapsedMidway(s: State, k: Kernel, tid: Tid)
    requires Midway(s, tid) && Lapsed(s.k, k) && KernelOk(k)
    ensures Midway(s.(k := k), tid) && Honest(s, s.(k := k))
    ensures s.k.newborn !! s.k.reported ==> k.newborn !! k.reported
  {
    LapsedInv(s, k);
    hide Inv, KernelOk;
  }

  /** tid runs on from its event stop. */
  lemma ContMidway(s: State, tid: Tid)
    requires Midway(s, tid) && s.exitSig == 0 && s.k.newborn !! s.k.reported
    ensures var (ok, s1) := Continue(s, tid, 0);
      Inv(s1) && Calm(s1) && Honest(s, s1) && s1.exitSig == 0 && (ok ==> Going(s1))
  {
    ContInv(s, tid, 0);
    hide Inv, Continue;
  }

  /** Both a parent and its child run on. */
  lemma ContBoth(s: State, tid: Tid, child: Tid)
    requires Inv(s) && Calm(s) && s.exitSig == 0 && s.k.newborn !! s.k.reported
    requires MayResume(s, tid) && tid !in s.k.holding && child != s.k.pid && child !in s.k.holding
    requires s.k.parked <= {tid, child}
    ensures var (ok, s1) := Continue(s, tid, 0);
      var (ok2, s2) := Continue(s1, child, 0);
      && Inv(s1) && Calm(s1) && Honest(s, s1)
      && (ok ==> Inv(s2) && Calm(s2) && Honest(s, s2) && (ok2 ==> Going(s2)))
  {
    ContInv(s, tid, 0);
    var (ok, s1) := Continue(s, tid, 0);
    hide Inv, Continue;
    assert Midway(s1, child) || !ok;
    if ok {
      ContMidway(s1, child);
      HonestTwice(s, s1, Continue(s1, child, 0).1);
    }
  }

  lemma DrainChildKeeps(s: State, tid: Tid, child: Tid)
    requires Midway(s, tid) && child in s.tids && child != tid && child != s.k.pid && child !in s.k.holding
    requires (s.exitSig != 0 ==> child != s.crashTid) && s.k.newborn * s.k.reported <= {child}
    requires child in s.k.reported ==> child in s.k.newborn
    ensures var (ok, s1) := DrainChild(s, tid, child);
      Inv(s1) && Calm(s1) && Honest(s, s1) && (ok ==> Going(s1))
  {
    hide Inv, MayResume, KernelOk, Continue, AskStep, WaitStep, DetachStep, Reported;
    var (w, k1) := WaitStep(s.k, child, true);
    var s1, m := s.(k := k1), Moved(s.k);
    WaitInv(s, child, true);
    LapsedKeeps(s, m);
    LapsedMidway(s, m, tid);
    if w.Stop() {
      ChildStop(s.(k := m), tid, child, w.status);
      var (membership, k2) := AskStep(k1);
      var s2 := s.(k := k2);
      AskInv(s1);
      LapsedKeeps(s1, k2);
      LapsedPair(s1, k2, tid, child);
      HonestTwice(s, s1, s2);
      if membership == 0 {
        DetachInv(s2, child, 0);
        var s3 := s.(tids := s.tids - {child}, k := DetachStep(k2, child, 0));
        HonestTwice(s, s2, s3);
        DetachedPair(s2, s3, tid, child);
        if s.exitSig == 0 {
          ContMidway(s3, tid);
          HonestTwice(s, s3, Continue(s3, tid, 0).1);
        }
      } else if membership > 0 && s.exitSig == 0 {
        ContBoth(s2, tid, child);
        var (ok, s3) := Continue(s2, tid, 0);
        HonestTwice(s, s2, s3);
        if ok { HonestTwice(s, s2, Continue(s3, child, 0).1); }
      }
    }
  }

  /** tid in its event stop and its child in its first. */
  ghost predicate Pair(s: State, tid: Tid, child: Tid) {
    && Inv(s) && Calm(s) && MayResume(s, tid) && tid !in s.k.holding && child !in s.k.holding && child != s.k.pid
    && s.k.newborn !! s.k.reported && (s.exitSig == 0 ==> s.k.parked <= {tid, child})
  }

  lemma ChildStop(s: State, tid: Tid, child: Tid, status: Status)
    requires Midway(s, tid) && child != tid && child != s.k.pid && child !in s.k.holding
    requires s.k.newborn * s.k.reported <= {child} && child in s.k.newborn && Possible(s.k, child, status)
    ensures Pair(s.(k := Reported(s.k, child, status)), tid, child)
  {
    ReportedInv(s, child, status);
    hide Inv;
  }

  lemma LapsedKeeps(s: State, k: Kernel)
    requires Lapsed(s.k, k)
    ensures Calm(s) ==> Calm(s.(k := k))
    ensures k.newborn * k.reported <= s.k.newborn * s.k.reported && k.reported <= s.k.reported
    ensures k.newborn == s.k.newborn
  {}

  lemma LapsedPair(s: State, k: Kernel, tid: Tid, child: Tid)
    requires Pair(s, tid, child) && Lapsed(s.k, k) && Inv(s.(k := k))
    ensures Pair(s.(k := k), tid, child)
  {
    hide Inv;
  }

  lemma DetachedPair(s: State, s1: State, tid: Tid, child: Tid)
    requires Pair(s, tid, child) && Inv(s1) && Honest(s, s1) && s1 == s.(tids := s1.tids, k := s1.k)
    requires s1.k.holding.Keys <= s.k.holding.Keys && s1.k.parked <= s.k.parked - {child}
    requires s1.k.reported <= s.k.reported && s1.k.newborn == s.k.newborn && s1.k.dying == s.k.dying
    ensures Midway(s1, tid) && s1.k.newborn !! s1.k.reported && (s1.exitSig != 0 ==> Going(s1))
  {
    hide Inv;
  }

  lemma DrainCloneKeeps(s: State, tid: Tid)
    requires Midway(s, tid) && s.k.newborn !! s.k.reported
    ensures var (ok, s1) := DrainClone(s, tid);
      Inv(s1) && Calm(s1) && Honest(s, s1) && (ok ==> Going(s1))
  {
    EventMsgInv(s, tid);
    var (child, k1) := EventMsgStep(s.k, tid);
    if child.Some? {
      var s1 := s.(tids := s.tids + {child.value}, k := k1);
      NewChild(s, s1, tid, child.value);
      hide Inv, MayResume, EventMsgStep, DrainChild;
      DrainChildKeeps(s1, tid, child.value);
      HonestTwice(s, s1, DrainChild(s1, tid, child.value).1);
    } else {
      assert s.tids + {} == s.tids;
      hide Inv, EventMsgStep;
    }
  }

  lemma NewChild(s: State, s1: State, tid: Tid, child: Tid)
    requires Midway(s, tid) && s.k.newborn !! s.k.reported && Inv(s1) && Honest(s, s1)
    requires s1 == s.(tids := s1.tids, k := s1.k)
    requires child !in s.k.used && child in s1.tids
    requires s1.k.holding.Keys <= s.k.holding.Keys && s1.k.parked <= s.k.parked && s1.k.dying == s.k.dying
    requires s1.k.reported <= s.k.reported + {child} && s1.k.newborn <= s.k.newborn + {child}
    ensures Midway(s1, tid) && child != s1.k.pid && child !in s1.k.holding
    ensures (s1.exitSig != 0 ==> child != s1.crashTid) && s1.k.newborn * s1.k.reported <= {child}
  {
    hide Ledger, Archive.IsCoreDumpSignal;
  }

  lemma DrainDeliveryKeeps(s: State, tid: Tid, sig: int)
    requires Inv(s) && MayResume(s, tid) && tid in s.k.holding && s.k.holding[tid] == sig && s.k.newborn !! s.k.reported
    requires s.exitSig == 0 ==> s.k.holding.Keys <= {tid} && s.k.parked == {}
    ensures var (ok, s1) := DrainDelivery(s, tid, sig);
      Inv(s1) && Calm(s1) && Honest(s, s1) && (ok ==> Going(s1))
  {
    if Archive.IsCoreDumpSignal(sig) {
      var (disposition, k1) := DispositionStep(s.k, tid, sig);
      var s1 := s.(k := k1);
      DispositionInv(s, tid, sig);
      if disposition != 0 {
        Passed(s1, tid, sig);
        HonestTwice(s, s1, Continue(s1, tid, sig).1);
      } else if s.exitSig == 0 {
        assert tid in s.k.used;
      }
    } else if s.exitSig == 0 {
      Passed(s, tid, sig);
      var s1 := s.(inGroupStop := false);
      Passed(s1, tid, sig);
    }
    hide Continue, KernelOk, DispositionStep;
  }

  /** The delivery that tid is held in, or was killed in, is passed on. */
  lemma Passed(s: State, tid: Tid, sig: int)
    requires Inv(s) && MayResume(s, tid) && (tid in s.k.holding ==> s.k.holding[tid] == sig)
    requires s.k.newborn !! s.k.reported
    requires tid !in s.k.holding ==> tid !in s.k.reported
    requires s.exitSig == 0 ==> s.k.holding.Keys <= {tid} && s.k.parked == {}
    ensures var (ok, s1) := Continue(s, tid, sig);
      Inv(s1) && Calm(s1) && Honest(s, s1) && (ok ==> Going(s1))
  {
    if tid in s.k.holding {
      ContInv(s, tid, sig);
    } else {
      MovedOk(s.k);
      AnyLog(Moved(s.k), Continue(s, tid, sig).1.k.log);
      LapsedTwice(s.k, Moved(s.k), Continue(s, tid, sig).1.k);
      LapsedInv(s, Continue(s, tid, sig).1.k);
    }
    hide Inv, Moved, KernelOk;
  }

  /** The stop of one thread, as a wait has just reported it. */
  lemma DrainStopKeeps(s: State, tid: Tid, status: Status)
    requires Going(s) && Possible(s.k, tid, status) && (MayResume(s, tid) || status.event in {Exec, Exit})
    ensures var (turn, s1) := DrainStop(s.(k := Reported(s.k, tid, status)), tid, status);
      Inv(s1) && Calm(s1) && Honest(s, s1) && (!turn.Leave? ==> Going(s1))
  {
    var s0 := s.(k := Reported(s.k, tid, status));
    ReportedInv(s, tid, status);
    AfterReport(s, tid, status);
    hide Inv, MayResume, Possible, Reported, Continue, DrainClone, DrainDelivery, RequestStep, IsJobStop;
    if status.event == Exec {
      var s1 := s0.(tids := {s0.k.pid}, leaderExited := false, inGroupStop := false);
      ExecMidway(s0, s1, tid);
      if s.exitSig == 0 {
        ContMidway(s1, tid);
        HonestTwice(s, s1, Continue(s1, tid, 0).1);
      }
    } else if status.event in {Clone, Fork, Vfork} {
      DrainCloneKeeps(s0, tid);
      HonestTwice(s, s0, DrainClone(s0, tid).1);
    } else if status.event == Exit {
      var s1 := if tid == s0.k.pid then s0.(leaderExited := true) else s0;
      ExitMidway(s0, s1, tid);
      if s.exitSig == 0 {
        ContMidway(s1, tid);
        HonestTwice(s, s1, Continue(s1, tid, 0).1);
      }
    } else if status.event == NoEvent {
      DrainDeliveryKeeps(s0, tid, status.sig);
      HonestTwice(s, s0, DrainDelivery(s0, tid, status.sig).1);
    } else if status.event == Stop && IsJobStop(status.sig) {
      Listened(s0, tid);
      var s1 := s0.(k := RequestStep(s0.k, tid, true).1);
      HonestTwice(s, s0, s1);
      Flagged(s1, s0.inGroupStop || RequestStep(s0.k, tid, true).0);
    } else if s.exitSig == 0 {
      ContMidway(s0, tid);
      HonestTwice(s, s0, Continue(s0, tid, 0).1);
      var s1 := s0.(inGroupStop := false);
      MidwayFlag(s0, s1, tid);
      ContMidway(s1, tid);
      HonestTwice(s, s1, Continue(s1, tid, 0).1);
    }
  }

  lemma Flagged(s: State, stopped: bool)
    ensures Inv(s) ==> Inv(s.(inGroupStop := stopped))
    ensures Going(s) ==> Going(s.(inGroupStop := stopped))
  {
    hide KernelOk, Archive.IsCoreDumpSignal;
  }

  lemma MidwayFlag(s: State, s1: State, tid: Tid)
    requires Midway(s, tid) && s1 == s.(inGroupStop := false)
    ensures Midway(s1, tid)
  {
    hide KernelOk, Archive.IsCoreDumpSignal;
  }

  lemma AfterReport(s: State, tid: Tid, status: Status)
    requires Going(s) && Possible(s.k, tid, status) && (MayResume(s, tid) || status.event in {Exec, Exit})
    requires Inv(s.(k := Reported(s.k, tid, status)))
    ensures var s0 := s.(k := Reported(s.k, tid, status));
      && s0.k.newborn !! s0.k.reported && (status.event == Exit ==> tid in s0.k.dying)
      && (status.event == Exec ==> tid == s0.k.pid && s0.k.reported == {s0.k.pid} && tid !in s0.k.holding)
      && (if status.event == NoEvent then
            && MayResume(s0, tid) && tid in s0.k.holding && s0.k.holding[tid] == status.sig
            && (s0.exitSig == 0 ==> s0.k.holding.Keys <= {tid} && s0.k.parked == {})
          else
            && Calm(s0) && tid !in s0.k.holding && (s0.exitSig == 0 ==> s0.k.parked <= {tid})
            && (status.event !in {Exec, Exit} ==> Midway(s0, tid)))
  {
    hide Ledger, Archive.IsCoreDumpSignal;
  }

  lemma ExecMidway(s: State, s1: State, tid: Tid)
    requires Inv(s) && Calm(s) && tid == s.k.pid && s.k.reported == {s.k.pid} && tid !in s.k.holding
    requires s.k.newborn !! s.k.reported
    requires s.exitSig == 0 ==> s.k.parked <= {tid}
    requires s1 == s.(tids := {s.k.pid}, leaderExited := false, inGroupStop := false)
    ensures Inv(s1) && Calm(s1) && Honest(s, s1) && (s.exitSig == 0 ==> Midway(s1, tid))
    ensures s.exitSig != 0 ==> Going(s1)
  {
    hide Ledger, Archive.IsCoreDumpSignal;
  }

  lemma ExitMidway(s: State, s1: State, tid: Tid)
    requires Inv(s) && Calm(s) && tid in s.k.dying && tid !in s.k.holding && s.k.newborn !! s.k.reported
    requires s.exitSig == 0 ==> s.k.parked <= {tid}
    requires s1 == if tid == s.k.pid then s.(leaderExited := true) else s
    ensures Inv(s1) && Calm(s1) && Honest(s, s1) && (s.exitSig == 0 ==> Midway(s1, tid))
    ensures s.exitSig != 0 ==> Going(s1)
  {
    hide Ledger, Archive.IsCoreDumpSignal;
  }

  /** A group-stopped thread is left listening. */
  lemma Listened(s: State, tid: Tid)
    requires Midway(s, tid) && s.k.newborn !! s.k.reported
    ensures var (ok, k1) := RequestStep(s.k, tid, true);
      var s1 := s.(k := k1);
      Inv(s1) && Calm(s1) && Honest(s, s1) && (ok ==> Going(s1))
  {
    MovedOk(s.k);
    LapsedMidway(s, Moved(s.k), tid);
    SameLedger(Moved(s.k), RequestStep(s.k, tid, true).1);
    hide Ledger, Archive.IsCoreDumpSignal, Moved;
  }

  lemma Forgotten(s: State, tid: Tid)
    requires Inv(s) && tid !in s.k.reported
    ensures Inv(s.(tids := s.tids - {tid})) && Honest(s, s.(tids := s.tids - {tid}))
    ensures Going(s) ==> Going(s.(tids := s.tids - {tid}))
  {
    hide KernelOk, Archive.IsCoreDumpSignal;
  }

  lemma LapsedGoing(s: State, k: Kernel)
    requires Going(s) && Lapsed(s.k, k) && KernelOk(k)
    ensures Going(s.(k := k)) && Honest(s, s.(k := k))
  {
    LapsedInv(s, k);
    hide Inv, KernelOk;
  }

  lemma GoingFacts(s: State)
    ensures Going(s) ==> Inv(s) && KernelOk(s.k) && Calm(s) && s.k.newborn !! s.k.reported
  {
    hide KernelOk, Archive.IsCoreDumpSignal;
  }

  /** Time passes between two turns. */
  lemma AskGoing(s: State)
    requires Going(s)
    ensures var s1 := s.(k := AskStep(s.k).1);
      Going(s1) && Honest(s, s1) && s1.k.reported <= s.k.reported
  {
    GoingFacts(s);
    AskLapsed(s.k);
    LapsedGoing(s, AskStep(s.k).1);
    hide Going, AskStep;
  }

  lemma DrainOneKeeps(s: State, tid: Tid)
    requires Going(s)
    ensures var (turn, s1) := DrainOne(s, tid);
      Inv(s1) && Calm(s1) && Honest(s, s1) && (!turn.Leave? ==> Going(s1))
  {
    GoingFacts(s);
    var (w, k1) := WaitStep(s.k, tid, false);
    var s1, m := s.(k := k1), Moved(s.k);
    WaitInv(s, tid, false);
    LapsedGoing(s, m);
    GoingFacts(s.(k := m));
    if w.Stop() {
      LapsedMayResume(s, m, tid);
      hide *;
      DrainOneStop(s, tid);
      DrainStopKeeps(s.(k := m), tid, w.status);
      HonestTwice(s, s.(k := m), DrainStop(s1, tid, w.status).1);
    } else {
      hide Inv, KernelOk, Going, Moved, WaitStep, AskStep, Calm;
      Quietly(s, s1, tid, w);
    }
  }

  lemma LapsedMayResume(s: State, k: Kernel, tid: Tid)
    requires Lapsed(s.k, k)
    ensures MayResume(s, tid) ==> MayResume(s.(k := k), tid)
  {}

  lemma DrainOneStop(s: State, tid: Tid)
    ensures var (w, k1) := WaitStep(s.k, tid, false);
      w.Stop() ==> DrainOne(s, tid) == DrainStop(s.(k := k1), tid, w.status)
  {
    hide WaitStep, DrainStop, AskStep;
  }

  /** A turn without a stop. */
  lemma Quietly(s: State, s1: State, tid: Tid, w: WaitResult)
    requires WaitStep(s.k, tid, false) == (w, s1.k) && s1 == s.(k := s1.k) && !w.Stop()
    requires Going(s1) && Honest(s, s1) && s1.k.newborn !! s1.k.reported
    requires w.NoChild? ==> tid !in s1.k.reported || tid in s1.k.newborn
    requires w.Status? ==> tid !in s1.k.reported
    ensures var (turn, s2) := DrainOne(s, tid);
      Inv(s2) && Calm(s2) && Honest(s, s2) && (!turn.Leave? ==> Going(s2))
  {
    hide WaitStep, AskStep, Going, Inv, Calm, Archive.IsCoreDumpSignal;
    GoingFacts(s1);
    if w.NoChild? {
      AskGoing(s1);
      var s2 := s1.(k := AskStep(s1.k).1);
      AskGoing(s2);
      var s3 := s2.(k := AskStep(s2.k).1);
      HonestTwice(s, s1, s2);
      HonestTwice(s, s2, s3);
      GoneFacts(s, s2, tid);
      GoneFacts(s, s3, tid);
    } else if w.Status? {
      GoneFacts(s, s1, tid);
    }
  }

  lemma GoneFacts(s: State, s1: State, tid: Tid)
    requires Going(s1) && Honest(s, s1) && tid !in s1.k.reported
    ensures var s2 := s1.(tids := s1.tids - {tid}); Going(s2) && Inv(s2) && Calm(s2) && Honest(s, s2)
    ensures Inv(s1) && Calm(s1)
  {
    GoingFacts(s1);
    Forgotten(s1, tid);
    GoingFacts(s1.(tids := s1.tids - {tid}));
    HonestTwice(s, s1, s1.(tids := s1.tids - {tid}));
    hide Going, Inv, Honest, Calm;
  }

  lemma ReconcileKeeps(s: State)
    requires Going(s)
    ensures var (turn, s1) := Reconcile(s);
      Inv(s1) && Calm(s1) && Honest(s, s1) && (!turn.Leave? ==> Going(s1))
  {
    GoingFacts(s);
    MovedOk(s.k);
    var c, k := Current(s.k), Moved(s.k);
    LapsedGoing(s, k);
    GoingFacts(s.(k := k));
    if c.answer == 0 {
      var traced := set t | t in c.traced && Adoptable(k, s.crashTid, s.leaderExited, t);
      var s1 := s.(tids := s.tids + traced, k := k.(reported := k.reported + traced, used := k.used + traced));
      AdoptedGoing(s.(k := k), traced, s1);
      GoingFacts(s1);
      HonestTwice(s, s.(k := k), s1);
      TroubleInv(s1);
    } else {
      TroubleInv(s.(k := k));
    }
    hide Inv, Going, Honest, Calm, Moved, KernelOk;
  }

  lemma AdoptedGoing(s: State, traced: set<Tid>, s1: State)
    requires Going(s) && forall t :: t in traced ==> Adoptable(s.k, s.crashTid, s.leaderExited, t)
    requires s1 == s.(tids := s.tids + traced, k := s.k.(reported := s.k.reported + traced, used := s.k.used + traced))
    ensures Going(s1) && Honest(s, s1)
  {
    SameLedger(s.k, s1.k);
    hide Ledger, Archive.IsCoreDumpSignal;
  }

  lemma TroubleInv(s: State)
    requires Inv(s)
    ensures var s1 := s.(k := Trouble(s.k));
      Inv(s1) && (Calm(s) ==> Calm(s1)) && forall s0 :: Honest(s0, s) ==> Honest(s0, s1)
  {
    InvKernel(s);
    AnyLog(s.k, Trouble(s.k).log);
    LapsedInv(s, Trouble(s.k));
    hide Inv, KernelOk, Lapsed;
  }

  lemma {:induction false} DrainPassKeeps(s: State, todo: set<Tid>, progress: bool)
    requires Going(s)
    ensures var (pass, s1) := DrainPass(s, todo, progress);
      Inv(s1) && Calm(s1) && Honest(s, s1) && (pass.Finished? ==> Going(s1))
    decreases |todo|
  {
    GoingFacts(s);
    if todo != {} {
      var tid := Least(todo);
      DrainOneKeeps(s, tid);
      var (turn, s1) := DrainOne(s, tid);
      hide Going, Inv, Honest, Calm, DrainOne;
      if turn.Idle? || turn.Progress? {
        var more := turn.Progress? || progress;
        DrainPassKeeps(s1, todo - {tid}, more);
        HonestTwice(s, s1, DrainPass(s1, todo - {tid}, more).1);
      }
    }
  }

  /** drain_monitor_events, whatever the target does between any two requests: at every exit each tracee that
      Arthur was told of is recorded; no delivery is dropped, none is invented, and none is held without a
      recorded crash; and a quiet end leaves no thread standing in a stop that was consumed. */
  lemma {:induction false} DrainKeeps(s: State, rounds: nat)
    requires Going(s)
    ensures var (state, s1) := DrainRun(s, rounds);
      && Inv(s1) && Calm(s1) && Honest(s, s1)
      && (state in {Quiet, Crashed, Busy} ==> Going(s1))
      && (state == Quiet ==> s1.exitSig == 0 && s1.k.parked == {})
      && (state == Crashed ==> s1.exitSig != 0)
    decreases rounds
  {
    hide Inv, Honest, Calm, Going, DrainPass, Reconcile;
    GoingFacts(s);
    HonestSelf(s);
    if rounds > 0 {
      DrainPassKeeps(s, s.tids, false);
      DrainPassLeaves(s, s.tids, false);
      var (pass, s1) := DrainPass(s, s.tids, false);
      if pass.Finished? {
        ReconcileKeeps(s1);
        var (turn, s2) := Reconcile(s1);
        HonestTwice(s, s1, s2);
        QuietParked(s1);
        if s1.tids == {} {
          ReconcileLeaves(s1);
          if !turn.Leave? {
            DrainKeeps(s2, rounds - 1);
            HonestTwice(s, s2, DrainRun(s2, rounds - 1).1);
          }
        } else if pass.progress {
          DrainKeeps(s1, rounds - 1);
          HonestTwice(s, s1, DrainRun(s1, rounds - 1).1);
        }
      }
    }
  }

  lemma HonestSelf(s: State)
    ensures Honest(s, s)
  {}

  lemma QuietParked(s: State)
    ensures Going(s) && s.exitSig == 0 ==> s.k.parked == {}
  {}

  lemma ReconcileLeaves(s: State)
    ensures var turn := Reconcile(s).0; turn.Leave? ==> turn.state in {Failed, ProcessGone}
  {}

  /** A turn that leaves the loop leaves it for good. */
  lemma DrainOneLeaves(s: State, tid: Tid)
    ensures var turn := DrainOne(s, tid).0; turn.Leave? ==> turn.state in {Failed, ProcessGone}
  {
    hide WaitStep, AskStep, Continue, DrainClone, DrainDelivery, RequestStep, Archive.IsCoreDumpSignal, IsJobStop;
  }

  lemma {:induction false} DrainPassLeaves(s: State, todo: set<Tid>, progress: bool)
    ensures var pass := DrainPass(s, todo, progress).0; pass.Left? ==> pass.state in {Failed, ProcessGone}
    decreases |todo|
  {
    if todo != {} {
      var tid := Least(todo);
      DrainOneLeaves(s, tid);
      hide DrainOne;
      var (turn, s1) := DrainOne(s, tid);
      DrainPassLeaves(s1, todo - {tid}, true);
      DrainPassLeaves(s1, todo - {tid}, progress);
    }
  }

  /** Signal conservation: where nothing was dropped or invented and nothing is held, every delivery that was
      consumed has been injected into its own thread, unless that was killed first. */
  lemma Conserved(k: Kernel)
    requires Ledger(k) && k.holding == map[] && k.dropped == multiset{} && k.invented == multiset{}
    ensures k.consumed == k.injected + k.lost
  {
    forall c: Delivery
      ensures k.consumed[c] == (k.injected + k.lost)[c]
    {
      assert Balanced(k, c);
    }
  }

  /** A monitor that has just seized the target. */
  ghost predicate Fresh(s: State) {
    && s.tids == s.k.reported <= s.k.used && s.k.pid in s.k.used
    && s.exitSig == 0 && s.crashTid == 0 && !s.leaderExited && !s.inGroupStop
    && s.k.newborn == {} && s.k.dying == {} && s.k.parked == {} && s.k.holding == map[]
    && s.k.consumed == s.k.injected == s.k.lost == s.k.dropped == s.k.invented == multiset{}
    && s.k.log == EMPTY_LOG
  }

  lemma FreshGoing(s: State)
    requires Fresh(s)
    ensures Going(s)
  {
    forall c: Delivery
      ensures Balanced(s.k, c)
    {}
  }

  /** From the start, over any run of the drain without a default-fatal signal: the injections are exactly the
      deliveries consumed, but for those whose thread was killed while it was held. */
  lemma SignalsConserved(s: State, rounds: nat)
    requires Fresh(s)
    ensures var (state, s1) := DrainRun(s, rounds);
      && s1.k.reported <= s1.tids
      && (s1.exitSig == 0 ==> s1.k.consumed == s1.k.injected + s1.k.lost)
  {
    FreshGoing(s);
    DrainKeeps(s, rounds);
    var s1 := DrainRun(s, rounds).1;
    hide DrainRun;
    if s1.exitSig == 0 { Conserved(s1.k); }
  }

  // ---------------------------------------------------------------- detach_monitored_threads

  /** Nothing is ever taken out of the books. */
  ghost predicate Grown(k0: Kernel, k: Kernel) {
    k0.injected <= k.injected && k0.lost <= k.lost && k0.dropped <= k.dropped
  }

  /** The books since k0, between two threads: nothing is invented; a thread that was held at k0 and is not any
      more is no tracee, and nothing of its own was consumed or injected since; nothing of another thread is
      held or was dropped. */
  ghost predicate Books(k0: Kernel, k: Kernel) {
    && k.invented == k0.invented && k.pid == k0.pid && k0.used <= k.used && Grown(k0, k)
    && (forall t :: t in k.holding ==> t in k0.holding && k.holding[t] == k0.holding[t])
    && (forall t :: t in k0.holding && t !in k.holding ==> t !in k.reported)
    && (forall c: Delivery :: c.0 in k0.holding ==> k.consumed[c] == k0.consumed[c] && k.injected[c] == k0.injected[c])
    && (forall c: Delivery :: c.0 !in k0.holding ==> k.dropped[c] == k0.dropped[c])
  }

  /** The same, when tid's stop has just been consumed. */
  ghost predicate Stopping(k0: Kernel, k: Kernel, tid: Tid, status: Status) {
    && k.invented == k0.invented && k.pid == k0.pid && k0.used <= k.used && tid in k.used && Grown(k0, k)
    && (forall t :: t in k.holding && t != tid ==> t in k0.holding && k.holding[t] == k0.holding[t])
    && (forall t :: t in k0.holding && t !in k.holding && t != tid ==> t !in k.reported)
    && (if status.Delivery() then
          && tid !in k0.holding && (tid in k.holding ==> k.holding[tid] == status.sig)
          && (tid !in k.holding ==> tid !in k.reported) && status.sig > 0
        else tid !in k.holding)
    && (forall c: Delivery :: c.0 in k0.holding ==> k.consumed[c] == k0.consumed[c] && k.injected[c] == k0.injected[c])
    && (forall c: Delivery :: c.0 !in k0.holding ==> k.dropped[c] == k0.dropped[c])
  }

  lemma LapsedBooks(k0: Kernel, k: Kernel, k1: Kernel)
    requires Books(k0, k) && Lapsed(k, k1)
    ensures Books(k0, k1)
  {}

  lemma LapsedStopping(k0: Kernel, k: Kernel, k1: Kernel, tid: Tid, status: Status)
    requires Stopping(k0, k, tid, status) && Lapsed(k, k1)
    ensures Stopping(k0, k1, tid, status)
  {}

  lemma ReportedBooks(k0: Kernel, k: Kernel, tid: Tid, status: Status)
    requires Stops(k0) && Stops(k) && Books(k0, k) && Possible(k, tid, status)
    ensures Stopping(k0, Reported(k, tid, status), tid, status)
  {}

  /** One wait between two threads. */
  lemma WaitBooks(k0: Kernel, k: Kernel, tid: Tid, retried: bool)
    requires KernelOk(k0) && KernelOk(k) && Books(k0, k)
    ensures var (w, k1) := WaitStep(k, tid, retried);
      if w.Stop() then Stopping(k0, k1, tid, w.status) else Books(k0, k1)
  {
    MovedOk(k);
    WaitLapsed(k, tid, retried);
    var (w, k1) := WaitStep(k, tid, retried);
    hide Books, Stopping, Possible, Moved, Reported, KernelOk, Lapsed, WaitStep;
    if w.Stop() {
      LapsedBooks(k0, k, Moved(k));
      ReportedBooks(k0, Moved(k), tid, w.status);
    } else {
      LapsedBooks(k0, k, k1);
    }
  }

  lemma ResumeBooks(k0: Kernel, k: Kernel, tid: Tid)
    requires Stops(k) && Books(k0, k)
    ensures Books(k0, Resume(k, tid, 0).(reported := k.reported - {tid}))
  {}

  lemma ResumeStopping(k0: Kernel, k: Kernel, tid: Tid, status: Status)
    requires Stops(k) && Stopping(k0, k, tid, status) && tid in k.reported
    ensures Books(k0, Resume(k, tid, if status.Delivery() then status.sig else 0).(reported := k.reported - {tid}))
  {}

  /** A thread is detached without a stop of its own, or a delivery that was consumed is passed on by it. */
  lemma DetachBooks(k0: Kernel, k: Kernel, tid: Tid)
    requires KernelOk(k) && Books(k0, k)
    ensures Books(k0, DetachStep(k, tid, 0))
  {
    MovedOk(k);
    LapsedBooks(k0, k, Moved(k));
    ResumeBooks(k0, Moved(k), tid);
    hide Moved, Resume, Stops;
  }

  lemma DetachStopping(k0: Kernel, k: Kernel, tid: Tid, status: Status)
    requires KernelOk(k) && Stopping(k0, k, tid, status)
    ensures Books(k0, DetachStep(k, tid, if status.Delivery() then status.sig else 0))
  {
    MovedOk(k);
    var m := Moved(k);
    LapsedStopping(k0, k, m, tid, status);
    if tid in m.reported { ResumeStopping(k0, m, tid, status); }
    hide Moved, Resume, Ledger, Lapsed;
  }

  lemma EventMsgStopping(k0: Kernel, k: Kernel, tid: Tid, status: Status)
    requires KernelOk(k0) && KernelOk(k) && Stopping(k0, k, tid, status) && !status.Delivery()
    ensures Stopping(k0, EventMsgStep(k, tid).1, tid, status)
  {
    MovedOk(k);
    var m := Moved(k);
    LapsedStopping(k0, k, m, tid, status);
    DieOk(m, tid);
    LapsedStopping(k0, m, Die(m, tid), tid, status);
    hide Moved, Ledger, Die;
  }

  // ---------------------------------------------------------------- the search for a stop

  /** What StopForDetach comes to, for the books since k0. */
  ghost predicate Found(k0: Kernel, s: State, k: Kernel, tid: Tid, kind: StopKind, rc: int) {
    && Inv(s.(k := k)) && KernelOk(k) && k.pid == s.k.pid && k.reported <= s.k.reported && k.zombies >= s.k.zombies
    && (if kind.Real? && kind.status.Stopped? then Stopping(k0, k, tid, kind.status) else Books(k0, k))
    && (kind.Gone? && rc == 0 ==> tid !in k.reported)
    && (kind.ZombieLeader? ==> tid == k.pid && tid in k.zombies && s.leaderExited)
  }

  /** Any wait on the way. */
  lemma WaitFinds(k0: Kernel, s: State, k: Kernel, tid: Tid, retried: bool)
    requires KernelOk(k0) && Inv(s.(k := k)) && KernelOk(k) && Books(k0, k)
    ensures var (w, k1) := WaitStep(k, tid, retried);
      && Inv(s.(k := k1)) && KernelOk(k1) && k1.pid == k.pid && k1.reported <= k.reported && k1.zombies >= k.zombies
      && (if w.Stop() then Stopping(k0, k1, tid, w.status) else Books(k0, k1))
  {
    WaitInv(s.(k := k), tid, retried);
    WaitBooks(k0, k, tid, retried);
    var (w, k1) := WaitStep(k, tid, retried);
    InvKernel(s.(k := k1));
    ReportedKeeps(k, tid, retried);
    hide Inv, Books, Stopping, WaitStep, Possible, KernelOk, Honest, Lapsed;
  }

  lemma InvKernel(s: State)
    ensures Inv(s) ==> KernelOk(s.k)
  {
    hide KernelOk;
  }

  lemma ReportedKeeps(k: Kernel, tid: Tid, retried: bool)
    requires KernelOk(k)
    ensures var k1 := WaitStep(k, tid, retried).1; k1.reported <= k.reported && k1.zombies >= k.zombies
  {
    MovedOk(k);
    hide Moved, KernelOk, Possible;
  }

  /** Any other request on the way. */
  lemma TimeFinds(k0: Kernel, s: State, k: Kernel)
    requires KernelOk(k0) && Inv(s.(k := k)) && KernelOk(k) && Books(k0, k)
    ensures var k1 := Moved(k); Later(k0, s, k, k1) && Later(k0, s, k, Trouble(k1))
  {
    MovedOk(k);
    var k1 := Moved(k);
    LapsedInv(s.(k := k), k1);
    LapsedBooks(k0, k, k1);
    AnyLog(k1, Trouble(k1).log);
    LapsedInv(s.(k := k1), Trouble(k1));
    LapsedBooks(k0, k1, Trouble(k1));
    hide Inv, Books, Moved, KernelOk;
  }

  ghost predicate Later(k0: Kernel, s: State, k: Kernel, k1: Kernel) {
    && Inv(s.(k := k1)) && KernelOk(k1) && Books(k0, k1)
    && k1.pid == k.pid && k1.reported <= k.reported && k1.zombies >= k.zombies
  }

  lemma {:induction false} RecoverFinds(k0: Kernel, s: State, k: Kernel, tid: Tid, turns: nat)
    requires KernelOk(k0) && Inv(s.(k := k)) && KernelOk(k) && Books(k0, k)
    requires k.pid == s.k.pid && k.reported <= s.k.reported && k.zombies >= s.k.zombies
    ensures var (kind, k1) := RecoverRun(k, tid, turns); Found(k0, s, k1, tid, kind, -1)
    decreases turns
  {
    hide Inv, Books, Stopping, WaitStep, KernelOk;
    if turns > 0 {
      WaitFinds(k0, s, k, tid, true);
      var (w, k1) := WaitStep(k, tid, true);
      if !w.Status? { RecoverFinds(k0, s, k1, tid, turns - 1); }
    }
  }

  lemma AwaitFinds(k0: Kernel, s: State, k: Kernel, tid: Tid)
    requires KernelOk(k0) && Inv(s.(k := k)) && KernelOk(k) && Books(k0, k)
    requires k.pid == s.k.pid && k.reported <= s.k.reported && k.zombies >= s.k.zombies
    ensures var (kind, rc, k1) := AwaitStop(k, tid); Found(k0, s, k1, tid, kind, rc)
  {
    hide Inv, Books, Stopping, WaitStep, KernelOk, RecoverRun;
    WaitFinds(k0, s, k, tid, true);
    var (w, k1) := WaitStep(k, tid, true);
    if w.NoChild? { RecoverFinds(k0, s, k1, tid, Current(k).turns); }
  }

  lemma StopOfFinds(k0: Kernel, s: State, k: Kernel, tid: Tid, rc: int)
    requires KernelOk(k0) && Inv(s.(k := k)) && KernelOk(k) && Books(k0, k)
    requires k.pid == s.k.pid && k.reported <= s.k.reported && k.zombies >= s.k.zombies
    ensures var (kind, rc1, k1) := StopOf(k, tid, rc); Found(k0, s, k1, tid, kind, rc1)
  {
    hide Inv, Books, Stopping, WaitStep, KernelOk, AwaitStop, Moved;
    TimeFinds(k0, s, k);
    var (stopped, k1) := RegsStep(k, tid);
    if stopped {
      WaitFinds(k0, s, k1, tid, true);
    } else {
      TimeFinds(k0, s, k1);
      var (interrupted, k2) := RequestStep(k1, tid, false);
      if interrupted { AwaitFinds(k0, s, k2, tid); }
    }
  }

  lemma StopFinds(k0: Kernel, s: State, tid: Tid)
    requires KernelOk(k0) && Inv(s) && KernelOk(s.k) && Books(k0, s.k)
    ensures var (kind, rc, k1) := StopForDetach(s.k, tid, s.leaderExited); Found(k0, s, k1, tid, kind, rc)
  {
    hide Inv, Books, Stopping, WaitStep, KernelOk, StopOf, Moved;
    assert s.(k := s.k) == s;
    WaitFinds(k0, s, s.k, tid, false);
    var (w, k1) := WaitStep(s.k, tid, false);
    if !w.Status? {
      TimeFinds(k0, s, k1);
      var (zombie, k2) := ZombieStep(k1, tid);
      if w.NoStatus? && tid == s.k.pid && s.leaderExited {
        if !zombie { StopOfFinds(k0, s, k2, tid, 0); }
      } else {
        StopOfFinds(k0, s, k1, tid, if w.Interrupted? then -1 else 0);
      }
    }
  }

  // ---------------------------------------------------------------- one thread after another

  lemma DetachAnyInv(s: State, tid: Tid, sig: int)
    requires Inv(s)
    ensures var s1 := s.(k := DetachStep(s.k, tid, sig));
      && Inv(s1) && KernelOk(s1.k)
      && s1.k.reported <= s.k.reported - {tid} && s1.k.zombies >= s.k.zombies && s1.k.pid == s.k.pid
  {
    MovedOk(s.k);
    LapsedInv(s, Moved(s.k));
    DetachOk(s.k, tid, sig);
    hide Ledger, Archive.IsCoreDumpSignal, Moved;
  }

  /** The tracees that remain to be detached, while nothing has failed. */
  ghost predicate Covered(s: State, pending: set<Tid>) {
    forall t :: t in s.k.reported ==> t in pending || (t == s.k.pid && t in s.k.zombies && s.leaderExited)
  }

  /** What one thread's turn leaves. */
  ghost predicate Turned(k0: Kernel, s: State, tid: Tid, child: Option<Tid>, rc: int, s1: State) {
    && Inv(s1) && KernelOk(s1.k) && Books(k0, s1.k) && s1.leaderExited == s.leaderExited && s1.k.pid == s.k.pid
    && (rc == 0 ==> Remaining(s, tid, child, s1))
  }

  /** tid itself is done with, and nothing but its new child is to be added. */
  ghost predicate Remaining(s: State, tid: Tid, child: Option<Tid>, s1: State) {
    forall t :: t in s1.k.reported ==>
      (child == Some(t) || (t != tid && t in s.k.reported) || (t == s.k.pid && t in s1.k.zombies && s.leaderExited))
  }

  lemma CoveredStill(s: State, pending: set<Tid>, tid: Tid, child: Option<Tid>, s1: State)
    requires Covered(s, pending) && Remaining(s, tid, child, s1)
    requires s1.leaderExited == s.leaderExited && s1.k.pid == s.k.pid && s1.k.zombies >= s.k.zombies
    ensures Covered(s1, pending - {tid} + (if child.Some? then {child.value} else {}))
  {}

  lemma DetachOneKeeps(k0: Kernel, s: State, tid: Tid)
    requires KernelOk(k0) && Inv(s) && KernelOk(s.k) && Books(k0, s.k)
    ensures var (child, rc, s1) := DetachOne(s, tid);
      Turned(k0, s, tid, child, rc, s1) && s1.k.zombies >= s.k.zombies
  {
    StopFinds(k0, s, tid);
    var (kind, rc, k1) := StopForDetach(s.k, tid, s.leaderExited);
    hide *;
    DetachFound(k0, s, tid, kind, rc, k1);
  }

  lemma DetachFound(k0: Kernel, s: State, tid: Tid, kind: StopKind, rc: int, k: Kernel)
    requires KernelOk(k0) && Found(k0, s, k, tid, kind, rc) && StopForDetach(s.k, tid, s.leaderExited) == (kind, rc, k)
    ensures var (child, rc1, s1) := DetachOne(s, tid);
      Turned(k0, s, tid, child, rc1, s1) && s1.k.zombies >= s.k.zombies
  {
    hide Inv, Books, Stopping, KernelOk, StopForDetach, EventMsgStep, DetachStep;
    var s1 := s.(k := k);
    if kind.Real? && kind.status.Stopped? && kind.status.event == Clone {
      DetachCloneKeeps(k0, s1, tid, kind.status);
      assert s.tids + {} == s.tids;
    } else if !kind.Gone? && !kind.ZombieLeader? {
      DetachPlainKeeps(k0, s1, tid, kind);
    }
  }

  lemma DetachPlainKeeps(k0: Kernel, s: State, tid: Tid, kind: StopKind)
    requires Inv(s) && KernelOk(s.k)
    requires if kind.Real? && kind.status.Stopped? then Stopping(k0, s.k, tid, kind.status) else Books(k0, s.k)
    ensures var relay := if kind.Real? && kind.status.Delivery() then kind.status.sig else 0;
      var s1 := s.(k := DetachStep(s.k, tid, relay));
      && s1.k.zombies >= s.k.zombies && s1.k.reported <= s.k.reported - {tid} && s1.k.pid == s.k.pid
      && Inv(s1) && KernelOk(s1.k) && Books(k0, s1.k)
  {
    hide Inv, Books, Stopping, KernelOk, DetachStep;
    var relay := if kind.Real? && kind.status.Delivery() then kind.status.sig else 0;
    DetachAnyInv(s, tid, relay);
    if kind.Real? && kind.status.Stopped? {
      DetachStopping(k0, s.k, tid, kind.status);
    } else {
      DetachBooks(k0, s.k, tid);
    }
  }

  lemma DetachCloneKeeps(k0: Kernel, s: State, tid: Tid, status: Status)
    requires KernelOk(k0) && Inv(s) && KernelOk(s.k) && Stopping(k0, s.k, tid, status) && !status.Delivery()
    ensures var (child, k1) := EventMsgStep(s.k, tid);
      var s1 := s.(tids := s.tids + (if child.Some? then {child.value} else {}), k := DetachStep(k1, tid, 0));
      && s1.k.zombies >= s.k.zombies && Turned(k0, s, tid, child, 0, s1)
  {
    hide Inv, Books, Stopping, KernelOk, EventMsgStep, DetachStep;
    EventMsgInv(s, tid);
    EventMsgStopping(k0, s.k, tid, status);
    EventMsgKeeps(s.k, tid);
    var (child, k1) := EventMsgStep(s.k, tid);
    var s1 := s.(tids := s.tids + (if child.Some? then {child.value} else {}), k := k1);
    InvKernel(s1);
    DetachAnyInv(s1, tid, 0);
    DetachStopping(k0, k1, tid, status);
  }

  lemma EventMsgKeeps(k: Kernel, tid: Tid)
    requires KernelOk(k)
    ensures var k1 := EventMsgStep(k, tid).1; k1.zombies >= k.zombies && k1.pid == k.pid
  {
    MovedOk(k);
    DieOk(Moved(k), tid);
    hide Moved, Die, KernelOk;
  }

  lemma {:induction false} DetachLoopKeeps(k0: Kernel, s: State, pending: set<Tid>, rc: int, limit: nat)
    requires KernelOk(k0) && Inv(s) && KernelOk(s.k) && Books(k0, s.k) && (rc == 0 ==> Covered(s, pending))
    ensures var r := DetachLoop(s, pending, rc, limit);
      && KernelOk(r.s.k) && Books(k0, r.s.k)
      && (r.done ==> r.s.tids == {})
      && (r.done && r.rc == 0 ==>
            r.s.k.holding == map[] && forall t :: t in r.s.k.reported ==> t == r.s.k.pid && t in r.s.k.zombies)
    decreases limit
  {
    if pending == {} {
      if rc == 0 { OnlyZombie(s); }
    } else if limit > 0 {
      var tid := Least(pending);
      DetachOneKeeps(k0, s, tid);
      var (child, failed, s1) := DetachOne(s, tid);
      hide Inv, Books, KernelOk, DetachOne, Covered, Remaining;
      if failed == 0 && rc == 0 { CoveredStill(s, pending, tid, child, s1); }
      DetachLoopKeeps(k0, s1, pending - {tid} + (if child.Some? then {child.value} else {}),
                      if failed != 0 then -1 else rc, limit - 1);
    }
  }

  /** An exited leader holds nothing. */
  lemma OnlyZombie(s: State)
    requires Inv(s) && Covered(s, {})
    ensures s.k.holding == map[] && forall t :: t in s.k.reported ==> t == s.k.pid && t in s.k.zombies
  {
    hide Ledger, Archive.IsCoreDumpSignal;
    assert s.k.pid !in s.k.holding;
    assert s.k.holding.Keys == {};
  }

  /** What becomes of the deliveries of a thread that was not held at k0, and of one that was. */
  lemma OwnFate(k0: Kernel, k: Kernel, c: Delivery)
    requires Ledger(k0) && Ledger(k) && Books(k0, k) && c.0 !in k0.holding
    ensures k.consumed[c] + k0.injected[c] + k0.lost[c] == k0.consumed[c] + k.injected[c] + k.lost[c]
  {
    assert Balanced(k0, c) && Balanced(k, c);
  }

  lemma HeldFate(k0: Kernel, k: Kernel, c: Delivery)
    requires Ledger(k0) && Ledger(k) && Books(k0, k) && c.0 in k0.holding && k0.holding[c.0] == c.1
    ensures k.injected[c] == k0.injected[c] && k.consumed[c] == k0.consumed[c]
    ensures k.dropped[c] + k.lost[c] + Count(k.holding, c) == k0.dropped[c] + k0.lost[c] + 1
    ensures k.dropped[c] >= k0.dropped[c] && k.lost[c] >= k0.lost[c]
  {
    assert Balanced(k0, c) && Balanced(k, c);
  }

  /** A delivery that was held at k0 and is not any more was dropped if and only if its thread was not killed. */
  ghost predicate DroppedUnlessKilled(k0: Kernel, k: Kernel, c: Delivery) {
    && k.dropped[c] >= k0.dropped[c] && k.lost[c] >= k0.lost[c]
    && k.dropped[c] + k.lost[c] == k0.dropped[c] + k0.lost[c] + 1
    && (k.dropped[c] > k0.dropped[c] <==> k.lost[c] == k0.lost[c])
  }

  /** detach_monitored_threads, from any state of the monitor, with a crash recorded or not. It invents nothing,
      and what it consumes itself it injects, unless the thread is killed. Of a thread that was held when it
      began nothing is injected: its delivery, the recorded crash among them, is dropped if and only if it is
      not killed before its DETACH. Returning 0 leaves nothing held, and no tracee that Arthur was told of
      attached but a zombie leader. */
  lemma DetachExact(s: State, limit: nat)
    requires Inv(s)
    ensures var r, k, k1 := DetachRun(s, limit), s.k, DetachRun(s, limit).s.k;
      && k1.invented == k.invented
      && (forall t :: t in k1.holding ==> t in k.holding)
      && (forall c: Delivery :: c.0 !in k.holding ==>
            k1.consumed[c] + k.injected[c] + k.lost[c] == k.consumed[c] + k1.injected[c] + k1.lost[c]
            && k1.dropped[c] == k.dropped[c])
      && (forall c: Delivery :: c.0 in k.holding && k.holding[c.0] == c.1 ==>
            k1.injected[c] == k.injected[c] && (c.0 in k1.holding || DroppedUnlessKilled(k, k1, c)))
      && (r.done && r.rc == 0 ==>
            && r.s.tids == {} && k1.holding == map[]
            && forall t :: t in k1.reported ==> t == k1.pid && t in k1.zombies)
  {
    InvKernel(s);
    AtFirst(s);
    hide Inv, Covered, DetachLoop;
    DetachLoopKeeps(s.k, s, s.tids, 0, limit);
    var k, k1 := s.k, DetachRun(s, limit).s.k;
    forall c: Delivery | c.0 !in k.holding
      ensures k1.consumed[c] + k.injected[c] + k.lost[c] == k.consumed[c] + k1.injected[c] + k1.lost[c]
    {
      OwnFate(k, k1, c);
    }
    forall c: Delivery | c.0 in k.holding && k.holding[c.0] == c.1
      ensures k1.injected[c] == k.injected[c] && (c.0 in k1.holding || DroppedUnlessKilled(k, k1, c))
    {
      HeldFate(k, k1, c);
    }
  }

  lemma AtFirst(s: State)
    requires Inv(s)
    ensures Books(s.k, s.k) && Covered(s, s.tids)
  {
    hide Ledger, Archive.IsCoreDumpSignal;
  }

  /** Without a crash nothing is held, so the whole detach conserves signals. */
  lemma DetachConserves(s: State, limit: nat)
    requires Inv(s) && Calm(s) && s.exitSig == 0
    ensures var k1 := DetachRun(s, limit).s.k;
      && k1.dropped == s.k.dropped && k1.invented == s.k.invented && k1.holding == map[]
      && (s.k.dropped == multiset{} && s.k.invented == multiset{} ==> k1.consumed == k1.injected + k1.lost)
  {
    InvKernel(s);
    AtFirst(s);
    hide DetachLoop, Inv;
    DetachLoopKeeps(s.k, s, s.tids, 0, limit);
    var k1 := DetachRun(s, limit).s.k;
    assert forall c: Delivery :: k1.dropped[c] == s.k.dropped[c];
    assert k1.dropped == s.k.dropped;
    if k1.dropped == multiset{} && k1.invented == multiset{} { Conserved(k1); }
  }

  // ---------------------------------------------------------------- kill_crashed

  /** The books since k0 while threads are released with sig: a thread that was held at k0 and is not any more
      is no tracee; the delivery of sig to one that held it is injected or lost. */
  ghost predicate Killing(k0: Kernel, k: Kernel, sig: int) {
    && k.pid == k0.pid && k.consumed == k0.consumed && Grown(k0, k)
    && (forall t :: t in k.holding ==> t in k0.holding && k.holding[t] == k0.holding[t])
    && (forall t :: t in k0.holding && t !in k.holding ==> t !in k.reported)
    && (forall t :: t in k0.holding && k0.holding[t] == sig ==>
          k.dropped[(t, sig)] == k0.dropped[(t, sig)] && k.invented[(t, sig)] == k0.invented[(t, sig)])
    && (forall c: Delivery :: c.0 in k0.holding && c.1 != sig ==>
          k.injected[c] == k0.injected[c] && k.invented[c] == k0.invented[c])
  }

  lemma LapsedKilling(k0: Kernel, k: Kernel, k1: Kernel, sig: int)
    requires Killing(k0, k, sig) && Lapsed(k, k1)
    ensures Killing(k0, k1, sig)
  {}

  lemma ResumeKilling(k0: Kernel, k: Kernel, tid: Tid, sig: int)
    requires Killing(k0, k, sig) && sig > 0 && tid in k.reported && Stops(k)
    ensures Killing(k0, Resume(k, tid, sig).(reported := k.reported - {tid}), sig)
  {}

  lemma DetachKilling(k0: Kernel, k: Kernel, tid: Tid, sig: int)
    requires KernelOk(k) && Killing(k0, k, sig) && sig > 0
    ensures Killing(k0, DetachStep(k, tid, sig), sig)
  {
    MovedOk(k);
    var m := Moved(k);
    LapsedKilling(k0, k, m, sig);
    if tid in m.reported { ResumeKilling(k0, m, tid, sig); }
    hide Moved, Resume, Ledger, Lapsed;
  }

  lemma {:induction false} KillLoopKeeps(k0: Kernel, s: State, todo: set<Tid>)
    requires Inv(s) && s.exitSig > 0 && Killing(k0, s.k, s.exitSig)
    requires forall t :: t in s.k.reported ==> t in todo || (s.leaderExited && t == s.k.pid)
    ensures var s1 := KillLoop(s, todo);
      && KernelOk(s1.k) && Killing(k0, s1.k, s.exitSig) && s1.tids == {}
      && s1.k.holding == map[] && forall t :: t in s1.k.reported ==> s.leaderExited && t == s.k.pid
    decreases |todo|
  {
    InvKernel(s);
    if todo == {} {
      Emptied(s);
    } else {
      var tid := Least(todo);
      if s.leaderExited && tid == s.k.pid {
        KillLoopKeeps(k0, s, todo - {tid});
      } else {
        DetachKilling(k0, s.k, tid, s.exitSig);
        DetachAnyInv(s, tid, s.exitSig);
        hide Inv, KernelOk, Killing, DetachStep;
        KillLoopKeeps(k0, s.(k := DetachStep(s.k, tid, s.exitSig)), todo - {tid});
      }
    }
  }

  lemma Emptied(s: State)
    requires Inv(s) && forall t :: t in s.k.reported ==> s.leaderExited && t == s.k.pid
    ensures s.k.holding == map[]
  {
    hide Ledger, Archive.IsCoreDumpSignal;
    assert s.k.pid !in s.k.holding;
    assert s.k.holding.Keys == {};
  }

  /** The delivery of the crash signal that a thread was held in is injected once more, unless the thread is
      killed. */
  ghost predicate InjectedUnlessKilled(k0: Kernel, k: Kernel, c: Delivery) {
    && k.injected[c] >= k0.injected[c] && k.lost[c] >= k0.lost[c]
    && k.injected[c] + k.lost[c] == k0.injected[c] + k0.lost[c] + 1
    && (k.injected[c] > k0.injected[c] <==> k.lost[c] == k0.lost[c])
  }

  lemma KilledFate(k0: Kernel, k: Kernel, sig: int, c: Delivery)
    requires Ledger(k0) && Ledger(k) && Killing(k0, k, sig) && c.0 in k0.holding
    requires k0.holding[c.0] == c.1 && c.0 !in k.holding
    ensures if c.1 == sig then
              InjectedUnlessKilled(k0, k, c) && k.dropped[c] == k0.dropped[c] && k.invented[c] == k0.invented[c]
            else DroppedUnlessKilled(k0, k, c) && k.injected[c] == k0.injected[c]
  {
    assert Balanced(k0, c) && Balanced(k, c);
    if c.1 == sig { assert c == (c.0, sig); }
  }

  /** kill_crashed releases every recorded thread. Each thread that is held in the crash signal is released with
      it exactly once, unless it is killed first; any other held delivery gives way to the crash signal. */
  lemma KillExact(s: State)
    requires Inv(s) && s.exitSig != 0
    ensures var k, k1 := s.k, KillRun(s).k;
      && KillRun(s).tids == {} && k1.holding == map[]
      && (forall t :: t in k1.reported ==> s.leaderExited && t == k1.pid)
      && (forall c: Delivery :: c.0 in k.holding && k.holding[c.0] == c.1 ==>
            if c.1 == s.exitSig then
              InjectedUnlessKilled(k, k1, c) && k1.dropped[c] == k.dropped[c] && k1.invented[c] == k.invented[c]
            else DroppedUnlessKilled(k, k1, c) && k1.injected[c] == k.injected[c])
  {
    InvKernel(s);
    CrashPositive(s);
    KillingNothing(s.k, s.exitSig);
    hide Inv, KillLoop;
    KillLoopKeeps(s.k, s, s.tids);
    var k, k1 := s.k, KillRun(s).k;
    forall c: Delivery | c.0 in k.holding && k.holding[c.0] == c.1
      ensures if c.1 == s.exitSig then
                InjectedUnlessKilled(k, k1, c) && k1.dropped[c] == k.dropped[c] && k1.invented[c] == k.invented[c]
              else DroppedUnlessKilled(k, k1, c) && k1.injected[c] == k.injected[c]
    {
      KilledFate(k, k1, s.exitSig, c);
    }
  }

  lemma KillingNothing(k: Kernel, sig: int)
    ensures Killing(k, k, sig)
  {}

  lemma CrashPositive(s: State)
    requires Inv(s) && s.exitSig != 0
    ensures s.exitSig > 0 && s.k.reported <= s.tids
  {
    hide KernelOk;
  }

  /** From the seizing of the target to the kill after a crash, over every run between: the crashing thread is
      released with its own signal once more than before, or was killed; and each delivery of that signal to
      it, the first as well as the fatal one, was injected or lost. */
  lemma CrashReleased(s: State, rounds: nat)
    requires Fresh(s) && DrainRun(s, rounds).0 == Crashed
    ensures var s1 := DrainRun(s, rounds).1;
      var k1, k2, c: Delivery := s1.k, KillRun(s1).k, (CrashTid(s1), s1.exitSig);
      && s1.crashTid == c.0
      && (c.0 in k1.holding ==>
            InjectedUnlessKilled(k1, k2, c) && k2.consumed[c] == k2.injected[c] + k2.lost[c])
      && (c.0 !in k1.holding ==> c.0 !in k1.reported || c.0 in k1.dying + k1.parked)
  {
    FreshGoing(s);
    DrainKeeps(s, rounds);
    var s1 := DrainRun(s, rounds).1;
    hide DrainRun, KillRun;
    CrashFacts(s1);
    KillExact(s1);
    KillLedger(s1);
    var k2, c: Delivery := KillRun(s1).k, (CrashTid(s1), s1.exitSig);
    assert Balanced(k2, c);
  }

  function CrashTid(s: State): Tid {
    if s.crashTid > 0 then s.crashTid else 1
  }

  lemma CrashFacts(s: State)
    requires Inv(s) && s.exitSig != 0
    ensures s.crashTid == CrashTid(s) && (s.crashTid in s.k.holding ==> s.k.holding[s.crashTid] == s.exitSig)
    ensures s.crashTid in s.k.reported && s.crashTid !in s.k.holding ==> s.crashTid in s.k.dying + s.k.parked
  {
    hide KernelOk;
  }

  lemma KillLedger(s: State)
    requires Inv(s) && s.exitSig != 0
    ensures Ledger(KillRun(s).k)
  {
    InvKernel(s);
    CrashPositive(s);
    KillingNothing(s.k, s.exitSig);
    hide Inv, KillLoop, Ledger, Killing;
    KillLoopKeeps(s.k, s, s.tids);
  }
}
