/** The ptrace monitor as runs: drain_monitor_events, detach_monitored_threads and kill_crashed, against one
    behaviour of a target that may exit, clone, exec, stop or be killed between any two requests. */
module MonitorRuns {
  import opened Bytes
  import opened Tids
  import Archive

  const SIGTRAP: int := 5
  const SIGCONT: int := 18
  const SIGSTOP: int := 19
  const SIGTSTP: int := 20
  const SIGTTIN: int := 21
  const SIGTTOU: int := 22

  predicate IsJobStop(sig: int) {
    sig in {SIGSTOP, SIGTSTP, SIGTTIN, SIGTTOU}
  }

  datatype Event = NoEvent | Clone | Fork | Vfork | Exec | Exit | Stop

  datatype Status = Exited | Signaled(sig: int) | Stopped(sig: int, event: Event) {
    predicate Delivery() {
      Stopped? && event == NoEvent
    }
  }

  datatype WaitResult = Status(status: Status) | NoStatus | Interrupted | NoChild {
    predicate Stop() {
      Status? && status.Stopped?
    }
  }

  // ---------------------------------------------------------------- the kernel

  datatype Fate = Reports | Silent | Interrupts | Ends

  /** What happens around one request: the tracees that die before it, those that turn out zombies, and how
      the request comes out. */
  datatype Choice = Choice(
    dead: seq<Tid>,
    zombies: set<Tid>,
    fate: Fate,
    status: Status,
    child: Tid,
    yes: bool,
    answer: int,
    turns: nat,
    traced: set<Tid>)

  type Delivery = (Tid, int)

  /** What has been seen and asked for, apart from the books on deliveries. */
  datatype Log = Log(
    listening: set<Tid>,          // last seen in a group stop
    woken: set<Tid>,              // continued out of a group stop
    jobStop: bool,                // of the stops seen of job control, the last one stopped the process
    leaderLeft: bool,             // the leader was seen at its EXIT, and no new image since
    cleared: multiset<Delivery>,  // deliveries whose disposition was answered caught, ignored or unknown
    fatal: seq<Delivery>,         // deliveries whose disposition was answered default, in order
    thawed: bool,                 // after the first of them, a thread was continued without such a signal
    polled: set<Tid>,             // without news since the last news of any thread
    uncaught: bool,               // a thread was reported killed by a core-dumping signal
    interrupted: bool,            // a signal cut a wait short that was not repeated
    trouble: bool)                // a request has failed

  const EMPTY_LOG := Log({}, {}, false, false, multiset{}, [], false, {}, false, false, false)

  /** The tracees, their stops, and the books on deliveries. */
  datatype Kernel = Kernel(
    script: nat -> Choice,
    clock: nat,
    pid: Tid,
    reported: set<Tid>,           // live tracees whose TIDs Arthur has been told
    used: set<Tid>,               // TIDs that have ever been in use
    newborn: set<Tid>,            // tracees that have not had their first stop
    zombies: set<Tid>,
    dying: set<Tid>,              // past their EXIT stop
    parked: set<Tid>,             // in an event stop that was consumed, and not resumed
    holding: map<Tid, int>,       // in a delivery stop that was consumed, and not resumed
    consumed: multiset<Delivery>,
    injected: multiset<Delivery>, // every signal passed on by CONT or DETACH
    lost: multiset<Delivery>,     // deliveries whose thread was killed while it was held
    dropped: multiset<Delivery>,  // deliveries whose thread was resumed without their signal
    invented: multiset<Delivery>, // injections without a delivery of that signal
    log: Log)

  /** The delivery that t may be held in is lost. */
  function Lose(k: Kernel, t: Tid): Kernel {
    if t in k.holding then k.(holding := k.holding - {t}, lost := k.lost + multiset{(t, k.holding[t])}) else k
  }

  function Die(k: Kernel, t: Tid): Kernel {
    Lose(k, t).(reported := k.reported - {t}, parked := k.parked - {t})
  }

  function Deaths(k: Kernel, dead: seq<Tid>): (k1: Kernel)
    ensures k1.pid == k.pid
    decreases |dead|
  {
    if dead == [] then k else Deaths(Die(k, dead[0]), dead[1..])
  }

  function Current(k: Kernel): Choice {
    k.script(k.clock)
  }

  /** Time passes until the next request: known tracees die; clones Arthur has not been told of are outside
      this state. */
  function Moved(k: Kernel): (k1: Kernel)
    ensures k1.pid == k.pid
  {
    Deaths(k, Current(k).dead).(zombies := k.zombies + Current(k).zombies, clock := k.clock + 1)
  }

  /** A tracee in a consumed stop reports nothing more but, when it is killed, its EXIT; a new tracee first
      reports an event stop; EXEC is reported by the leader once every other thread is gone, also when the
      leader was held or had exited. */
  predicate Possible(k: Kernel, tid: Tid, status: Status) {
    && tid in k.reported && status.Stopped? && status.sig > 0
    && (tid in k.newborn ==> status.event != NoEvent)
    && (tid in k.holding || tid in k.parked ==> status.event in {Exec, Exit})
    && (tid in k.dying ==> status.event == Exec)
    && (status.event == Exec ==> tid == k.pid && k.reported == {k.pid})
  }

  /** A group stop: an event stop with the signal that stopped the process. */
  predicate IsGroupStop(status: Status) {
    status.Stopped? && status.event == Stop && IsJobStop(status.sig)
  }

  /** The process runs again: it was continued, or has a new image. */
  predicate IsWakeUp(status: Status) {
    status.Stopped? && (status == Stopped(SIGTRAP, Stop) || status == Stopped(SIGCONT, NoEvent) || status.event == Exec)
  }

  /** The first stop of a new thread says nothing about job control. */
  function SeenStop(k: Kernel, tid: Tid, status: Status): Log
    requires status.Stopped?
  {
    var stopped := IsGroupStop(status) && tid !in k.newborn;
    k.log.(polled := {},
           listening := if stopped then k.log.listening + {tid} else k.log.listening - {tid},
           jobStop := if tid in k.newborn then k.log.jobStop
                      else stopped || (k.log.jobStop && !IsWakeUp(status)),
           leaderLeft := if tid == k.pid && tid !in k.newborn && status.event in {Exit, Exec} then status.event == Exit
                         else k.log.leaderLeft)
  }

  /** The stop is consumed; a delivery that tid was held in before is lost. */
  function Reported(k: Kernel, tid: Tid, status: Status): Kernel
    requires status.Stopped?
  {
    if status.event == NoEvent then
      k.(newborn := k.newborn - {tid}, holding := k.holding[tid := status.sig],
         consumed := k.consumed + multiset{(tid, status.sig)}, log := SeenStop(k, tid, status))
    else
      Lose(k, tid).(newborn := k.newborn - {tid}, parked := k.parked + {tid},
                    dying := if status.event == Exec then k.dying - {tid}
                             else if status.event == Exit then k.dying + {tid} else k.dying,
                    log := SeenStop(k, tid, status))
  }

  /** No news of tid; where the caller insisted on a stop, that is a failure. */
  function SeenNothing(k: Kernel, tid: Tid, interrupted: bool, retried: bool): Kernel {
    k.(log := k.log.(polled := k.log.polled + {tid}, interrupted := k.log.interrupted || interrupted,
                     trouble := k.log.trouble || retried))
  }

  /** tid has ended, or is no child. */
  function SeenEnd(k: Kernel, w: WaitResult, retried: bool): Kernel {
    var fatal := w.Status? && w.status.Signaled? && Archive.IsCoreDumpSignal(w.status.sig);
    k.(log := k.log.(polled := {}, uncaught := k.log.uncaught || fatal,
                     trouble := k.log.trouble || fatal || retried || w.NoChild?))
  }

  function Trouble(k: Kernel): Kernel {
    k.(log := k.log.(trouble := true))
  }

  /** waitpid(tid, __WALL | WUNTRACED | WNOHANG), or pt_wait and the other places that repeat an interrupted
      call. A live tracee is waited for, but for a new one that is not a child yet. */
  function WaitStep(k: Kernel, tid: Tid, retried: bool): (r: (WaitResult, Kernel))
    ensures r.1.pid == k.pid
  {
    var c, k1 := Current(k), Moved(k);
    if c.fate.Reports? && Possible(k1, tid, c.status) then (WaitResult.Status(c.status), Reported(k1, tid, c.status))
    else if c.fate.Ends? && tid !in k1.reported && !c.status.Stopped? then
      (WaitResult.Status(c.status), SeenEnd(k1, WaitResult.Status(c.status), retried))
    else if c.fate.Ends? && (tid !in k1.reported || tid in k1.newborn) then (NoChild, SeenEnd(k1, NoChild, retried))
    else if c.fate.Interrupts? && !retried then (Interrupted, SeenNothing(k1, tid, true, retried))
    else (NoStatus, SeenNothing(k1, tid, false, retried))
  }

  /** A stopped tracee runs on; whatever it was held in is over. */
  function Resume(k: Kernel, tid: Tid, sig: int): Kernel {
    var right := tid in k.holding && sig != 0 && k.holding[tid] == sig;
    k.(holding := k.holding - {tid},
       parked := k.parked - {tid},
       injected := if sig != 0 then k.injected + multiset{(tid, sig)} else k.injected,
       dropped := if tid in k.holding && !right then k.dropped + multiset{(tid, k.holding[tid])} else k.dropped,
       invented := if sig != 0 && !right then k.invented + multiset{(tid, sig)} else k.invented)
  }

  /** PTRACE_CONT: fails only on a thread that is gone. */
  function ContStep(k: Kernel, tid: Tid, sig: int): (r: (bool, Kernel))
    ensures r.1.pid == k.pid
  {
    var k1 := Moved(k);
    if tid !in k1.reported then (false, Trouble(k1))
    else
      var log := k1.log.(thawed := k1.log.thawed || (k1.log.fatal != [] && !Archive.IsCoreDumpSignal(sig)),
                         woken := k1.log.woken + (k1.log.listening * {tid}),
                         listening := k1.log.listening - {tid});
      (true, Resume(k1, tid, sig).(log := log))
  }

  /** pt_detach: after it the thread is no longer a tracee, whether it was detached or is gone. */
  function DetachStep(k: Kernel, tid: Tid, sig: int): (r: Kernel)
    ensures r.pid == k.pid
  {
    var k1 := Moved(k);
    if tid in k1.reported then Resume(k1, tid, sig).(reported := k1.reported - {tid})
    else k1.(parked := k1.parked - {tid})
  }

  /** GETEVENTMSG on a stopped parent: from here on Arthur knows the child. It fails only when the parent is
      gone. */
  function EventMsgStep(k: Kernel, tid: Tid): (r: (Option<Tid>, Kernel))
    ensures r.1.pid == k.pid
  {
    var c, k1 := Current(k), Moved(k);
    if tid in k1.reported && c.child !in k1.used then
      var born: set<Tid> := if c.yes then {c.child} else {};
      (Some(c.child), k1.(used := k1.used + {c.child}, reported := k1.reported + born, newborn := k1.newborn + born,
                          log := k1.log.(listening := k1.log.listening - {c.child})))
    else (None, Trouble(Die(k1, tid)))
  }

  /** PTRACE_INTERRUPT, or PTRACE_LISTEN, which lets a group-stopped thread wait for what comes next. */
  function RequestStep(k: Kernel, tid: Tid, listen: bool): (r: (bool, Kernel))
    ensures r.1.pid == k.pid
  {
    var k1 := Moved(k);
    if tid !in k1.reported then (false, Trouble(k1))
    else (true, if listen then k1.(parked := k1.parked - {tid}) else k1)
  }

  /** PTRACE_GETREGSET: succeeds on a thread that is stopped. */
  function RegsStep(k: Kernel, tid: Tid): (r: (bool, Kernel))
    ensures r.1.pid == k.pid
  {
    var k1 := Moved(k);
    (Current(k).yes && tid in k1.reported, k1)
  }

  /** /proc/<tid>/stat says Z. */
  function ZombieStep(k: Kernel, tid: Tid): (r: (bool, Kernel))
    ensures r.1.pid == k.pid
  {
    var k1 := Moved(k);
    (tid in k1.zombies, k1)
  }

  /** A question to /proc or kill, with any answer; a negative one is a failure. */
  function AskStep(k: Kernel): (r: (int, Kernel))
    ensures r.1.pid == k.pid
  {
    var answer := Current(k).answer;
    (answer, if answer < 0 then Trouble(Moved(k)) else Moved(k))
  }

  /** signal_has_nondefault_disposition, about a delivery: caught or ignored (1), default (0), unknown (-1). */
  function DispositionStep(k: Kernel, tid: Tid, sig: int): (r: (int, Kernel))
    ensures r.1.pid == k.pid
  {
    var (answer, k1) := AskStep(k);
    (answer, k1.(log := if answer == 0 then k1.log.(fatal := k1.log.fatal + [(tid, sig)])
                        else k1.log.(cleared := k1.log.cleared + multiset{(tid, sig)})))
  }

  // ---------------------------------------------------------------- drain_monitor_events

  datatype State = State(
    tids: set<Tid>,
    exitSig: int,
    crashTid: int,
    leaderExited: bool,
    inGroupStop: bool,
    k: Kernel)

  /** What drain_monitor_events reports: 0, 1, 2, -1, or events still arriving. */
  datatype DrainState = Quiet | Crashed | ProcessGone | Failed | Busy

  /** What one thread's turn comes to. */
  datatype Turn = Idle | Progress | Rebuild | Leave(state: DrainState)

  function Continue(s: State, tid: Tid, sig: int): (bool, State) {
    var (ok, k) := ContStep(s.k, tid, sig);
    (ok, s.(k := k))
  }

  /** The child of a clone event, recorded already: a thread joins the target, a process of its own is let
      go. */
  function DrainChild(s: State, tid: Tid, child: Tid): (bool, State) {
    var (w, k1) := WaitStep(s.k, child, true);
    if !w.Stop() then (false, s.(k := k1))
    else
      var (membership, k2) := AskStep(k1);
      if membership < 0 then (false, s.(k := k2))
      else if membership == 0 then
        var s3 := s.(tids := s.tids - {child}, k := DetachStep(k2, child, 0));
        if s.exitSig != 0 then (true, s3) else Continue(s3, tid, 0)
      else if s.exitSig != 0 then (true, s.(k := k2))
      else
        var (ok, s3) := Continue(s.(k := k2), tid, 0);
        if !ok then (false, s3) else Continue(s3, child, 0)
  }

  /** A clone, fork or vfork event of tid. */
  function DrainClone(s: State, tid: Tid): (bool, State) {
    var (child, k1) := EventMsgStep(s.k, tid);
    if child.None? then (false, s.(k := k1))
    else DrainChild(s.(tids := s.tids + {child.value}, k := k1), tid, child.value)
  }

  /** An event-zero stop: a signal on its way to tid. */
  function DrainDelivery(s: State, tid: Tid, sig: int): (bool, State) {
    if Archive.IsCoreDumpSignal(sig) then
      var (disposition, k1) := DispositionStep(s.k, tid, sig);
      var s1 := s.(k := k1);
      if disposition < 0 then (false, Continue(s1, tid, sig).1)
      else if disposition > 0 then Continue(s1, tid, sig)
      else (true, if s.exitSig == 0 then s1.(exitSig := sig, crashTid := tid) else s1)
    else if s.exitSig != 0 then (true, s)
    else Continue(if sig == SIGCONT then s.(inGroupStop := false) else s, tid, sig)
  }

  /** The stop of one thread. */
  function DrainStop(s: State, tid: Tid, status: Status): (Turn, State)
    requires status.Stopped?
  {
    if status.event == Exec then
      var s1 := s.(tids := {s.k.pid}, leaderExited := false, inGroupStop := false);
      if s.exitSig != 0 then (Rebuild, s1)
      else var (ok, s2) := Continue(s1, tid, 0); (if ok then Rebuild else Leave(Failed), s2)
    else
      var (ok, s1) :=
        if status.event in {Clone, Fork, Vfork} then DrainClone(s, tid)
        else if status.event == Exit then
          var s1 := if tid == s.k.pid then s.(leaderExited := true) else s;
          if s.exitSig != 0 then (true, s1) else Continue(s1, tid, 0)
        else if status.event == NoEvent then DrainDelivery(s, tid, status.sig)
        else if status.event == Stop && IsJobStop(status.sig) then
          var (ok, k1) := RequestStep(s.k, tid, true);
          (ok, s.(k := k1, inGroupStop := s.inGroupStop || ok))
        else if s.exitSig != 0 then (true, s)
        else Continue(if status.event == Stop && status.sig == SIGTRAP then s.(inGroupStop := false) else s, tid, 0);
      (if ok then Progress else Leave(Failed), s1)
  }

  /** One thread's turn in the drain loop. */
  function DrainOne(s: State, tid: Tid): (Turn, State) {
    var (w, k1) := WaitStep(s.k, tid, false);
    var s1 := s.(k := k1);
    var gone := s1.(tids := s1.tids - {tid});
    match w
    case NoStatus => (Idle, s1)
    case Interrupted => (Idle, s1)
    case NoChild =>
      // belongs_to_thread_group, and kill(tid, 0)
      var (membership, k2) := if tid != s.k.pid then AskStep(k1) else (1, k1);
      if membership == 0 then (Progress, gone.(k := k2))
      else
        var (alive, k3) := AskStep(k2);
        if alive != 0 then (Leave(Failed), s1.(k := k3))
        else (if tid == s.k.pid then Leave(ProcessGone) else Progress, gone.(k := k3))
    case Status(status) =>
      if status.Stopped? then DrainStop(s1, tid, status)
      else if status.Signaled? && Archive.IsCoreDumpSignal(status.sig) then (Leave(Failed), gone)
      else (if tid == s.k.pid then Leave(ProcessGone) else Progress, gone)
  }

  /** No TID is used twice, but for the leader's, under which another thread may have executed a new image;
      a leader that exited is past its EXIT until that exec is reported. */
  predicate Adoptable(k: Kernel, crashTid: int, leaderExited: bool, t: Tid) {
    t != crashTid && (t == k.pid || t !in k.used) && (t == k.pid && leaderExited ==> t in k.dying)
  }

  /** No recorded TID is left: take back what is still traced, or find the process gone. */
  function Reconcile(s: State): (Turn, State) {
    var c, k1 := Current(s.k), Moved(s.k);
    if c.answer > 0 then (Leave(ProcessGone), s.(k := k1))
    else if c.answer < 0 then (Leave(Failed), s.(k := Trouble(k1)))
    else
      var traced := set t | t in c.traced && Adoptable(k1, s.crashTid, s.leaderExited, t);
      var s1 := s.(tids := s.tids + traced, k := k1.(reported := k1.reported + traced, used := k1.used + traced));
      if c.yes then (Leave(Failed), s1.(k := Trouble(s1.k)))
      else (if s1.tids == {} then Leave(ProcessGone) else Progress, s1)
  }

  datatype Pass = Left(state: DrainState) | Finished(progress: bool)

  function DrainPass(s: State, todo: set<Tid>, progress: bool): (Pass, State)
    decreases |todo|
  {
    if todo == {} then (Finished(progress), s)
    else
      var tid := Least(todo);
      var (turn, s1) := DrainOne(s, tid);
      match turn
      case Idle => DrainPass(s1, todo - {tid}, progress)
      case Progress => DrainPass(s1, todo - {tid}, true)
      case Rebuild => (Finished(true), s1)
      case Leave(state) => (Left(state), s1)
  }

  /** Up to `rounds` passes over the recorded threads. */
  function DrainRun(s: State, rounds: nat): (DrainState, State)
    decreases rounds
  {
    if rounds == 0 then (Busy, s)
    else
      var (pass, s1) := DrainPass(s, s.tids, false);
      if pass.Left? then (pass.state, s1)
      else if s1.tids == {} then
        var (turn, s2) := Reconcile(s1);
        if turn.Leave? then (turn.state, s2) else DrainRun(s2, rounds - 1)
      else if pass.progress then DrainRun(s1, rounds - 1)
      else (if s1.exitSig != 0 then Crashed else Quiet, s1)
  }

  // ---------------------------------------------------------------- detach_monitored_threads

  /** A status to detach a thread with; Gone when there is none, ZombieLeader for a leader that waits for its
      workers, Synthetic for a stop whose status had been consumed before. */
  datatype StopKind = Real(status: Status) | Synthetic | Gone | ZombieLeader

  /** waitid with WNOWAIT until the deadline: the stop it shows is consumed by the DETACH that follows. */
  function RecoverRun(k: Kernel, tid: Tid, turns: nat): (StopKind, Kernel)
    decreases turns
  {
    if turns == 0 then (Gone, k)
    else
      var (w, k1) := WaitStep(k, tid, true);
      if w.Stop() then (Real(w.status), k1)
      else if w.Status? then (Gone, k1)
      else RecoverRun(k1, tid, turns - 1)
  }

  /** wait_stopped_for_detach: pt_wait, and the recovery when it fails with a thread that may still come. */
  function AwaitStop(k: Kernel, tid: Tid): (StopKind, int, Kernel) {
    var turns := Current(k).turns;
    var (w, k1) := WaitStep(k, tid, true);
    if w.Stop() then (Real(w.status), 0, k1)
    else if !w.NoChild? then (Gone, -1, k1)
    else var (kind, k2) := RecoverRun(k1, tid, turns); (kind, -1, k2)
  }

  /** The other way to a stop: the registers can be read, so the thread is stopped, or it is interrupted. */
  function StopOf(k: Kernel, tid: Tid, rc: int): (StopKind, int, Kernel) {
    var (stopped, k1) := RegsStep(k, tid);
    if stopped then
      // read_stopped_status
      var (w, k2) := WaitStep(k1, tid, true);
      (if w.Status? then Real(w.status) else Synthetic, if w.NoChild? then -1 else rc, k2)
    else
      var (interrupted, k2) := RequestStep(k1, tid, false);
      if !interrupted then (Gone, rc, k2)
      else var (kind, late, k3) := AwaitStop(k2, tid); (kind, if late != 0 then -1 else rc, k3)
  }

  function StopForDetach(k: Kernel, tid: Tid, leaderExited: bool): (StopKind, int, Kernel) {
    var (w, k1) := WaitStep(k, tid, false);
    if w.Status? then (Real(w.status), 0, k1)
    else if w.NoStatus? && tid == k.pid && leaderExited then
      var (zombie, k2) := ZombieStep(k1, tid);
      if zombie then (ZombieLeader, 0, k2) else StopOf(k2, tid, 0)
    else StopOf(k1, tid, if w.Interrupted? then -1 else 0)
  }

  /** One thread: the child of a clone event that is found on the way, a failure, and the new state. */
  function DetachOne(s: State, tid: Tid): (Option<Tid>, int, State) {
    var (kind, rc, k1) := StopForDetach(s.k, tid, s.leaderExited);
    if kind.Gone? || kind.ZombieLeader? then (None, rc, s.(k := k1))
    else if kind.Real? && kind.status.Stopped? && kind.status.event == Clone then
      var (child, k2) := EventMsgStep(k1, tid);
      var s2 := if child.Some? then s.(tids := s.tids + {child.value}) else s;
      (child, if child.None? then -1 else rc, s2.(k := DetachStep(k2, tid, 0)))
    else
      var relay := if kind.Real? && kind.status.Delivery() then kind.status.sig else 0;
      (None, rc, s.(k := DetachStep(k1, tid, relay)))
  }

  datatype Detached = Detached(rc: int, done: bool, s: State)

  function DetachLoop(s: State, pending: set<Tid>, rc: int, limit: nat): Detached
    decreases limit
  {
    if pending == {} then Detached(rc, true, s.(tids := {}))
    else if limit == 0 then Detached(rc, false, s)
    else
      var tid := Least(pending);
      var (child, failed, s1) := DetachOne(s, tid);
      DetachLoop(s1, pending - {tid} + (if child.Some? then {child.value} else {}),
                 if failed != 0 then -1 else rc, limit - 1)
  }

  /** For up to `limit` threads. */
  function DetachRun(s: State, limit: nat): Detached {
    DetachLoop(s, s.tids, 0, limit)
  }

  // ---------------------------------------------------------------- kill_crashed

  function KillLoop(s: State, todo: set<Tid>): State
    decreases |todo|
  {
    if todo == {} then s.(tids := {})
    else
      var tid := Least(todo);
      if s.leaderExited && tid == s.k.pid then KillLoop(s, todo - {tid})
      else KillLoop(s.(k := DetachStep(s.k, tid, s.exitSig)), todo - {tid})
  }

  function KillRun(s: State): State {
    KillLoop(s, s.tids)
  }
}
