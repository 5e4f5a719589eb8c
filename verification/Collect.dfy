/** One-shot collect_threads: stopping every thread of a target that keeps cloning, exiting and
    executing while its task directory is being read. */
module Collecting {
  import opened Bytes
  import opened Tids

  datatype Run = Running | Attached | Zombie

  /** The thread group. TIDs are not reused while it is being collected. */
  datatype Target = Target(leader: Tid, threads: map<Tid, Run>, used: set<Tid>, execed: bool) {
    ghost predicate Ok() {
      threads.Keys <= used && leader in used && forall t :: t in threads && threads[t] == Zombie ==> t == leader
    }

    /** Nothing can create a thread any more. */
    ghost predicate Frozen() {
      forall t :: t in threads ==> threads[t] != Running
    }
  }

  /** A target step. Only a running thread clones or executes; any thread can be killed. */
  datatype Action = CloneBy(t: Tid, child: Tid) | EndOf(t: Tid) | Reap | ExecBy(t: Tid)

  function Apply(k: Target, a: Action): Target {
    match a
    case CloneBy(t, child) =>
      if t in k.threads && k.threads[t] == Running && child !in k.used then
        k.(threads := k.threads[child := Running], used := k.used + {child})
      else k
    case EndOf(t) =>
      if t !in k.threads then k
      else if t == k.leader then k.(threads := k.threads[t := Zombie])
      else k.(threads := k.threads - {t})
    case Reap =>
      if k.leader in k.threads && k.threads[k.leader] == Zombie then k.(threads := k.threads - {k.leader}) else k
    case ExecBy(t) =>
      // Every other thread dies, and the caller takes over the leader's TID.
      if t in k.threads && k.threads[t] == Running then k.(threads := map[k.leader := Running], execed := true) else k
  }

  function RunActions(k: Target, acts: seq<Action>): Target
    decreases acts
  {
    if acts == [] then k else RunActions(Apply(k, acts[0]), acts[1..])
  }

  /** TIDs Arthur has stopped, or seen as a zombie, stay that way; an exec replaces the leader only, and
      the image that replaced it is not attached. */
  ghost predicate Settled(k: Target, done: set<Tid>) {
    && done <= k.used && k.leader in done
    && (forall t :: t in done && t in k.threads && k.threads[t] == Running ==> t == k.leader && k.execed)
    && (k.execed && k.leader in k.threads ==> k.threads[k.leader] != Attached)
  }

  /** A worker TID known from before an exec is gone after it. */
  ghost predicate Outlived(k: Target, t: Tid) {
    t in k.used && (k.execed && t != k.leader ==> t !in k.threads)
  }

  lemma {:induction false} RunKeeps(k: Target, acts: seq<Action>, done: set<Tid>, a: Tid)
    requires k.Ok() && Settled(k, done) && Outlived(k, a)
    ensures var k' := RunActions(k, acts);
            k'.Ok() && Settled(k', done) && Outlived(k', a) && k'.leader == k.leader && k.used <= k'.used
    decreases acts
  {
    if acts != [] {
      RunKeeps(Apply(k, acts[0]), acts[1..], done, a);
    }
  }

  /** Once no thread is running, no target step brings one back: the thread set can only shrink. */
  lemma {:induction false} FrozenForGood(k: Target, acts: seq<Action>)
    requires k.Frozen()
    ensures var k' := RunActions(k, acts);
            && k'.Frozen() && k'.threads.Keys <= k.threads.Keys && k'.execed == k.execed && k'.leader == k.leader
            && forall t :: t in k'.threads && k'.threads[t] == Attached ==> k.threads[t] == Attached
    decreases acts
  {
    if acts != [] {
      FrozenForGood(Apply(k, acts[0]), acts[1..]);
    }
  }

  // ---------------------------------------------------------------- Arthur's steps

  /** What happens around one call: the steps the target takes before it, what a listing of the running
      target catches, and how the call comes out. */
  datatype Choice = Choice(acts: seq<Action>, caught: set<Tid>, fails: bool, asleep: bool)

  type Script = nat -> Choice

  datatype World = World(k: Target, clock: nat)

  function Moved(script: Script, w: World): World {
    World(RunActions(w.k, script(w.clock).acts), w.clock + 1)
  }

  /** readdir over the task directory while the target runs: no snapshot, only TIDs that existed. */
  function ListStep(script: Script, w: World): (Option<set<Tid>>, World) {
    var w' := Moved(script, w);
    (if script(w.clock).fails then None else Some(script(w.clock).caught * w'.k.used), w')
  }

  /** The confirming listing, taken as a snapshot. */
  function ConfirmStep(script: Script, w: World): (Option<set<Tid>>, World) {
    var w' := Moved(script, w);
    (if script(w.clock).fails then None else Some(w'.k.threads.Keys), w')
  }

  datatype AttachResult = Stopped | Vanished | Unstoppable | Refused

  /** pt_attach: after success the thread is stopped. */
  function AttachStep(script: Script, w: World, t: Tid): (AttachResult, World) {
    var w', c := Moved(script, w), script(w.clock);
    if t !in w'.k.threads then (Vanished, w')
    else if w'.k.threads[t] != Running || c.fails then (Refused, w')
    else if c.asleep then (Unstoppable, w')
    else (Stopped, w'.(k := w'.k.(threads := w'.k.threads[t := Attached])))
  }

  /** _process._thrd_pid, the two sets beside it, and the threads left out because they sleep
      uninterruptibly. */
  datatype Lists = Lists(thrdPid: seq<Tid>, stopped: set<Tid>, unavailable: set<Tid>, omitted: set<Tid>)

  datatype Attaching = Attaching(ok: bool, w: World, l: Lists)

  /** Attaches whatever a listing shows beyond `stopped` and `unavailable`, in TID order. */
  function AttachRun(script: Script, w: World, todo: set<Tid>, l: Lists): Attaching
    decreases |todo|
  {
    if todo == {} then Attaching(true, w, l)
    else
      var t := Least(todo);
      var rest := todo - {t};
      if t in l.stopped || t in l.unavailable then AttachRun(script, w, rest, l)
      else
        var (r, w') := AttachStep(script, w, t);
        match r
        case Vanished => AttachRun(script, w', rest, l)
        case Unstoppable =>
          AttachRun(script, w', rest, l.(unavailable := l.unavailable + {t}, omitted := l.omitted + {t}))
        case Refused => Attaching(false, w', l)
        case Stopped => AttachRun(script, w', rest, l.(stopped := l.stopped + {t}, thrdPid := l.thrdPid + [t]))
  }

  datatype Collection = Collection(rc: int, w: World, l: Lists)

  function CollectRun(script: Script, w: World, l: Lists, leader: Tid, attachedTid: Tid, rounds: nat): Collection
    decreases rounds
  {
    if rounds == 0 then Collection(-1, w, l)
    else
      var (observed, w1) := ListStep(script, w);
      if observed.None? || attachedTid !in observed.value then Collection(-1, w1, l)
      else
        var a := AttachRun(script, w1, observed.value, l);
        if !a.ok then Collection(-1, a.w, a.l)
        else
          var (confirm, w2) := ConfirmStep(script, a.w);
          if confirm.None? || attachedTid !in confirm.value then Collection(-1, w2, a.l)
          else if !(confirm.value <= a.l.stopped + a.l.unavailable) then
            CollectRun(script, w2, a.l, leader, attachedTid, rounds - 1)
          else if attachedTid == leader then Collection(0, w2, a.l)
          else
            var w3 := Moved(script, w2);
            Collection(if IsZombie(w3.k, leader) then 0 else -1, w3, a.l)
  }

  predicate IsZombie(k: Target, t: Tid) {
    t in k.threads && k.threads[t] == Zombie
  }

  const ROUNDS: nat := 64

  function AtStart(leader: Tid, attachedTid: Tid): Lists {
    Lists([attachedTid], {attachedTid}, if attachedTid != leader then {leader} else {}, {})
  }

  /** collect_threads against one behaviour of everything around it. */
  function Collected(script: Script, k: Target, leader: Tid, attachedTid: Tid): Collection {
    CollectRun(script, World(k, 0), AtStart(leader, attachedTid), leader, attachedTid, ROUNDS)
  }

  // ---------------------------------------------------------------- what every run keeps

  ghost predicate Distinct(s: seq<Tid>) {
    forall i, j :: 0 <= i < j < |s| ==> s[i] != s[j]
  }

  /** The list and the set have the same members. */
  ghost predicate SameMembers(s: seq<Tid>, tids: set<Tid>) {
    forall t :: t in s <==> t in tids
  }

  ghost predicate Known(l: Lists, leader: Tid, a: Tid) {
    && Distinct(l.thrdPid) && SameMembers(l.thrdPid, l.stopped)
    && l.omitted <= l.unavailable && l.omitted !! l.stopped
    && a in l.stopped && l.unavailable - l.omitted == (if a != leader then {leader} else {})
  }

  /** Every thread in the lists is stopped, a zombie or gone, but for an executed leader. */
  ghost predicate Keeping(w: World, l: Lists, leader: Tid, a: Tid) {
    && w.k.Ok() && w.k.leader == leader && Outlived(w.k, a) && Known(l, leader, a)
    && Settled(w.k, l.stopped + l.unavailable - l.omitted)
  }

  lemma MovedKeeps(script: Script, w: World, l: Lists, leader: Tid, a: Tid)
    requires Keeping(w, l, leader, a)
    ensures Keeping(Moved(script, w), l, leader, a)
  {
    hide Target.Ok, Settled, Outlived, Known;
    RunKeeps(w.k, script(w.clock).acts, l.stopped + l.unavailable - l.omitted, a);
  }

  lemma Pushed(l: Lists, leader: Tid, a: Tid, t: Tid)
    requires Known(l, leader, a) && t !in l.stopped && t !in l.unavailable
    ensures Known(l.(stopped := l.stopped + {t}, thrdPid := l.thrdPid + [t]), leader, a)
    ensures l.stopped + {t} + l.unavailable - l.omitted == l.stopped + l.unavailable - l.omitted + {t}
  {
    assert forall x :: x in l.thrdPid + [t] <==> x in l.thrdPid || x == t;
  }

  lemma Omitted(l: Lists, leader: Tid, a: Tid, t: Tid)
    requires Known(l, leader, a) && t !in l.stopped && t !in l.unavailable
    ensures Known(l.(unavailable := l.unavailable + {t}, omitted := l.omitted + {t}), leader, a)
    ensures l.stopped + (l.unavailable + {t}) - (l.omitted + {t}) == l.stopped + l.unavailable - l.omitted
  {}

  /** A thread just attached is settled like the others. */
  lemma AttachedSettles(k: Target, done: set<Tid>, a: Tid, t: Tid)
    requires k.Ok() && Settled(k, done) && Outlived(k, a) && t in k.threads && t !in done
    ensures var k' := k.(threads := k.threads[t := Attached]); k'.Ok() && Settled(k', done + {t}) && Outlived(k', a)
  {}

  lemma {:induction false} AttachRunKeeps(script: Script, w: World, todo: set<Tid>, l: Lists, leader: Tid, a: Tid)
    requires Keeping(w, l, leader, a)
    ensures var r := AttachRun(script, w, todo, l); Keeping(r.w, r.l, leader, a)
    decreases |todo|
  {
    hide Known, Settled, Outlived, Target.Ok, RunActions;
    if todo != {} {
      var t := Least(todo);
      var rest := todo - {t};
      if t in l.stopped || t in l.unavailable {
        AttachRunKeeps(script, w, rest, l, leader, a);
      } else {
        MovedKeeps(script, w, l, leader, a);
        var (r, w') := AttachStep(script, w, t);
        match r {
          case Vanished => AttachRunKeeps(script, w', rest, l, leader, a);
          case Unstoppable =>
            Omitted(l, leader, a, t);
            AttachRunKeeps(script, w', rest,
              l.(unavailable := l.unavailable + {t}, omitted := l.omitted + {t}), leader, a);
          case Refused =>
          case Stopped =>
            AttachedSettles(Moved(script, w).k, l.stopped + l.unavailable - l.omitted, a, t);
            Pushed(l, leader, a, t);
            AttachRunKeeps(script, w', rest, l.(stopped := l.stopped + {t}, thrdPid := l.thrdPid + [t]), leader, a);
        }
      }
    }
  }

  /** The leader's TID names an image that a worker executed during the collection, and that lives. */
  predicate ExecutedAlive(k: Target) {
    k.execed && k.leader in k.threads && k.threads[k.leader] != Zombie
  }

  ghost predicate AllListed(k: Target, thrdPid: seq<Tid>) {
    Distinct(thrdPid) && forall t :: t in k.threads && k.threads[t] != Zombie ==> t in thrdPid
  }

  /** What a complete confirming listing amounts to. */
  lemma CompleteListing(w: World, l: Lists, leader: Tid, a: Tid)
    requires Keeping(w, l, leader, a) && l.omitted == {}
    requires w.k.threads.Keys <= l.stopped + l.unavailable && a in w.k.threads
    ensures w.k.Frozen() <==> !ExecutedAlive(w.k)
    ensures a != leader ==> w.k.Frozen() && !w.k.execed
    ensures a == leader ==> AllListed(w.k, l.thrdPid)
    ensures forall t :: t in w.k.threads && w.k.threads[t] == Attached && t != leader ==> t in l.thrdPid
  {
    var k, done := w.k, l.stopped + l.unavailable;
    assert l.stopped + l.unavailable - l.omitted == done && l.unavailable - l.omitted == l.unavailable;
    forall t | t in k.threads && t != leader
      ensures t in l.thrdPid
    {
      assert t in done && t in l.stopped;
    }
    forall t | t in k.threads && k.threads[t] == Running
      ensures t == leader && k.execed
    {
      assert t in done;
    }
    if ExecutedAlive(k) { assert k.threads[leader] == Running; }
  }

  ghost predicate Collects(c: Collection, leader: Tid, a: Tid) {
    c.rc == 0 && c.l.omitted == {} ==>
      && AllListed(c.w.k, c.l.thrdPid)
      && (c.w.k.Frozen() <==> !ExecutedAlive(c.w.k))
      && (a != leader ==> c.w.k.Frozen())
  }

  /** The zombie test that follows when another thread stands in for the leader. */
  lemma ZombieTest(script: Script, w: World, l: Lists, leader: Tid, a: Tid)
    requires Keeping(w, l, leader, a) && l.omitted == {}
    requires w.k.threads.Keys <= l.stopped + l.unavailable && a in w.k.threads
    requires a != leader && IsZombie(Moved(script, w).k, leader)
    ensures var k := Moved(script, w).k; AllListed(k, l.thrdPid) && k.Frozen() && !k.execed
  {
    hide Target.Frozen, RunActions, Apply, Settled, Outlived;
    CompleteListing(w, l, leader, a);
    FrozenForGood(w.k, script(w.clock).acts);
    var k := Moved(script, w).k;
    forall t | t in k.threads && k.threads[t] != Zombie
      ensures t in l.thrdPid
    {
      AttachedIf(k, t);
    }
  }

  lemma AttachedIf(k: Target, t: Tid)
    requires k.Frozen() && t in k.threads && k.threads[t] != Zombie
    ensures k.threads[t] == Attached
  {}

  lemma {:induction false} CollectRunKeeps(script: Script, w: World, l: Lists, leader: Tid, a: Tid, rounds: nat)
    requires Keeping(w, l, leader, a)
    ensures Collects(CollectRun(script, w, l, leader, a, rounds), leader, a)
    decreases rounds
  {
    hide Keeping, AllListed, ExecutedAlive, Target.Frozen, RunActions, AttachRun;
    if rounds > 0 {
      var (observed, w1) := ListStep(script, w);
      MovedKeeps(script, w, l, leader, a);
      if observed.Some? && a in observed.value {
        var r := AttachRun(script, w1, observed.value, l);
        AttachRunKeeps(script, w1, observed.value, l, leader, a);
        var (confirm, w2) := ConfirmStep(script, r.w);
        MovedKeeps(script, r.w, r.l, leader, a);
        if r.ok && confirm.Some? && a in confirm.value {
          if !(confirm.value <= r.l.stopped + r.l.unavailable) {
            CollectRunKeeps(script, w2, r.l, leader, a, rounds - 1);
          } else if r.l.omitted == {} {
            CompleteListing(w2, r.l, leader, a);
            if a != leader && IsZombie(Moved(script, w2).k, leader) {
              ZombieTest(script, w2, r.l, leader, a);
              NotExecuted(Moved(script, w2).k);
            }
          }
        }
      }
    }
  }

  lemma NotExecuted(k: Target)
    requires !k.execed
    ensures !ExecutedAlive(k)
  {}

  /** collect_threads, for everything the target and the kernel may do: when it returns 0 without
      omissions, each live thread is listed exactly once, and all of them are stopped unless a worker
      executed a new image that is alive under the leader's TID; in particular they are when a worker
      stood in for a leader that had exited. */
  lemma CollectStops(script: Script, k: Target, leader: Tid, attachedTid: Tid)
    requires k.Ok() && k.leader == leader && !k.execed && {attachedTid, leader} <= k.used
    requires Settled(k, {attachedTid, leader})
    ensures Collects(Collected(script, k, leader, attachedTid), leader, attachedTid)
  {
    var l := AtStart(leader, attachedTid);
    assert l.stopped + l.unavailable - l.omitted == {attachedTid, leader};
    CollectRunKeeps(script, World(k, 0), l, leader, attachedTid, ROUNDS);
  }

  /** And they stay so until Arthur releases one. */
  lemma CollectStopsForGood(script: Script, k: Target, leader: Tid, attachedTid: Tid, acts: seq<Action>)
    requires k.Ok() && k.leader == leader && !k.execed && {attachedTid, leader} <= k.used
    requires Settled(k, {attachedTid, leader})
    requires var c := Collected(script, k, leader, attachedTid);
      c.rc == 0 && c.l.omitted == {} && !ExecutedAlive(c.w.k)
    ensures var c := Collected(script, k, leader, attachedTid);
      var k' := RunActions(c.w.k, acts);
      k'.Frozen() && AllListed(k', c.l.thrdPid)
  {
    hide Collected, RunActions, Apply, Target.Ok, Settled;
    CollectStops(script, k, leader, attachedTid);
    var c := Collected(script, k, leader, attachedTid);
    FrozenForGood(c.w.k, acts);
    var k' := RunActions(c.w.k, acts);
    forall t | t in k'.threads && k'.threads[t] != Zombie
      ensures t in c.l.thrdPid
    {
      AttachedIf(k', t);
      assert c.w.k.threads[t] == Attached;
    }
  }

  // ---------------------------------------------------------------- it converges

  /** Every call works and every listing catches every TID there is; the target may clone within `tids` and its
      other threads may end, while the leader and the thread attached first stay. */
  ghost predicate Smooth(script: Script, tids: set<Tid>, leader: Tid, a: Tid) {
    forall n: nat ::
      !script(n).fails && !script(n).asleep && tids <= script(n).caught && Gentle(script(n).acts, tids, leader, a)
  }

  ghost predicate Gentle(acts: seq<Action>, tids: set<Tid>, leader: Tid, a: Tid) {
    forall i :: 0 <= i < |acts| ==>
      match acts[i]
      case CloneBy(_, child) => child in tids
      case EndOf(t) => t != leader && t != a
      case Reap => false
      case ExecBy(_) => false
  }

  /** What is stopped, or a zombie, is listed; and so is what lives of `done`. */
  ghost predicate Open(k: Target, l: Lists, done: set<Tid>, tids: set<Tid>, leader: Tid, a: Tid) {
    && k.leader == leader && a in k.threads && (a != leader ==> IsZombie(k, leader))
    && k.threads.Keys <= k.used <= tids && done <= k.used && l.omitted == {}
    && (forall t :: t in k.threads && k.threads[t] != Running ==> t in l.stopped + l.unavailable)
    && (forall t :: t in done && t in k.threads ==> t in l.stopped + l.unavailable)
  }

  lemma {:induction false} RunOpen(k: Target, acts: seq<Action>, l: Lists, done: set<Tid>, tids: set<Tid>,
                                   leader: Tid, a: Tid)
    requires Open(k, l, done, tids, leader, a) && Gentle(acts, tids, leader, a)
    ensures var k' := RunActions(k, acts); Open(k', l, done, tids, leader, a) && k.used <= k'.used
    decreases acts
  {
    if acts != [] {
      GentleTail(acts, tids, leader, a);
      StepOpen(k, acts[0], l, done, tids, leader, a);
      hide Open, Gentle, Apply;
      RunOpen(Apply(k, acts[0]), acts[1..], l, done, tids, leader, a);
    }
  }

  lemma GentleTail(acts: seq<Action>, tids: set<Tid>, leader: Tid, a: Tid)
    requires acts != [] && Gentle(acts, tids, leader, a)
    ensures Gentle(acts[1..], tids, leader, a) && Gentle([acts[0]], tids, leader, a)
  {}

  lemma StepOpen(k: Target, act: Action, l: Lists, done: set<Tid>, tids: set<Tid>, leader: Tid, a: Tid)
    requires Open(k, l, done, tids, leader, a) && Gentle([act], tids, leader, a)
    ensures Open(Apply(k, act), l, done, tids, leader, a) && k.used <= Apply(k, act).used
  {
    assert [act][0] == act;
  }

  lemma MovedOpen(script: Script, w: World, l: Lists, done: set<Tid>, tids: set<Tid>, leader: Tid, a: Tid)
    requires Open(w.k, l, done, tids, leader, a) && Smooth(script, tids, leader, a)
    ensures Open(Moved(script, w).k, l, done, tids, leader, a) && w.k.used <= Moved(script, w).k.used
    ensures !script(w.clock).fails && !script(w.clock).asleep && tids <= script(w.clock).caught
  {
    hide Open, Gentle;
    RunOpen(w.k, script(w.clock).acts, l, done, tids, leader, a);
  }

  /** Every thread of a listing ends up listed, or is gone. */
  lemma {:induction false} AttachRunOpen(script: Script, w: World, todo: set<Tid>, l: Lists, done: set<Tid>,
                                         tids: set<Tid>, leader: Tid, a: Tid)
    requires Open(w.k, l, done, tids, leader, a) && Smooth(script, tids, leader, a) && todo <= w.k.used
    ensures var r := AttachRun(script, w, todo, l);
      r.ok && Open(r.w.k, r.l, done + todo, tids, leader, a) && w.k.used <= r.w.k.used
    decreases |todo|
  {
    hide Open, Smooth, RunActions;
    if todo == {} {
      assert done + todo == done;
    } else {
      var t := Least(todo);
      var rest := todo - {t};
      assert done + {t} + rest == done + todo;
      if t in l.stopped || t in l.unavailable {
        OneMore(w.k, l, done, tids, leader, a, t);
        AttachRunOpen(script, w, rest, l, done + {t}, tids, leader, a);
      } else {
        MovedOpen(script, w, l, done, tids, leader, a);
        var (r, w') := AttachStep(script, w, t);
        Attaches(Moved(script, w).k, l, done, tids, leader, a, t);
        match r {
          case Vanished =>
            AttachRunOpen(script, w', rest, l, done + {t}, tids, leader, a);
          case Stopped =>
            AttachRunOpen(script, w', rest, l.(stopped := l.stopped + {t}, thrdPid := l.thrdPid + [t]), done + {t},
                          tids, leader, a);
        }
      }
    }
  }

  lemma OneMore(k: Target, l: Lists, done: set<Tid>, tids: set<Tid>, leader: Tid, a: Tid, t: Tid)
    requires Open(k, l, done, tids, leader, a) && t in k.used && (t in l.stopped || t in l.unavailable)
    ensures Open(k, l, done + {t}, tids, leader, a)
  {}

  /** A thread that is not listed is gone, or it runs and is attached. */
  lemma Attaches(k: Target, l: Lists, done: set<Tid>, tids: set<Tid>, leader: Tid, a: Tid, t: Tid)
    requires Open(k, l, done, tids, leader, a) && t in k.used && t !in l.stopped && t !in l.unavailable
    ensures t in k.threads ==> k.threads[t] == Running
    ensures t !in k.threads ==> Open(k, l, done + {t}, tids, leader, a)
    ensures t in k.threads ==>
      Open(k.(threads := k.threads[t := Attached]), l.(stopped := l.stopped + {t}, thrdPid := l.thrdPid + [t]),
           done + {t}, tids, leader, a)
  {}

  /** A round either completes, or the target has used a TID that it had not when the round began. */
  lemma {:induction false} CollectRunEnds(script: Script, w: World, l: Lists, tids: set<Tid>, leader: Tid, a: Tid,
                                          rounds: nat)
    requires Open(w.k, l, {}, tids, leader, a) && Smooth(script, tids, leader, a) && |tids - w.k.used| < rounds
    ensures var c := CollectRun(script, w, l, leader, a, rounds); c.rc == 0 && c.l.omitted == {}
    decreases rounds
  {
    hide Open, Smooth, RunActions, AttachRun;
    MovedOpen(script, w, l, {}, tids, leader, a);
    var (observed, w1) := ListStep(script, w);
    OpenFacts(w1.k, l, {}, tids, leader, a);
    assert observed.value == w1.k.used;
    AttachRunOpen(script, w1, observed.value, l, {}, tids, leader, a);
    var r := AttachRun(script, w1, observed.value, l);
    assert {} + w1.k.used == w1.k.used;
    MovedOpen(script, r.w, r.l, w1.k.used, tids, leader, a);
    var (confirm, w2) := ConfirmStep(script, r.w);
    OpenFacts(w2.k, r.l, w1.k.used, tids, leader, a);
    if confirm.value <= r.l.stopped + r.l.unavailable {
      MovedOpen(script, w2, r.l, w1.k.used, tids, leader, a);
      OpenFacts(Moved(script, w2).k, r.l, w1.k.used, tids, leader, a);
    } else {
      var t :| t in confirm.value && t !in r.l.stopped + r.l.unavailable;
      Shrinks(tids, w.k.used, w2.k.used, t);
      CollectRunEnds(script, w2, r.l, tids, leader, a, rounds - 1);
    }
  }

  lemma OpenFacts(k: Target, l: Lists, done: set<Tid>, tids: set<Tid>, leader: Tid, a: Tid)
    requires Open(k, l, done, tids, leader, a)
    ensures a in k.threads && (a != leader ==> IsZombie(k, leader)) && l.omitted == {}
    ensures k.threads.Keys <= k.used <= tids && Open(k, l, {}, tids, leader, a)
    ensures forall t :: t in k.threads && t !in l.stopped + l.unavailable ==> t !in done
  {}

  lemma Shrinks(tids: set<Tid>, used: set<Tid>, used': set<Tid>, t: Tid)
    requires used <= used' <= tids && t in used' && t !in used
    ensures |tids - used'| < |tids - used|
  {
    assert t in tids - used && t !in tids - used';
    assert tids - used' <= tids - used - {t};
    SubsetSize(tids - used', tids - used - {t});
  }

  lemma {:induction false} SubsetSize(a: set<Tid>, b: set<Tid>)
    requires a <= b
    ensures |a| <= |b|
  {
    if a != {} {
      var t :| t in a;
      SubsetSize(a - {t}, b - {t});
    }
  }

  /** And it does return 0: when every call works, a target that clones fewer than 64 times during the collection
      is collected, whatever the clones' timing; an incomplete confirmation only costs a round. */
  lemma CollectConverges(script: Script, k: Target, tids: set<Tid>, leader: Tid, attachedTid: Tid)
    requires k.leader == leader && k.threads.Keys <= k.used <= tids && |tids - k.used| < ROUNDS
    requires attachedTid in k.threads && (attachedTid != leader ==> IsZombie(k, leader))
    requires forall t :: t in k.threads && k.threads[t] != Running ==> t in {attachedTid, leader}
    requires Smooth(script, tids, leader, attachedTid)
    ensures var c := Collected(script, k, leader, attachedTid); c.rc == 0 && c.l.omitted == {}
  {
    hide Smooth, CollectRun;
    CollectRunEnds(script, World(k, 0), AtStart(leader, attachedTid), tids, leader, attachedTid, ROUNDS);
  }

  // ---------------------------------------------------------------- the exception is real

  const LEADER: Tid := 1
  const WORKER: Tid := 2

  /** A stopped leader and a worker that is not attached yet. */
  function HalfStopped(): Target {
    Target(LEADER, map[LEADER := Attached, WORKER := Running], {LEADER, WORKER}, false)
  }

  /** The listing catches both; before it is attached the worker executes a new image. */
  function ExecScript(): Script {
    n => Choice(if n == 1 then [ExecBy(WORKER)] else [], {LEADER, WORKER}, false, false)
  }

  /** A whole run of collect_threads that returns 0, with nothing omitted, while the only thread of the
      target runs on, untraced, under the stopped leader's TID. */
  lemma ExecEscapes()
    ensures var k := HalfStopped();
      k.Ok() && k.leader == LEADER && !k.execed && Settled(k, {LEADER})
    ensures var c := Collected(ExecScript(), HalfStopped(), LEADER, LEADER);
      c.rc == 0 && c.l == AtStart(LEADER, LEADER) && c.w.k.threads == map[LEADER := Running] && !c.w.k.Frozen()
  {
    var script, k := ExecScript(), HalfStopped();
    var l := AtStart(LEADER, LEADER);
    var w0 := World(k, 0);
    assert RunActions(k, []) == k;
    var (observed, w1) := ListStep(script, w0);
    assert script(0).caught * k.used == {LEADER, WORKER};
    assert observed == Some({LEADER, WORKER}) && w1 == World(k, 1);
    ExecDuringAttach();
    var w2 := World(Apply(k, ExecBy(WORKER)), 2);
    var (confirm, w3) := ConfirmStep(script, w2);
    assert w2.k.threads.Keys == {LEADER} && RunActions(w2.k, []) == w2.k;
    assert w3 == World(w2.k, 3) && confirm == Some({LEADER});
    assert CollectRun(script, w0, l, LEADER, LEADER, ROUNDS) == Collection(0, w3, l);
  }

  lemma ExecDuringAttach()
    ensures var k := HalfStopped();
      AttachRun(ExecScript(), World(k, 1), {LEADER, WORKER}, AtStart(LEADER, LEADER))
      == Attaching(true, World(Apply(k, ExecBy(WORKER)), 2), AtStart(LEADER, LEADER))
  {
    var script, k, l := ExecScript(), HalfStopped(), AtStart(LEADER, LEADER);
    assert Least({LEADER, WORKER}) == LEADER;
    assert {LEADER, WORKER} - {LEADER} == {WORKER};
    assert Least({WORKER}) == WORKER && {WORKER} - {WORKER} == {};
    var k' := Apply(k, ExecBy(WORKER));
    assert [ExecBy(WORKER)][1..] == [];
    assert RunActions(k, [ExecBy(WORKER)]) == RunActions(k', []) == k';
    var (r, w) := AttachStep(script, World(k, 1), WORKER);
    assert r == Vanished && w == World(k', 2);
    assert AttachRun(script, w, {}, l) == Attaching(true, w, l);
    assert AttachRun(script, World(k, 1), {WORKER}, l) == Attaching(true, w, l);
  }

  // ---------------------------------------------------------------- the code

  class Collector {
    const script: Script
    var k: Target
    var clock: nat
    /** _process._thrd_pid */
    var thrdPid: seq<Tid>
    /** Threads left out because they could not be stopped. */
    var omitted: set<Tid>

    constructor (script: Script, k: Target)
      ensures this.script == script && this.k == k && clock == 0
    {
      this.script, this.k, clock, thrdPid, omitted := script, k, 0, [], {};
    }

    function Now(): World
      reads this
    {
      World(k, clock)
    }

    method List() returns (seen: Option<set<Tid>>)
      modifies this`k, this`clock
      ensures (seen, Now()) == ListStep(script, old(Now()))
    {
      k := RunActions(k, script(clock).acts);
      seen := if script(clock).fails then None else Some(script(clock).caught * k.used);
      clock := clock + 1;
    }

    method Confirm() returns (seen: Option<set<Tid>>)
      modifies this`k, this`clock
      ensures (seen, Now()) == ConfirmStep(script, old(Now()))
    {
      k := RunActions(k, script(clock).acts);
      seen := if script(clock).fails then None else Some(k.threads.Keys);
      clock := clock + 1;
    }

    method Attach(t: Tid) returns (r: AttachResult)
      modifies this`k, this`clock
      ensures (r, Now()) == AttachStep(script, old(Now()), t)
    {
      var c := script(clock);
      k, clock := RunActions(k, c.acts), clock + 1;
      if t !in k.threads { return Vanished; }
      if k.threads[t] != Running || c.fails { return Refused; }
      if c.asleep { return Unstoppable; }
      k := k.(threads := k.threads[t := Attached]);
      r := Stopped;
    }

    method TaskIsZombie(t: Tid) returns (zombie: bool)
      modifies this`k, this`clock
      ensures Now() == Moved(script, old(Now())) && zombie == IsZombie(k, t)
    {
      k, clock := RunActions(k, script(clock).acts), clock + 1;
      zombie := IsZombie(k, t);
    }

    method AttachAll(observed: set<Tid>, stopped0: set<Tid>, unavailable0: set<Tid>)
        returns (ok: bool, stopped: set<Tid>, unavailable: set<Tid>)
      modifies this
      ensures Attaching(ok, Now(), Lists(thrdPid, stopped, unavailable, omitted))
           == AttachRun(script, old(Now()), observed, Lists(old(thrdPid), stopped0, unavailable0, old(omitted)))
    {
      hide AttachStep;
      stopped, unavailable := stopped0, unavailable0;
      var todo := observed;
      ghost var goal := AttachRun(script, Now(), observed, Lists(thrdPid, stopped, unavailable, omitted));
      while todo != {}
        invariant AttachRun(script, Now(), todo, Lists(thrdPid, stopped, unavailable, omitted)) == goal
        decreases |todo|
      {
        var t := Least(todo);
        todo := todo - {t};
        if t in stopped || t in unavailable { continue; }
        var r := Attach(t);
        match r {
          case Vanished =>
          case Unstoppable => unavailable, omitted := unavailable + {t}, omitted + {t};
          case Refused => return false, stopped, unavailable;
          case Stopped => stopped, thrdPid := stopped + {t}, thrdPid + [t];
        }
      }
      ok := true;
    }

    /** collect_threads. */
    method Collect(leader: Tid, attachedTid: Tid) returns (rc: int)
      requires clock == 0
      modifies this
      ensures var c := Collected(script, old(k), leader, attachedTid);
        rc == c.rc && Now() == c.w && thrdPid == c.l.thrdPid && omitted == c.l.omitted
    {
      hide AttachRun, ListStep, ConfirmStep, Moved;
      thrdPid, omitted := [attachedTid], {};
      var stopped, unavailable := {attachedTid}, if attachedTid != leader then {leader} else {};
      ghost var goal := Collected(script, k, leader, attachedTid);
      var round := 0;
      while round < ROUNDS
        invariant round <= ROUNDS
        invariant CollectRun(script, Now(), Lists(thrdPid, stopped, unavailable, omitted), leader, attachedTid,
          ROUNDS - round) == goal
      {
        var observed := List();
        if observed.None? || attachedTid !in observed.value { return -1; }
        var attached;
        attached, stopped, unavailable := AttachAll(observed.value, stopped, unavailable);
        if !attached { return -1; }
        var confirm := Confirm();
        if confirm.None? || attachedTid !in confirm.value { return -1; }
        if confirm.value <= stopped + unavailable {
          if attachedTid != leader {
            var zombie := TaskIsZombie(leader);
            return if zombie then 0 else -1;
          }
          return 0;
        }
        round := round + 1;
      }
      rc := -1;
    }
  }
}
