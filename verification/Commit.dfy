/** create_atomic_output, commit_atomic_lz4 and commit_atomic_path as filesystem steps, interleaved
    with other writers of the same output path. */
module Commit {
  import opened Bytes

  /** An inode and whether it is a regular file. Inode 0 is the temporary file of this transaction. */
  datatype Inode = Inode(id: nat, regular: bool)

  const OURS := Some(Inode(0, true))

  /** Where the transaction stands: before each system call it makes, or returned. */
  datatype Pc =
    | Inspect            // lstat(final) in create_atomic_output
    | Create             // mkstemp and fchmod
    | Write              // the whole dump, Sync and Close
    | Preflight          // lstat(final) before replacing
    | ExchangeIn         // renameat2(temp, final, RENAME_EXCHANGE)
    | InspectDisplaced   // lstat(temp)
    | ExchangeBack       // renameat2(temp, final, RENAME_EXCHANGE) again
    | DropReplaced       // unlink(temp) after the exchange was accepted
    | DropOurs           // unlink(temp) on a failing path
    | NoReplace          // renameat2(temp, final, RENAME_NOREPLACE)
    | HardLink           // link(temp, final)
    | DropLink           // unlink(temp) after link
    | SyncDirectory(clean: bool)
    | Returned(ok: bool)

  /** theirs is the path as the other writers alone would have left it; disturbed counts their changes
      to it since the preflight lstat, and a failed lstat of the temporary name. */
  datatype State = State(
    pc: Pc,
    final: Option<Inode>,
    temp: Option<Inode>,
    replaceExisting: bool,
    initial: Option<Inode>,
    next: nat,
    theirs: Option<Inode>,
    disturbed: nat,
    placed: bool,
    accepted: bool,
    lost: set<nat>)

  /** What a system call of ours does: work as the files allow, fail as unsupported, or fail otherwise. */
  datatype Outcome = Works | Unsupported | Fails

  /** A step of ours, or of another writer, who puts a new file at the final path over whatever is
      there, or removes what is there. */
  datatype Action = Ours(outcome: Outcome) | Put(regular: bool) | Remove

  /** How many calls are left at most. */
  function Rank(pc: Pc): nat {
    match pc
    case Inspect => 8
    case Create => 7
    case Write => 6
    case Preflight => 5
    case ExchangeIn => 4
    case NoReplace => 4
    case InspectDisplaced => 3
    case HardLink => 3
    case ExchangeBack => 2
    case DropReplaced => 2
    case DropLink => 2
    case DropOurs => 1
    case SyncDirectory(_) => 1
    case Returned(_) => 0
  }

  /** Removing the temporary name: a file of another writer that has no other name is lost. */
  function DropTemp(s: State): (t: State) {
    s.(temp := None,
       lost := if s.temp.None? || s.temp == OURS || s.temp == s.final then s.lost else s.lost + {s.temp.value.id})
  }

  /** create_atomic_output and the writing of the temporary file. */
  function PrepareStep(s: State, o: Outcome): (t: State)
    requires s.pc in {Inspect, Create, Write}
    ensures Rank(t.pc) < Rank(s.pc)
  {
    match s.pc
    case Inspect =>
      if !o.Works? || (s.final.Some? && !s.final.value.regular) then s.(pc := Returned(false))
      else s.(pc := Create, replaceExisting := s.final.Some?, initial := s.final)
    case Create => if !o.Works? then s.(pc := Returned(false)) else s.(pc := Write, temp := OURS)
    case Write =>
      if !o.Works? then s.(pc := DropOurs) else s.(pc := if s.replaceExisting then Preflight else NoReplace)
  }

  /** commit_atomic_path when the path named a file at the start: exchange, look, and exchange back. */
  function ReplaceStep(s: State, o: Outcome): (t: State)
    requires s.pc in {Preflight, ExchangeIn, InspectDisplaced, ExchangeBack, DropReplaced}
    ensures Rank(t.pc) < Rank(s.pc)
  {
    match s.pc
    case Preflight =>
      if !o.Works? || s.final != s.initial then s.(pc := DropOurs) else s.(pc := ExchangeIn, disturbed := 0)
    case ExchangeIn =>
      if !o.Works? || s.final.None? then s.(pc := DropOurs)
      else s.(pc := InspectDisplaced, final := s.temp, temp := s.final, placed := true)
    case InspectDisplaced =>
      if !o.Works? then s.(pc := ExchangeBack, disturbed := s.disturbed + 1)
      else if s.temp != s.initial then s.(pc := ExchangeBack)
      else s.(pc := DropReplaced, accepted := true)
    case ExchangeBack =>
      if !o.Works? || s.final.None? then s.(pc := Returned(false))
      else s.(pc := DropOurs, final := s.temp, temp := s.final)
    case DropReplaced =>
      if o.Works? then s.(pc := SyncDirectory(true), temp := None) else s.(pc := SyncDirectory(false))
  }

  /** commit_atomic_path when nothing was there, with the hard link fallback, and the common ends. */
  function PlaceStep(s: State, o: Outcome): (t: State)
    requires s.pc in {NoReplace, HardLink, DropLink, DropOurs} || s.pc.SyncDirectory? || s.pc.Returned?
    ensures s.pc.Returned? || Rank(t.pc) < Rank(s.pc)
  {
    match s.pc
    case NoReplace =>
      if o.Unsupported? then s.(pc := HardLink)
      else if o.Fails? || s.final.Some? then s.(pc := DropOurs)
      else s.(pc := SyncDirectory(true), final := s.temp, temp := None, placed := true)
    case HardLink =>
      if !o.Works? || s.final.Some? then s.(pc := DropOurs) else s.(pc := DropLink, final := s.temp, placed := true)
    case DropLink => if o.Works? then DropTemp(s).(pc := SyncDirectory(true)) else s.(pc := SyncDirectory(false))
    case DropOurs => (if o.Works? then DropTemp(s) else s).(pc := Returned(false))
    case SyncDirectory(clean) => s.(pc := Returned(clean && o.Works?))
    case Returned(_) => s
  }

  function CountOn(s: State): nat {
    if s.pc.Returned? then s.disturbed else s.disturbed + 1
  }

  function Apply(s: State, a: Action): (t: State)
    ensures s.pc.Returned? || !a.Ours? || Rank(t.pc) < Rank(s.pc)
  {
    match a
    case Ours(o) =>
      if s.pc in {Inspect, Create, Write} then PrepareStep(s, o)
      else if s.pc in {Preflight, ExchangeIn, InspectDisplaced, ExchangeBack, DropReplaced} then ReplaceStep(s, o)
      else PlaceStep(s, o)
    case Put(regular) =>
      var i := Some(Inode(s.next, regular));
      s.(final := i, theirs := i, next := s.next + 1, disturbed := CountOn(s))
    case Remove => s.(final := None, theirs := None, disturbed := CountOn(s))
  }

  function Run(s: State, actions: seq<Action>): State
    decreases |actions|
  {
    if actions == [] then s else Apply(Run(s, actions[..|actions| - 1]), actions[|actions| - 1])
  }

  /** A transaction about to start, over any state of the final path. */
  ghost predicate Start(s: State) {
    && s.pc == Inspect && s.temp == None && s.initial == None && !s.replaceExisting
    && !s.placed && !s.accepted && s.lost == {}
    && s.theirs == s.final && s.next > 0 && (s.final.Some? ==> 0 < s.final.value.id < s.next)
  }

  // ---------------------------------------------------------------- invariant

  ghost predicate Known(s: State, i: Option<Inode>) {
    i.None? || i == OURS || 0 < i.value.id < s.next
  }

  ghost predicate AllKnown(s: State) {
    && s.next > 0
    && Known(s, s.final) && Known(s, s.temp) && Known(s, s.initial) && Known(s, s.theirs)
    && s.theirs != OURS && s.initial != OURS && (s.initial.Some? ==> s.initial.value.regular)
    && (s.replaceExisting <==> s.initial.Some?)
  }

  /** Our file stands where what it was to replace stood, or the others have changed the path since. */
  ghost predicate OnTop(s: State, beneath: Option<Inode>) {
    (s.final == OURS && s.theirs == beneath) || s.final == s.theirs
  }

  /** The current file of the other writers has a name, or is the one that was replaced on purpose. */
  ghost predicate TheirsNamed(s: State) {
    s.theirs.Some? ==> s.final == s.theirs || s.temp == s.theirs || (s.accepted && s.theirs == s.initial)
  }

  /** The others kept to the limit: any number of changes where nothing was to be replaced, and at most
      one disturbance between the preflight lstat and the return otherwise. */
  predicate WithinLimit(s: State) {
    !s.replaceExisting || s.disturbed <= 1
  }

  /** What holds at each step, whatever the others do at the final path. */
  ghost predicate Inv(s: State) {
    && AllKnown(s)
    && (!s.placed ==> s.final == s.theirs)
    && (s.accepted ==> s.placed && s.replaceExisting)
    && (s.pc != Returned(false) ==> s.lost == {})
    && match s.pc {
      case Inspect => s.temp.None? && s.initial.None? && !s.placed
      case Create => s.temp.None? && !s.placed
      case Write => s.temp == OURS && !s.placed
      case Preflight => s.temp == OURS && !s.placed && s.replaceExisting
      case ExchangeIn =>
        s.temp == OURS && !s.placed && s.replaceExisting && (s.disturbed == 0 ==> s.final == s.initial)
      case InspectDisplaced =>
        && s.temp.Some? && s.temp != OURS && s.placed && !s.accepted && s.replaceExisting && OnTop(s, s.temp)
        && s.final != s.temp
        && (s.disturbed == 0 ==> s.temp == s.initial)
        && (s.disturbed <= (if s.temp == s.initial then 0 else 1) ==> s.final == OURS)
      case ExchangeBack =>
        && s.temp.Some? && s.temp != OURS && s.placed && !s.accepted && s.replaceExisting && OnTop(s, s.temp)
        && s.final != s.temp
        && s.disturbed > 0 && (s.disturbed == 1 ==> s.final == OURS)
      case DropReplaced => s.temp == s.initial && s.placed && s.accepted && OnTop(s, s.initial)
      case DropOurs =>
        && !s.accepted && (s.temp == OURS || (s.replaceExisting && s.disturbed > 1))
        && (WithinLimit(s) ==> s.final == s.theirs)
      case NoReplace => s.temp == OURS && !s.placed && !s.replaceExisting
      case HardLink => s.temp == OURS && !s.placed && !s.replaceExisting
      case DropLink => s.temp == OURS && s.placed && !s.replaceExisting && OnTop(s, s.initial)
      case SyncDirectory(_) => s.placed && (s.accepted <==> s.replaceExisting) && OnTop(s, s.initial)
      case Returned(ok) =>
        && (ok ==> s.placed)
        && (WithinLimit(s) ==> s.lost == {} && TheirsNamed(s))
    }
  }

  lemma PrepareInv(s: State, o: Outcome)
    requires Inv(s) && s.pc in {Inspect, Create, Write}
    ensures Inv(PrepareStep(s, o))
  {}

  lemma ReplaceInv(s: State, o: Outcome)
    requires Inv(s) && s.pc in {Preflight, ExchangeIn, InspectDisplaced, ExchangeBack, DropReplaced}
    ensures Inv(ReplaceStep(s, o))
  {}

  lemma PlaceInv(s: State, o: Outcome)
    requires Inv(s) && (s.pc in {NoReplace, HardLink, DropLink, DropOurs} || s.pc.SyncDirectory? || s.pc.Returned?)
    ensures Inv(PlaceStep(s, o))
  {}

  lemma OthersInv(s: State, a: Action)
    requires Inv(s) && !a.Ours?
    ensures Inv(Apply(s, a))
  {}

  lemma StepInv(s: State, a: Action)
    requires Inv(s)
    ensures Inv(Apply(s, a))
  {
    hide Inv;
    if a.Ours? {
      if s.pc in {Inspect, Create, Write} { PrepareInv(s, a.outcome); }
      else if s.pc in {Preflight, ExchangeIn, InspectDisplaced, ExchangeBack, DropReplaced} {
        ReplaceInv(s, a.outcome);
      }
      else { PlaceInv(s, a.outcome); }
    } else {
      OthersInv(s, a);
    }
  }

  lemma {:induction false} RunInv(s: State, actions: seq<Action>)
    requires Start(s)
    ensures Inv(Run(s, actions))
    decreases |actions|
  {
    if actions != [] {
      RunInv(s, actions[..|actions| - 1]);
      StepInv(Run(s, actions[..|actions| - 1]), actions[|actions| - 1]);
    }
  }

  lemma AtRest(s: State)
    requires Inv(s) && s.pc.Returned?
    ensures s.pc.ok ==> s.placed
    ensures WithinLimit(s) ==> s.lost == {} && TheirsNamed(s)
    ensures !s.placed ==> s.final == s.theirs
  {}

  // ---------------------------------------------------------------- results over every run

  /** In every interleaving within the limit no step of ours takes the last name of another writer's
      file, and the file they last put at the path still has a name. */
  lemma NeverDestroys(s: State, actions: seq<Action>)
    requires Start(s) && WithinLimit(Run(s, actions))
    ensures Run(s, actions).lost == {} && TheirsNamed(Run(s, actions))
  {
    RunInv(s, actions);
  }

  /** Until our file is placed the path is exactly what the other writers made of it, so every failure
      before the rename leaves it untouched; and only a run that placed our file returns success. */
  lemma UntouchedUntilPlaced(s: State, actions: seq<Action>)
    requires Start(s)
    ensures !Run(s, actions).placed ==> Run(s, actions).final == Run(s, actions).theirs
    ensures Run(s, actions).pc == Returned(true) ==> Run(s, actions).placed
  {
    RunInv(s, actions);
  }

  /** A run that placed our file, as every successful one did, has a step of ours after which our inode
      is the one at the final path, in the place of exactly what was found there at the start when the
      exchange was accepted. */
  lemma {:induction false} PlacedAtFinal(s: State, actions: seq<Action>)
    requires Start(s) && Run(s, actions).placed
    ensures exists k :: 0 <= k < |actions| && actions[k].Ours? && Run(s, actions[..k + 1]).final == OURS
    decreases |actions|
  {
    var n := |actions| - 1;
    assert actions != [] ;
    var before := Run(s, actions[..n]);
    if before.placed {
      PlacedAtFinal(s, actions[..n]);
      var k :| 0 <= k < n && actions[..n][k].Ours? && Run(s, actions[..n][..k + 1]).final == OURS;
      assert actions[..n][..k + 1] == actions[..k + 1];
      assert actions[k].Ours?;
    } else {
      RunInv(s, actions[..n]);
      assert actions[..n + 1] == actions;
      assert Apply(before, actions[n]).placed;
    }
  }

  /** The replacing commit succeeds only when the file it displaced is the one found at the start. */
  lemma ReplacesOnlyInitial(s: State, actions: seq<Action>, a: Action)
    requires Start(s)
    ensures var t := Run(s, actions);
      Apply(t, a).accepted && !t.accepted ==> t.temp == t.initial && t.initial.Some? && t.initial.value.regular
  {
    RunInv(s, actions);
  }

  predicate OthersOnly(actions: seq<Action>) {
    forall a :: a in actions ==> !a.Ours?
  }

  /** The other writers leave the temporary name and our place in the protocol alone. */
  lemma {:induction false} OthersKeep(s: State, others: seq<Action>)
    requires OthersOnly(others)
    ensures var t := Run(s, others); t.pc == s.pc && t.temp == s.temp && t.lost == s.lost
    decreases |others|
  {
    if others != [] { OthersKeep(s, others[..|others| - 1]); }
  }

  /** What the limit is for: when every call works, rolling the exchange back and removing the temporary
      name destroys another writer's file exactly when the path held one, whatever follows. */
  lemma RollbackLosesExactly(s: State, before: seq<Action>, others: seq<Action>)
    requires Start(s) && Run(s, before).pc == ExchangeBack && Run(s, before).final.Some?
    requires OthersOnly(others)
    ensures var t := Run(s, before);
      var end := Apply(Run(Apply(t, Ours(Works)), others), Ours(Works));
      end.pc == Returned(false) && end.temp == None && (end.lost == {} <==> t.final == OURS)
  {
    hide Run, Inv, Start;
    var t := Run(s, before);
    RunInv(s, before);
    RollbackFacts(t);
    var back := Apply(t, Ours(Works));
    OthersKeep(back, others);
    FinalIsOldOrNew(back, others);
  }

  lemma RollbackFacts(s: State)
    requires Inv(s) && s.pc == ExchangeBack && s.final.Some?
    ensures s.temp.Some? && s.temp != OURS && s.final != s.temp && s.lost == {}
    ensures s.final != OURS ==> 0 < s.final.value.id < s.next
  {}

  lemma {:induction false} FinalIsOldOrNew(s: State, others: seq<Action>)
    requires OthersOnly(others)
    ensures var t := Run(s, others);
      t.next >= s.next && (t.final.None? || t.final == s.final || t.final.value.id >= s.next)
    decreases |others|
  {
    if others != [] { FinalIsOldOrNew(s, others[..|others| - 1]); }
  }

  lemma RunSnoc(s: State, actions: seq<Action>, a: Action, t: State)
    requires Run(s, actions) == t
    ensures Run(s, actions + [a]) == Apply(t, a)
  {
    assert (actions + [a])[..|actions|] == actions;
  }

  /** The limit is needed: with two competing replacements, one before the exchange and one before the
      exchange back, every call working, the second competitor's file is destroyed. */
  lemma TwoCompetitors(s: State)
    requires Start(s) && s.final == Some(Inode(1, true)) && s.next == 2
    ensures exists actions :: Run(s, actions).pc == Returned(false) && Run(s, actions).lost == {3}
                              && Run(s, actions).disturbed == 2
  {
    hide Run;
    var w, put := Ours(Works), Put(true);
    var actions := Prepares(s);
    var t := s.(pc := Preflight, replaceExisting := true, initial := s.final, temp := OURS);
    RunSnoc(s, actions, w, t);
    var t1 := t.(pc := ExchangeIn, disturbed := 0);
    RunSnoc(s, actions + [w], put, t1);
    Exchanges(s, actions + [w] + [put], Apply(t1, put));
  }

  /** The first three steps of a replacing run, undisturbed. */
  lemma Prepares(s: State) returns (actions: seq<Action>)
    requires Start(s) && s.final.Some? && s.final.value.regular
    ensures Run(s, actions) == s.(pc := Preflight, replaceExisting := true, initial := s.final, temp := OURS)
  {
    assert Run(s, []) == s;
    hide Run;
    var w := Ours(Works);
    RunSnoc(s, [], w, s);
    var s1 := s.(pc := Create, replaceExisting := true, initial := s.final);
    RunSnoc(s, [] + [w], w, s1);
    RunSnoc(s, [] + [w] + [w], w, s1.(pc := Write, temp := OURS));
    actions := [] + [w] + [w] + [w];
  }

  lemma Exchanges(s: State, actions: seq<Action>, t: State)
    requires Run(s, actions) == t && t.pc == ExchangeIn && t.initial == Some(Inode(1, true)) && t.temp == OURS
    requires t.final == Some(Inode(2, true)) && t.next == 3 && t.disturbed == 1 && t.lost == {}
    ensures exists actions :: Run(s, actions).pc == Returned(false) && Run(s, actions).lost == {3}
                              && Run(s, actions).disturbed == 2
  {
    hide Run;
    var w, put := Ours(Works), Put(true);
    var t1 := Apply(t, w);
    RunSnoc(s, actions, w, t);
    var t2 := Apply(t1, put);
    RunSnoc(s, actions + [w], put, t1);
    RunSnoc(s, actions + [w] + [put], w, t2);
    var t4 := Apply(Apply(t2, w), w);
    RunSnoc(s, actions + [w] + [put] + [w], w, Apply(t2, w));
    RunSnoc(s, actions + [w] + [put] + [w] + [w], w, t4);
    assert t4.temp == Some(Inode(3, true)) && t4.final == Some(Inode(2, true));
  }

  // ---------------------------------------------------------------- success

  /** A call of ours that works; the no-replace rename may be unsupported, because it has a fallback. */
  predicate Good(s: State, a: Action) {
    a == Ours(Works) || (a == Ours(Unsupported) && s.pc == NoReplace)
  }

  ghost predicate GoodRun(s: State, actions: seq<Action>) {
    forall k :: 0 <= k < |actions| ==> Good(Run(s, actions[..k]), actions[k])
  }

  /** Undisturbed so far: the path names what it named at the start, until our file is put there. */
  ghost predicate OnTrack(s: State) {
    && s.lost == {} && (s.replaceExisting <==> s.initial.Some?)
    && match s.pc {
      case Inspect => s.temp.None? && (s.final.Some? ==> s.final.value.regular)
      case Create => s.temp.None? && s.final == s.initial
      case Write => s.temp == OURS && s.final == s.initial
      case Preflight => s.temp == OURS && s.final == s.initial && s.replaceExisting
      case ExchangeIn => s.temp == OURS && s.final == s.initial && s.replaceExisting
      case InspectDisplaced => s.final == OURS && s.temp == s.initial
      case DropReplaced => s.final == OURS && s.temp == s.initial
      case NoReplace => s.temp == OURS && s.final.None?
      case HardLink => s.temp == OURS && s.final.None?
      case DropLink => s.temp == OURS && s.final == OURS
      case SyncDirectory(clean) => clean && s.temp.None? && s.final == OURS
      case Returned(ok) => ok && s.temp.None? && s.final == OURS
      case DropOurs => false
      case ExchangeBack => false
    }
  }

  lemma StaysOnTrack(s: State, a: Action)
    requires OnTrack(s) && Good(s, a)
    ensures OnTrack(Apply(s, a)) && (s.pc.Returned? || Rank(Apply(s, a).pc) < Rank(s.pc))
  {}

  lemma {:induction false} RunOnTrack(s: State, actions: seq<Action>)
    requires OnTrack(s) && GoodRun(s, actions)
    ensures OnTrack(Run(s, actions))
    ensures Rank(Run(s, actions).pc) + |actions| <= Rank(s.pc) || Run(s, actions).pc.Returned?
    decreases |actions|
  {
    hide OnTrack, Apply;
    if actions != [] {
      var n := |actions| - 1;
      var before := actions[..n];
      forall k | 0 <= k < |before|
        ensures Good(Run(s, before[..k]), before[k])
      {
        assert before[..k] == actions[..k];
        assert Good(Run(s, actions[..k]), actions[k]);
      }
      RunOnTrack(s, before);
      StaysOnTrack(Run(s, before), actions[n]);
      Ended(Run(s, before), actions[n]);
    }
  }

  lemma Ended(s: State, a: Action)
    ensures s.pc.Returned? && a.Ours? ==> Apply(s, a).pc.Returned?
    ensures Good(s, a) ==> a.Ours?
  {}

  /** When every call works and no other writer acts, eight calls are enough, and the transaction returns
      success with our file at the path and nothing under the temporary name: over an empty path, over a regular
      file, and by the hard link where the no-replace rename is unsupported. */
  lemma SucceedsUndisturbed(s: State, actions: seq<Action>)
    requires Start(s) && (s.final.Some? ==> s.final.value.regular) && GoodRun(s, actions) && |actions| >= 8
    ensures var t := Run(s, actions);
      t.pc == Returned(true) && t.final == OURS && t.temp == None && t.lost == {}
  {
    hide Run, GoodRun;
    RunOnTrack(s, actions);
  }

  /** So a run that returns failure, whether or not our file was placed, contains a call that failed or an action
      of another writer, or the path named something that is not a regular file. */
  lemma FailureHasCause(s: State, actions: seq<Action>)
    requires Start(s) && Run(s, actions).pc == Returned(false)
    ensures (s.final.Some? && !s.final.value.regular)
            || exists k :: 0 <= k < |actions| && !Good(Run(s, actions[..k]), actions[k])
  {
    if (s.final.Some? ==> s.final.value.regular) && GoodRun(s, actions) {
      RunOnTrack(s, actions);
    }
    hide Run;
  }

  // ---------------------------------------------------------------- one behaviour of everything around

  type Other = a: Action | !a.Ours? witness Remove

  /** What the other writers do before a call, and how the call comes out. */
  datatype Choice = Choice(others: seq<Other>, outcome: Outcome)

  type Script = nat -> Choice

  function OthersRun(s: State, others: seq<Other>): (t: State)
    ensures t.pc == s.pc
    decreases |others|
  {
    if others == [] then s else Apply(OthersRun(s, others[..|others| - 1]), others[|others| - 1])
  }

  function Next(s: State, c: Choice): (t: State)
    ensures s.pc.Returned? || Rank(t.pc) < Rank(s.pc)
  {
    Apply(OthersRun(s, c.others), Ours(c.outcome))
  }

  /** The run that the script decides, up to the writing of the file or to its end. */
  function Play(script: Script, n: nat, s: State): State
    decreases Rank(s.pc)
  {
    if s.pc.Returned? || s.pc == Write then s else Play(script, n + 1, Next(s, script(n)))
  }

  lemma PlayOn(script: Script, n: nat, s: State)
    requires !s.pc.Returned? && s.pc != Write
    ensures Play(script, n, s) == Play(script, n + 1, Next(s, script(n)))
  {}

  lemma PlayOver(script: Script, n: nat, s: State)
    requires s.pc.Returned? || s.pc == Write
    ensures Play(script, n, s) == s
  {}

  ghost predicate Undisturbed(script: Script) {
    forall n :: script(n) == Choice([], Works)
  }

  lemma {:induction false} PlaySucceeds(script: Script, n: nat, s: State)
    requires Undisturbed(script) && OnTrack(s)
    ensures var t := Play(script, n, s); OnTrack(t) && (t.pc == Write || t.pc == Returned(true))
    ensures Rank(s.pc) < 6 ==> Play(script, n, s).pc == Returned(true)
    decreases Rank(s.pc)
  {
    if !s.pc.Returned? && s.pc != Write {
      assert script(n) == Choice([], Works);
      StaysOnTrack(s, Ours(Works));
      PlaySucceeds(script, n + 1, Next(s, script(n)));
    }
  }
}
