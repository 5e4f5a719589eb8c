/** create_atomic_output, commit_atomic_path and commit_atomic_lz4 as the code is written, call by call;
    each execution is a run of the state machine of module Commit. */
module Publishing {
  import opened Bytes
  import opened Commit
  import BlockStream
  import L = Lz4Writer
  import W = WriterState

  datatype Stat = Found(inode: Inode) | Missing | Unreadable

  /** A transaction over a path that names `found`, with inode numbers unused from `next` on. */
  function AtStart(found: Option<Inode>, next: nat): State {
    State(Inspect, found, None, false, None, next, found, 0, false, false, {})
  }

  /** The output path and the temporary name beside it. Other writers act on the path before every call. */
  class Output {
    /** What they do before each call, and how the call comes out. */
    const script: Script
    var clock: nat
    var final: Option<Inode>
    var temp: Option<Inode>
    var next: nat
    // AtomicOutputState
    var replaceExisting: bool
    var initial: Option<Inode>

    ghost const begin: State
    ghost var actions: seq<Action>
    /** The transaction as a state of the machine. */
    ghost var m: State

    ghost predicate Valid()
      reads this
    {
      Start(begin) && m == Run(begin, actions) && m.final == final && m.temp == temp && m.next == next
    }

    ghost predicate Knows()
      reads this
    {
      m.replaceExisting == replaceExisting && m.initial == initial
    }

    constructor (script: Script, found: Option<Inode>, next: nat)
      requires next > 0 && (found.Some? ==> 0 < found.value.id < next)
      ensures Valid() && m == AtStart(found, next) && this.script == script && clock == 0
    {
      this.script, clock := script, 0;
      final, temp, actions := found, None, [];
      replaceExisting, initial := false, None;
      this.next := next;
      begin, m := AtStart(found, next), AtStart(found, next);
    }

    /** One step, by us or by another writer. */
    ghost method Tick(a: Action)
      requires Start(begin) && m == Run(begin, actions)
      modifies this`actions, this`m
      ensures m == Apply(old(m), a) == Run(begin, actions)
    {
      RunSnoc(begin, actions, a, m);
      actions := actions + [a];
      m := Apply(m, a);
    }

    twostate predicate OthersMoved()
      reads this
    {
      && temp == old(temp) && replaceExisting == old(replaceExisting) && initial == old(initial)
      && m == old(m).(final := m.final, theirs := m.theirs, next := m.next, disturbed := m.disturbed)
    }

    /** What the other writers do before the next call. */
    method Interfere()
      requires Valid()
      modifies this`final, this`next, this`actions, this`m
      ensures Valid() && OthersMoved() && m == OthersRun(old(m), script(clock).others)
    {
      hide Run, Start;
      var others := script(clock).others;
      assert others[..|others|] == others;
      for i := 0 to |others|
        invariant Valid() && OthersMoved() && m == OthersRun(old(m), others[..i])
      {
        assert others[..i + 1][..i] == others[..i];
        var a := others[i];
        Tick(a);
        if a.Put? {
          final, next := Some(Inode(next, a.regular)), next + 1;
        } else {
          final := None;
        }
      }
    }

    // -------------------------------------------------------------- system calls

    twostate predicate Kept()
      reads this
    {
      && Valid() && replaceExisting == old(replaceExisting) && initial == old(initial)
      && m.initial == old(m.initial) && m.replaceExisting == old(m.replaceExisting)
    }

    /** One call, as the script has it. */
    twostate predicate Stepped()
      reads this
    {
      clock == old(clock) + 1 && m == Next(old(m), script(old(clock)))
    }

    method InspectFinal() returns (st: Stat)
      requires Valid() && m.pc == Inspect
      modifies this`clock, this`final, this`next, this`actions, this`m
      ensures Valid() && Stepped() && m.placed == old(m.placed)
      ensures m.pc == if st.Unreadable? || (st.Found? && !st.inode.regular) then Returned(false) else Create
      ensures m.pc == Create ==>
        m.replaceExisting == st.Found? && m.initial == if st.Found? then Some(st.inode) else None
    {
      hide Run, Start;
      Interfere();
      var o := script(clock).outcome;
      st := if !o.Works? then Unreadable else if final.Some? then Found(final.value) else Missing;
      Tick(Ours(o));
      clock := clock + 1;
    }

    method LstatFinal() returns (st: Stat)
      requires Valid() && m.pc == Preflight
      modifies this`clock, this`final, this`next, this`actions, this`m
      ensures Kept() && Stepped() && m.placed == old(m.placed)
      ensures m.pc == if st.Found? && Some(st.inode) == m.initial then ExchangeIn else DropOurs
    {
      hide Run, Start;
      RunInv(begin, actions);
      Interfere();
      var o := script(clock).outcome;
      st := if !o.Works? then Unreadable else if final.Some? then Found(final.value) else Missing;
      Tick(Ours(o));
      clock := clock + 1;
    }

    method LstatTemp() returns (st: Stat)
      requires Valid() && m.pc == InspectDisplaced
      modifies this`clock, this`final, this`next, this`actions, this`m
      ensures Kept() && Stepped()
      ensures m.pc == if st.Found? && Some(st.inode) == m.initial then DropReplaced else ExchangeBack
    {
      hide Run, Start;
      RunInv(begin, actions);
      Interfere();
      var o := script(clock).outcome;
      st := if !o.Works? || temp.None? then Unreadable else Found(temp.value);
      Tick(Ours(o));
      clock := clock + 1;
    }

    /** mkstemp and fchmod; nothing is left behind when either fails. */
    method MakeTemp() returns (ok: bool)
      requires Valid() && m.pc == Create
      modifies this`clock, this`final, this`temp, this`next, this`actions, this`m
      ensures Kept() && Stepped() && m.placed == old(m.placed)
      ensures m.pc == if ok then Commit.Write else Returned(false)
    {
      hide Run, Start;
      Interfere();
      var o := script(clock).outcome;
      ok := o.Works?;
      if ok { temp := OURS; }
      Tick(Ours(o));
      clock := clock + 1;
    }

    /** The dump is in the temporary file, or has failed. */
    ghost method Written(ok: bool)
      requires Valid() && m.pc == Commit.Write
      modifies this`actions, this`m
      ensures Kept() && m.placed == old(m.placed) && m == Apply(old(m), Ours(if ok then Works else Fails))
      ensures m.pc == if !ok then DropOurs else if m.replaceExisting then Preflight else NoReplace
    {
      hide Run, Start;
      Tick(Ours(if ok then Works else Fails));
    }

    /** renameat2 with RENAME_EXCHANGE swaps the two names; both must exist. */
    method RenameExchange() returns (ok: bool)
      requires Valid() && m.pc in {ExchangeIn, ExchangeBack}
      modifies this`clock, this`final, this`temp, this`next, this`actions, this`m
      ensures Kept() && Stepped()
      ensures old(m.pc) == ExchangeIn ==> m.pc == if ok then InspectDisplaced else DropOurs
      ensures old(m.pc) == ExchangeBack ==> m.pc == if ok then DropOurs else Returned(false)
    {
      hide Run, Start, Apply;
      Interfere();
      var o := script(clock).outcome;
      Exchanged(m, o);
      ok := o.Works? && final.Some?;
      if ok { final, temp := temp, final; }
      Tick(Ours(o));
      clock := clock + 1;
    }

    /** renameat2 with RENAME_NOREPLACE. */
    method RenameNoReplace() returns (o: Outcome)
      requires Valid() && m.pc == NoReplace
      modifies this`clock, this`final, this`temp, this`next, this`actions, this`m
      ensures Kept() && Stepped()
      ensures m.pc == if o.Works? then SyncDirectory(true) else if o.Unsupported? then HardLink else DropOurs
    {
      hide Run, Start;
      Interfere();
      var kernel := script(clock).outcome;
      o := if kernel.Works? && final.Some? then Fails else kernel;
      if o.Works? { final, temp := temp, None; }
      Tick(Ours(kernel));
      clock := clock + 1;
    }

    method Link() returns (ok: bool)
      requires Valid() && m.pc == HardLink
      modifies this`clock, this`final, this`next, this`actions, this`m
      ensures Kept() && Stepped()
      ensures m.pc == if ok then DropLink else DropOurs
    {
      hide Run, Start;
      Interfere();
      var o := script(clock).outcome;
      ok := o.Works? && final.None?;
      if ok { final := temp; }
      Tick(Ours(o));
      clock := clock + 1;
    }

    method UnlinkTemp() returns (ok: bool)
      requires Valid() && m.pc in {DropReplaced, DropOurs, DropLink}
      modifies this`clock, this`final, this`temp, this`next, this`actions, this`m
      ensures Kept() && Stepped() && m.placed == old(m.placed)
      ensures m.pc == if old(m.pc) == DropOurs then Returned(false) else SyncDirectory(ok)
    {
      hide Run, Start, Apply;
      Interfere();
      var o := script(clock).outcome;
      ok := o.Works?;
      if ok { temp := None; }
      Unlinked(m, o);
      Tick(Ours(o));
      clock := clock + 1;
    }

    method SyncOutputDirectory(ghost clean: bool) returns (ok: bool)
      requires Valid() && m.pc == SyncDirectory(clean)
      modifies this`clock, this`final, this`next, this`actions, this`m
      ensures Kept() && Stepped() && m.placed == old(m.placed)
      ensures m.pc == Returned(clean && ok)
    {
      hide Run, Start;
      Interfere();
      var o := script(clock).outcome;
      ok := o.Works?;
      Tick(Ours(o));
      clock := clock + 1;
    }

    // -------------------------------------------------------------- the transaction

    method CreateAtomicOutput() returns (ok: bool)
      requires Valid() && m.pc == Inspect && !m.placed
      modifies this
      ensures Valid() && !m.placed && m.pc == (if ok then Commit.Write else Returned(false))
      ensures ok ==> Knows() && temp == OURS
      ensures m == Play(script, old(clock), old(m))
      ensures Undisturbed(script) && OnTrack(old(m)) ==> ok && OnTrack(m)
    {
      hide Run, Start, Play, Next, OnTrack, Undisturbed;
      if Undisturbed(script) && OnTrack(m) { PlaySucceeds(script, clock, m); }
      PlayOn(script, clock, m);
      var st := InspectFinal();
      if m.pc.Returned? { PlayOver(script, clock, m); } else { PlayOn(script, clock, m); }
      if st.Found? {
        if !st.inode.regular { return false; }
        replaceExisting, initial := true, Some(st.inode);
      } else {
        if st.Unreadable? { return false; }
        replaceExisting, initial := false, None;
      }
      ok := MakeTemp();
      PlayOver(script, clock, m);
      RunInv(begin, actions);
    }

    /** The exchange, and the look at what it displaced. */
    method ReplaceFinal() returns (renamed: bool, clean: bool)
      requires Valid() && Knows() && replaceExisting && m.pc == Preflight
      modifies this
      ensures Valid() && m.pc == if renamed then SyncDirectory(clean) else Returned(false)
      ensures Play(script, clock, m) == Play(script, old(clock), old(m))
    {
      hide Run, Start, Play, Next, Valid;
      PlayOn(script, clock, m);
      clean := true;
      var st := LstatFinal();
      PlayOn(script, clock, m);
      if !st.Found? || Some(st.inode) != initial {
        var _ := UnlinkTemp();
        return false, clean;
      }
      renamed := RenameExchange();
      PlayOn(script, clock, m);
      if !renamed {
        var _ := UnlinkTemp();
        return;
      }
      var displaced := LstatTemp();
      PlayOn(script, clock, m);
      if !displaced.Found? || Some(displaced.inode) != initial {
        RollBack();
        return false, clean;
      }
      clean := UnlinkTemp();
    }

    /** The exchange back; what it brings back under the temporary name is removed. */
    method RollBack()
      requires Valid() && m.pc == ExchangeBack
      modifies this
      ensures Valid() && m.pc == Returned(false)
      ensures Play(script, clock, m) == Play(script, old(clock) + 1, Next(old(m), script(old(clock))))
    {
      hide Run, Start, Play, Next, Valid;
      var back := RenameExchange();
      if back {
        PlayOn(script, clock, m);
        var _ := UnlinkTemp();
      }
    }

    /** The rename that does not replace, or the hard link. */
    method PlaceFinal() returns (renamed: bool, clean: bool)
      requires Valid() && !replaceExisting && m.pc == NoReplace
      modifies this
      ensures Valid() && m.pc == if renamed then SyncDirectory(clean) else Returned(false)
      ensures Play(script, clock, m) == Play(script, old(clock), old(m))
    {
      hide Run, Start, Play, Next, Valid;
      PlayOn(script, clock, m);
      clean := true;
      var o := RenameNoReplace();
      PlayOn(script, clock, m);
      if o.Unsupported? {
        var linked := Link();
        PlayOn(script, clock, m);
        o := if linked then Works else Fails;
        if linked { clean := UnlinkTemp(); }
      }
      renamed := o.Works?;
      if !renamed { var _ := UnlinkTemp(); }
    }

    /** Every execution is a run of the machine that ends, with the machine's own result; so what holds
        over all its runs holds of what this method returns. It is the run that the script decides. */
    method CommitAtomicPath() returns (ok: bool)
      requires Valid() && Knows() && m.pc == if m.replaceExisting then Preflight else NoReplace
      modifies this
      ensures Valid() && m.pc == Returned(ok)
      ensures ok ==> m.placed
      ensures !m.placed ==> final == m.theirs
      ensures WithinLimit(m) ==> m.lost == {} && TheirsNamed(m)
      ensures m == Play(script, old(clock), old(m))
      ensures Undisturbed(script) && OnTrack(old(m)) ==> ok && final == OURS && temp == None
    {
      hide Run, Start, Inv, WithinLimit, TheirsNamed, Play, Next, OnTrack, Undisturbed;
      if Undisturbed(script) && OnTrack(m) {
        PlaySucceeds(script, clock, m);
        AtEnd(Play(script, clock, m));
      }
      var renamed, clean;
      if replaceExisting {
        renamed, clean := ReplaceFinal();
      } else {
        renamed, clean := PlaceFinal();
      }
      ok := false;
      if renamed {
        PlayOn(script, clock, m);
        var synced := SyncOutputDirectory(clean);
        ok := clean && synced;
      }
      PlayOver(script, clock, m);
      RunInv(begin, actions);
      AtRest(m);
    }

    /** Nothing is published unless every byte accepted by the stream is in the file: our file reaches the
        output path only with the whole stream in it and the stream's own byte counts exact. */
    method CommitAtomicLz4(w: L.Writer) returns (ok: bool)
      requires w.Valid() && w.open && this !in w.Repr()
      requires Valid() && Knows() && m.pc == Commit.Write && !m.placed
      modifies this, w.Repr()
      ensures Valid() && m.pc == Returned(ok)
      ensures ok ==> m.placed
      ensures !m.placed ==> final == m.theirs
      ensures WithinLimit(m) ==> m.lost == {} && TheirsNamed(m)
      ensures m.placed ==>
        var all := W.Flush(old(w.State())).items;
        && w.out.content == BlockStream.StreamBytes(w.Fmt(), [], all)
        && w.sizeFile == |w.out.content| && w.sizeReal == |BlockStream.History(all)|
      ensures old(w.out.error) ==> !m.placed
      ensures w.checked == old(w.checked)
      ensures Undisturbed(script) && OnTrack(old(m)) && !w.out.error && !w.out.refused ==>
        ok && final == OURS && temp == None
    {
      hide Run, Start, Inv, WithinLimit, TheirsNamed, BlockStream.StreamBytes, BlockStream.History, Play, OnTrack,
           Undisturbed;
      ghost var sealed := W.Flush(w.State());
      StaysIfGood(m);
      var synced := w.Sync();
      label Synced:
      var closed := w.Close();
      Written(synced && closed);
      if !synced || !closed {
        var _ := UnlinkTemp();
        RunInv(begin, actions);
        AtRest(m);
        return false;
      }
      assert w.State() == W.Flush(sealed) == sealed;
      ok := CommitAtomicPath();
    }
  }

  lemma Exchanged(s: State, o: Outcome)
    requires s.pc in {ExchangeIn, ExchangeBack}
    ensures var t := Apply(s, Ours(o)); var ok := o.Works? && s.final.Some?;
      && t.pc == (if s.pc == ExchangeIn then if ok then InspectDisplaced else DropOurs
                  else if ok then DropOurs else Returned(false))
      && t.final == (if ok then s.temp else s.final) && t.temp == (if ok then s.final else s.temp)
      && t.next == s.next && t.initial == s.initial && t.replaceExisting == s.replaceExisting
  {}

  lemma Unlinked(s: State, o: Outcome)
    requires s.pc in {DropReplaced, DropOurs, DropLink}
    ensures var t := Apply(s, Ours(o));
      && t.pc == (if s.pc == DropOurs then Returned(false) else SyncDirectory(o.Works?))
      && t.temp == (if o.Works? then None else s.temp)
      && t.final == s.final && t.next == s.next && t.placed == s.placed
      && t.initial == s.initial && t.replaceExisting == s.replaceExisting
  {}

  lemma AtEnd(s: State)
    requires OnTrack(s)
    ensures s.pc == Returned(true) ==> s.final == OURS && s.temp == None
  {}

  lemma StaysIfGood(s: State)
    ensures OnTrack(s) ==> OnTrack(Apply(s, Ours(Works)))
  {
    if OnTrack(s) { StaysOnTrack(s, Ours(Works)); }
  }
}
