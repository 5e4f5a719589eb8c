/** A capture from the choice of its temporary file to the commit: what can ever stand at the output
    path under our inode. */
module CaptureCommit {
  import opened Bytes
  import opened BlockStream
  import opened Archive
  import opened Maps
  import opened CoreRebuild
  import opened RoundTrip
  import opened ElfLayout
  import Capturing
  import Dumping
  import LiveTarget
  import Commit
  import Publishing
  import L = Lz4Writer
  import W = WriterState

  /** Whatever the other writers of the path do, and whichever call fails: our file reaches the path only
      as a whole archive, which converts to a core holding the delivered memory; and within the limit of
      the commit protocol no file of another writer is destroyed. When nothing fails and nobody interferes,
      it does reach the path. */
  method CaptureTo(o: Publishing.Output, env: Env, out: L.Writer, mem: Capturing.Memory,
                   arch: nat, p: LiveTarget.LiveProcess)
      returns (ok: bool, ghost cap: Capture)
    requires o.Valid() && o.m.pc == Commit.Inspect && !o.m.placed
    requires o !in out.Repr() && (o as object) != mem && mem !in out.Repr() && Capturing.Below(mem.delivered, 0)
    requires out.Valid() && out.State() == W.START && !out.checked && out.open && out.index == 0
    requires out.codec == env.codec
    requires Dumping.Convertible(env, arch, p)
    modifies o, mem, out.Repr()
    ensures o.Valid() && o.m.pc == Commit.Returned(ok)
    ensures ok ==> o.m.placed
    ensures !o.m.placed ==> o.final == o.m.theirs
    ensures Commit.WithinLimit(o.m) ==> o.m.lost == {} && Commit.TheirsNamed(o.m)
    ensures o.m.placed ==>
      && LiveTarget.Usable(env, p) && CaptureOk(env, cap) && cap.snapshot == LiveTarget.SnapshotOf(env, arch, p)
      && ParseMaps(env.line, cap.snapshot.files[2].data) == Some(cap.regions)
      && Dumping.CoreHolds(env, cap, mem.delivered) && Dumping.ArchiveShows(env, arch, p, out.out.content)
      && Decompress(env, out.out.content) == Some(CoreOf(env, cap))
    ensures (&& Commit.Undisturbed(o.script) && Commit.OnTrack(old(o.m)) && !out.out.error && !out.out.refused
             && LiveTarget.Usable(env, p) && !Dumping.Unmappable(env, arch, p)
             && mem.openable && !mem.ended && mem.total != old(mem.total)) ==>
      ok && o.final == Commit.OURS && o.temp == None
  {
    hide Commit.Undisturbed, Commit.OnTrack, Commit.Play, Dumping.Unmappable;
    hide Commit.Run, Commit.Start, Commit.Inv, Commit.WithinLimit, Commit.TheirsNamed, StreamBytes, History,
         Decompress, CaptureOk, CoreOf, Dumping.CoreHolds, Dumping.ArchiveShows, Dumping.Convertible,
         Capturing.Below, ArchiveItems, LiveTarget.Usable, LiveTarget.SnapshotOf, ParseMaps;
    cap := Capture(VERSION, arch, LiveTarget.SnapshotOf(env, arch, p), [], 0, [], []);
    ok := o.CreateAtomicOutput();
    if !ok {
      Commit.RunInv(o.begin, o.actions);
      Commit.AtRest(o.m);
      return;
    }
    ok, cap := Dumping.Dump(env, out, mem, arch, p);
    if !ok {
      var _ := out.Close();
      o.Written(false);
      var _ := o.UnlinkTemp();
      Commit.RunInv(o.begin, o.actions);
      Commit.AtRest(o.m);
      return;
    }
    ok := o.CommitAtomicLz4(out);
  }
}
