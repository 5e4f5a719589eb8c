/** A complete capture: file header, metadata, LOADS, ELF headers and tail mark, in that order, and
    what its file decompresses to. */
module Dumping {
  import opened Bytes
  import opened Lz4Codec
  import opened BlockStream
  import opened ProcFiles
  import opened Archive
  import opened ArchiveProofs
  import opened Maps
  import opened Notes
  import opened ElfLayout
  import opened CoreRebuild
  import opened NoteViews
  import opened CoreProofs
  import opened RoundTrip
  import opened Capturing
  import opened LiveTarget
  import W = WriterState
  import L = Lz4Writer

  /** The writer between two sections: nothing buffered. */
  ghost predicate Sealed(w: W.State, items: seq<Item>) {
    w.items == items && w.pending == []
  }

  // ---------------------------------------------------------------- metadata records

  /** One metadata record: its fields are written one by one and sealed as one block. */
  method WriteFields(out: L.Writer, t: nat, fields: seq<seq<byte>>, ghost base: seq<Item>) returns (ok: bool)
    requires out.Valid() && Sealed(out.State(), base) && 1 <= |Flatten(fields)| <= BLOCK_SIZE && t < TYPE_MAX
    modifies out.Repr()
    ensures out.Valid() && out.checked == old(out.checked) && out.open == old(out.open)
    ensures ok ==> Sealed(out.State(), base + [Block(0, t, Flatten(fields))])
    ensures !ok ==> !out.open || out.out.error
  {
    hide StreamBytes, DictAfter, History, Codec.Lawful, Flatten, W.Write, W.Flush, W.SetBlock;
    SetSealed(out.State(), t);
    ok := out.SetBlock(t);
    if !ok { return; }
    FieldsStart(fields);
    var i := 0;
    while i < |fields|
      invariant i <= |fields|
      invariant out.Valid() && out.checked == old(out.checked) && out.open == old(out.open)
      invariant out.State() == W.State(base, Flatten(fields[..i]), t)
    {
      FieldStep(W.State(base, Flatten(fields[..i]), t), fields, i);
      ok := out.Write(fields[i]);
      if !ok { return; }
      i := i + 1;
    }
    assert fields[..|fields|] == fields;
    ok := out.Flush();
    FlushPending(W.State(base, Flatten(fields), t));
  }

  lemma SetSealed(w: W.State, t: nat)
    requires w.pending == []
    ensures W.SetBlock(w, t) == W.State(w.items, [], t)
  {}

  lemma FieldsStart(fields: seq<seq<byte>>)
    ensures Flatten(fields[..0]) == []
  {}

  lemma FieldStep(w: W.State, fields: seq<seq<byte>>, i: nat)
    requires i < |fields| && |Flatten(fields)| <= BLOCK_SIZE && w.pending == Flatten(fields[..i])
    ensures W.Write(w, fields[i]) == w.(pending := Flatten(fields[..i + 1])) && |fields[i]| <= BLOCK_SIZE
  {
    assert fields[..i + 1] == fields[..i] + [fields[i]];
    FlattenSnoc(fields[..i], fields[i]);
    FlattenConcat(fields[..i + 1], fields[i + 1..]);
    assert fields[..i + 1] + fields[i + 1..] == fields;
    assert w.pending + [] == w.pending;
  }

  lemma FlushPending(w: W.State)
    requires w.pending != []
    ensures W.Flush(w) == W.State(w.items + [Block(0, w.blockType, w.pending)], [], w.blockType)
  {}

  /** A /proc file is read, validated, and appended. */
  method PutLiveFile(out: L.Writer, env: Env, pid: nat, t: byte, content: Option<seq<byte>>)
    returns (ok: bool, regions: seq<Region>)
    requires out.Valid() && out.State().pending == []
    modifies out.Repr()
    ensures out.Valid() && out.checked == old(out.checked) && out.open == old(out.open)
    ensures ok ==> FileUsable(env, pid, t, content)
    ensures ok ==> Sealed(out.State(), old(out.State()).items + FileItems(ProcFile(pid, t, content.value)))
    ensures ok && t == TYPE_MAPS ==> ParseMaps(env.line, content.value) == Some(regions)
    ensures !ok ==> !FileUsable(env, pid, t, content) || !out.open || out.out.error
  {
    hide StreamBytes, DictAfter, History, Codec.Lawful, FileItems, PutFile, ParseMaps, PowerOfTwo;
    regions := [];
    var data, truncated := ReadPath(content);
    if data.None? || truncated { return false, regions; }
    if t == TYPE_CMDLINE {
      if !env.cmdlineOk(data.value) { return false, regions; }
    } else if t == TYPE_AUXV {
      var page := env.auxv(data.value);
      if page.None? || !PowerOfTwo(page.value) { return false, regions; }
    } else if t == TYPE_MAPS {
      var parsed := Maps.Parse(env.line, data.value);
      if parsed.None? || parsed.value == [] { return false, regions; }
      regions := parsed.value;
    } else if t == TYPE_STAT {
      if env.statPid(data.value) != Some(pid) { return false, regions; }
    }
    PutSealed(out.State(), ProcFile(pid, t, data.value));
    ok := out.PutFile(ProcFile(pid, t, data.value));
  }

  /** The /proc files in their order, up to the first that cannot be used. */
  method PutLiveFiles(out: L.Writer, env: Env, p: LiveProcess, ghost base: seq<Item>)
    returns (ok: bool, regions: seq<Region>)
    requires out.Valid() && Sealed(out.State(), base) && |p.files| == |FileTypes(VERSION)|
    modifies out.Repr()
    ensures out.Valid() && out.checked == old(out.checked) && out.open == old(out.open)
    ensures ok ==> Sealed(out.State(), base + FilesItems(FileImages(p)))
    ensures ok ==> forall i :: 0 <= i < |p.files| ==> FileUsable(env, p.pid, FileTypes(VERSION)[i], p.files[i])
    ensures ok ==> ParseMaps(env.line, FileImages(p)[2].data) == Some(regions)
    ensures !ok ==> !out.open || out.out.error
                    || exists i :: 0 <= i < |p.files| && !FileUsable(env, p.pid, FileTypes(VERSION)[i], p.files[i])
  {
    hide StreamBytes, DictAfter, History, Codec.Lawful, FilesItems, FileItems, FileUsable, ParseMaps;
    var types, images := FileTypes(VERSION), FileImages(p);
    assert images[..0] == [];
    NoFiles(base);
    regions := [];
    var i := 0;
    while i < |p.files|
      invariant i <= |p.files|
      invariant out.Valid() && out.checked == old(out.checked) && out.open == old(out.open)
      invariant Sealed(out.State(), base + FilesItems(images[..i]))
      invariant forall k :: 0 <= k < i ==> FileUsable(env, p.pid, types[k], p.files[k])
      invariant i > 2 ==> ParseMaps(env.line, images[2].data) == Some(regions)
    {
      FilesSnoc(images, i, base);
      var parsed;
      ok, parsed := PutLiveFile(out, env, p.pid, types[i], p.files[i]);
      if !ok { return; }
      UsableImage(env, p, i);
      if types[i] == TYPE_MAPS { regions := parsed; }
      i := i + 1;
    }
    assert images[..|images|] == images;
    ok := true;
  }

  lemma UsableImage(env: Env, p: LiveProcess, i: nat)
    requires i < |p.files| == |FileTypes(VERSION)| && FileUsable(env, p.pid, FileTypes(VERSION)[i], p.files[i])
    ensures p.files[i].Some? && FileImages(p)[i] == ProcFile(p.pid, FileTypes(VERSION)[i], p.files[i].value)
    ensures FileTypes(VERSION)[i] == TYPE_MAPS <==> i == 2
  {}

  lemma NoFiles(base: seq<Item>)
    ensures base + FilesItems([]) == base
  {}

  lemma PutSealed(w: W.State, pf: ProcFile)
    requires w.pending == []
    ensures Sealed(PutFile(w, pf), w.items + FileItems(pf))
  {
    hide FileItems;
    PutFileItems(w, pf);
  }

  lemma FilesSnoc(files: seq<ProcFile>, i: nat, base: seq<Item>)
    requires i < |files|
    ensures base + FilesItems(files[..i + 1]) == base + FilesItems(files[..i]) + FileItems(files[i])
  {
    hide FileItems;
    FilesItemsSnoc(files[..i], files[i]);
    assert files[..i + 1] == files[..i] + [files[i]];
  }

  lemma {:induction false} FilesItemsSnoc(files: seq<ProcFile>, pf: ProcFile)
    ensures FilesItems(files + [pf]) == FilesItems(files) + FileItems(pf)
    decreases files
  {
    hide FileItems;
    if files == [] {
      assert files + [pf] == [pf] && [pf][1..] == [];
    } else {
      assert (files + [pf])[0] == files[0] && (files + [pf])[1..] == files[1..] + [pf];
      FilesItemsSnoc(files[1..], pf);
    }
  }

  /** The check on the thread list: not empty, positive and distinct. */
  method CheckTids(threads: seq<LiveThread>) returns (ok: bool)
    ensures ok == (threads != [] && DistinctPositive(threads))
  {
    if threads == [] { return false; }
    var seen: set<nat> := {};
    for i := 0 to |threads|
      invariant seen == set k | 0 <= k < i :: threads[k].tid
      invariant DistinctPositive(threads[..i])
    {
      var tid := threads[i].tid;
      if tid == 0 {
        return false;
      }
      if tid in seen {
        var k :| 0 <= k < i && threads[k].tid == tid;
        return false;
      }
      seen := seen + {tid};
    }
    assert threads[..|threads|] == threads;
    ok := true;
  }

  /** WriteProcessMeta: the process record and the seven files, each validated before it is appended. */
  method WriteProcessMeta(out: L.Writer, env: Env, arch: nat, p: LiveProcess, ghost base: seq<Item>)
      returns (ok: bool, regions: seq<Region>)
    requires out.Valid() && Sealed(out.State(), base) && p.Shaped(arch)
    modifies out.Repr()
    ensures out.Valid() && out.checked == old(out.checked) && out.open == old(out.open)
    ensures ok ==> ProcessUsable(env, p) && Sealed(out.State(), base + ProcessItems(VERSION, SnapshotOf(env, arch, p)))
    ensures ok ==> ParseMaps(env.line, SnapshotOf(env, arch, p).files[2].data) == Some(regions)
    ensures !ok ==> !ProcessUsable(env, p) || !out.open || out.out.error
  {
    hide StreamBytes, DictAfter, History, Codec.Lawful, FilesItems, ProcessFields, Flatten, FileUsable, ParseMaps,
         DistinctPositive, FileImages;
    regions := [];
    ok := CheckTids(p.threads);
    if !ok { return; }
    var status, truncated := ReadPath(p.status);
    if status.None? || truncated { return false, regions; }
    var ids := env.credentials(status.value);
    if ids.None? || p.time.None? || p.uname.None? { return false, regions; }
    var s := SnapshotOf(env, arch, p);
    ProcessRecord(s, arch);
    ok := WriteFields(out, PROCESS, ProcessFields(VERSION, s), base);
    if !ok { return; }
    ghost var head: seq<Item> := [Block(0, PROCESS, Flatten(ProcessFields(VERSION, s)))];
    ok, regions := PutLiveFiles(out, env, p, base + head);
    assert base + head + FilesItems(s.files) == base + (head + FilesItems(s.files));
  }

  lemma ProcessRecord(s: Snapshot, arch: nat)
    requires |s.time| == 16 && |s.zone| == 8 && |s.uname| == 512
    ensures 1 <= |Flatten(ProcessFields(VERSION, s))| <= BLOCK_SIZE
  {
    hide Flatten, Sum, ProcessFields;
    ProcessFits(VERSION, s);
    FlattenLength(ProcessWidths(VERSION), ProcessFields(VERSION, s));
    RecordSizes(VERSION, arch);
  }

  /** WriteThreadMeta: refused without registers, signal masks or a stat of its own, and for the crashing
      thread without siginfo; other blocks that cannot be read are zeroed. */
  method WriteThreadMeta(out: L.Writer, env: Env, arch: nat, p: LiveProcess, t: LiveThread, ghost base: seq<Item>)
    returns (ok: bool)
    requires out.Valid() && Sealed(out.State(), base) && arch < ARCH_MAX && t.Shaped(arch)
    modifies out.Repr()
    ensures out.Valid() && out.checked == old(out.checked) && out.open == old(out.open)
    ensures ok ==>
      ThreadUsable(env, p, t) && Sealed(out.State(), base + ThreadItems(VERSION, arch, ThreadImage(env, arch, t)))
    ensures ok && t.tid > 0 && LawfulStatus(env) ==> ThreadSealed(env, arch, p.crashSig, t, out.State(), base)
    ensures !ok ==> !ThreadUsable(env, p, t) || !out.open || out.out.error
  {
    hide StreamBytes, DictAfter, History, Codec.Lawful, FileItems, ThreadFields, Flatten, PutFile, ThreadImage,
         LiveThread.Shaped, ThreadSealed, LawfulStatus;
    if t.regs.None? { return false; }
    if t.siginfo.None? && p.crashSig != 0 && t.tid == p.crashTid { return false; }
    var status, statusTruncated := ReadPath(t.status);
    if status.None? || statusTruncated { return false; }
    if env.masks(status.value).None? { return false; }
    var image := ThreadImage(env, arch, t);
    ImageShape(env, arch, t);
    ThreadRecord(arch, image);
    ok := WriteFields(out, THREAD, ThreadFields(VERSION, arch, image), base);
    if !ok { return; }
    var unparsed;
    ok, unparsed := PutLiveFile(out, env, t.tid, TYPE_STAT, t.stat);
    ghost var head: seq<Item> := [Block(0, THREAD, ThreadPayload(VERSION, arch, image))];
    assert base + head + FileItems(image.stat) == base + (head + FileItems(image.stat));
    if ok && t.tid > 0 && LawfulStatus(env) {
      RecordSealed(env, arch, p, t, out.State(), base);
    }
  }

  /** What was sealed behind base is one THREAD record and one file, which decode to the live thread. */
  ghost predicate ThreadSealed(env: Env, arch: nat, crashSig: int, t: LiveThread, w: W.State, base: seq<Item>) {
    exists payload, stat ::
      Sealed(w, base + ([Block(0, THREAD, payload)] + FileItems(stat)))
      && RecordShows(env, arch, crashSig, t, payload, stat)
  }

  lemma RecordSealed(env: Env, arch: nat, p: LiveProcess, t: LiveThread, w: W.State, base: seq<Item>)
    requires arch < ARCH_MAX && t.Shaped(arch) && t.tid > 0 && ThreadUsable(env, p, t) && LawfulStatus(env)
    requires Sealed(w, base + ThreadItems(VERSION, arch, ThreadImage(env, arch, t)))
    ensures ThreadSealed(env, arch, p.crashSig, t, w, base)
  {
    hide RecordShows, FileItems, ThreadPayload, ThreadImage;
    RecordDecodes(env, arch, p, t);
    var image := ThreadImage(env, arch, t);
    assert RecordShows(env, arch, p.crashSig, t, ThreadPayload(VERSION, arch, image), image.stat);
  }

  /** A THREAD record and the stat file behind it decode to the live thread. */
  ghost predicate RecordShows(env: Env, arch: nat, crashSig: int, t: LiveThread, payload: seq<byte>, stat: ProcFile) {
    && DecodeThread(VERSION, arch, false, crashSig, payload, stat).Some?
    && ShowsThread(env, arch, crashSig, t, DecodeThread(VERSION, arch, false, crashSig, payload, stat).value)
  }

  lemma RecordDecodes(env: Env, arch: nat, p: LiveProcess, t: LiveThread)
    requires arch < ARCH_MAX && t.Shaped(arch) && t.tid > 0 && ThreadUsable(env, p, t) && LawfulStatus(env)
    ensures var image := ThreadImage(env, arch, t);
      RecordShows(env, arch, p.crashSig, t, ThreadPayload(VERSION, arch, image), image.stat)
  {
    hide ThreadImage, ThreadPayload, ThreadOf, DecodeThread, ShowsThread;
    ImageOk(env, arch, p, t);
    ImageShows(env, arch, p, t);
    ThreadRoundTrip(VERSION, arch, false, p.crashSig, ThreadImage(env, arch, t));
  }

  lemma ImageShape(env: Env, arch: nat, t: LiveThread)
    requires t.Shaped(arch) && t.regs.Some?
    ensures var i := ThreadImage(env, arch, t);
      && |i.regs| == RegsSize(arch) && |i.fpregs| == FpRegsSize(arch) && |i.siginfo| == SIGINFO_SIZE
      && (arch == ARCH_X64 ==> |i.xstate| == XSTATE_SIZE)
      && (t.stat.Some? ==> i.stat == ProcFile(t.tid, TYPE_STAT, t.stat.value))
  {}

  lemma ThreadRecord(arch: nat, t: Thread)
    requires |t.regs| == RegsSize(arch) && |t.fpregs| == FpRegsSize(arch) && |t.siginfo| == SIGINFO_SIZE
    requires arch == ARCH_X64 ==> |t.xstate| == XSTATE_SIZE
    ensures 1 <= |Flatten(ThreadFields(VERSION, arch, t))| <= BLOCK_SIZE
  {
    hide Flatten, Sum, ThreadFields;
    ThreadFits(VERSION, arch, t);
    FlattenLength(ThreadWidths(VERSION, arch), ThreadFields(VERSION, arch, t));
    RecordSizes(VERSION, arch);
  }

  method WriteThreads(out: L.Writer, env: Env, arch: nat, p: LiveProcess, ghost base: seq<Item>) returns (ok: bool)
    requires out.Valid() && Sealed(out.State(), base) && p.Shaped(arch)
    modifies out.Repr()
    ensures out.Valid() && out.checked == old(out.checked) && out.open == old(out.open)
    ensures ok ==> forall i :: 0 <= i < |p.threads| ==> ThreadUsable(env, p, p.threads[i])
    ensures ok ==> Sealed(out.State(), base + ThreadsItems(VERSION, arch, SnapshotOf(env, arch, p).threads))
    ensures !ok ==>
      !out.open || out.out.error || exists i :: 0 <= i < |p.threads| && !ThreadUsable(env, p, p.threads[i])
  {
    hide StreamBytes, DictAfter, History, Codec.Lawful, ThreadItems, ThreadsItems, ThreadUsable, ThreadImage;
    var threads := SnapshotOf(env, arch, p).threads;
    assert threads[..0] == [];
    NoThreadItems(arch, base);
    var i := 0;
    while i < |p.threads|
      invariant i <= |p.threads|
      invariant out.Valid() && out.checked == old(out.checked) && out.open == old(out.open)
      invariant Sealed(out.State(), base + ThreadsItems(VERSION, arch, threads[..i]))
      invariant forall k :: 0 <= k < i ==> ThreadUsable(env, p, p.threads[k])
    {
      ThreadsSnoc(arch, threads, i, base);
      assert p.threads[i] in p.threads;
      ok := WriteThreadMeta(out, env, arch, p, p.threads[i], base + ThreadsItems(VERSION, arch, threads[..i]));
      if !ok { return; }
      i := i + 1;
    }
    assert threads[..|threads|] == threads;
    ok := true;
  }

  lemma NoThreadItems(arch: nat, base: seq<Item>)
    ensures base + ThreadsItems(VERSION, arch, []) == base
  {}

  lemma ThreadsSnoc(arch: nat, threads: seq<Thread>, i: nat, base: seq<Item>)
    requires i < |threads|
    ensures base + ThreadsItems(VERSION, arch, threads[..i + 1])
         == base + ThreadsItems(VERSION, arch, threads[..i]) + ThreadItems(VERSION, arch, threads[i])
  {
    hide ThreadItems;
    ThreadsItemsSnoc(arch, threads[..i], threads[i]);
    assert threads[..i + 1] == threads[..i] + [threads[i]];
  }

  lemma {:induction false} ThreadsItemsSnoc(arch: nat, threads: seq<Thread>, t: Thread)
    ensures ThreadsItems(VERSION, arch, threads + [t])
      == ThreadsItems(VERSION, arch, threads) + ThreadItems(VERSION, arch, t)
    decreases threads
  {
    hide ThreadItems;
    if threads == [] {
      assert threads + [t] == [t] && [t][1..] == [];
    } else {
      assert (threads + [t])[0] == threads[0] && (threads + [t])[1..] == threads[1..] + [t];
      ThreadsItemsSnoc(arch, threads[1..], t);
    }
  }

  // ---------------------------------------------------------------- ELF headers and tail mark

  lemma WriteAllSnoc(w: W.State, recs: seq<seq<byte>>, r: seq<byte>)
    ensures WriteAll(w, recs + [r]) == W.Write(WriteAll(w, recs), r)
    decreases recs
  {
    hide W.Write;
    if recs == [] {
      assert recs + [r] == [r] && [r][1..] == [];
      assert WriteAll(w, [r]) == WriteAll(W.Write(w, r), []);
    } else {
      assert (recs + [r])[0] == recs[0] && (recs + [r])[1..] == recs[1..] + [r];
      WriteAllSnoc(W.Write(w, recs[0]), recs[1..], r);
    }
  }

  lemma ElfRecSizes(h: Ehdr, phdrs: seq<Phdr>)
    ensures forall i :: 0 <= i < |ElfRecs(h, phdrs)| ==> 1 <= |ElfRecs(h, phdrs)[i]| < BLOCK_SIZE
  {
    hide EhdrBytes, PhdrBytes;
    forall i | 0 <= i < |ElfRecs(h, phdrs)| ensures 1 <= |ElfRecs(h, phdrs)[i]| < BLOCK_SIZE {
      HeaderSizes(if i > 0 then phdrs[i - 1] else Phdr(0, 0, 0, 0, 0, 0, 0, 0), h);
    }
  }

  lemma ElfRecStep(w: W.State, h: Ehdr, phdrs: seq<Phdr>, i: nat)
    requires i < |phdrs|
    ensures WriteAll(w, ElfRecs(h, phdrs[..i + 1])) == W.Write(WriteAll(w, ElfRecs(h, phdrs[..i])), PhdrBytes(phdrs[i]))
  {
    hide EhdrBytes, PhdrBytes, WriteAll, W.Write;
    assert ElfRecs(h, phdrs[..i + 1]) == ElfRecs(h, phdrs[..i]) + [PhdrBytes(phdrs[i])];
    WriteAllSnoc(w, ElfRecs(h, phdrs[..i]), PhdrBytes(phdrs[i]));
  }

  lemma ElfRecFirst(w: W.State, h: Ehdr)
    ensures WriteAll(w, ElfRecs(h, [])) == W.Write(w, EhdrBytes(h))
  {
    hide EhdrBytes, W.Write;
    assert ElfRecs(h, []) == [EhdrBytes(h)] && [EhdrBytes(h)][1..] == [];
    assert WriteAll(w, [EhdrBytes(h)]) == WriteAll(W.Write(w, EhdrBytes(h)), []);
  }

  /** WriteElfHeader (stream): as many ELF blocks as needed, no header split between two. */
  method WriteElfHeader(out: L.Writer, arch: nat, phdrs: seq<Phdr>, ghost base: seq<Item>)
      returns (ok: bool, ghost groups: seq<seq<seq<byte>>>)
    requires out.Valid() && Sealed(out.State(), base) && arch < ARCH_MAX
    modifies out.Repr()
    ensures out.Valid() && out.checked == old(out.checked) && out.open == old(out.open)
    ensures |phdrs| >= PN_XNUM ==> !ok && out.State() == old(out.State())
    ensures ok ==> Sealed(out.State(), base + W.Pieces(0, 0, ELF, Payloads(groups)))
    ensures ok ==> Flatten(groups) == ElfRecs(Ehdr(Machine(arch), |phdrs|), phdrs) && GroupsOk(groups)
    ensures ok ==> forall i :: 0 <= i < |groups| ==> groups[i] != []
    ensures !ok ==> |phdrs| >= PN_XNUM || !out.open || out.out.error
  {
    hide StreamBytes, DictAfter, History, Codec.Lawful, W.Write, W.Flush, W.SetBlock, WriteAll, ElfRecs, EhdrBytes,
         PhdrBytes, Flatten, W.Pieces, Payloads, GroupsOk;
    groups := [];
    if |phdrs| >= PN_XNUM { return false, groups; }
    var h := Ehdr(Machine(arch), |phdrs|);
    HeadersShort(h, phdrs);
    ghost var w := W.State(base, [], ELF);
    SetSealed(out.State(), ELF);
    ok := out.SetBlock(ELF);
    if !ok { return; }
    ElfRecFirst(w, h);
    ok := out.Write(EhdrBytes(h));
    if !ok { return; }
    assert phdrs[..0] == [];
    var i := 0;
    while i < |phdrs|
      invariant i <= |phdrs|
      invariant out.Valid() && out.checked == old(out.checked) && out.open == old(out.open)
      invariant out.State() == WriteAll(w, ElfRecs(h, phdrs[..i]))
    {
      ElfRecStep(w, h, phdrs, i);
      ok := out.Write(PhdrBytes(phdrs[i]));
      if !ok { return; }
      i := i + 1;
    }
    assert phdrs[..|phdrs|] == phdrs;
    ok := out.Flush();
    if !ok { return; }
    ElfRecSizes(h, phdrs);
    FieldsStart([]);
    groups := RecordsWhole(w, ElfRecs(h, phdrs), []);
    GroupsAre(groups, ElfRecs(h, phdrs));
  }

  lemma HeadersShort(h: Ehdr, phdrs: seq<Phdr>)
    ensures |EhdrBytes(h)| <= BLOCK_SIZE && forall i :: 0 <= i < |phdrs| ==> |PhdrBytes(phdrs[i])| <= BLOCK_SIZE
  {
    hide EhdrBytes, PhdrBytes;
    forall p: Phdr
      ensures |EhdrBytes(h)| <= BLOCK_SIZE && |PhdrBytes(p)| <= BLOCK_SIZE
    {
      HeaderSizes(p, h);
    }
    HeaderSizes(Phdr(0, 0, 0, 0, 0, 0, 0, 0), h);
  }

  lemma GroupsAre(groups: seq<seq<seq<byte>>>, recs: seq<seq<byte>>)
    requires forall i :: 0 <= i < |groups| ==> 1 <= |Payloads(groups)[i]| <= BLOCK_SIZE && groups[i] != []
    requires Flatten(groups) == [] + recs
    ensures GroupsOk(groups) && Flatten(groups) == recs
  {}

  method WriteTailMark(out: L.Writer, ghost base: seq<Item>) returns (ok: bool)
    requires out.Valid() && Sealed(out.State(), base)
    modifies out.Repr()
    ensures out.Valid() && out.checked == old(out.checked) && out.open == old(out.open)
    ensures ok ==> Sealed(out.State(), base + [Raw(Pack(TAIL_MARK))]) && !out.out.error
    ensures !ok ==> !out.open || out.out.error
  {
    hide StreamBytes, DictAfter, History, Codec.Lawful, Pack;
    var rc := out.WriteRaw(Pack(TAIL_MARK));
    ok := rc == 3;
  }

  method WriteFileHeader(out: L.Writer, arch: nat) returns (ok: bool)
    requires out.Valid() && out.State() == W.START && !out.checked && arch < ARCH_MAX && out.index == 0
    modifies out.Repr()
    ensures out.Valid() && out.open == old(out.open)
    ensures ok ==> out.checked && Sealed(out.State(), [Raw(FileHeader(VERSION, arch))])
    ensures !ok ==> !out.open || out.out.error
  {
    hide StreamBytes, DictAfter, History, Codec.Lawful, ToLE;
    var header := FileHeader(VERSION, arch);
    var rc := out.WriteRaw(header);
    if rc != |header| { return false; }
    ok := out.EnableBlockChecksums(true);
  }

  // ---------------------------------------------------------------- the whole dump

  /** What a capture relies on: lawful conversions, C types that hold their values, and, for a process that
      it accepts, the reader's limits on threads, notes that can be made, and no mapping in the last buffer
      of the address space. */
  ghost predicate Convertible(env: Env, arch: nat, p: LiveProcess) {
    && env.codec.Lawful() && LawfulLine(env.line) && LawfulStatus(env) && p.Shaped(arch)
    && (Usable(env, p) ==>
          var s := SnapshotOf(env, arch, p);
          var regions, page := ParseMaps(env.line, s.files[2].data), env.auxv(s.files[1].data);
          && ReaderLimits(arch, s) && regions.Some? && page.Some?
          && GenerateNotes(env, arch, MetaOf(VERSION, s), regions.value, page.value).Some?
          && forall r :: r in regions.value ==> r.end <= U64 - BUFFER_SIZE)
  }

  lemma ConvertibleFacts(env: Env, arch: nat, p: LiveProcess)
    requires Convertible(env, arch, p)
    ensures p.Shaped(arch) && env.codec.Lawful() && |SnapshotOf(env, arch, p).files| == |FileTypes(VERSION)| == 7
    ensures Usable(env, p) ==>
      var s := SnapshotOf(env, arch, p);
      && ParseMaps(env.line, s.files[2].data).Some? && env.auxv(s.files[1].data).Some?
      && Ready(env, arch, s, ParseMaps(env.line, s.files[2].data).value, env.auxv(s.files[1].data).value)
  {
    hide MetaCost, Thread.Ok, FilesMatch, ParseMaps, GenerateNotes, MetaOf, LawfulLine, Codec.Lawful, ParseAll,
         SnapshotOf, LiveProcess.Shaped, Usable, LawfulStatus, WellFormed;
    SevenFiles(env, arch, p);
    if Usable(env, p) {
      SnapshotWellFormed(env, arch, p);
      UsableParses(env, arch, p);
      RegionsFit(env, arch, p);
      RegionsExist(env, VERSION, MetaOf(VERSION, SnapshotOf(env, arch, p)));
    }
  }

  lemma SevenFiles(env: Env, arch: nat, p: LiveProcess)
    ensures |SnapshotOf(env, arch, p).files| == |FileTypes(VERSION)| == 7
  {}

  /** A snapshot that parses to these mappings, few enough for a core, and for which notes can be made. */
  ghost predicate Ready(env: Env, arch: nat, s: Snapshot, regions: seq<Region>, page: nat) {
    && env.codec.Lawful() && LawfulLine(env.line) && WellFormed(VERSION, arch, s)
    && ParseAll(env, VERSION, MetaOf(VERSION, s)) == Some((regions, page))
    && GenerateNotes(env, arch, MetaOf(VERSION, s), regions, page).Some?
    && regions != [] && |regions| + 1 < PN_XNUM
    && forall r :: r in regions ==> r.end <= U64 - BUFFER_SIZE
  }

  lemma ReadyFacts(env: Env, arch: nat, s: Snapshot, regions: seq<Region>, page: nat)
    requires Ready(env, arch, s, regions, page)
    ensures Ordered(regions) && Positive(regions) && regions != [] && |regions| + 1 < PN_XNUM
    ensures forall i :: 0 <= i < |regions| ==> regions[i].end <= U64 - BUFFER_SIZE
    ensures LoadsOf(regions) == LoadsFrom(regions, 0)
  {
    hide WellFormed, ParseMaps, GenerateNotes, Ordered, MetaOf, LawfulLine, Codec.Lawful, ParseAll;
    RegionsExist(env, VERSION, MetaOf(VERSION, s));
    MapsOrdered(env.line, MetaOf(VERSION, s).files[2].data);
    OrderedPrefix(regions, 0);
  }

  lemma MapsOrdered(parse: seq<byte> -> Option<Region>, data: seq<byte>)
    requires ParseMaps(parse, data).Some?
    ensures Ordered(ParseMaps(parse, data).value)
  {
    hide Ordered;
    RegionsOrdered(parse, data, 0, 0);
  }

  lemma LoadsBase(w: W.State, items: seq<Item>)
    requires Sealed(w, items)
    ensures W.Flush(W.SetBlock(w, LOADS)).items == items
  {}

  lemma DumpItems(cap: Capture, i1: seq<Item>, i2: seq<Item>, i3: seq<Item>, i4: seq<Item>)
    requires cap.version == VERSION
    requires i1 == [Raw(FileHeader(VERSION, cap.arch))] + ProcessItems(VERSION, cap.snapshot)
    requires i2 == i1 + ThreadsItems(VERSION, cap.arch, cap.snapshot.threads)
    requires i3 == i2 + W.Pieces(0, 0, LOADS, cap.chunks) && i4 == i3 + W.Pieces(0, 0, ELF, Payloads(cap.groups))
    ensures i4 + [Raw(Pack(TAIL_MARK))] == ArchiveItems(cap)
  {
    hide ProcessItems, ThreadsItems, W.Pieces, Payloads, Pack, FileHeader;
    var h: seq<Item> := [Raw(FileHeader(VERSION, cap.arch))];
    var a, b := ProcessItems(VERSION, cap.snapshot), ThreadsItems(VERSION, cap.arch, cap.snapshot.threads);
    var c, d := W.Pieces(0, 0, LOADS, cap.chunks), W.Pieces(0, 0, ELF, Payloads(cap.groups));
    var t: seq<Item> := [Raw(Pack(TAIL_MARK))];
    assert h + a + b + c + d + t == h + ((a + b) + (c + (d + t)));
  }

  lemma DumpOk(env: Env, cap: Capture, phdrs: seq<Phdr>)
    requires Ready(env, cap.arch, cap.snapshot, cap.regions, cap.page) && cap.version == VERSION
    requires Positive(cap.regions)
    requires LoadsFrom(cap.regions, 0) == Some((phdrs, |Flatten(cap.chunks)|)) && |phdrs| < PN_XNUM
    requires forall i :: 0 <= i < |cap.chunks| ==> 1 <= |cap.chunks[i]| <= BLOCK_SIZE
    requires Flatten(cap.groups) == ElfRecs(Ehdr(Machine(cap.arch), |phdrs|), phdrs) && GroupsOk(cap.groups)
    requires forall i :: 0 <= i < |cap.groups| ==> cap.groups[i] != []
    ensures CaptureOk(env, cap) && FormatOf(env, cap) == Format(env.codec, true)
  {
    hide WellFormed, ParseAll, GenerateNotes, MetaOf, Flatten, ElfRecs, GroupsOk, LoadsFrom, LawfulLine, Codec.Lawful;
  }

  /** Program header i of the file shows the mapping at its own address, with the bytes that were
      delivered. */
  ghost predicate HoldsRegion(file: seq<byte>, i: nat, r: Region, m: Delivered) {
    && HeaderAt(file, i).Some?
    && var p := HeaderAt(file, i).value;
      && r.start <= r.end && p.ptype == PT_LOAD && p.vaddr == r.start && p.memsz == r.end - r.start
      && p.flags == r.perms && p.filesz == (if r.perms == 0 then 0 else r.end - r.start)
      && p.offset + p.filesz <= |file| && file[p.offset..p.offset + p.filesz] == Image(m, r.start, p.filesz)
  }

  /** The core as a debugger reads it: its ELF header, its notes, and every mapping. */
  ghost predicate CoreHolds(env: Env, cap: Capture, m: Delivered) {
    var file := CoreOf(env, cap).File();
    && |file| >= EHDR_SIZE
    && DecodeEhdr(cap.arch, file[..EHDR_SIZE]) == Some(Ehdr(Machine(cap.arch), |cap.regions| + 1))
    && HeaderAt(file, 0).Some?
    && var n := HeaderAt(file, 0).value;
    && n.ptype == PT_NOTE && n.offset + n.filesz <= |file|
    && NotesShow(env, cap.arch, MetaOf(cap.version, cap.snapshot), cap.regions, cap.page,
                 file[n.offset..n.offset + n.filesz])
    && forall i :: 0 <= i < |cap.regions| ==> HoldsRegion(file, i + 1, cap.regions[i], m)
  }

  /** The archive as any reader of it decodes it: version and machine, the process, and every thread. */
  ghost predicate ArchiveShows(env: Env, arch: nat, p: LiveProcess, file: seq<byte>) {
    var head, f := VerifyFileHeader(Cursor(file, [])), Format(env.codec, true);
    && head.Some? && head.value.0 == VERSION && head.value.1 == arch
    && var (_, _, c) := head.value;
    && ReadFirstBlock(f, c, PROCESS).Some? && ReadMeta(f, VERSION, arch, c).Some?
    && ShowsProcess(env, arch, p, ReadFirstBlock(f, c, PROCESS).value.0, ReadMeta(f, VERSION, arch, c).value.0)
  }

  lemma ArchiveIsLive(env: Env, cap: Capture, p: LiveProcess)
    requires CaptureOk(env, cap) && cap.version == VERSION && Usable(env, p) && p.Shaped(cap.arch)
    requires cap.snapshot == SnapshotOf(env, cap.arch, p)
    ensures ArchiveShows(env, cap.arch, p, StreamBytes(FormatOf(env, cap), [], ArchiveItems(cap)))
  {
    hide CaptureOk, SnapshotOf, Usable, LiveProcess.Shaped, StreamBytes, ArchiveItems, ReadMeta, ReadFirstBlock,
         VerifyFileHeader, ShowsProcess, MetaOf, ProcessFields, Flatten;
    ArchiveFront(env, cap);
    SnapshotShows(env, cap.arch, p);
  }

  /** The end-to-end law: archived images reappear at the file offsets that the headers in the file give. */
  lemma MemoryEndToEnd(env: Env, cap: Capture, m: Delivered)
    requires CaptureOk(env, cap) && Positive(cap.regions) && Flatten(cap.chunks) == ImageOf(m, cap.regions)
    ensures Decompress(env, StreamBytes(FormatOf(env, cap), [], ArchiveItems(cap))) ==
            if Representable(cap) then Some(CoreOf(env, cap)) else None
    ensures CoreHolds(env, cap, m)
  {
    hide *;
    ArchiveRoundTrip(env, cap);
    CoreReadable(env, cap);
    NotesHeld(env, cap);
    var file := CoreOf(env, cap).File();
    forall i | 0 <= i < |cap.regions|
      ensures HoldsRegion(file, i + 1, cap.regions[i], m)
    {
      RegionHeld(env, cap, m, i);
    }
    HoldsAll(env, cap, m);
  }

  lemma NotesHeld(env: Env, cap: Capture)
    requires CaptureOk(env, cap)
    ensures NotesShow(env, cap.arch, MetaOf(cap.version, cap.snapshot), cap.regions, cap.page,
                      NotesBytes(NotesOf(env, cap)))
  {
    hide GenerateNotes, NotesShow, NotesBytes, MetaOf, WellFormed, ParseAll, Flatten, ElfRecs, GroupsOk;
    NotesReadable(env, cap.arch, MetaOf(cap.version, cap.snapshot), cap.regions, cap.page);
  }

  lemma HoldsAll(env: Env, cap: Capture, m: Delivered)
    requires var file := CoreOf(env, cap).File();
      && |file| >= EHDR_SIZE
      && DecodeEhdr(cap.arch, file[..EHDR_SIZE]) == Some(Ehdr(Machine(cap.arch), |cap.regions| + 1))
      && HeaderAt(file, 0).Some?
      && var n := HeaderAt(file, 0).value;
      && n.ptype == PT_NOTE && n.offset + n.filesz <= |file|
      && NotesShow(env, cap.arch, MetaOf(cap.version, cap.snapshot), cap.regions, cap.page,
                   file[n.offset..n.offset + n.filesz])
      && forall i :: 0 <= i < |cap.regions| ==> HoldsRegion(file, i + 1, cap.regions[i], m)
    ensures CoreHolds(env, cap, m)
  {
    hide CoreOf, HoldsRegion, DecodeEhdr, HeaderAt, NotesShow, MetaOf, Core.File;
  }

  lemma RegionHeld(env: Env, cap: Capture, m: Delivered, i: nat)
    requires CaptureOk(env, cap) && Positive(cap.regions) && Flatten(cap.chunks) == ImageOf(m, cap.regions)
    requires i < |cap.regions|
    ensures HoldsRegion(CoreOf(env, cap).File(), i + 1, cap.regions[i], m)
  {
    hide *;
    LoadHeadersOk(env, cap);
    RegionCount(env, cap);
    HeadersAre(cap);
    PositiveAt(cap.regions, i);
    MemoryContent(env, cap, i);
    ImageAt(m, cap.regions, 0, i);
    CoreShape(env, cap, i);
    var core, k := CoreOf(env, cap), LoadHeaders(cap)[i].offset;
    SizeIs(cap.regions[i], k);
    HeldSlice(core.File(), i + 1, core.loads, cap.regions[i], m, k);
  }

  lemma HeldSlice(file: seq<byte>, i: nat, loads: seq<byte>, r: Region, m: Delivered, k: nat)
    requires HeaderAt(file, i).Some? && r.start <= r.end
    requires var p := HeaderAt(file, i).value;
      && p.ptype == PT_LOAD && p.vaddr == r.start && p.memsz == r.end - r.start
      && p.flags == r.perms && p.filesz == (if r.perms == 0 then 0 else r.end - r.start)
      && p.offset + p.filesz <= |file| && k + p.filesz <= |loads|
      && file[p.offset..p.offset + p.filesz] == loads[k..k + p.filesz] == Image(m, r.start, p.filesz)
    ensures HoldsRegion(file, i, r, m)
  {
    hide HeaderAt, Image;
  }

  lemma HeadersAre(cap: Capture)
    requires Positive(cap.regions) && LoadsOf(cap.regions) == LoadsFrom(cap.regions, 0)
    ensures LoadsFrom(cap.regions, 0).Some? ==> LoadHeaders(cap) == LoadsFrom(cap.regions, 0).value.0
  {}

  lemma RegionCount(env: Env, cap: Capture)
    requires CaptureOk(env, cap)
    ensures |CoreOf(env, cap).phdrs| == |LoadHeaders(cap)| + 1 && LoadsOf(cap.regions).Some?
  {
    hide ParseAll, GenerateNotes, WellFormed, MetaOf, Flatten, ElfRecs, GroupsOk, LoadsFrom, NotePhdr, NotesOf,
         LawfulLine, Codec.Lawful;
  }

  lemma SizeIs(r: Region, offset: nat)
    requires r.start < r.end
    ensures FileSize(r) == LoadPhdr(r, offset).filesz == (if r.perms == 0 then 0 else r.end - r.start)
  {}

  /** A dump decompresses to a core that holds, for every mapping, exactly the bytes memory reads delivered,
      and zero where they failed; and it fails only on a process it cannot use, memory it cannot read, or a
      write. */
  method Dump(env: Env, out: L.Writer, mem: Memory, arch: nat, p: LiveProcess) returns (ok: bool, ghost cap: Capture)
    requires out.Valid() && out.State() == W.START && !out.checked && out.index == 0 && out.codec == env.codec
    requires mem !in out.Repr() && Below(mem.delivered, 0)
    requires Convertible(env, arch, p)
    modifies out.Repr(), mem
    ensures out.Valid() && out.open == old(out.open)
    ensures ok ==> Usable(env, p) && CaptureOk(env, cap) && cap.snapshot == SnapshotOf(env, arch, p)
    ensures ok ==> cap.version == VERSION && cap.arch == arch
    ensures ok ==> ParseMaps(env.line, cap.snapshot.files[2].data) == Some(cap.regions)
    ensures ok ==> Sealed(out.State(), ArchiveItems(cap)) && FormatOf(env, cap) == out.Fmt()
    ensures ok ==> out.out.content == StreamBytes(FormatOf(env, cap), [], ArchiveItems(cap))
    ensures ok ==> Decompress(env, out.out.content) == Some(CoreOf(env, cap))
    ensures ok ==> CoreHolds(env, cap, mem.delivered) && ArchiveShows(env, arch, p, out.out.content)
    ensures !ok ==> !Usable(env, p) || Unmappable(env, arch, p)
                    || !mem.openable || mem.ended || mem.total == old(mem.total) || !out.open || out.out.error
  {
    hide StreamBytes, DictAfter, History, Codec.Lawful, Convertible, CaptureOk, CoreOf, CoreHolds, ArchiveShows,
         FormatOf, ArchiveItems, Decompress, ImageOf, Below, Flatten, W.Pieces, W.Flush, W.SetBlock, Payloads,
         ProcessItems, ThreadsItems, FileHeader, Pack, LoadsFrom, LoadsOf, Ordered, Positive, Ready, GroupsOk, ElfRecs,
         SnapshotOf,
         ProcessUsable, ThreadUsable, ParseMaps, LiveProcess.Shaped;
    ConvertibleFacts(env, arch, p);
    ghost var s := SnapshotOf(env, arch, p);
    cap := Capture(VERSION, arch, s, [], 0, [], []);
    ShapedArch(p, arch);
    ok := WriteFileHeader(out, arch);
    if !ok { return; }
    ghost var i0: seq<Item> := [Raw(FileHeader(VERSION, arch))];
    var regions;
    ok, regions := WriteProcessMeta(out, env, arch, p, i0);
    if !ok { return; }
    ghost var i1 := i0 + ProcessItems(VERSION, s);
    ok := WriteThreads(out, env, arch, p, i1);
    if !ok { return; }
    ghost var i2 := i1 + ThreadsItems(VERSION, arch, s.threads);
    LoadsBase(out.State(), i2);
    ghost var page := env.auxv(s.files[1].data).value;
    ReadyFacts(env, arch, s, regions, page);
    var phdrs;
    ghost var chunks;
    ok, phdrs, chunks := WriteLoads(out, mem, regions);
    if !ok { return; }
    ok, cap := Finish(env, out, arch, s, regions, page, phdrs, chunks, i1, i2);
    if !ok { return; }
    Dumped(env, cap, p, mem.delivered);
  }

  lemma Dumped(env: Env, cap: Capture, p: LiveProcess, m: Delivered)
    requires CaptureOk(env, cap) && cap.version == VERSION && Usable(env, p) && p.Shaped(cap.arch)
    requires cap.snapshot == SnapshotOf(env, cap.arch, p)
    requires Positive(cap.regions) && Flatten(cap.chunks) == ImageOf(m, cap.regions)
    ensures var file := StreamBytes(FormatOf(env, cap), [], ArchiveItems(cap));
      && Decompress(env, file) == (if |cap.regions| + 1 < PN_XNUM then Some(CoreOf(env, cap)) else None)
      && CoreHolds(env, cap, m) && ArchiveShows(env, cap.arch, p, file)
  {
    hide *;
    MemoryEndToEnd(env, cap, m);
    ArchiveIsLive(env, cap, p);
    LoadHeadersOk(env, cap);
    RepresentableIf(cap);
  }

  lemma RepresentableIf(cap: Capture)
    ensures |LoadHeaders(cap)| == |cap.regions| ==> (Representable(cap) <==> |cap.regions| + 1 < PN_XNUM)
  {
    hide LoadHeaders;
  }

  /** The mappings' sizes do not add up within a signed size. */
  ghost predicate Unmappable(env: Env, arch: nat, p: LiveProcess) {
    var regions := ParseMaps(env.line, SnapshotOf(env, arch, p).files[2].data);
    regions.Some? && LoadsOf(regions.value) == None
  }

  lemma ShapedArch(p: LiveProcess, arch: nat)
    requires p.Shaped(arch)
    ensures arch < ARCH_MAX
  {}

  /** The sections after LOADS. */
  method Finish(env: Env, out: L.Writer, arch: nat, ghost s: Snapshot, ghost regions: seq<Region>, ghost page: nat,
                phdrs: seq<Phdr>, ghost chunks: seq<seq<byte>>, ghost i1: seq<Item>, ghost i2: seq<Item>)
      returns (ok: bool, ghost cap: Capture)
    requires out.Valid() && out.checked && out.codec == env.codec && arch < ARCH_MAX
    requires Sealed(out.State(), i2 + W.Pieces(0, 0, LOADS, chunks))
    requires i1 == [Raw(FileHeader(VERSION, arch))] + ProcessItems(VERSION, s)
    requires i2 == i1 + ThreadsItems(VERSION, arch, s.threads)
    requires Ready(env, arch, s, regions, page)
    requires Positive(regions) && LoadsFrom(regions, 0) == Some((phdrs, |Flatten(chunks)|))
    requires forall i :: 0 <= i < |chunks| ==> 1 <= |chunks[i]| <= BLOCK_SIZE
    modifies out.Repr()
    ensures out.Valid()
    ensures out.open == old(out.open) && out.checked
    ensures ok ==> CaptureOk(env, cap) && cap.snapshot == s && cap.regions == regions && cap.chunks == chunks
    ensures ok ==> cap.version == VERSION && cap.arch == arch
    ensures ok ==> Sealed(out.State(), ArchiveItems(cap)) && FormatOf(env, cap) == out.Fmt()
    ensures ok ==> out.out.content == StreamBytes(FormatOf(env, cap), [], ArchiveItems(cap))
    ensures !ok ==> !out.open || out.out.error
  {
    hide StreamBytes, DictAfter, History, Codec.Lawful, CaptureOk, FormatOf, ArchiveItems,
         Flatten, W.Pieces, W.SetBlock, Payloads, ProcessItems, ThreadsItems, FileHeader, Pack, LoadsFrom, Positive,
         GroupsOk, ElfRecs, Ready;
    ReadyFacts(env, arch, s, regions, page);
    ghost var i3 := i2 + W.Pieces(0, 0, LOADS, chunks);
    ghost var groups;
    cap := Capture(VERSION, arch, s, regions, page, chunks, []);
    ok, groups := WriteElfHeader(out, arch, phdrs, i3);
    if !ok { return; }
    ghost var i4 := i3 + W.Pieces(0, 0, ELF, Payloads(groups));
    ok := WriteTailMark(out, i4);
    if !ok { return; }
    cap := Capture(VERSION, arch, s, regions, page, chunks, groups);
    DumpItems(cap, i1, i2, i3, i4);
    DumpOk(env, cap, phdrs);
  }
}
