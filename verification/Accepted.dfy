/** What decompress vouches for: the metadata, mappings and headers of every archive it accepts, wherever the
    archive comes from. */
module Accepting {
  import opened Bytes
  import opened BlockStream
  import opened ProcFiles
  import opened Archive
  import opened Maps
  import opened ElfLayout
  import opened CoreRebuild

  ghost predicate ThreadSound(t: ThreadData) {
    && t.tid > 0 && t.stat.pid == t.tid && t.stat.fileType == TYPE_STAT
    && |t.siginfo| == SIGINFO_SIZE && 0 <= Signed32(FromLE(t.siginfo[..4])) < NSIG
  }

  ghost predicate Distinct(threads: seq<ThreadData>) {
    forall i, j :: 0 <= i < j < |threads| ==> threads[i].tid != threads[j].tid
  }

  /** As many threads as announced, each with a stat of its own, no TID twice; the files of the version, of this
      process; a crash signal that dumps core, raised in the first thread; and before version 6 the leader is
      among the threads. */
  ghost predicate MetaSound(env: Env, version: nat, meta: Meta) {
    var p := meta.process;
    && 0 < Signed32(p.pid) && 1 <= |meta.threads| == p.threadNum <= MAX_THREADS
    && Distinct(meta.threads)
    && (forall t :: t in meta.threads ==> ThreadSound(t) && env.statPid(t.stat.data) == Some(t.tid))
    && FilesMatch(meta.files, FileTypes(version), p.pid)
    && (p.crashSig == 0 || IsCoreDumpSignal(p.crashSig)) && (version < 5 ==> p.crashSig == 0)
    && (p.crashSig != 0 ==> Signed32(FromLE(meta.threads[0].siginfo[..4])) == p.crashSig)
    && (version < 6 ==> exists t :: t in meta.threads && t.tid == p.pid)
    && (version >= 6 ==> env.statPid(meta.files[6].data) == Some(meta.files[6].pid))
  }

  lemma DecodeSound(version: nat, arch: nat, first: bool, crashSig: int, payload: seq<byte>, stat: ProcFile)
    requires DecodeThread(version, arch, first, crashSig, payload, stat).Some?
    ensures var t := DecodeThread(version, arch, first, crashSig, payload, stat).value;
      && ThreadSound(t)
      && (version >= 5 && crashSig != 0 && first ==> Signed32(FromLE(t.siginfo[..4])) == crashSig)
  {
    hide Cut, FromLE, ThreadWidths;
  }

  lemma {:induction false} ReadThreadsSound(f: Format, version: nat, arch: nat, crashSig: int, c: Cursor, n: nat,
                                            seen: set<nat>, first: bool, cost: nat)
    requires ReadThreads(f, version, arch, crashSig, c, n, seen, first, cost).Some?
    ensures var threads := ReadThreads(f, version, arch, crashSig, c, n, seen, first, cost).value.0;
      && |threads| == n && Distinct(threads)
      && (forall i :: 0 <= i < n ==> ThreadSound(threads[i]) && threads[i].tid !in seen)
      && (version >= 5 && crashSig != 0 && first && n > 0 ==>
            Signed32(FromLE(threads[0].siginfo[..4])) == crashSig)
    decreases n
  {
    hide ReadFirstBlock, GetFile, DecodeThread, ThreadSound;
    if n > 0 {
      var (payload, c1) := ReadFirstBlock(f, c, THREAD).value;
      var (stat, c2) := GetFile(f, c1).value;
      DecodeSound(version, arch, first, crashSig, payload, stat);
      var td := DecodeThread(version, arch, first, crashSig, payload, stat).value;
      ReadThreadsSound(f, version, arch, crashSig, c2, n - 1, seen + {td.tid}, false, cost + |payload| + Size(stat));
    }
  }

  /** The mappings and headers of an accepted core: header i + 1 is mapping i, and the LOAD ranges follow one
      another and make up exactly the LOAD bytes. */
  ghost predicate CoreSound(arch: nat, regions: seq<Region>, core: Core) {
    && regions != [] && |core.phdrs| == |regions| + 1 < PN_XNUM && core.ehdr == Ehdr(Machine(arch), |core.phdrs|)
    && Ordered(regions) && Contiguous(core.phdrs[1..], 0, |core.loads|)
    && forall i :: 0 <= i < |regions| ==>
         && regions[i].start < regions[i].end
         && core.phdrs[i + 1] == LoadPhdr(regions[i], core.phdrs[i + 1].offset)
         && core.phdrs[i + 1].offset + core.phdrs[i + 1].filesz <= |core.loads|
  }

  lemma ReadMetaSound(env: Env, f: Format, version: nat, arch: nat, c: Cursor)
    requires ReadMeta(f, version, arch, c).Some? && ParseAll(env, version, ReadMeta(f, version, arch, c).value.0).Some?
    ensures MetaSound(env, version, ReadMeta(f, version, arch, c).value.0)
  {
    hide ReadFirstBlock, ReadFiles, ReadThreads, ParseMaps, ThreadSound, Distinct;
    var (payload, c1) := ReadFirstBlock(f, c, PROCESS).value;
    ProcessSound(version, payload);
    var p := DecodeProcess(version, payload).value;
    hide DecodeProcess;
    var (files, c2) := ReadFiles(f, c1, |FileTypes(version)|).value;
    ReadThreadsSound(f, version, arch, p.crashSig, c2, p.threadNum, {}, true, 0);
    var threads := ReadThreads(f, version, arch, p.crashSig, c2, p.threadNum, {}, true, 0).value.0;
    forall t | t in threads
      ensures ThreadSound(t)
    {
      var i :| 0 <= i < |threads| && threads[i] == t;
    }
  }

  lemma ProcessSound(version: nat, payload: seq<byte>)
    requires DecodeProcess(version, payload).Some?
    ensures var p := DecodeProcess(version, payload).value;
      && 0 < Signed32(p.pid) && (p.crashSig == 0 || IsCoreDumpSignal(p.crashSig))
      && (version < 5 ==> p.crashSig == 0) && p.threadNum < U32
  {
    FlattenCut(ProcessWidths(version), payload);
    var fields := Cut(ProcessWidths(version), payload).value;
    assert ProcessWidths(version)[2] == 4;
    ToFromLE(fields[2]);
    Pow256Values();
    hide Cut, FromLE, ProcessWidths;
  }

  lemma LayoutSum(regions: seq<Region>, note: Phdr, loadsWritten: nat, offsetLoad: nat)
    requires LoadsOf(regions).Some? && note.ptype != PT_LOAD
    requires LayoutAccepted([note] + LoadsOf(regions).value.0, loadsWritten, offsetLoad)
    ensures LoadsOf(regions).value.1 == loadsWritten
  {
    var (loads, total) := LoadsFrom(regions, 0).value;
    LoadsFacts(regions, 0);
    assert ([note] + loads)[1..] == loads;
    hide LoadsFrom;
    SumAccepted(loads, loadsWritten, offsetLoad, 0, total);
  }

  lemma {:induction false} SumAccepted(phdrs: seq<Phdr>, loadsWritten: nat, offsetLoad: nat, at: nat, end: nat)
    requires Contiguous(phdrs, at, end) && forall i :: 0 <= i < |phdrs| ==> phdrs[i].ptype == PT_LOAD
    requires CheckFrom(phdrs, loadsWritten, offsetLoad, at, at).Some?
    ensures CheckFrom(phdrs, loadsWritten, offsetLoad, at, at) == Some(end)
    decreases phdrs
  {
    if phdrs != [] { SumAccepted(phdrs[1..], loadsWritten, offsetLoad, at + phdrs[0].filesz, end); }
  }

  /** Whatever decompress accepts has a known version and machine, sound metadata, and a core whose headers are
      the mappings of its maps file with exactly the bytes that were archived. */
  lemma AcceptedSound(env: Env, file: seq<byte>)
    requires Decompress(env, file).Some?
    ensures var head := VerifyFileHeader(Cursor(file, []));
      && head.Some? && MIN_VERSION <= head.value.0 <= VERSION && head.value.1 < ARCH_MAX
      && var (version, arch, c) := head.value;
      && var f := Format(env.codec, version >= 4);
      && ReadMeta(f, version, arch, c).Some?
      && var meta := ReadMeta(f, version, arch, c).value.0;
      && MetaSound(env, version, meta)
      && ParseMaps(env.line, meta.files[2].data).Some?
      && CoreSound(arch, ParseMaps(env.line, meta.files[2].data).value, Decompress(env, file).value)
  {
    hide VerifyFileHeader, ReadMeta, ParseAll, LoadsOf, GenerateNotes, ReadBody, MetaSound, CoreSound;
    HeaderSound(Cursor(file, []));
    var (version, arch, c) := VerifyFileHeader(Cursor(file, [])).value;
    var f := Format(env.codec, version >= 4);
    var (meta, c2) := ReadMeta(f, version, arch, c).value;
    ReadMetaSound(env, f, version, arch, c);
    ParsedMaps(env, version, meta);
    var (regions, page) := ParseAll(env, version, meta).value;
    BodySound(ReadPrefix(env, file).value, regions);
  }

  lemma HeaderSound(c: Cursor)
    ensures var head := VerifyFileHeader(c);
      head.Some? ==> MIN_VERSION <= head.value.0 <= VERSION && head.value.1 < ARCH_MAX
  {
    hide FromLE;
  }

  lemma ParsedMaps(env: Env, version: nat, meta: Meta)
    requires ParseAll(env, version, meta).Some?
    ensures |meta.files| > 2 && ParseMaps(env.line, meta.files[2].data) == Some(ParseAll(env, version, meta).value.0)
    ensures ParseAll(env, version, meta).value.0 != [] && Ordered(ParseAll(env, version, meta).value.0)
  {
    hide RegionsFrom, Ordered;
    RegionsOrdered(env.line, meta.files[2].data, 0, 0);
  }

  lemma BodySound(p: Prefix, regions: seq<Region>)
    requires LoadsOf(regions) == Some((p.loads, p.total)) && |p.loads| + 1 < PN_XNUM
    requires regions != [] && Ordered(regions)
    requires ReadBody(p).Some?
    ensures CoreSound(p.arch, regions, ReadBody(p).value)
  {
    hide ReadLoads, ReadElf, LayoutAccepted, LoadsFrom, Contiguous, Ordered, Room;
    var core := ReadBody(p).value;
    LoadsFacts(regions, 0);
    LayoutSum(regions, core.phdrs[0], |core.loads|, core.OffsetLoad());
    assert core.phdrs[1..] == p.loads;
    ElfMachine(p);
  }

  lemma ElfMachine(p: Prefix)
    requires ReadBody(p).Some?
    ensures ReadBody(p).value.ehdr == Ehdr(Machine(p.arch), |ReadBody(p).value.phdrs|)
  {
    hide ReadLoads, ReadFirstBlock, ReadPhdrs, MoreElf, LayoutAccepted, Cut, FromLE, Room;
  }
}
