/** What a stopped process gives to a capture: the answers of its /proc files and of the ptrace requests on
    its threads, which of them a capture accepts, and the snapshot they make. */
module LiveTarget {
  import opened Bytes
  import opened ProcFiles
  import opened Archive
  import opened Maps
  import opened Notes
  import opened CoreRebuild

  /** Register sets, siginfo and /proc contents of a thread; None where the request or the read fails. */
  datatype LiveThread = LiveThread(
    tid: nat,
    regs: Option<seq<byte>>,
    fpregs: Option<seq<byte>>,
    siginfo: Option<seq<byte>>,
    xstate: Option<seq<byte>>,
    status: Option<seq<byte>>,
    stat: Option<seq<byte>>)
  {
    /** The C types and the kernel's signal range. */
    ghost predicate Shaped(arch: nat) {
      && tid < U32
      && (regs.Some? ==> |regs.value| == RegsSize(arch)) && (fpregs.Some? ==> |fpregs.value| == FpRegsSize(arch))
      && (siginfo.Some? ==> |siginfo.value| == SIGINFO_SIZE && 0 <= Signed32(FromLE(siginfo.value[..4])) < NSIG)
      && (xstate.Some? ==> |xstate.value| == XSTATE_SIZE)
    }
  }

  /** `files` has the seven /proc files in the order of FileTypes; `crashTid` is the thread recorded for
      `crashSig`. */
  datatype LiveProcess = LiveProcess(
    pid: nat,
    corePid: nat,
    crashSig: nat,
    crashTid: nat,
    time: Option<seq<byte>>,
    zone: seq<byte>,
    uname: Option<seq<byte>>,
    status: Option<seq<byte>>,
    files: seq<Option<seq<byte>>>,
    threads: seq<LiveThread>)
  {
    ghost predicate Shaped(arch: nat) {
      && arch < ARCH_MAX && 0 < pid < 0x8000_0000 && corePid < U32 && |threads| < U32
      && (crashSig == 0 || IsCoreDumpSignal(crashSig))
      && (time.Some? ==> |time.value| == 16) && |zone| == 8 && (uname.Some? ==> |uname.value| == 512)
      && |files| == |FileTypes(VERSION)| && forall t :: t in threads ==> t.Shaped(arch)
    }
  }

  function Or(o: Option<seq<byte>>, n: nat): seq<byte> {
    if o.Some? then o.value else Zeros(n)
  }

  // ---------------------------------------------------------------- reading a /proc file

  /** What ReadPath leaves room for: the buffer without the file header and a final NUL. */
  const CAPTURE_CAP: nat := BUFFER_SIZE - HEADER_SIZE - 1

  predicate Complete(content: Option<seq<byte>>) {
    content.Some? && |content.value| <= CAPTURE_CAP
  }

  /** ProcFile::ReadPath: piece by piece up to the capacity, and a probe behind it to tell a file that just
      fits from one that does not. */
  method ReadPath(content: Option<seq<byte>>) returns (data: Option<seq<byte>>, truncated: bool)
    ensures content.None? ==> data == None
    ensures content.Some? ==>
      data == Some(content.value[..if |content.value| <= CAPTURE_CAP then |content.value| else CAPTURE_CAP])
    ensures content.Some? ==> truncated == (|content.value| > CAPTURE_CAP)
    ensures data.Some? && !truncated <==> Complete(content)
    ensures Complete(content) ==> data == content
  {
    truncated := false;
    if content.None? { return None, false; }
    var file := content.value;
    var len := 0;
    while true
      invariant len <= |file| && len <= CAPTURE_CAP
      decreases |file| - len
    {
      var left := CAPTURE_CAP - len;
      if left == 0 {
        truncated := len < |file|;
        break;
      }
      var some: int := *;
      var most := if left < 4096 then left else 4096;
      var rest := |file| - len;
      if rest == 0 { break; }
      var n := if 1 <= some <= most && some <= rest then some else 1;
      len := len + n;
    }
    data := Some(file[..len]);
    if Complete(content) { assert file[..len] == file; }
  }

  // ---------------------------------------------------------------- what a capture accepts

  /** The structural validation of one captured file. */
  predicate FileUsable(env: Env, pid: nat, t: byte, content: Option<seq<byte>>) {
    && Complete(content)
    && (t == TYPE_CMDLINE ==> env.cmdlineOk(content.value))
    && (t == TYPE_AUXV ==> env.auxv(content.value).Some? && PowerOfTwo(env.auxv(content.value).value))
    && (t == TYPE_MAPS ==> ParseMaps(env.line, content.value).Some? && ParseMaps(env.line, content.value).value != [])
    && (t == TYPE_STAT ==> env.statPid(content.value) == Some(pid))
  }

  predicate DistinctPositive(threads: seq<LiveThread>) {
    (forall i :: 0 <= i < |threads| ==> threads[i].tid > 0)
    && forall i, j :: 0 <= i < j < |threads| ==> threads[i].tid != threads[j].tid
  }

  predicate ProcessUsable(env: Env, p: LiveProcess) {
    && p.threads != [] && DistinctPositive(p.threads)
    && Complete(p.status) && env.credentials(p.status.value).Some?
    && p.time.Some? && p.uname.Some?
    && |p.files| == |FileTypes(VERSION)|
    && forall i :: 0 <= i < |p.files| ==> FileUsable(env, p.pid, FileTypes(VERSION)[i], p.files[i])
  }

  predicate ThreadUsable(env: Env, p: LiveProcess, t: LiveThread) {
    && t.regs.Some?
    && (p.crashSig != 0 && t.tid == p.crashTid ==> t.siginfo.Some?)
    && Complete(t.status) && env.masks(t.status.value).Some?
    && Complete(t.stat) && env.statPid(t.stat.value) == Some(t.tid)
  }

  predicate Usable(env: Env, p: LiveProcess) {
    ProcessUsable(env, p) && forall i :: 0 <= i < |p.threads| ==> ThreadUsable(env, p, p.threads[i])
  }

  // ---------------------------------------------------------------- the snapshot it makes

  /** A thread's record: zeroed blocks for what could not be read, and then no valid FP state. */
  function ThreadImage(env: Env, arch: nat, t: LiveThread): Thread {
    var masks := env.masks(Or(t.status, 0));
    Thread(t.tid, Or(t.regs, 0), Or(t.fpregs, FpRegsSize(arch)), Or(t.siginfo, SIGINFO_SIZE),
           if arch == ARCH_X64 then Or(t.xstate, XSTATE_SIZE) else [],
           t.fpregs.Some? && (arch == ARCH_X64 ==> t.xstate.Some?),
           if masks.Some? then masks.value.0 else 0, if masks.Some? then masks.value.1 else 0,
           ProcFile(t.tid, TYPE_STAT, Or(t.stat, 0)))
  }

  function FileImages(p: LiveProcess): (files: seq<ProcFile>)
    ensures |files| == |FileTypes(VERSION)|
  {
    seq(|FileTypes(VERSION)|, i requires 0 <= i < |FileTypes(VERSION)| =>
      ProcFile(p.pid, FileTypes(VERSION)[i], if i < |p.files| then Or(p.files[i], 0) else []))
  }

  function SnapshotOf(env: Env, arch: nat, p: LiveProcess): Snapshot {
    var ids := env.credentials(Or(p.status, 0));
    Snapshot(p.pid, p.corePid, Or(p.time, 0), p.zone, Or(p.uname, 0),
             if ids.Some? then ids.value.0 else 0, if ids.Some? then ids.value.1 else 0, p.crashSig,
             FileImages(p), seq(|p.threads|, i requires 0 <= i < |p.threads| => ThreadImage(env, arch, p.threads[i])))
  }

  /** The record of a thread, decoded, is the live thread: its own registers and siginfo or zeroes for those
      that could not be read, its FP state marked valid exactly when every part of it was read, the pending and
      blocked masks of its status file, and its own stat file. */
  ghost predicate ShowsThread(env: Env, arch: nat, crashSig: int, t: LiveThread, d: ThreadData) {
    && d.tid == t.tid && t.regs == Some(d.regs)
    && d.fpregs == (if t.fpregs.Some? then t.fpregs.value else Zeros(FpRegsSize(arch)))
    && d.siginfo == (if t.siginfo.Some? then t.siginfo.value else Zeros(SIGINFO_SIZE))
    && d.xstate == (if arch != ARCH_X64 then [] else if t.xstate.Some? then t.xstate.value else Zeros(XSTATE_SIZE))
    && (d.fpValid <==> t.fpregs.Some? && (arch == ARCH_X64 ==> t.xstate.Some?))
    && t.status.Some? && env.masks(t.status.value).Some? && d.masks == env.masks(t.status.value)
    && t.stat == Some(d.stat.data) && d.stat.pid == t.tid && d.stat.fileType == TYPE_STAT
    && d.prstatusSignal == crashSig
  }

  lemma ImageShows(env: Env, arch: nat, p: LiveProcess, t: LiveThread)
    requires ThreadUsable(env, p, t)
    ensures ShowsThread(env, arch, p.crashSig, t, ThreadOf(VERSION, p.crashSig, ThreadImage(env, arch, t)))
  {}

  /** The metadata of an archive, decoded, is the live process: its identity, credentials and crash signal, the
      complete contents of its seven /proc files, and each of its threads in order; and its PROCESS record
      holds the time, zone and uname that were read. */
  ghost predicate ShowsProcess(env: Env, arch: nat, p: LiveProcess, record: seq<byte>, meta: Meta) {
    && meta.process.pid == p.pid && meta.process.corePid == p.corePid && meta.process.crashSig == p.crashSig
    && p.status.Some? && env.credentials(p.status.value).Some?
    && meta.process.credentials == env.credentials(p.status.value)
    && |record| >= 548 && p.time == Some(record[12..28]) && p.zone == record[28..36] && p.uname == Some(record[36..548])
    && |meta.files| == |p.files| == |FileTypes(VERSION)|
    && (forall i :: 0 <= i < |p.files| ==>
          && p.files[i] == Some(meta.files[i].data)
          && meta.files[i].fileType == FileTypes(VERSION)[i] && meta.files[i].pid == p.pid)
    && meta.process.threadNum == |meta.threads| == |p.threads|
    && forall i :: 0 <= i < |p.threads| ==> ShowsThread(env, arch, p.crashSig, p.threads[i], meta.threads[i])
  }

  lemma SnapshotShows(env: Env, arch: nat, p: LiveProcess)
    requires Usable(env, p) && p.Shaped(arch)
    ensures var s := SnapshotOf(env, arch, p);
      ShowsProcess(env, arch, p, Flatten(ProcessFields(VERSION, s)), MetaOf(VERSION, s))
  {
    hide ThreadUsable, FileUsable, ShowsThread, ThreadImage, ThreadOf, Flatten, ProcessFields;
    var s := SnapshotOf(env, arch, p);
    RecordParts(s);
    forall i | 0 <= i < |p.threads|
      ensures ShowsThread(env, arch, p.crashSig, p.threads[i], MetaOf(VERSION, s).threads[i])
    {
      ImageShows(env, arch, p, p.threads[i]);
    }
    forall i | 0 <= i < |p.files|
      ensures p.files[i] == Some(s.files[i].data)
    {
      assert FileUsable(env, p.pid, FileTypes(VERSION)[i], p.files[i]);
      UsableFits(env, p.pid, FileTypes(VERSION)[i], p.files[i]);
    }
  }

  lemma RecordParts(s: Snapshot)
    requires |s.time| == 16 && |s.zone| == 8 && |s.uname| == 512
    ensures var record := Flatten(ProcessFields(VERSION, s));
      |record| >= 548 && record[12..28] == s.time && record[28..36] == s.zone && record[36..548] == s.uname
  {
    hide ToLE, Flatten;
    var a, b, c := ToLE(s.pid, 4), ToLE(s.corePid, 4), ToLE(|s.threads|, 4);
    var rest: seq<seq<byte>> := [ToLE(s.uid, 4), ToLE(s.gid, 4), ToLE(s.crashSig, 4)];
    var f := ProcessFields(VERSION, s);
    assert f == [a, b, c, s.time, s.zone, s.uname] + rest;
    Peel(f);
    Peel(f[1..]);
    Peel(f[2..]);
    Peel(f[3..]);
    Peel(f[4..]);
    Peel(f[5..]);
    var tail := Flatten(f[6..]);
    assert Flatten(f) == a + (b + (c + (s.time + (s.zone + (s.uname + tail)))));
  }

  lemma Peel(f: seq<seq<byte>>)
    requires f != []
    ensures Flatten(f) == f[0] + Flatten(f[1..])
  {}

  /** Status text gives numbers of their C types. */
  ghost predicate LawfulStatus(env: Env) {
    && (forall s: seq<byte> | env.credentials(s).Some? ::
          env.credentials(s).value.0 < U32 && env.credentials(s).value.1 < U32)
    && (forall s: seq<byte> | env.masks(s).Some? :: env.masks(s).value.0 < U64 && env.masks(s).value.1 < U64)
  }

  /** What only the reader limits: the number of threads and their metadata, and that a crash archive
      starts with the crashing thread. */
  predicate ReaderLimits(arch: nat, s: Snapshot) {
    && |s.threads| <= MAX_THREADS && MetaCost(VERSION, arch, s.threads) <= THREAD_META_MAX
    && (s.crashSig != 0 && s.threads != [] ==> s.threads[0].Signo() == s.crashSig)
  }

  lemma ImageOk(env: Env, arch: nat, p: LiveProcess, t: LiveThread)
    requires arch < ARCH_MAX && t.Shaped(arch) && t.tid > 0 && ThreadUsable(env, p, t) && LawfulStatus(env)
    ensures ThreadImage(env, arch, t).Ok(arch)
  {
    hide FromLE;
    if t.siginfo.None? {
      FromZeros(Zeros(SIGINFO_SIZE)[..4]);
    }
  }

  lemma {:induction false} FromZeros(s: seq<byte>)
    requires forall i :: 0 <= i < |s| ==> s[i] == 0
    ensures FromLE(s) == 0
  {
    if s != [] { FromZeros(s[1..]); }
  }

  /** A process a capture accepts makes a snapshot within the reader's limits. */
  lemma SnapshotWellFormed(env: Env, arch: nat, p: LiveProcess)
    requires p.Shaped(arch) && Usable(env, p) && LawfulStatus(env) && ReaderLimits(arch, SnapshotOf(env, arch, p))
    ensures WellFormed(VERSION, arch, SnapshotOf(env, arch, p))
  {
    hide MetaCost, Thread.Ok, Thread.Signo, ThreadImage, ThreadUsable, FileUsable;
    var s := SnapshotOf(env, arch, p);
    forall i | 0 <= i < |s.threads|
      ensures s.threads[i].Ok(arch)
    {
      assert p.threads[i] in p.threads;
      ImageOk(env, arch, p, p.threads[i]);
    }
    forall i | 0 <= i < |s.threads|
      ensures s.threads[i].tid == p.threads[i].tid
    {
      ImageTid(env, arch, p.threads[i]);
    }
    forall i | 0 <= i < |s.files|
      ensures s.files[i].Ok()
    {
      assert FileUsable(env, p.pid, FileTypes(VERSION)[i], p.files[i]);
      UsableFits(env, p.pid, FileTypes(VERSION)[i], p.files[i]);
    }
  }

  lemma ImageTid(env: Env, arch: nat, t: LiveThread)
    ensures ThreadImage(env, arch, t).tid == t.tid
  {}

  lemma UsableFits(env: Env, pid: nat, t: byte, content: Option<seq<byte>>)
    requires FileUsable(env, pid, t, content)
    ensures content.Some? && HEADER_SIZE + |content.value| <= MAX_PROC_FILE_SIZE
  {}

  /** What the capture validated is what the reader will parse. */
  lemma UsableParses(env: Env, arch: nat, p: LiveProcess)
    requires Usable(env, p)
    ensures var s := SnapshotOf(env, arch, p);
      && ParseMaps(env.line, s.files[2].data).Some? && env.auxv(s.files[1].data).Some?
      && ParseAll(env, VERSION, MetaOf(VERSION, s))
         == Some((ParseMaps(env.line, s.files[2].data).value, env.auxv(s.files[1].data).value))
  {
    hide ParseMaps, ThreadUsable, PowerOfTwo;
    var s := SnapshotOf(env, arch, p);
    var meta := MetaOf(VERSION, s);
    forall i | 0 <= i < |s.files|
      ensures FileUsable(env, p.pid, FileTypes(VERSION)[i], Some(s.files[i].data))
    {
      assert FileUsable(env, p.pid, FileTypes(VERSION)[i], p.files[i]);
    }
    assert FileUsable(env, p.pid, TYPE_CMDLINE, Some(s.files[0].data));
    assert FileUsable(env, p.pid, TYPE_AUXV, Some(s.files[1].data));
    assert FileUsable(env, p.pid, TYPE_MAPS, Some(s.files[2].data));
    assert FileUsable(env, p.pid, TYPE_STAT, Some(s.files[6].data));
    forall t | t in meta.threads
      ensures env.statPid(t.stat.data) == Some(t.tid)
    {
      var i :| 0 <= i < |meta.threads| && meta.threads[i] == t;
      StatUsable(env, arch, p, p.threads[i]);
    }
  }

  lemma StatUsable(env: Env, arch: nat, p: LiveProcess, t: LiveThread)
    requires ThreadUsable(env, p, t)
    ensures var i := ThreadImage(env, arch, t); env.statPid(i.stat.data) == Some(i.tid)
  {}

  /** The text of a captured maps file names fewer mappings than a core can have headers for. */
  lemma RegionsFit(env: Env, arch: nat, p: LiveProcess)
    requires Usable(env, p) && LawfulLine(env.line)
    requires var regions := ParseMaps(env.line, SnapshotOf(env, arch, p).files[2].data);
      regions.Some? && forall r :: r in regions.value ==> r.end <= U64 - BUFFER_SIZE
    ensures |ParseMaps(env.line, SnapshotOf(env, arch, p).files[2].data).value| < 0xFFFE
  {
    hide ParseMaps, LawfulLine, ThreadUsable;
    assert FileUsable(env, p.pid, FileTypes(VERSION)[2], p.files[2]);
    MapsFitHeaders(env.line, SnapshotOf(env, arch, p).files[2].data);
  }
}
