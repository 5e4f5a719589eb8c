/** Process and thread metadata of an acore: the layouts of versions 1 to 6 and ReadMeta. */
module Archive {
  import opened Bytes
  import opened Lz4Codec
  import opened BlockStream
  import opened ProcFiles

  const ARCH_X64: nat := 0
  const ARCH_AARCH64: nat := 1
  const ARCH_MAX: nat := 2
  const MIN_VERSION: nat := 1
  const VERSION: nat := 6
  const MAX_THREADS: nat := 131072
  const THREAD_META_MAX: nat := 512 * 1024 * 1024
  const NSIG: int := 65

  // Proc file types (src/proc.h).
  const TYPE_CMDLINE: byte := 1
  const TYPE_STAT: byte := 2
  const TYPE_AUXV: byte := 4
  const TYPE_MAPS: byte := 5
  const TYPE_IO: byte := 6
  const TYPE_ENVIRON: byte := 7
  const TYPE_LIMITS: byte := 8

  function Signed32(n: nat): int {
    if n < 0x8000_0000 then n else n - U32
  }

  /** Signals whose default action dumps core, by their Linux numbers: QUIT, ILL, TRAP, ABRT, BUS,
      FPE, SEGV, XCPU, XFSZ and SYS. */
  predicate IsCoreDumpSignal(sig: int) {
    sig in {3, 4, 5, 6, 7, 8, 11, 24, 25, 31}
  }

  // ---------------------------------------------------------------- layouts

  /** pid, core pid, thread count, time, zone, uname; from version 5 uid, gid and crash signal. */
  function ProcessWidths(version: nat): seq<nat> {
    [4, 4, 4, 16, 8, 512] + (if version >= 5 then [4, 4, 4] else [])
  }

  function RegsSize(arch: nat): nat { if arch == ARCH_X64 then 216 else 272 }
  function FpRegsSize(arch: nat): nat { if arch == ARCH_X64 then 512 else 528 }
  const SIGINFO_SIZE: nat := 128
  const XSTATE_SIZE: nat := 2696

  /** tid, registers, FP registers, siginfo, XSTATE on x86-64; from version 3 the FP-valid byte and
      the two signal masks. */
  function ThreadWidths(version: nat, arch: nat): seq<nat> {
    [4, RegsSize(arch), FpRegsSize(arch), SIGINFO_SIZE]
    + (if arch == ARCH_X64 then [XSTATE_SIZE] else [])
    + (if version >= 3 then [1, 8, 8] else [])
  }

  function FileTypes(version: nat): seq<byte> {
    [TYPE_CMDLINE, TYPE_AUXV, TYPE_MAPS, TYPE_ENVIRON, TYPE_IO, TYPE_LIMITS]
    + (if version >= 6 then [TYPE_STAT] else [])
  }

  // ---------------------------------------------------------------- what is captured

  datatype Thread = Thread(tid: nat, regs: seq<byte>, fpregs: seq<byte>, siginfo: seq<byte>, xstate: seq<byte>,
                           fpValid: bool, sigpend: nat, sighold: nat, stat: ProcFile) {
    function Signo(): int {
      Signed32(FromLE(if |siginfo| >= 4 then siginfo[..4] else []))
    }

    predicate Ok(arch: nat) {
      && 0 < tid < U32
      && |regs| == RegsSize(arch) && |fpregs| == FpRegsSize(arch) && |siginfo| == SIGINFO_SIZE
      && |xstate| == (if arch == ARCH_X64 then XSTATE_SIZE else 0)
      && sigpend < U64 && sighold < U64 && 0 <= Signo() < NSIG
      && stat.Ok() && stat.fileType == TYPE_STAT && stat.pid == tid
    }
  }

  datatype Snapshot = Snapshot(pid: nat, corePid: nat, time: seq<byte>, zone: seq<byte>, uname: seq<byte>,
                               uid: nat, gid: nat, crashSig: nat, files: seq<ProcFile>, threads: seq<Thread>)

  function MetaCost(version: nat, arch: nat, threads: seq<Thread>): nat {
    if threads == [] then 0
    else |ThreadPayload(version, arch, threads[0])| + Size(threads[0].stat) + MetaCost(version, arch, threads[1..])
  }

  function Tids(threads: seq<Thread>): set<nat> {
    set t | t in threads :: t.tid
  }

  ghost predicate DistinctTids(threads: seq<Thread>) {
    forall i, j :: 0 <= i < j < |threads| ==> threads[i].tid != threads[j].tid
  }

  /** A snapshot within the reader's limits. */
  ghost predicate WellFormed(version: nat, arch: nat, s: Snapshot) {
    && MIN_VERSION <= version <= VERSION && arch < ARCH_MAX
    && 0 < s.pid < 0x8000_0000 && s.corePid < U32 && s.uid < U32 && s.gid < U32
    && |s.time| == 16 && |s.zone| == 8 && |s.uname| == 512
    && (s.crashSig == 0 || IsCoreDumpSignal(s.crashSig))
    && FilesMatch(s.files, FileTypes(version), s.pid) && (forall i :: 0 <= i < |s.files| ==> s.files[i].Ok())
    && 1 <= |s.threads| <= MAX_THREADS && DistinctTids(s.threads)
    && (forall i :: 0 <= i < |s.threads| ==> s.threads[i].Ok(arch))
    && MetaCost(version, arch, s.threads) <= THREAD_META_MAX
    && (version >= 5 && s.crashSig != 0 ==> s.threads[0].Signo() == s.crashSig)
    && (version < 6 ==> s.pid in Tids(s.threads))
  }

  function ProcessFields(version: nat, s: Snapshot): seq<seq<byte>> {
    [ToLE(s.pid, 4), ToLE(s.corePid, 4), ToLE(|s.threads|, 4), s.time, s.zone, s.uname]
    + (if version >= 5 then [ToLE(s.uid, 4), ToLE(s.gid, 4), ToLE(s.crashSig, 4)] else [])
  }

  function ThreadFields(version: nat, arch: nat, t: Thread): seq<seq<byte>> {
    [ToLE(t.tid, 4), t.regs, t.fpregs, t.siginfo]
    + (if arch == ARCH_X64 then [t.xstate] else [])
    + (if version >= 3 then [[if t.fpValid then 1 else 0], ToLE(t.sigpend, 8), ToLE(t.sighold, 8)] else [])
  }

  function ThreadPayload(version: nat, arch: nat, t: Thread): seq<byte> {
    Flatten(ThreadFields(version, arch, t))
  }

  function FilesItems(files: seq<ProcFile>): seq<Item> {
    if files == [] then [] else FileItems(files[0]) + FilesItems(files[1..])
  }

  function ThreadItems(version: nat, arch: nat, t: Thread): seq<Item> {
    [Block(0, THREAD, ThreadPayload(version, arch, t))] + FileItems(t.stat)
  }

  function ThreadsItems(version: nat, arch: nat, threads: seq<Thread>): seq<Item> {
    if threads == [] then [] else ThreadItems(version, arch, threads[0]) + ThreadsItems(version, arch, threads[1..])
  }

  function ProcessItems(version: nat, s: Snapshot): seq<Item> {
    [Block(0, PROCESS, Flatten(ProcessFields(version, s)))] + FilesItems(s.files)
  }

  function MetaItems(version: nat, arch: nat, s: Snapshot): seq<Item> {
    ProcessItems(version, s) + ThreadsItems(version, arch, s.threads)
  }

  // ---------------------------------------------------------------- what is decoded

  datatype ThreadData = ThreadData(tid: nat, regs: seq<byte>, fpregs: seq<byte>, siginfo: seq<byte>, xstate: seq<byte>,
                                   fpValid: bool, masks: Option<(nat, nat)>, prstatusSignal: int, stat: ProcFile)

  datatype Process = Process(pid: nat, corePid: nat, threadNum: nat, credentials: Option<(nat, nat)>, crashSig: int)

  datatype Meta = Meta(process: Process, files: seq<ProcFile>, threads: seq<ThreadData>)

  function ThreadOf(version: nat, crashSig: int, t: Thread): ThreadData {
    ThreadData(t.tid, t.regs, t.fpregs, t.siginfo, t.xstate,
               version < 3 || t.fpValid,
               if version >= 3 then Some((t.sigpend, t.sighold)) else None,
               if version >= 5 then crashSig else if IsCoreDumpSignal(t.Signo()) then t.Signo() else 0,
               t.stat)
  }

  function CrashSigOf(version: nat, s: Snapshot): int {
    if version >= 5 then s.crashSig else 0
  }

  /** What a reader of this version is to find. */
  function MetaOf(version: nat, s: Snapshot): Meta {
    Meta(Process(s.pid, s.corePid, |s.threads|,
                 if version >= 5 then Some((s.uid, s.gid)) else None, CrashSigOf(version, s)),
         s.files,
         seq(|s.threads|, i requires 0 <= i < |s.threads| => ThreadOf(version, CrashSigOf(version, s), s.threads[i])))
  }

  function DecodeProcess(version: nat, payload: seq<byte>): Option<Process> {
    match Cut(ProcessWidths(version), payload)
    case None => None
    case Some(fields) =>
      if |fields| != |ProcessWidths(version)| then None
      else
        var pid := FromLE(fields[0]);
        var crashSig := if version >= 5 then Signed32(FromLE(fields[8])) else 0;
        if Signed32(pid) <= 0 || (crashSig != 0 && !IsCoreDumpSignal(crashSig)) then None
        else
          Some(Process(pid, FromLE(fields[1]), FromLE(fields[2]),
                       if version >= 5 then Some((FromLE(fields[6]), FromLE(fields[7]))) else None, crashSig))
  }

  /** One THREAD payload; `stat` follows in the stream. */
  function DecodeThread(version: nat, arch: nat, first: bool, crashSig: int, payload: seq<byte>,
                        stat: ProcFile): Option<ThreadData> {
    match Cut(ThreadWidths(version, arch), payload)
    case None => None
    case Some(fields) =>
      if |fields| != |ThreadWidths(version, arch)| || |fields[3]| != SIGINFO_SIZE then None
      else
        var tid, signo := FromLE(fields[0]), Signed32(FromLE(fields[3][..4]));
        var k := if arch == ARCH_X64 then 5 else 4;
        var fv := if version >= 3 then FromLE(fields[k]) else 1;
        if fv > 1 || signo < 0 || signo >= NSIG || tid == 0
           || (version >= 5 && crashSig != 0 && first && signo != crashSig)
           || stat.fileType != TYPE_STAT || stat.pid != tid then None
        else
          Some(ThreadData(tid, fields[1], fields[2], fields[3], if arch == ARCH_X64 then fields[4] else [],
                          fv != 0,
                          if version >= 3 then Some((FromLE(fields[k + 1]), FromLE(fields[k + 2]))) else None,
                          if version >= 5 then crashSig else if IsCoreDumpSignal(signo) then signo else 0,
                          stat))
  }

  function ReadFiles(f: Format, c: Cursor, n: nat): Option<(seq<ProcFile>, Cursor)>
    decreases n
  {
    if n == 0 then Some(([], c))
    else
      match GetFile(f, c)
      case None => None
      case Some((pf, c')) =>
        match ReadFiles(f, c', n - 1)
        case None => None
        case Some((files, c'')) => Some(([pf] + files, c''))
  }

  predicate FilesMatch(files: seq<ProcFile>, types: seq<byte>, pid: nat) {
    |files| == |types| && forall i :: 0 <= i < |files| ==> files[i].fileType == types[i] && files[i].pid == pid
  }

  /** The block of the given type that starts a record: never a continuation. */
  function ReadFirstBlock(f: Format, c: Cursor, t: nat): (r: Option<(seq<byte>, Cursor)>)
    ensures r.Some? ==> |r.value.1.rest| < |c.rest|
  {
    match ReadBlock(f, c)
    case Got(h, payload, next) => if h.blockType != t || h.prevCont != 0 then None else Some((payload, next))
    case _ => None
  }

  function ReadThreads(f: Format, version: nat, arch: nat, crashSig: int, c: Cursor, n: nat, seen: set<nat>,
                       first: bool, cost: nat)
    : Option<(seq<ThreadData>, Cursor)>
    decreases n
  {
    if n == 0 then Some(([], c))
    else
      match ReadFirstBlock(f, c, THREAD)
      case None => None
      case Some((payload, c1)) =>
        match GetFile(f, c1)
        case None => None
        case Some((stat, c2)) =>
          match DecodeThread(version, arch, first, crashSig, payload, stat)
          case None => None
          case Some(td) =>
            var cost' := cost + |payload| + Size(stat);
            if td.tid in seen || cost' > THREAD_META_MAX then None
            else
              match ReadThreads(f, version, arch, crashSig, c2, n - 1, seen + {td.tid}, false, cost')
              case None => None
              case Some((rest, c3)) => Some(([td] + rest, c3))
  }

  function ReadMeta(f: Format, version: nat, arch: nat, c: Cursor): Option<(Meta, Cursor)> {
    match ReadFirstBlock(f, c, PROCESS)
    case None => None
    case Some((payload, c1)) =>
      match DecodeProcess(version, payload)
      case None => None
      case Some(p) =>
        match ReadFiles(f, c1, |FileTypes(version)|)
        case None => None
        case Some((files, c2)) =>
          if !FilesMatch(files, FileTypes(version), p.pid) || !(0 < Signed32(p.threadNum) <= MAX_THREADS) then None
          else
            match ReadThreads(f, version, arch, p.crashSig, c2, p.threadNum, {}, true, 0)
            case None => None
            case Some((threads, c3)) =>
              if version < 6 && (forall t :: t in threads ==> t.tid != p.pid) then None
              else Some((Meta(p, files, threads), c3))
  }
}
