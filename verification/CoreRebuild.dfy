/** The read side of an acore as one function of its bytes: header, metadata, LOADS, ELF headers, tail
    mark and physical end, and the core file they produce. */
module CoreRebuild {
  import opened Bytes
  import opened Lz4Codec
  import opened BlockStream
  import opened ProcFiles
  import opened Archive
  import opened Maps
  import opened Notes
  import opened ElfLayout

  const INT_MAX: nat := 0x7fff_ffff
  const MAGIC: seq<byte> := [65, 82, 84, 72, 85, 82]

  /** The conversions of captured text and registers, as given. */
  datatype Env = Env(
    codec: Codec,
    line: seq<byte> -> Option<Region>,          // one maps line
    cmdlineOk: seq<byte> -> bool,
    auxv: seq<byte> -> Option<nat>,             // AT_PAGESZ
    statPid: seq<byte> -> Option<nat>,
    credentials: seq<byte> -> Option<(nat, nat)>,   // status: real uid and gid
    masks: seq<byte> -> Option<(nat, nat)>,         // status: pending and blocked signals
    prpsinfo: Meta -> Option<seq<byte>>,
    prstatus: (nat, ThreadData) -> Option<seq<byte>>)

  // ---------------------------------------------------------------- file header

  function FileHeader(version: nat, arch: nat): seq<byte> {
    MAGIC + ToLE(version % 4096 + 4096 * (arch % 16), 2)
  }

  /** Version and architecture, and the position behind the header. */
  function VerifyFileHeader(c: Cursor): Option<(nat, nat, Cursor)> {
    match ReadRaw(c, 6)
    case None => None
    case Some((magic, c1)) =>
      if magic != MAGIC then None
      else
        match ReadRaw(c1, 2)
        case None => None
        case Some((m, c2)) =>
          var version, arch := FromLE(m) % 4096, FromLE(m) / 4096;
          if version < MIN_VERSION || version > VERSION || arch >= ARCH_MAX then None
          else Some((version, arch, c2))
  }

  // ---------------------------------------------------------------- LOADS and ELF sections

  function IsNext(c: Cursor, t: nat): bool {
    PeekHeader(c).Some? && PeekHeader(c).value.blockType == t
  }

  /** All LOADS blocks in front of the cursor, never more than `budget` bytes of them. */
  function ReadLoads(f: Format, c: Cursor, budget: nat, acc: seq<byte>): (r: Option<(seq<byte>, Cursor)>)
    ensures r.Some? ==> |r.value.1.rest| <= |c.rest|
    decreases |c.rest|
  {
    if !IsNext(c, LOADS) then Some((acc, c))
    else
      match ReadBlock(f, c)
      case Got(_, payload, next) =>
        if |acc| > budget || |payload| > budget - |acc| then None
        else ReadLoads(f, next, budget, acc + payload)
      case _ => None
  }

  /** Whole program headers, all of type PT_LOAD; `have` counts the headers already collected. */
  function ReadPhdrs(b: seq<byte>, limit: nat, have: nat): Option<seq<Phdr>>
    decreases |b|
  {
    if b == [] then Some([])
    else if have >= limit || |b| < PHDR_SIZE then None
    else
      match DecodePhdr(b[..PHDR_SIZE])
      case None => None
      case Some(p) =>
        if p.ptype != PT_LOAD then None
        else
          match ReadPhdrs(b[PHDR_SIZE..], limit, have + 1)
          case None => None
          case Some(rest) => Some([p] + rest)
  }

  function MoreElf(f: Format, c: Cursor, limit: nat, have: nat): (r: Option<(seq<Phdr>, Cursor)>)
    decreases |c.rest|
  {
    if !IsNext(c, ELF) then Some(([], c))
    else
      match ReadBlock(f, c)
      case Got(_, payload, next) =>
        (match ReadPhdrs(payload, limit, have)
         case None => None
         case Some(phdrs) =>
           match MoreElf(f, next, limit, have + |phdrs|)
           case None => None
           case Some((rest, c')) => Some((phdrs + rest, c')))
      case _ => None
  }

  function ReadElf(f: Format, arch: nat, c: Cursor, limit: nat): Option<(Ehdr, seq<Phdr>, Cursor)> {
    match ReadFirstBlock(f, c, ELF)
    case None => None
    case Some((payload, c1)) =>
      if |payload| < EHDR_SIZE then None
      else
        match DecodeEhdr(arch, payload[..EHDR_SIZE])
        case None => None
        case Some(ehdr) =>
          match ReadPhdrs(payload[EHDR_SIZE..], limit, 1)
          case None => None
          case Some(phdrs) =>
            match MoreElf(f, c1, limit, 1 + |phdrs|)
            case None => None
            case Some((rest, c2)) => Some((ehdr, phdrs + rest, c2))
  }

  // ---------------------------------------------------------------- notes

  function ThreadNotes(env: Env, arch: nat, t: ThreadData, first: bool): Option<seq<Note>> {
    match env.prstatus(arch, t)
    case None => None
    case Some(status) =>
      Some([Note(NT_PRSTATUS, status)]
           + (if t.fpValid then
                [Note(NT_FPREGSET, t.fpregs)] + (if arch == ARCH_X64 then [Note(NT_X86_XSTATE, t.xstate)] else [])
              else [])
           + (if first then [Note(NT_SIGINFO, t.siginfo)] else []))
  }

  function ThreadsNotes(env: Env, arch: nat, threads: seq<ThreadData>, first: bool): Option<seq<Note>>
    decreases threads
  {
    if threads == [] then Some([])
    else
      match ThreadNotes(env, arch, threads[0], first)
      case None => None
      case Some(notes) =>
        match ThreadsNotes(env, arch, threads[1..], false)
        case None => None
        case Some(rest) => Some(notes + rest)
  }

  /** GenerateNotes: process notes first, then each thread's, with one NT_SIGINFO. */
  function GenerateNotes(env: Env, arch: nat, meta: Meta, regions: seq<Region>, page: nat): Option<seq<Note>> {
    match env.prpsinfo(meta)
    case None => None
    case Some(info) =>
      if |meta.files| < 2 || meta.files[1].data == [] then None
      else
        match FilePayload(regions, page)
        case None => None
        case Some(files) =>
          match ThreadsNotes(env, arch, meta.threads, true)
          case None => None
          case Some(rest) =>
            var notes := [Note(NT_PRPSINFO, info), Note(NT_AUXV, meta.files[1].data), Note(NT_FILE, files)] + rest;
            if (forall n :: n in notes ==> n.Ok()) && |NotesBytes(notes)| <= INT_MAX then Some(notes) else None
  }

  // ---------------------------------------------------------------- decompress

  /** ProcessData::ParseAll: the regions and the target page size. */
  function ParseAll(env: Env, version: nat, meta: Meta): Option<(seq<Region>, nat)> {
    if |meta.files| != |FileTypes(version)| then None
    else
      match ParseMaps(env.line, meta.files[2].data)
      case None => None
      case Some(regions) =>
        if regions == [] || !env.cmdlineOk(meta.files[0].data) then None
        else
          match env.auxv(meta.files[1].data)
          case None => None
          case Some(page) =>
            if (version >= 6 && env.statPid(meta.files[6].data) != Some(meta.files[6].pid))
               || (exists t :: t in meta.threads && env.statPid(t.stat.data) != Some(t.tid)) then None
            else Some((regions, page))
  }

  /** The core, with the headers it carries. */
  datatype Core = Core(ehdr: Ehdr, phdrs: seq<Phdr>, notes: seq<Note>, loads: seq<byte>) {
    function OffsetLoad(): nat {
      Room(|phdrs|) + |NotesBytes(notes)|
    }

    function File(): seq<byte> {
      CoreFile(ehdr, phdrs, NotesBytes(notes), loads)
    }
  }

  function NotePhdr(phnum: nat, notes: seq<Note>): Phdr {
    Phdr(PT_NOTE, 0, Room(phnum), 0, 0, |NotesBytes(notes)|, 0, 0)
  }

  /** What is known before the LOADS section is read. */
  datatype Prefix = Prefix(format: Format, arch: nat, loads: seq<Phdr>, total: nat, notes: seq<Note>, next: Cursor)

  function LoadsOf(regions: seq<Region>): Option<(seq<Phdr>, nat)> {
    if forall i :: 0 <= i < |regions| ==> regions[i].start < regions[i].end then LoadsFrom(regions, 0) else None
  }

  function ReadPrefix(env: Env, file: seq<byte>): Option<Prefix> {
    match VerifyFileHeader(Cursor(file, []))
    case None => None
    case Some((version, arch, c1)) =>
      var f := Format(env.codec, version >= 4);
      match ReadMeta(f, version, arch, c1)
      case None => None
      case Some((meta, c2)) =>
        match ParseAll(env, version, meta)
        case None => None
        case Some((regions, page)) =>
          match LoadsOf(regions)
          case None => None
          case Some((loads, total)) =>
            if loads == [] || |loads| + 1 >= PN_XNUM then None
            else
              match GenerateNotes(env, arch, meta, regions, page)
              case None => None
              case Some(notes) => Some(Prefix(f, arch, loads, total, notes, c2))
  }

  /** LOADS, ELF headers, the checks between them, the tail mark and the physical end of file. */
  function ReadBody(p: Prefix): Option<Core> {
    match ReadLoads(p.format, p.next, p.total, [])
    case None => None
    case Some((bytes, c3)) =>
      match ReadElf(p.format, p.arch, c3, |p.loads| + 1)
      case None => None
      case Some((ehdr, phdrs, c4)) =>
        var all := [NotePhdr(|p.loads| + 1, p.notes)] + phdrs;
        var core := Core(Ehdr(ehdr.machine, |all|), all, p.notes, bytes);
        if phdrs != p.loads || ehdr.phnum != |p.loads| || !LayoutAccepted(all, |bytes|, core.OffsetLoad()) then None
        else if ReadBlock(p.format, c4) != Tail([]) then None
        else Some(core)
  }

  function Decompress(env: Env, file: seq<byte>): Option<Core> {
    match ReadPrefix(env, file)
    case None => None
    case Some(p) => ReadBody(p)
  }
}
