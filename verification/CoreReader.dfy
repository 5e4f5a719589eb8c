/** ReadMeta, ReadLoads, ReadElfHeader and decompress over the ring-decoding reader. */
module CoreReader {
  import opened Bytes
  import opened Lz4Codec
  import opened BlockStream
  import opened ProcFiles
  import opened Archive
  import opened Notes
  import opened ElfLayout
  import opened CoreRebuild
  import R = Lz4Reader

  method FirstBlock(input: R.Reader, t: nat) returns (r: Option<seq<byte>>)
    requires input.Valid() && input.Live()
    modifies input.Repr()
    ensures input.Valid() && input.checked == old(input.checked)
    ensures match ReadFirstBlock(input.Fmt(), old(input.At()), t)
            case None => r == None
            case Some((payload, c)) => r == Some(payload) && input.Live() && input.At() == c
  {
    hide ReadBlock, RingDecoder.Holds;
    var ok, header := input.ReadBlock();
    if !ok || header.blockType != t || header.prevCont != 0 { return None; }
    r := Some(input.block);
  }

  // ---------------------------------------------------------------- metadata

  method Files(input: R.Reader, n: nat) returns (r: Option<seq<ProcFile>>)
    requires input.Valid() && input.Live()
    modifies input.Repr()
    ensures input.Valid() && input.checked == old(input.checked)
    ensures match ReadFiles(input.Fmt(), old(input.At()), n)
            case None => r == None
            case Some((files, c)) => r == Some(files) && input.Live() && input.At() == c
  {
    hide GetFile, ReadFiles, RingDecoder.Holds;
    ghost var start := input.At();
    var files: seq<ProcFile> := [];
    FilesMore([], ReadFiles(input.Fmt(), start, n));
    for i := 0 to n
      invariant input.Valid() && input.Live() && input.checked == old(input.checked)
      invariant ReadFiles(input.Fmt(), start, n) == Joined(files, ReadFiles(input.Fmt(), input.At(), n - i))
    {
      FilesNext(input.Fmt(), input.At(), n - i, files);
      var pf := input.GetFile();
      if pf.None? { return None; }
      files := files + [pf.value];
    }
    FilesEnd(input.Fmt(), input.At(), files);
    r := Some(files);
  }

  ghost function Joined<T>(a: seq<T>, r: Option<(seq<T>, Cursor)>): Option<(seq<T>, Cursor)> {
    match r case None => None case Some((b, c)) => Some((a + b, c))
  }

  lemma FilesMore<T>(a: seq<T>, r: Option<(seq<T>, Cursor)>)
    ensures a == [] ==> Joined(a, r) == r
  {
    if r.Some? && a == [] { assert a + r.value.0 == r.value.0; }
  }

  lemma JoinedTwice<T>(a: seq<T>, b: seq<T>, r: Option<(seq<T>, Cursor)>)
    ensures Joined(a, Joined(b, r)) == Joined(a + b, r)
  {
    if r.Some? { assert a + (b + r.value.0) == a + b + r.value.0; }
  }

  lemma FilesNext(f: Format, c: Cursor, n: nat, files: seq<ProcFile>)
    requires n > 0
    ensures match GetFile(f, c)
            case None => ReadFiles(f, c, n) == None
            case Some((pf, c')) => Joined(files, ReadFiles(f, c, n)) == Joined(files + [pf], ReadFiles(f, c', n - 1))
  {
    hide GetFile;
    if GetFile(f, c).Some? {
      var (pf, c') := GetFile(f, c).value;
      JoinedTwice(files, [pf], ReadFiles(f, c', n - 1));
    }
  }

  lemma FilesEnd(f: Format, c: Cursor, files: seq<ProcFile>)
    ensures Joined(files, ReadFiles(f, c, 0)) == Some((files, c))
  {
    assert files + [] == files;
  }

  method Threads(input: R.Reader, version: nat, arch: nat, crashSig: int, n: nat) returns (r: Option<seq<ThreadData>>)
    requires input.Valid() && input.Live()
    modifies input.Repr()
    ensures input.Valid() && input.checked == old(input.checked)
    ensures match ReadThreads(input.Fmt(), version, arch, crashSig, old(input.At()), n, {}, true, 0)
            case None => r == None
            case Some((threads, c)) => r == Some(threads) && input.Live() && input.At() == c
  {
    hide GetFile, ReadThreads, ReadFirstBlock, DecodeThread, RingDecoder.Holds;
    ghost var start := input.At();
    var threads: seq<ThreadData> := [];
    var seen: set<nat> := {};
    var cost: nat := 0;
    FilesMore([], ReadThreads(input.Fmt(), version, arch, crashSig, start, n, {}, true, 0));
    for i := 0 to n
      invariant input.Valid() && input.Live() && input.checked == old(input.checked)
      invariant ReadThreads(input.Fmt(), version, arch, crashSig, start, n, {}, true, 0) ==
                Joined(threads,
                  ReadThreads(input.Fmt(), version, arch, crashSig, input.At(), n - i, seen, i == 0, cost))
    {
      ThreadsNext(input.Fmt(), version, arch, crashSig, input.At(), n - i, seen, i == 0, cost, threads);
      var payload := FirstBlock(input, THREAD);
      if payload.None? { return None; }
      var stat := input.GetFile();
      if stat.None? { return None; }
      var td := DecodeThread(version, arch, i == 0, crashSig, payload.value, stat.value);
      if td.None? { return None; }
      cost := cost + |payload.value| + Size(stat.value);
      if td.value.tid in seen || cost > THREAD_META_MAX { return None; }
      seen := seen + {td.value.tid};
      threads := threads + [td.value];
    }
    ThreadsEnd(input.Fmt(), version, arch, crashSig, input.At(), seen, n == 0, cost, threads);
    r := Some(threads);
  }

  lemma ThreadsNext(f: Format, version: nat, arch: nat, crashSig: int, c: Cursor, n: nat, seen: set<nat>,
                    first: bool, cost: nat, threads: seq<ThreadData>)
    requires n > 0
    ensures match ReadFirstBlock(f, c, THREAD)
            case None => ReadThreads(f, version, arch, crashSig, c, n, seen, first, cost) == None
            case Some((payload, c1)) =>
              match GetFile(f, c1)
              case None => ReadThreads(f, version, arch, crashSig, c, n, seen, first, cost) == None
              case Some((stat, c2)) =>
                match DecodeThread(version, arch, first, crashSig, payload, stat)
                case None => ReadThreads(f, version, arch, crashSig, c, n, seen, first, cost) == None
                case Some(td) =>
                  var cost' := cost + |payload| + Size(stat);
                  if td.tid in seen || cost' > THREAD_META_MAX then
                    ReadThreads(f, version, arch, crashSig, c, n, seen, first, cost) == None
                  else
                    Joined(threads, ReadThreads(f, version, arch, crashSig, c, n, seen, first, cost)) ==
                    Joined(threads + [td],
                      ReadThreads(f, version, arch, crashSig, c2, n - 1, seen + {td.tid}, false, cost'))
  {
    hide GetFile, ReadFirstBlock, DecodeThread;
    if ReadFirstBlock(f, c, THREAD).Some? {
      var (payload, c1) := ReadFirstBlock(f, c, THREAD).value;
      if GetFile(f, c1).Some? {
        var (stat, c2) := GetFile(f, c1).value;
        var d := DecodeThread(version, arch, first, crashSig, payload, stat);
        if d.Some? {
          JoinedTwice(threads, [d.value],
                      ReadThreads(f, version, arch, crashSig, c2, n - 1, seen + {d.value.tid}, false,
                                  cost + |payload| + Size(stat)));
        }
      }
    }
  }

  lemma ThreadsEnd(f: Format, version: nat, arch: nat, crashSig: int, c: Cursor, seen: set<nat>, first: bool, cost: nat,
                   threads: seq<ThreadData>)
    ensures Joined(threads, ReadThreads(f, version, arch, crashSig, c, 0, seen, first, cost)) == Some((threads, c))
  {
    assert threads + [] == threads;
  }

  method Metadata(input: R.Reader, version: nat, arch: nat) returns (r: Option<Meta>)
    requires input.Valid() && input.Live()
    modifies input.Repr()
    ensures input.Valid() && input.checked == old(input.checked)
    ensures match ReadMeta(input.Fmt(), version, arch, old(input.At()))
            case None => r == None
            case Some((meta, c)) => r == Some(meta) && input.Live() && input.At() == c
  {
    hide ReadFirstBlock, ReadFiles, ReadThreads, DecodeProcess, FilesMatch, FileTypes, RingDecoder.Holds, Signed32;
    var payload := FirstBlock(input, PROCESS);
    if payload.None? { return None; }
    var p := DecodeProcess(version, payload.value);
    if p.None? { return None; }
    var files := Files(input, |FileTypes(version)|);
    if files.None? { return None; }
    if !FilesMatch(files.value, FileTypes(version), p.value.pid) { return None; }
    if !(0 < Signed32(p.value.threadNum) <= MAX_THREADS) { return None; }
    var threads := Threads(input, version, arch, p.value.crashSig, p.value.threadNum);
    if threads.None? { return None; }
    if version < 6 && (forall t :: t in threads.value ==> t.tid != p.value.pid) { return None; }
    r := Some(Meta(p.value, files.value, threads.value));
  }

  // ---------------------------------------------------------------- LOADS and ELF

  method Loads(input: R.Reader, budget: nat) returns (r: Option<seq<byte>>)
    requires input.Valid() && input.Live()
    modifies input.Repr()
    ensures input.Valid() && input.checked == old(input.checked)
    ensures match ReadLoads(input.Fmt(), old(input.At()), budget, [])
            case None => r == None
            case Some((bytes, c)) => r == Some(bytes) && input.Live() && input.At() == c
  {
    hide ReadBlock, ReadLoads, Unpack, RingDecoder.Holds;
    ghost var start := input.At();
    var bytes: seq<byte> := [];
    while true
      invariant input.Valid() && input.Live() && input.checked == old(input.checked)
      invariant ReadLoads(input.Fmt(), start, budget, []) == ReadLoads(input.Fmt(), input.At(), budget, bytes)
      decreases |input.file| - input.pos
    {
      LoadsUnfold(input.Fmt(), input.At(), budget, bytes);
      var head := input.Peek(3);
      if |head| != 3 { return Some(bytes); }
      if Unpack(head).blockType != LOADS { return Some(bytes); }
      var ok, header := input.ReadBlock();
      if !ok { return None; }
      if |bytes| > budget || |input.block| > budget - |bytes| { return None; }
      bytes := bytes + input.block;
    }
  }

  lemma LoadsUnfold(f: Format, c: Cursor, budget: nat, acc: seq<byte>)
    ensures |c.rest| < 3 || Unpack(c.rest[..3]).blockType != LOADS ==> ReadLoads(f, c, budget, acc) == Some((acc, c))
    ensures |c.rest| >= 3 && Unpack(c.rest[..3]).blockType == LOADS ==>
              var b := ReadBlock(f, c);
              if b.Got? then
                && |b.next.rest| < |c.rest|
                && ReadLoads(f, c, budget, acc) ==
                   (if |acc| > budget || |b.payload| > budget - |acc| then None
                     else ReadLoads(f, b.next, budget, acc + b.payload))
              else ReadLoads(f, c, budget, acc) == None
  {
    hide ReadBlock, Unpack;
  }

  /** The program headers of one block. */
  method PhdrsOf(payload: seq<byte>, limit: nat, have: nat) returns (r: Option<seq<Phdr>>)
    ensures r == ReadPhdrs(payload, limit, have)
  {
    hide DecodePhdr;
    var phdrs: seq<Phdr> := [];
    var at := 0;
    assert payload[0..] == payload;
    PhdrsMore([], ReadPhdrs(payload, limit, have));
    while at < |payload|
      invariant at <= |payload|
      invariant ReadPhdrs(payload, limit, have) == Added(phdrs, ReadPhdrs(payload[at..], limit, have + |phdrs|))
    {
      if have + |phdrs| >= limit || |payload| - at < PHDR_SIZE { return None; }
      assert payload[at..][..PHDR_SIZE] == payload[at..at + PHDR_SIZE];
      assert payload[at..][PHDR_SIZE..] == payload[at + PHDR_SIZE..];
      var p := DecodePhdr(payload[at..at + PHDR_SIZE]);
      if p.None? { return None; }
      if p.value.ptype != PT_LOAD { return None; }
      AddedTwice(phdrs, p.value, ReadPhdrs(payload[at + PHDR_SIZE..], limit, have + |phdrs| + 1));
      phdrs := phdrs + [p.value];
      at := at + PHDR_SIZE;
    }
    assert phdrs + [] == phdrs;
    r := Some(phdrs);
  }

  ghost function Added(a: seq<Phdr>, r: Option<seq<Phdr>>): Option<seq<Phdr>> {
    match r case None => None case Some(b) => Some(a + b)
  }

  lemma PhdrsMore(a: seq<Phdr>, r: Option<seq<Phdr>>)
    ensures a == [] ==> Added(a, r) == r
  {
    if r.Some? && a == [] { assert a + r.value == r.value; }
  }

  lemma AddedTwice(a: seq<Phdr>, p: Phdr, r: Option<seq<Phdr>>)
    ensures Added(a, Added([p], r)) == Added(a + [p], r)
  {
    if r.Some? { assert a + ([p] + r.value) == a + [p] + r.value; }
  }

  method ElfContinuation(input: R.Reader, limit: nat, have: nat) returns (r: Option<seq<Phdr>>)
    requires input.Valid() && input.Live()
    modifies input.Repr()
    ensures input.Valid() && input.checked == old(input.checked)
    ensures match MoreElf(input.Fmt(), old(input.At()), limit, have)
            case None => r == None
            case Some((phdrs, c)) => r == Some(phdrs) && input.Live() && input.At() == c
  {
    hide ReadBlock, MoreElf, ReadPhdrs, Unpack, RingDecoder.Holds;
    ghost var start := input.At();
    var phdrs: seq<Phdr> := [];
    FilesMore([], MoreElf(input.Fmt(), start, limit, have));
    while true
      invariant input.Valid() && input.Live() && input.checked == old(input.checked)
      invariant MoreElf(input.Fmt(), start, limit, have)
        == Joined(phdrs, MoreElf(input.Fmt(), input.At(), limit, have + |phdrs|))
      decreases |input.file| - input.pos
    {
      ElfUnfold(input.Fmt(), input.At(), limit, have + |phdrs|, phdrs);
      var head := input.Peek(3);
      if |head| != 3 { return Some(phdrs); }
      if Unpack(head).blockType != ELF { return Some(phdrs); }
      var ok, header := input.ReadBlock();
      if !ok { return None; }
      var more := PhdrsOf(input.block, limit, have + |phdrs|);
      if more.None? { return None; }
      phdrs := phdrs + more.value;
    }
  }

  lemma ElfUnfold(f: Format, c: Cursor, limit: nat, have: nat, phdrs: seq<Phdr>)
    ensures |c.rest| < 3 || Unpack(c.rest[..3]).blockType != ELF ==>
      Joined(phdrs, MoreElf(f, c, limit, have)) == Some((phdrs, c))
    ensures |c.rest| >= 3 && Unpack(c.rest[..3]).blockType == ELF ==>
              var b := ReadBlock(f, c);
              if b.Got? then
                var more := ReadPhdrs(b.payload, limit, have);
                && |b.next.rest| < |c.rest|
                && (more.None? ==> MoreElf(f, c, limit, have) == None)
                && (more.Some? ==> Joined(phdrs, MoreElf(f, c, limit, have)) ==
                                   Joined(phdrs + more.value, MoreElf(f, b.next, limit, have + |more.value|)))
              else MoreElf(f, c, limit, have) == None
  {
    hide ReadBlock, ReadPhdrs, Unpack;
    var b := ReadBlock(f, c);
    if b.Got? {
      var more := ReadPhdrs(b.payload, limit, have);
      if more.Some? { JoinedTwice(phdrs, more.value, MoreElf(f, b.next, limit, have + |more.value|)); }
    }
    assert phdrs + [] == phdrs;
  }

  method ElfHeader(input: R.Reader, arch: nat, limit: nat) returns (r: Option<(Ehdr, seq<Phdr>)>)
    requires input.Valid() && input.Live()
    modifies input.Repr()
    ensures input.Valid() && input.checked == old(input.checked)
    ensures match ReadElf(input.Fmt(), arch, old(input.At()), limit)
            case None => r == None
            case Some((ehdr, phdrs, c)) => r == Some((ehdr, phdrs)) && input.Live() && input.At() == c
  {
    hide ReadFirstBlock, MoreElf, ReadPhdrs, DecodeEhdr, RingDecoder.Holds;
    var payload := FirstBlock(input, ELF);
    if payload.None? { return None; }
    if |payload.value| < EHDR_SIZE { return None; }
    var ehdr := DecodeEhdr(arch, payload.value[..EHDR_SIZE]);
    if ehdr.None? { return None; }
    var phdrs := PhdrsOf(payload.value[EHDR_SIZE..], limit, 1);
    if phdrs.None? { return None; }
    var more := ElfContinuation(input, limit, 1 + |phdrs.value|);
    if more.None? { return None; }
    r := Some((ehdr.value, phdrs.value + more.value));
  }

  // ---------------------------------------------------------------- decompress

  method FileHead(input: R.Reader) returns (r: Option<(nat, nat)>)
    requires input.Valid() && input.Live() && !input.checked
    modifies input.Repr()
    ensures input.Valid()
    ensures match VerifyFileHeader(old(input.At()))
            case None => r == None
            case Some((version, arch, c)) =>
              r == Some((version, arch)) && input.Live() && input.At() == c && input.checked == (version >= 4)
  {
    hide FromLE, RingDecoder.Holds;
    ghost var start := input.At();
    var magic := input.Fread(6);
    if |magic| != 6 || magic != MAGIC { return None; }
    assert input.At().rest == start.rest[6..];
    var m := input.Fread(2);
    if |m| != 2 { return None; }
    assert input.At().rest == start.rest[6..][2..];
    var version, arch := FromLE(m) % 4096, FromLE(m) / 4096;
    if version < MIN_VERSION || version > VERSION || arch >= ARCH_MAX { return None; }
    if version >= 4 { input.checked := true; }
    r := Some((version, arch));
  }

  /** Tail mark, then nothing: the last thing decompress asks of its input. */
  method StreamEnd(input: R.Reader) returns (ok: bool)
    requires input.Valid() && input.Live()
    modifies input.Repr()
    ensures input.checked == old(input.checked)
    ensures ok == (ReadBlock(input.Fmt(), old(input.At())) == Tail([]))
  {
    hide ReadBlock, RingDecoder.Holds;
    var got, header := input.ReadBlock();
    if got || !input.tailSeen { return false; }
    ok := input.VerifyPhysicalEof();
  }

  /** Everything decompress knows before the LOADS section. */
  method Head(env: Env, input: R.Reader) returns (r: Option<(nat, seq<Phdr>, nat, seq<Note>)>)
    requires input.Valid() && input.Live() && !input.checked && input.codec == env.codec
    requires input.At() == Cursor(input.file, [])
    modifies input.Repr()
    ensures input.Valid()
    ensures match ReadPrefix(env, input.file)
            case None => r == None
            case Some(p) =>
              && r == Some((p.arch, p.loads, p.total, p.notes))
              && input.Live() && input.At() == p.next && input.Fmt() == p.format
  {
    hide VerifyFileHeader, ReadMeta, ParseAll, LoadsOf, GenerateNotes, RingDecoder.Holds;
    var head := FileHead(input);
    if head.None? { return None; }
    var (version, arch) := head.value;
    var meta := Metadata(input, version, arch);
    if meta.None? { return None; }
    var parsed := ParseAll(env, version, meta.value);
    if parsed.None? { return None; }
    var (regions, page) := parsed.value;
    var layout := LoadsOf(regions);
    if layout.None? { return None; }
    var (expected, total) := layout.value;
    if expected == [] || |expected| + 1 >= PN_XNUM { return None; }
    var notes := GenerateNotes(env, arch, meta.value, regions, page);
    if notes.None? { return None; }
    r := Some((arch, expected, total, notes.value));
  }

  method Body(input: R.Reader, arch: nat, expected: seq<Phdr>, total: nat, notes: seq<Note>) returns (r: Option<Core>)
    requires input.Valid() && input.Live()
    modifies input.Repr()
    ensures r == ReadBody(Prefix(old(input.Fmt()), arch, expected, total, notes, old(input.At())))
  {
    hide ReadLoads, ReadElf, ReadBlock, LayoutAccepted, RingDecoder.Holds, NotePhdr, Core.OffsetLoad;
    var loads := Loads(input, total);
    if loads.None? { return None; }
    var elf := ElfHeader(input, arch, |expected| + 1);
    if elf.None? { return None; }
    var (ehdr, phdrs) := elf.value;
    var all := [NotePhdr(|expected| + 1, notes)] + phdrs;
    var core := Core(Ehdr(ehdr.machine, |all|), all, notes, loads.value);
    if phdrs != expected || ehdr.phnum != |expected| { return None; }
    var exact := CheckLayout(all, |loads.value|, core.OffsetLoad());
    if !exact { return None; }
    var ended := StreamEnd(input);
    if !ended { return None; }
    r := Some(core);
  }

  /** decompress, through the ring, computes the specification on every byte string. */
  method DecompressFile(env: Env, file: seq<byte>) returns (r: Option<Core>)
    ensures r == Decompress(env, file)
  {
    hide ReadPrefix, ReadBody, RingDecoder.Holds;
    var input := new R.Reader(env.codec, file);
    var head := Head(env, input);
    if head.None? { return None; }
    var (arch, expected, total, notes) := head.value;
    r := Body(input, arch, expected, total, notes);
  }
}
