/** A whole acore as its writer lays it out, and what decompress makes of it. */
module RoundTrip {
  import opened Bytes
  import opened Lz4Codec
  import opened BlockStream
  import opened ProcFiles
  import opened Archive
  import opened ArchiveProofs
  import opened Maps
  import opened Notes
  import opened ElfLayout
  import opened CoreRebuild
  import opened CoreProofs
  import W = WriterState

  // ---------------------------------------------------------------- ELF section

  function PhdrRecs(phdrs: seq<Phdr>): (r: seq<seq<byte>>)
    ensures |r| == |phdrs|
  {
    seq(|phdrs|, i requires 0 <= i < |phdrs| => PhdrBytes(phdrs[i]))
  }

  /** The records WriteElfHeader writes: the ELF header, then each program header. */
  function ElfRecs(h: Ehdr, phdrs: seq<Phdr>): seq<seq<byte>> {
    [EhdrBytes(h)] + PhdrRecs(phdrs)
  }

  lemma {:induction false} ReadPhdrsWritten(phdrs: seq<Phdr>, limit: nat, have: nat)
    requires have + |phdrs| <= limit
    requires forall i :: 0 <= i < |phdrs| ==> phdrs[i].Ok() && phdrs[i].ptype == PT_LOAD
    ensures ReadPhdrs(Flatten(PhdrRecs(phdrs)), limit, have) == Some(phdrs)
    decreases phdrs
  {
    hide PhdrBytes, DecodePhdr, Phdr.Ok, Flatten, ReadPhdrs;
    RecsHead(phdrs);
    if phdrs == [] {
      NoPhdrs(limit, have);
    } else {
      PhdrRoundTrip(phdrs[0]);
      ReadPhdrsWritten(phdrs[1..], limit, have + 1);
      PhdrsNext(phdrs[0], Flatten(PhdrRecs(phdrs[1..])), limit, have);
      assert [phdrs[0]] + phdrs[1..] == phdrs;
    }
  }

  lemma RecsHead(phdrs: seq<Phdr>)
    ensures phdrs == [] ==> Flatten(PhdrRecs(phdrs)) == []
    ensures phdrs != [] ==> Flatten(PhdrRecs(phdrs)) == PhdrBytes(phdrs[0]) + Flatten(PhdrRecs(phdrs[1..]))
  {
    hide PhdrBytes;
    if phdrs != [] { assert PhdrRecs(phdrs)[1..] == PhdrRecs(phdrs[1..]); }
  }

  lemma NoPhdrs(limit: nat, have: nat)
    ensures ReadPhdrs([], limit, have) == Some([])
  {}

  lemma PhdrsNext(p: Phdr, rest: seq<byte>, limit: nat, have: nat)
    requires have < limit && p.ptype == PT_LOAD && DecodePhdr(PhdrBytes(p)) == Some(p)
    ensures ReadPhdrs(PhdrBytes(p) + rest, limit, have) ==
            match ReadPhdrs(rest, limit, have + 1) case None => None case Some(ps) => Some([p] + ps)
  {
    hide PhdrBytes, DecodePhdr;
    HeaderSizes(p, Ehdr(0, 0));
    var b := PhdrBytes(p) + rest;
    assert b[..PHDR_SIZE] == PhdrBytes(p) && b[PHDR_SIZE..] == rest;
  }

  /** Cutting grouped header records off the front of a header list. */
  lemma FirstGroup(groups: seq<seq<seq<byte>>>, phdrs: seq<Phdr>)
    requires groups != [] && Flatten(groups) == PhdrRecs(phdrs)
    ensures |groups[0]| <= |phdrs|
    ensures groups[0] == PhdrRecs(phdrs[..|groups[0]|])
    ensures Flatten(groups[1..]) == PhdrRecs(phdrs[|groups[0]|..])
  {
    hide PhdrBytes;
    var n := |groups[0]|;
    assert Flatten(groups) == groups[0] + Flatten(groups[1..]);
    assert PhdrRecs(phdrs)[..n] == groups[0] && PhdrRecs(phdrs)[n..] == Flatten(groups[1..]);
  }

  ghost predicate GroupsOk(groups: seq<seq<seq<byte>>>) {
    forall i :: 0 <= i < |groups| ==> 1 <= |Payloads(groups)[i]| <= BLOCK_SIZE
  }

  ghost predicate HeadersOk(phdrs: seq<Phdr>) {
    forall i :: 0 <= i < |phdrs| ==> phdrs[i].Ok() && phdrs[i].ptype == PT_LOAD
  }

  lemma {:induction false} MoreElfWritten(f: Format, dict: seq<byte>, groups: seq<seq<seq<byte>>>, phdrs: seq<Phdr>,
                                          limit: nat, have: nat, tail: seq<byte>, history: seq<byte>)
    requires f.codec.Lawful() && EndsWith(history, dict) && GroupsOk(groups) && HeadersOk(phdrs)
    requires Flatten(groups) == PhdrRecs(phdrs) && have + |phdrs| <= limit && !IsNext(Cursor(tail, []), ELF)
    ensures var items := W.Pieces(0, 0, ELF, Payloads(groups));
            MoreElf(f, Before(f, dict, items, tail, history), limit, have) ==
            Some((phdrs, Cursor(tail, history + Flatten(Payloads(groups)))))
    decreases groups
  {
    hide *;
    if groups == [] {
      NoMoreElf(f, dict, phdrs, limit, have, tail, history);
    } else {
      var chunks := Payloads(groups);
      var items := W.Pieces(0, 0, ELF, chunks);
      var tail' := StreamBytes(f, chunks[0], items[1..]) + tail;
      GroupsHead(groups);
      ChunksHead(ELF, chunks, history);
      BeforeIs(f, dict, items, tail, history);
      BeforeIs(f, chunks[0], items[1..], tail, history + chunks[0]);
      W.StreamHead(f, dict, items, tail);
      BlockDict(dict, 0, ELF, chunks[0]);
      ReadWritten(f, dict, items[0], tail', history);
      HeaderFields(f, dict, items[0]);
      Appending(history, chunks[0]);
      FirstGroup(groups, phdrs);
      var n := |groups[0]|;
      HeadersSplit(phdrs, n);
      ReadPhdrsWritten(phdrs[..n], limit, have);
      MoreElfWritten(f, chunks[0], groups[1..], phdrs[n..], limit, have + n, tail, history + chunks[0]);
      ElfNext(f, Cursor(ItemBytes(f, dict, items[0]) + tail', history), limit, have, HeaderOf(f, dict, items[0]));
      assert phdrs[..n] + phdrs[n..] == phdrs;
    }
  }

  lemma BlockDict(dict: seq<byte>, prevCont: nat, t: nat, payload: seq<byte>)
    ensures Dict(dict, Block(prevCont, t, payload)) == payload
    ensures t < TYPE_MAX && prevCont < 2 && 1 <= |payload| <= BLOCK_SIZE ==> Block(prevCont, t, payload).Ok()
    ensures ELF < TYPE_MAX && LOADS < TYPE_MAX
  {}

  lemma GroupsHead(groups: seq<seq<seq<byte>>>)
    requires groups != [] && GroupsOk(groups)
    ensures Payloads(groups) != [] && Payloads(groups)[0] == Flatten(groups[0])
    ensures Payloads(groups)[1..] == Payloads(groups[1..])
    ensures 1 <= |Payloads(groups)[0]| <= BLOCK_SIZE && GroupsOk(groups[1..])
  {
    hide Flatten;
    var ps := Payloads(groups);
    assert ps[1..] == Payloads(groups[1..]);
    forall i | 0 <= i < |groups[1..]| ensures 1 <= |Payloads(groups[1..])[i]| <= BLOCK_SIZE {
      assert ps[1..][i] == ps[i + 1];
    }
  }

  lemma HeadersSplit(phdrs: seq<Phdr>, n: nat)
    requires HeadersOk(phdrs) && n <= |phdrs|
    ensures HeadersOk(phdrs[..n]) && HeadersOk(phdrs[n..])
    ensures forall i :: 0 <= i < n ==> phdrs[..n][i].Ok() && phdrs[..n][i].ptype == PT_LOAD
  {
    hide Phdr.Ok;
  }

  lemma NoMoreElf(f: Format, dict: seq<byte>, phdrs: seq<Phdr>, limit: nat, have: nat, tail: seq<byte>,
                  history: seq<byte>)
    requires Flatten<seq<byte>>([]) == PhdrRecs(phdrs) && !IsNext(Cursor(tail, []), ELF)
    ensures MoreElf(f, Before(f, dict, W.Pieces(0, 0, ELF, Payloads([])), tail, history), limit, have)
         == Some((phdrs, Cursor(tail, history + Flatten(Payloads([])))))
  {
    hide IsNext;
    NoItems(f, dict, tail);
    NoChunks([], history);
    NextIgnoresHistory(tail, [], history, ELF);
  }

  lemma ElfNext(f: Format, c: Cursor, limit: nat, have: nat, h: BlockHeader)
    requires PeekHeader(c) == Some(h) && h.blockType == ELF && ReadBlock(f, c).Got?
    requires ReadPhdrs(ReadBlock(f, c).payload, limit, have).Some?
    requires var phdrs := ReadPhdrs(ReadBlock(f, c).payload, limit, have).value;
             MoreElf(f, ReadBlock(f, c).next, limit, have + |phdrs|).Some?
    ensures var phdrs := ReadPhdrs(ReadBlock(f, c).payload, limit, have).value;
            var (rest, c') := MoreElf(f, ReadBlock(f, c).next, limit, have + |phdrs|).value;
            MoreElf(f, c, limit, have) == Some((phdrs + rest, c'))
  {
    hide ReadBlock, PeekHeader, ReadPhdrs;
  }

  /** ReadElfHeader recovers the exact header list, over as many ELF blocks as the writer needed. */
  lemma ReadElfWritten(f: Format, dict: seq<byte>, arch: nat, h: Ehdr, phdrs: seq<Phdr>, groups: seq<seq<seq<byte>>>,
                       limit: nat, tail: seq<byte>, history: seq<byte>)
    requires f.codec.Lawful() && EndsWith(history, dict) && GroupsOk(groups) && HeadersOk(phdrs)
    requires Flatten(groups) == ElfRecs(h, phdrs) && 1 + |phdrs| <= limit && !IsNext(Cursor(tail, []), ELF)
    requires forall i :: 0 <= i < |groups| ==> groups[i] != []
    requires h.machine == Machine(arch) && h.phnum < U16
    ensures var items := W.Pieces(0, 0, ELF, Payloads(groups));
            ReadElf(f, arch, Before(f, dict, items, tail, history), limit) ==
            Some((h, phdrs, Cursor(tail, history + Flatten(Payloads(groups)))))
  {
    hide *;
    ElfFirstGroup(groups, h, phdrs);
    var chunks := Payloads(groups);
    var items := W.Pieces(0, 0, ELF, chunks);
    var tail' := StreamBytes(f, chunks[0], items[1..]) + tail;
    GroupsHead(groups);
    ChunksHead(ELF, chunks, history);
    BeforeIs(f, dict, items, tail, history);
    BeforeIs(f, chunks[0], items[1..], tail, history + chunks[0]);
    W.StreamHead(f, dict, items, tail);
    BlockDict(dict, 0, ELF, chunks[0]);
    FirstBlockWritten(f, dict, ELF, chunks[0], tail', history);
    OneBlock(f, dict, ELF, chunks[0], tail', history);
    Appending(history, chunks[0]);
    var n := |groups[0]| - 1;
    HeadersSplit(phdrs, n);
    EhdrRoundTrip(arch, h);
    HeaderSizes(Phdr(0, 0, 0, 0, 0, 0, 0, 0), h);
    ReadPhdrsWritten(phdrs[..n], limit, 1);
    assert chunks[0][..EHDR_SIZE] == EhdrBytes(h) && chunks[0][EHDR_SIZE..] == Flatten(PhdrRecs(phdrs[..n]));
    MoreElfWritten(f, chunks[0], groups[1..], phdrs[n..], limit, 1 + n, tail, history + chunks[0]);
    ReadElfStep(f, arch, Before(f, dict, items, tail, history), limit);
    assert phdrs[..n] + phdrs[n..] == phdrs;
  }

  lemma OneBlock(f: Format, dict: seq<byte>, t: nat, payload: seq<byte>, tail: seq<byte>, history: seq<byte>)
    ensures Before(f, dict, [Block(0, t, payload)], tail, history)
      == Cursor(ItemBytes(f, dict, Block(0, t, payload)) + tail, history)
  {
    hide ItemBytes;
    var b := Block(0, t, payload);
    assert [b][1..] == [];
    assert StreamBytes(f, dict, [b]) == ItemBytes(f, dict, b) + [];
  }

  lemma ElfFirstGroup(groups: seq<seq<seq<byte>>>, h: Ehdr, phdrs: seq<Phdr>)
    requires Flatten(groups) == ElfRecs(h, phdrs) && forall i :: 0 <= i < |groups| ==> groups[i] != []
    ensures groups != [] && 1 <= |groups[0]| <= |phdrs| + 1
    ensures var n := |groups[0]| - 1;
            && Flatten(groups[0]) == EhdrBytes(h) + Flatten(PhdrRecs(phdrs[..n]))
            && Flatten(groups[1..]) == PhdrRecs(phdrs[n..])
  {
    hide EhdrBytes, PhdrBytes;
    var recs, g := ElfRecs(h, phdrs), groups[0];
    var n := |g| - 1;
    assert recs == g + Flatten(groups[1..]);
    assert g == recs[..n + 1] && Flatten(groups[1..]) == recs[n + 1..];
    assert g[0] == EhdrBytes(h) && g[1..] == PhdrRecs(phdrs[..n]);
    assert recs[n + 1..] == PhdrRecs(phdrs[n..]);
  }

  lemma ReadElfStep(f: Format, arch: nat, c: Cursor, limit: nat)
    requires ReadFirstBlock(f, c, ELF).Some?
    requires var (payload, c1) := ReadFirstBlock(f, c, ELF).value;
             |payload| >= EHDR_SIZE && DecodeEhdr(arch, payload[..EHDR_SIZE]).Some? &&
             ReadPhdrs(payload[EHDR_SIZE..], limit, 1).Some? &&
             var phdrs := ReadPhdrs(payload[EHDR_SIZE..], limit, 1).value;
             MoreElf(f, c1, limit, 1 + |phdrs|).Some?
    ensures var (payload, c1) := ReadFirstBlock(f, c, ELF).value;
            var phdrs := ReadPhdrs(payload[EHDR_SIZE..], limit, 1).value;
            var (rest, c2) := MoreElf(f, c1, limit, 1 + |phdrs|).value;
            ReadElf(f, arch, c, limit) == Some((DecodeEhdr(arch, payload[..EHDR_SIZE]).value, phdrs + rest, c2))
  {
    hide ReadFirstBlock, DecodeEhdr, ReadPhdrs, MoreElf;
  }

  // ---------------------------------------------------------------- the whole archive

  /** What a capture holds when its archive is complete: a well-formed snapshot whose own maps,
      auxiliary vector and stat files parse, LOAD bytes cut into blocks, and headers packed into
      blocks. */
  datatype Capture = Capture(version: nat, arch: nat, snapshot: Snapshot, regions: seq<Region>, page: nat,
                             chunks: seq<seq<byte>>, groups: seq<seq<seq<byte>>>)

  function LoadHeaders(cap: Capture): seq<Phdr> {
    match LoadsOf(cap.regions) case None => [] case Some((phdrs, _)) => phdrs
  }

  function NotesOf(env: Env, cap: Capture): seq<Note> {
    match GenerateNotes(env, cap.arch, MetaOf(cap.version, cap.snapshot), cap.regions, cap.page)
    case None => [] case Some(notes) => notes
  }

  ghost predicate CaptureOk(env: Env, cap: Capture) {
    var meta := MetaOf(cap.version, cap.snapshot);
    && env.codec.Lawful() && LawfulLine(env.line)
    && WellFormed(cap.version, cap.arch, cap.snapshot)
    && ParseAll(env, cap.version, meta) == Some((cap.regions, cap.page))
    && LoadsOf(cap.regions).Some? && |LoadHeaders(cap)| < PN_XNUM
    && GenerateNotes(env, cap.arch, meta, cap.regions, cap.page).Some?
    && (forall i :: 0 <= i < |cap.chunks| ==> 1 <= |cap.chunks[i]| <= BLOCK_SIZE)
    && |Flatten(cap.chunks)| == LoadsOf(cap.regions).value.1
    && Flatten(cap.groups) == ElfRecs(Ehdr(Machine(cap.arch), |LoadHeaders(cap)|), LoadHeaders(cap))
    && GroupsOk(cap.groups) && (forall i :: 0 <= i < |cap.groups| ==> cap.groups[i] != [])
  }

  function FormatOf(env: Env, cap: Capture): Format {
    Format(env.codec, cap.version >= 4)
  }

  function BodyItems(cap: Capture): seq<Item> {
    MetaItems(cap.version, cap.arch, cap.snapshot)
    + (W.Pieces(0, 0, LOADS, cap.chunks) + (W.Pieces(0, 0, ELF, Payloads(cap.groups)) + [Raw(Pack(TAIL_MARK))]))
  }

  /** Every item of the file, in the order the capture writes them. */
  function ArchiveItems(cap: Capture): seq<Item> {
    [Raw(FileHeader(cap.version, cap.arch))] + BodyItems(cap)
  }

  /** The core that the archive stands for. */
  function CoreOf(env: Env, cap: Capture): Core {
    var loads := LoadHeaders(cap);
    var notes := NotesOf(env, cap);
    Core(Ehdr(Machine(cap.arch), |loads| + 1), [NotePhdr(|loads| + 1, notes)] + loads, notes, Flatten(cap.chunks))
  }

  lemma HeaderRoundTrip(version: nat, arch: nat, rest: seq<byte>)
    requires MIN_VERSION <= version <= VERSION && arch < ARCH_MAX
    ensures VerifyFileHeader(Cursor(FileHeader(version, arch) + rest, [])) == Some((version, arch, Cursor(rest, [])))
  {
    hide ToLE, FromLE;
    Pow256Values();
    var m := version % 4096 + 4096 * (arch % 16);
    FromToLE(m, 2);
    var s := FileHeader(version, arch) + rest;
    assert s[..6] == MAGIC && s[6..] == ToLE(m, 2) + rest;
    assert s[6..][..2] == ToLE(m, 2) && s[6..][2..] == rest;
  }

  lemma TailFacts(f: Format, history: seq<byte>)
    ensures ReadBlock(f, Cursor(Pack(TAIL_MARK), history)) == Tail([])
    ensures !IsNext(Cursor(Pack(TAIL_MARK), []), ELF)
    ensures forall dict: seq<byte> :: StreamBytes(f, dict, [Raw(Pack(TAIL_MARK))]) == Pack(TAIL_MARK)
  {
    hide Pack, Unpack;
    UnpackPack(TAIL_MARK);
    var b := Pack(TAIL_MARK);
    assert b[..3] == b && b[3..] == [];
    forall dict: seq<byte> ensures StreamBytes(f, dict, [Raw(b)]) == b {
      assert [Raw(b)][1..] == [];
      assert StreamBytes(f, dict, [Raw(b)]) == b + [];
    }
  }

  /** ELF headers are what follows LOADS, so the LOADS section ends there. */
  lemma ElfNotLoads(f: Format, dict: seq<byte>, payload: seq<byte>, rest: seq<byte>)
    requires f.codec.Lawful() && 1 <= |payload| <= BLOCK_SIZE
    ensures !IsNext(Cursor(ItemBytes(f, dict, Block(0, ELF, payload)) + rest, []), LOADS)
  {
    hide ItemBytes, PeekHeader, ReadBlock, HeaderOf;
    var b := Block(0, ELF, payload);
    assert b.Ok();
    EmptySuffix(dict);
    ReadWritten(f, dict, b, rest, dict);
    HeaderFields(f, dict, b);
    SamePeek(ItemBytes(f, dict, b) + rest, dict, []);
  }

  lemma EmptySuffix(dict: seq<byte>)
    ensures EndsWith(dict, dict)
  {}

  lemma SamePeek(rest: seq<byte>, a: seq<byte>, b: seq<byte>)
    ensures PeekHeader(Cursor(rest, a)) == PeekHeader(Cursor(rest, b))
  {}

  /** The rebuilt core needs one program header more than the archive, for its notes, and that count
      must still be below the reserved PN_XNUM. */
  predicate Representable(cap: Capture) {
    |LoadHeaders(cap)| + 1 < PN_XNUM
  }

  lemma PrefixRead(env: Env, cap: Capture, tail: seq<byte>)
    requires CaptureOk(env, cap)
    ensures var f := FormatOf(env, cap);
            var meta := MetaItems(cap.version, cap.arch, cap.snapshot);
            var (loads, total) := LoadsOf(cap.regions).value;
            ReadPrefix(env, FileHeader(cap.version, cap.arch) + (StreamBytes(f, [], meta) + tail)) ==
            if Representable(cap) then
              Some(Prefix(f, cap.arch, loads, total, NotesOf(env, cap), Cursor(tail, History(meta))))
            else None
  {
    hide VerifyFileHeader, ReadMeta, ParseAll, GenerateNotes, WellFormed, Codec.Lawful, LawfulLine, MetaItems,
         StreamBytes, History, MetaOf, FileHeader, GroupsOk, ElfRecs;
    var f := FormatOf(env, cap);
    var meta := MetaItems(cap.version, cap.arch, cap.snapshot);
    VersionRange(cap.version, cap.arch, cap.snapshot);
    HeaderRoundTrip(cap.version, cap.arch, StreamBytes(f, [], meta) + tail);
    EmptySuffix([]);
    MetaRoundTrip(f, [], cap.version, cap.arch, cap.snapshot, tail, []);
    assert [] + History(meta) == History(meta);
    RegionsExist(env, cap.version, MetaOf(cap.version, cap.snapshot));
  }

  lemma VersionRange(version: nat, arch: nat, s: Snapshot)
    requires WellFormed(version, arch, s)
    ensures MIN_VERSION <= version <= VERSION && arch < ARCH_MAX
  {
    hide MetaCost;
  }

  lemma RegionsExist(env: Env, version: nat, meta: Meta)
    requires ParseAll(env, version, meta).Some?
    ensures ParseAll(env, version, meta).value.0 != []
    ensures |meta.files| == |FileTypes(version)| >= 6
    ensures ParseMaps(env.line, meta.files[2].data) == Some(ParseAll(env, version, meta).value.0)
  {
    hide ParseMaps;
  }

  lemma LoadHeadersOk(env: Env, cap: Capture)
    requires CaptureOk(env, cap)
    ensures HeadersOk(LoadHeaders(cap)) && Positive(cap.regions) && LoadsOf(cap.regions) == LoadsFrom(cap.regions, 0)
    ensures |LoadHeaders(cap)| == |cap.regions|
  {
    hide ParseAll, GenerateNotes, WellFormed, Codec.Lawful, LawfulLine, MetaOf, GroupsOk, ElfRecs, Contiguous,
         Region.Bounded;
    var meta := MetaOf(cap.version, cap.snapshot);
    RegionsExist(env, cap.version, meta);
    NamesClean(env.line, meta.files[2].data);
    LoadsFacts(cap.regions, 0);
    forall i | 0 <= i < |cap.regions|
      ensures LoadHeaders(cap)[i].Ok() && LoadHeaders(cap)[i].ptype == PT_LOAD
    {
      assert cap.regions[i] in cap.regions;
      PhdrFits(cap.regions[i], LoadHeaders(cap)[i].offset);
    }
  }

  lemma PhdrFits(r: Region, offset: nat)
    requires r.Bounded() && r.start <= r.end && offset <= SSIZE_MAX
    ensures LoadPhdr(r, offset).Ok() && LoadPhdr(r, offset).ptype == PT_LOAD
  {}

  lemma BodyRead(env: Env, cap: Capture, dict: seq<byte>, history: seq<byte>)
    requires CaptureOk(env, cap) && EndsWith(history, dict)
    ensures var f := FormatOf(env, cap);
            var (loads, total) := LoadsOf(cap.regions).value;
            var a, b := W.Pieces(0, 0, LOADS, cap.chunks), W.Pieces(0, 0, ELF, Payloads(cap.groups));
            var next := Before(f, dict, a + (b + [Raw(Pack(TAIL_MARK))]), [], history);
            ReadBody(Prefix(f, cap.arch, loads, total, NotesOf(env, cap), next)) == Some(CoreOf(env, cap))
  {
    hide *;
    var f := FormatOf(env, cap);
    var a, b := W.Pieces(0, 0, LOADS, cap.chunks), W.Pieces(0, 0, ELF, Payloads(cap.groups));
    var t: seq<Item> := [Raw(Pack(TAIL_MARK))];
    var loads := LoadHeaders(cap);
    CaptureFacts(env, cap);
    LoadHeadersOk(env, cap);
    Split(f, dict, a, b + t, [], history);
    var tail1 := StreamBytes(f, DictAfter(dict, a), b + t) + [];
    Split(f, DictAfter(dict, a), b, t, [], history + History(a));
    BeforeIs(f, DictAfter(dict, a), b + t, [], history + History(a));
    var tail2 := StreamBytes(f, DictAfter(DictAfter(dict, a), b), t) + [];
    TailFacts(f, history + History(a) + Flatten(Payloads(cap.groups)));
    assert tail2 == Pack(TAIL_MARK);
    BeforeIs(f, DictAfter(dict, a), b, tail2, history + History(a));
    ElfStart(f, DictAfter(dict, a), cap.groups, tail2);
    W.PiecesFacts(0, 0, LOADS, cap.chunks);
    assert [] + Flatten(cap.chunks) == Flatten(cap.chunks);
    ReadLoadsWritten(f, dict, cap.chunks, LoadsOf(cap.regions).value.1, [], tail1, history);
    ReadElfWritten(f, DictAfter(dict, a), cap.arch, Ehdr(Machine(cap.arch), |loads|), loads, cap.groups,
                   |loads| + 1, tail2, history + History(a));
    Accepted(env, cap);
    BodyStep(env, cap, Before(f, dict, a + (b + t), [], history),
             Cursor(tail1, history + Flatten(cap.chunks)),
             Cursor(tail2, history + History(a) + Flatten(Payloads(cap.groups))));
  }

  lemma CaptureFacts(env: Env, cap: Capture)
    requires CaptureOk(env, cap)
    ensures FormatOf(env, cap).codec.Lawful() && GroupsOk(cap.groups)
    ensures forall i :: 0 <= i < |cap.chunks| ==> 1 <= |cap.chunks[i]| <= BLOCK_SIZE
    ensures forall i :: 0 <= i < |cap.groups| ==> cap.groups[i] != []
    ensures LoadsOf(cap.regions).Some? && LoadsOf(cap.regions).value.0 == LoadHeaders(cap)
    ensures |Flatten(cap.chunks)| == LoadsOf(cap.regions).value.1 && |LoadHeaders(cap)| < U16
    ensures Flatten(cap.groups) == ElfRecs(Ehdr(Machine(cap.arch), |LoadHeaders(cap)|), LoadHeaders(cap))
    ensures Ehdr(Machine(cap.arch), |LoadHeaders(cap)|).machine == Machine(cap.arch) && Flatten(cap.groups) != []
  {
    hide ParseAll, GenerateNotes, WellFormed, Codec.Lawful, LawfulLine, MetaOf, GroupsOk, PhdrRecs, EhdrBytes, Flatten;
  }

  lemma ElfStart(f: Format, dict: seq<byte>, groups: seq<seq<seq<byte>>>, tail: seq<byte>)
    requires f.codec.Lawful() && GroupsOk(groups) && Flatten(groups) != []
    ensures !IsNext(Cursor(StreamBytes(f, dict, W.Pieces(0, 0, ELF, Payloads(groups))) + tail, []), LOADS)
  {
    hide ItemBytes, IsNext, StreamBytes, GroupsOk, Payloads, W.Pieces;
    GroupsHead(groups);
    var chunks := Payloads(groups);
    ChunksHead(ELF, chunks, []);
    var items := W.Pieces(0, 0, ELF, chunks);
    W.StreamHead(f, dict, items, tail);
    ElfNotLoads(f, dict, chunks[0], StreamBytes(f, Dict(dict, items[0]), items[1..]) + tail);
  }

  /** The final checks accept a complete archive. */
  lemma Accepted(env: Env, cap: Capture)
    requires CaptureOk(env, cap)
    ensures var core := CoreOf(env, cap);
            LayoutAccepted(core.phdrs, |core.loads|, core.OffsetLoad())
  {
    hide LayoutAccepted, LoadsFrom, Positive, NotesBytes, Flatten;
    CaptureFacts(env, cap);
    LoadHeadersOk(env, cap);
    var core := CoreOf(env, cap);
    NotesLimit(env, cap);
    RoomLimit(|core.phdrs|);
    LayoutExact(cap.regions, NotePhdr(|LoadHeaders(cap)| + 1, NotesOf(env, cap)), |core.loads|, core.OffsetLoad());
  }

  lemma NotesLimit(env: Env, cap: Capture)
    requires CaptureOk(env, cap)
    ensures |NotesBytes(NotesOf(env, cap))| <= INT_MAX && |LoadHeaders(cap)| < PN_XNUM
  {
    hide NotesBytes, ThreadsNotes, FilePayload, ParseAll, WellFormed, Codec.Lawful, LawfulLine, MetaOf, GroupsOk,
         ElfRecs, Flatten;
  }

  lemma RoomLimit(phnum: nat)
    requires phnum <= PN_XNUM
    ensures Room(phnum) <= 0x40_0000
  {}

  lemma BodyStep(env: Env, cap: Capture, next: Cursor, c3: Cursor, c4: Cursor)
    requires CaptureOk(env, cap)
    requires var f := FormatOf(env, cap);
             var (loads, total) := LoadsOf(cap.regions).value;
             && ReadLoads(f, next, total, []) == Some((Flatten(cap.chunks), c3))
             && ReadElf(f, cap.arch, c3, |loads| + 1) == Some((Ehdr(Machine(cap.arch), |loads|), loads, c4))
             && ReadBlock(f, c4) == Tail([])
    requires var core := CoreOf(env, cap); LayoutAccepted(core.phdrs, |core.loads|, core.OffsetLoad())
    ensures var (loads, total) := LoadsOf(cap.regions).value;
            ReadBody(Prefix(FormatOf(env, cap), cap.arch, loads, total, NotesOf(env, cap), next))
              == Some(CoreOf(env, cap))
  {
    hide ReadLoads, ReadElf, ReadBlock, LayoutAccepted, CaptureOk, NotesOf, Flatten, NotePhdr, NotesBytes, LoadsFrom;
    CaptureFacts(env, cap);
  }

  /** A complete archive, of any version and from anywhere, decompresses to exactly the captured core, if
      and only if the core's header count is representable: the guard of decompress. */
  lemma ArchiveRoundTrip(env: Env, cap: Capture)
    requires CaptureOk(env, cap)
    ensures Decompress(env, StreamBytes(FormatOf(env, cap), [], ArchiveItems(cap))) ==
            if Representable(cap) then Some(CoreOf(env, cap)) else None
  {
    hide *;
    var f := FormatOf(env, cap);
    var meta := MetaItems(cap.version, cap.arch, cap.snapshot);
    var rest := W.Pieces(0, 0, LOADS, cap.chunks)
      + (W.Pieces(0, 0, ELF, Payloads(cap.groups)) + [Raw(Pack(TAIL_MARK))]);
    ItemsAre(cap);
    ArchiveBytes(f, cap, meta + rest);
    EmptySuffix([]);
    Split(f, [], meta, rest, [], []);
    HistoryEnds([], meta, []);
    var tail := StreamBytes(f, DictAfter([], meta), rest) + [];
    BeforeIs(f, [], meta + rest, [], []);
    BeforeIs(f, [], meta, tail, []);
    BeforeIs(f, DictAfter([], meta), rest, [], History(meta));
    assert [] + History(meta) == History(meta);
    assert StreamBytes(f, [], meta + rest) + [] == StreamBytes(f, [], meta + rest);
    PrefixRead(env, cap, tail);
    BodyRead(env, cap, DictAfter([], meta), History(meta));
    DecompressStep(env, StreamBytes(f, [], ArchiveItems(cap)));
  }

  /** What a reader finds at the front of a complete archive: version and machine, and the metadata. */
  lemma ArchiveFront(env: Env, cap: Capture)
    requires CaptureOk(env, cap)
    ensures var f, s := FormatOf(env, cap), cap.snapshot;
      var head := VerifyFileHeader(Cursor(StreamBytes(f, [], ArchiveItems(cap)), []));
      && head.Some? && head.value.0 == cap.version && head.value.1 == cap.arch
      && var (_, _, c) := head.value;
      && ReadFirstBlock(f, c, PROCESS).Some?
      && ReadFirstBlock(f, c, PROCESS).value.0 == Flatten(ProcessFields(cap.version, s))
      && ReadMeta(f, cap.version, cap.arch, c).Some?
      && ReadMeta(f, cap.version, cap.arch, c).value.0 == MetaOf(cap.version, s)
  {
    hide *;
    var f, s := FormatOf(env, cap), cap.snapshot;
    var meta := MetaItems(cap.version, cap.arch, s);
    var rest := W.Pieces(0, 0, LOADS, cap.chunks)
      + (W.Pieces(0, 0, ELF, Payloads(cap.groups)) + [Raw(Pack(TAIL_MARK))]);
    CaptureFacts(env, cap);
    ItemsAre(cap);
    ArchiveBytes(f, cap, meta + rest);
    EmptySuffix([]);
    Split(f, [], meta, rest, [], []);
    var tail := StreamBytes(f, DictAfter([], meta), rest) + [];
    BeforeIs(f, [], meta + rest, [], []);
    BeforeIs(f, [], meta, tail, []);
    assert StreamBytes(f, [], meta + rest) + [] == StreamBytes(f, [], meta + rest);
    SnapshotOk(env, cap);
    VersionRange(cap.version, cap.arch, s);
    HeaderRoundTrip(cap.version, cap.arch, StreamBytes(f, [], meta) + tail);
    MetaRoundTrip(f, [], cap.version, cap.arch, s, tail, []);
    ProcessFirst(f, [], cap.version, cap.arch, s, tail, []);
  }

  lemma SnapshotOk(env: Env, cap: Capture)
    requires CaptureOk(env, cap)
    ensures WellFormed(cap.version, cap.arch, cap.snapshot)
  {
    hide WellFormed;
  }

  lemma ItemsAre(cap: Capture)
    ensures ArchiveItems(cap) == [Raw(FileHeader(cap.version, cap.arch))] +
              (MetaItems(cap.version, cap.arch, cap.snapshot)
               + (W.Pieces(0, 0, LOADS, cap.chunks)
                  + (W.Pieces(0, 0, ELF, Payloads(cap.groups)) + [Raw(Pack(TAIL_MARK))])))
  {
    hide MetaItems, W.Pieces, Payloads, Pack, FileHeader;
  }

  lemma ArchiveBytes(f: Format, cap: Capture, body: seq<Item>)
    ensures StreamBytes(f, [], [Raw(FileHeader(cap.version, cap.arch))] + body)
         == FileHeader(cap.version, cap.arch) + StreamBytes(f, [], body)
  {
    hide FileHeader;
    var items := [Raw(FileHeader(cap.version, cap.arch))] + body;
    assert items[1..] == body;
  }

  lemma DecompressStep(env: Env, file: seq<byte>)
    ensures Decompress(env, file) == if ReadPrefix(env, file).Some? then ReadBody(ReadPrefix(env, file).value) else None
  {}

  // ---------------------------------------------------------------- memory content

  /** What a debugger finds in the rebuilt core: an ELF header of its machine with a header count one above
      the number of mappings, and a program header 0 that cuts out exactly the notes. */
  lemma CoreReadable(env: Env, cap: Capture)
    requires CaptureOk(env, cap)
    ensures var core := CoreOf(env, cap); var file := core.File();
      && |file| >= EHDR_SIZE
      && DecodeEhdr(cap.arch, file[..EHDR_SIZE]) == Some(Ehdr(Machine(cap.arch), |cap.regions| + 1))
      && HeaderAt(file, 0).Some?
      && var n := HeaderAt(file, 0).value;
         && n.ptype == PT_NOTE && n.offset + n.filesz <= |file|
         && file[n.offset..n.offset + n.filesz] == NotesBytes(NotesOf(env, cap))
  {
    hide *;
    var core := CoreOf(env, cap);
    CoreReady(env, cap);
    NoteShape(env, cap);
    NotesCutOut(cap.arch, core.ehdr, core.phdrs, NotesBytes(core.notes), core.loads);
  }

  lemma NotesCutOut(arch: nat, h: Ehdr, phdrs: seq<Phdr>, notes: seq<byte>, loads: seq<byte>)
    requires h.machine == Machine(arch) && h.phnum < U16 && |phdrs| > 0
    requires forall i :: 0 <= i < |phdrs| ==> phdrs[i].Ok() && phdrs[i].offset + Room(|phdrs|) + |notes| < U64
    requires phdrs[0].ptype == PT_NOTE && phdrs[0].offset == Room(|phdrs|) && phdrs[0].filesz == |notes|
    ensures var file := CoreFile(h, phdrs, notes, loads);
      && |file| >= EHDR_SIZE && DecodeEhdr(arch, file[..EHDR_SIZE]) == Some(h)
      && HeaderAt(file, 0).Some?
      && var n := HeaderAt(file, 0).value;
         n.ptype == PT_NOTE && n.offset + n.filesz <= |file| && file[n.offset..n.offset + n.filesz] == notes
  {
    hide CoreFile, HeaderAt, DecodeEhdr, Room, Phdr.Ok;
    CoreFileLayout(arch, h, phdrs, notes, loads);
    var n := HeaderAt(CoreFile(h, phdrs, notes, loads), 0).value;
    assert n.offset == Room(|phdrs|);
  }

  /** And for each mapping a program header with its address, size and permissions, which cuts out the bytes
      captured for it; mappings without permissions take no bytes. */
  lemma MemoryContent(env: Env, cap: Capture, i: nat)
    requires CaptureOk(env, cap) && i < |cap.regions|
    ensures var core, loads, r := CoreOf(env, cap), LoadHeaders(cap), cap.regions[i];
      var file := core.File();
      && |loads| == |cap.regions| && loads[i] == LoadPhdr(r, loads[i].offset)
      && HeaderAt(file, i + 1).Some?
      && var p := HeaderAt(file, i + 1).value;
         && p.ptype == PT_LOAD && p.vaddr == r.start && p.memsz == r.end - r.start && p.flags == r.perms
         && p.filesz == (if r.perms == 0 then 0 else r.end - r.start)
         && p.offset + p.filesz <= |file| && loads[i].offset + p.filesz <= |core.loads|
         && file[p.offset..p.offset + p.filesz] == core.loads[loads[i].offset..loads[i].offset + p.filesz]
  {
    hide *;
    CaptureFacts(env, cap);
    LoadHeadersOk(env, cap);
    LoadsFacts(cap.regions, 0);
    var core := CoreOf(env, cap);
    CoreShape(env, cap, i);
    CoreReady(env, cap);
    CoreFileLayout(cap.arch, core.ehdr, core.phdrs, NotesBytes(core.notes), core.loads);
    var p := LoadHeaders(cap)[i];
    PositiveAt(cap.regions, i);
    LoadFields(cap.regions[i], p.offset);
    SliceOfTail(core.File(), core.OffsetLoad(), core.loads, p.offset, p.filesz);
  }

  /** The headers of the rebuilt core fit their fields, relocated or not. */
  lemma CoreReady(env: Env, cap: Capture)
    requires CaptureOk(env, cap)
    ensures var core := CoreOf(env, cap);
      && core.ehdr == Ehdr(Machine(cap.arch), |cap.regions| + 1) && core.ehdr.phnum < U16
      && core.File() == CoreFile(core.ehdr, core.phdrs, NotesBytes(core.notes), core.loads)
      && forall i :: 0 <= i < |core.phdrs| ==>
           core.phdrs[i].Ok() && core.phdrs[i].offset + Room(|core.phdrs|) + |NotesBytes(core.notes)| < U64
  {
    hide NotesBytes, NotesOf, CoreFile, Room, LoadsFrom, CaptureOk, Positive, LoadHeaders;
    LoadHeadersOk(env, cap);
    CaptureFacts(env, cap);
    LoadsFacts(cap.regions, 0);
    NotesLimit(env, cap);
    RoomLimit(|LoadHeaders(cap)| + 1);
    HeadersAt(LoadHeaders(cap));
  }

  lemma HeadersAt(phdrs: seq<Phdr>)
    ensures HeadersOk(phdrs) ==> forall i :: 0 <= i < |phdrs| ==> phdrs[i].Ok()
  {}

  lemma NoteShape(env: Env, cap: Capture)
    ensures var core := CoreOf(env, cap);
      && |core.phdrs| > 0 && core.notes == NotesOf(env, cap)
      && core.phdrs[0].ptype == PT_NOTE && core.phdrs[0].offset == Room(|core.phdrs|)
      && core.phdrs[0].filesz == |NotesBytes(core.notes)|
  {
    hide NotesBytes, NotesOf, Room;
  }

  lemma CoreShape(env: Env, cap: Capture, i: nat)
    requires i < |LoadHeaders(cap)|
    ensures var core := CoreOf(env, cap);
            && |core.phdrs| == |LoadHeaders(cap)| + 1 && core.phdrs[i + 1] == LoadHeaders(cap)[i]
            && core.loads == Flatten(cap.chunks)
            && core.File() == CoreFile(core.ehdr, core.phdrs, NotesBytes(core.notes), core.loads)
            && core.OffsetLoad() == Room(|core.phdrs|) + |NotesBytes(core.notes)|
  {
    hide LoadHeaders, NotesBytes, NotesOf, CoreFile, Flatten, Room, NotePhdr;
  }

  lemma PositiveAt(regions: seq<Region>, i: nat)
    requires Positive(regions) && i < |regions|
    ensures regions[i].start < regions[i].end
  {}

  lemma LoadFields(r: Region, offset: nat)
    requires r.start < r.end
    ensures var p := LoadPhdr(r, offset);
      && p.ptype == PT_LOAD && p.vaddr == r.start && p.memsz == r.end - r.start && p.flags == r.perms
      && p.offset == offset && p.filesz == (if r.perms == 0 then 0 else r.end - r.start)
  {}

  lemma SliceOfTail(file: seq<byte>, at: nat, loads: seq<byte>, k: nat, n: nat)
    requires at <= |file| && file[at..] == loads && k + n <= |loads|
    ensures at + k + n <= |file| && file[k + at..k + at + n] == loads[k..k + n]
  {
    assert file[at..][k..k + n] == file[at + k..at + k + n];
  }
}
