/** ELF headers, the LOAD layout derived from maps, and the shape of the rebuilt core. */
module ElfLayout {
  import opened Bytes
  import opened Maps

  const PT_LOAD: nat := 1
  const PT_NOTE: nat := 4
  const EHDR_SIZE: nat := 64
  const PHDR_SIZE: nat := 56
  const SHDR_SIZE: nat := 64
  const ET_CORE: nat := 4
  const EM_X86_64: nat := 62
  const EM_AARCH64: nat := 183
  const SSIZE_MAX: nat := 0x7fff_ffff_ffff_ffff
  const PN_XNUM: nat := 0xffff
  const PAGE: nat := 4096

  datatype Phdr = Phdr(ptype: nat, flags: nat, offset: nat, vaddr: nat, paddr: nat, filesz: nat, memsz: nat,
                       align: nat) {
    predicate Ok() {
      && ptype < U32 && flags < U32
      && offset < U64 && vaddr < U64 && paddr < U64 && filesz < U64 && memsz < U64 && align < U64
    }
  }

  const PHDR_WIDTHS: seq<nat> := [4, 4, 8, 8, 8, 8, 8, 8]

  function PhdrFields(p: Phdr): seq<seq<byte>> {
    [ToLE(p.ptype, 4), ToLE(p.flags, 4), ToLE(p.offset, 8), ToLE(p.vaddr, 8),
     ToLE(p.paddr, 8), ToLE(p.filesz, 8), ToLE(p.memsz, 8), ToLE(p.align, 8)]
  }

  function PhdrBytes(p: Phdr): seq<byte> {
    Flatten(PhdrFields(p))
  }

  function DecodePhdr(b: seq<byte>): Option<Phdr> {
    match Cut(PHDR_WIDTHS, b)
    case None => None
    case Some(x) =>
      if |x| != 8 then None
      else
        Some(Phdr(FromLE(x[0]), FromLE(x[1]), FromLE(x[2]), FromLE(x[3]),
                  FromLE(x[4]), FromLE(x[5]), FromLE(x[6]), FromLE(x[7])))
  }

  datatype Ehdr = Ehdr(machine: nat, phnum: nat)

  const EHDR_WIDTHS: seq<nat> := [16, 2, 2, 4, 8, 8, 8, 4, 2, 2, 2, 2, 2, 2]

  /** Magic, 64-bit, little-endian, current version. */
  const IDENT: seq<byte> := [0x7f, 0x45, 0x4c, 0x46, 2, 1, 1]
  const IDENT_REST: seq<byte> := [3, 0, 0, 0, 0, 0, 0, 0, 0]

  function EhdrFields(h: Ehdr): seq<seq<byte>> {
    [IDENT + IDENT_REST, ToLE(ET_CORE, 2), ToLE(h.machine, 2), ToLE(1, 4), ToLE(0, 8), ToLE(EHDR_SIZE, 8), ToLE(0, 8),
     ToLE(0, 4), ToLE(EHDR_SIZE, 2), ToLE(PHDR_SIZE, 2), ToLE(h.phnum, 2), ToLE(SHDR_SIZE, 2), ToLE(0, 2), ToLE(0, 2)]
  }

  function EhdrBytes(h: Ehdr): seq<byte> {
    Flatten(EhdrFields(h))
  }

  function Machine(arch: nat): nat {
    if arch == 0 then EM_X86_64 else EM_AARCH64
  }

  /** The checks ReadElfHeader makes on the embedded header. */
  function DecodeEhdr(arch: nat, b: seq<byte>): Option<Ehdr> {
    match Cut(EHDR_WIDTHS, b)
    case None => None
    case Some(x) =>
      if |x| != 14 || |x[0]| != 16 then None
      else if FromLE(x[2]) != Machine(arch) || x[0][..7] != IDENT
        || FromLE(x[1]) != ET_CORE || FromLE(x[3]) != 1 || FromLE(x[5]) != EHDR_SIZE || FromLE(x[8]) != EHDR_SIZE
        || FromLE(x[9]) != PHDR_SIZE || FromLE(x[6]) != 0 || FromLE(x[12]) != 0 then None
      else Some(Ehdr(FromLE(x[2]), FromLE(x[10])))
  }

  lemma FieldsFit(p: Phdr, h: Ehdr)
    ensures Fits(PHDR_WIDTHS, PhdrFields(p)) && Fits(EHDR_WIDTHS, EhdrFields(h))
  {
    hide ToLE;
  }

  lemma PhdrRoundTrip(p: Phdr)
    requires p.Ok()
    ensures DecodePhdr(PhdrBytes(p)) == Some(p)
  {
    hide ToLE, FromLE, Flatten, Cut;
    FieldsFit(p, Ehdr(0, 0));
    CutFlatten(PHDR_WIDTHS, PhdrFields(p));
    Pow256Values();
    FromToLE(p.ptype, 4);
    FromToLE(p.flags, 4);
    FromToLE(p.offset, 8);
    FromToLE(p.vaddr, 8);
    FromToLE(p.paddr, 8);
    FromToLE(p.filesz, 8);
    FromToLE(p.memsz, 8);
    FromToLE(p.align, 8);
  }

  lemma EhdrRoundTrip(arch: nat, h: Ehdr)
    requires h.machine == Machine(arch) && h.phnum < U16
    ensures DecodeEhdr(arch, EhdrBytes(h)) == Some(h)
  {
    hide ToLE, FromLE, Flatten, Cut;
    FieldsFit(Phdr(0, 0, 0, 0, 0, 0, 0, 0), h);
    CutFlatten(EHDR_WIDTHS, EhdrFields(h));
    Pow256Values();
    FromToLE(ET_CORE, 2);
    FromToLE(h.machine, 2);
    FromToLE(1, 4);
    FromToLE(EHDR_SIZE, 8);
    FromToLE(0, 8);
    FromToLE(EHDR_SIZE, 2);
    FromToLE(PHDR_SIZE, 2);
    FromToLE(h.phnum, 2);
    FromToLE(0, 2);
    assert (IDENT + IDENT_REST)[..7] == IDENT;
  }

  lemma HeaderSizes(p: Phdr, h: Ehdr)
    ensures |PhdrBytes(p)| == PHDR_SIZE && |EhdrBytes(h)| == EHDR_SIZE
  {
    hide ToLE, Flatten;
    FieldsFit(p, h);
    FlattenLength(PHDR_WIDTHS, PhdrFields(p));
    FlattenLength(EHDR_WIDTHS, EhdrFields(h));
    WidthSums();
  }

  lemma WidthSums()
    ensures Sum(PHDR_WIDTHS) == PHDR_SIZE && Sum(EHDR_WIDTHS) == EHDR_SIZE
  {
    hide Sum;
    var a: seq<nat>, b: seq<nat>, c: seq<nat> := [8, 8, 8, 8], [16, 2, 2, 4], [4, 2, 2, 2];
    Sum4(4, 4, 8, 8);
    Sum4(8, 8, 8, 8);
    SumConcat([4, 4, 8, 8], a);
    assert PHDR_WIDTHS == [4, 4, 8, 8] + a;
    Sum4(16, 2, 2, 4);
    Sum3(8, 8, 8);
    Sum4(4, 2, 2, 2);
    Sum3(2, 2, 2);
    SumConcat(b, [8, 8, 8]);
    SumConcat(b + [8, 8, 8], c);
    SumConcat(b + [8, 8, 8] + c, [2, 2, 2]);
    assert EHDR_WIDTHS == b + [8, 8, 8] + c + [2, 2, 2];
  }

  // ---------------------------------------------------------------- LOAD layout

  /** A mapping without any permission has no bytes in the core; every other has all of them. */
  function FileSize(r: Region): nat
    requires r.start <= r.end
  {
    if r.perms != 0 then r.end - r.start else 0
  }

  function LoadPhdr(r: Region, offset: nat): Phdr
    requires r.start <= r.end
  {
    Phdr(PT_LOAD, r.perms, offset, r.start, 0, FileSize(r), r.end - r.start, 1)
  }

  ghost predicate Positive(regions: seq<Region>) {
    forall i :: 0 <= i < |regions| ==> regions[i].start < regions[i].end
  }

  function LoadsFrom(regions: seq<Region>, total: nat): (r: Option<(seq<Phdr>, nat)>)
    requires Positive(regions)
    ensures r.Some? ==> |r.value.0| == |regions|
    decreases regions
  {
    if regions == [] then Some(([], total))
    else
      var ph := LoadPhdr(regions[0], total);
      if ph.filesz + total > SSIZE_MAX then None
      else
        match LoadsFrom(regions[1..], total + ph.filesz)
        case None => None
        case Some((rest, end)) => Some(([ph] + rest, end))
  }

  /** expected_load_phdrs. */
  method ExpectedLoads(regions: seq<Region>) returns (ok: bool, phdrs: seq<Phdr>, total: nat)
    requires Positive(regions)
    ensures match LoadsFrom(regions, 0) case None => !ok case Some((ps, n)) => ok && phdrs == ps && total == n
  {
    phdrs, total := [], 0;
    AfterNothing(LoadsFrom(regions, 0));
    for i := 0 to |regions|
      invariant total <= SSIZE_MAX && Positive(regions[i..])
      invariant LoadsFrom(regions, 0) == After(phdrs, LoadsFrom(regions[i..], total))
    {
      var r := regions[i];
      var ph := LoadPhdr(r, total);
      assert regions[i..][0] == r && regions[i..][1..] == regions[i + 1..];
      if ph.filesz > SSIZE_MAX - total { return false, phdrs, total; }
      AfterTwice(phdrs, ph, LoadsFrom(regions[i + 1..], total + ph.filesz));
      total := total + ph.filesz;
      phdrs := phdrs + [ph];
    }
    assert phdrs + [] == phdrs;
    ok := true;
  }

  ghost function After(a: seq<Phdr>, r: Option<(seq<Phdr>, nat)>): Option<(seq<Phdr>, nat)> {
    if r.None? then None else Some((a + r.value.0, r.value.1))
  }

  lemma AfterNothing(r: Option<(seq<Phdr>, nat)>)
    ensures After([], r) == r
  {
    if r.Some? { assert [] + r.value.0 == r.value.0; }
  }

  lemma AfterTwice(a: seq<Phdr>, x: Phdr, r: Option<(seq<Phdr>, nat)>)
    ensures After(a, After([x], r)) == After(a + [x], r)
  {
    if r.Some? { assert a + ([x] + r.value.0) == a + [x] + r.value.0; }
  }

  /** Each LOAD starts where the one before it ends, from `at` to `end`. */
  ghost predicate Contiguous(phdrs: seq<Phdr>, at: nat, end: nat)
    decreases phdrs
  {
    if phdrs == [] then at == end
    else phdrs[0].offset == at && Contiguous(phdrs[1..], at + phdrs[0].filesz, end)
  }

  lemma {:induction false} LoadsFacts(regions: seq<Region>, total: nat)
    requires Positive(regions) && LoadsFrom(regions, total).Some? && total <= SSIZE_MAX
    ensures var (phdrs, end) := LoadsFrom(regions, total).value;
            && Contiguous(phdrs, total, end) && total <= end <= SSIZE_MAX
            && forall i :: 0 <= i < |regions| ==>
                 phdrs[i] == LoadPhdr(regions[i], phdrs[i].offset) && phdrs[i].offset + phdrs[i].filesz <= end
    decreases regions
  {
    if regions != [] {
      var ph := LoadPhdr(regions[0], total);
      LoadsFacts(regions[1..], total + ph.filesz);
      var (rest, end) := LoadsFrom(regions[1..], total + ph.filesz).value;
      var phdrs := [ph] + rest;
      assert phdrs[1..] == rest;
      forall i | 0 <= i < |regions|
        ensures phdrs[i] == LoadPhdr(regions[i], phdrs[i].offset) && phdrs[i].offset + phdrs[i].filesz <= end
      {
        if i > 0 { assert phdrs[i] == rest[i - 1] && regions[i] == regions[1..][i - 1]; }
      }
    }
  }

  // ---------------------------------------------------------------- final checks of decompress

  /** Sum overflow, bounds, contiguity and relocation overflow for one header after another; the
      result is the sum of file sizes. */
  function CheckFrom(phdrs: seq<Phdr>, loadsWritten: nat, offsetLoad: nat, prevEnd: nat, sum: nat): Option<nat>
    decreases phdrs
  {
    if phdrs == [] then Some(sum)
    else
      var p := phdrs[0];
      if p.ptype != PT_LOAD then CheckFrom(phdrs[1..], loadsWritten, offsetLoad, prevEnd, sum)
      else if sum + p.filesz >= U64 then None
      else if p.offset > loadsWritten || p.filesz > loadsWritten - p.offset then None
      else if p.offset != prevEnd || p.offset + p.filesz >= U64 then None
      else if offsetLoad > U64 - 1 - p.offset then None
      else CheckFrom(phdrs[1..], loadsWritten, offsetLoad, p.offset + p.filesz, sum + p.filesz)
  }

  predicate LayoutAccepted(phdrs: seq<Phdr>, loadsWritten: nat, offsetLoad: nat) {
    CheckFrom(phdrs, loadsWritten, offsetLoad, 0, 0) == Some(loadsWritten)
  }

  method CheckLayout(phdrs: seq<Phdr>, loadsWritten: nat, offsetLoad: nat) returns (ok: bool)
    ensures ok == LayoutAccepted(phdrs, loadsWritten, offsetLoad)
  {
    var expected: nat, prevEnd: nat := 0, 0;
    for i := 0 to |phdrs|
      invariant CheckFrom(phdrs, loadsWritten, offsetLoad, 0, 0)
        == CheckFrom(phdrs[i..], loadsWritten, offsetLoad, prevEnd, expected)
    {
      assert phdrs[i..][0] == phdrs[i] && phdrs[i..][1..] == phdrs[i + 1..];
      var p := phdrs[i];
      if p.ptype == PT_LOAD {
        if expected + p.filesz >= U64 { return false; }
        expected := expected + p.filesz;
        if p.offset > loadsWritten || p.filesz > loadsWritten - p.offset { return false; }
        if p.offset != prevEnd || p.offset + p.filesz >= U64 { return false; }
        if offsetLoad > U64 - 1 - p.offset { return false; }
        prevEnd := p.offset + p.filesz;
      }
    }
    ok := loadsWritten == expected;
  }

  lemma {:induction false} CheckContiguous(phdrs: seq<Phdr>, loadsWritten: nat, offsetLoad: nat, at: nat, end: nat)
    requires Contiguous(phdrs, at, end) && end <= SSIZE_MAX && offsetLoad <= SSIZE_MAX
    requires forall i :: 0 <= i < |phdrs| ==> phdrs[i].ptype == PT_LOAD
    ensures at <= end
    ensures end <= loadsWritten ==> CheckFrom(phdrs, loadsWritten, offsetLoad, at, at) == Some(end)
    ensures end > loadsWritten >= at ==> CheckFrom(phdrs, loadsWritten, offsetLoad, at, at) == None
    decreases phdrs
  {
    if phdrs != [] {
      var p := phdrs[0];
      CheckContiguous(phdrs[1..], loadsWritten, offsetLoad, at + p.filesz, end);
    }
  }

  /** Once the archived LOAD headers are the ones derived from maps, the arithmetic checks accept
      exactly when as many bytes were written as the layout needs. */
  lemma LayoutExact(regions: seq<Region>, note: Phdr, loadsWritten: nat, offsetLoad: nat)
    requires Positive(regions) && LoadsFrom(regions, 0).Some? && note.ptype != PT_LOAD && offsetLoad <= SSIZE_MAX
    ensures var (loads, total) := LoadsFrom(regions, 0).value;
            LayoutAccepted([note] + loads, loadsWritten, offsetLoad) <==> loadsWritten == total
  {
    var (loads, total) := LoadsFrom(regions, 0).value;
    LoadsFacts(regions, 0);
    CheckContiguous(loads, loadsWritten, offsetLoad, 0, total);
    assert ([note] + loads)[1..] == loads;
  }

  // ---------------------------------------------------------------- file layout

  /** Room reserved for headers: at least one spare page behind them. */
  function Room(phnum: nat): (room: nat)
    ensures EHDR_SIZE + PHDR_SIZE * phnum + 1 <= room && room % PAGE == 0
  {
    (EHDR_SIZE + PHDR_SIZE * phnum + PAGE + (PAGE - 1)) / PAGE * PAGE
  }

  function Relocate(p: Phdr, offsetLoad: nat): Phdr {
    if p.ptype == PT_LOAD then p.(offset := p.offset + offsetLoad) else p
  }

  function PhdrsBytes(phdrs: seq<Phdr>, offsetLoad: nat): seq<byte> {
    if phdrs == [] then [] else PhdrBytes(Relocate(phdrs[0], offsetLoad)) + PhdrsBytes(phdrs[1..], offsetLoad)
  }

  lemma {:induction false} PhdrsBytesLength(phdrs: seq<Phdr>, offsetLoad: nat)
    ensures |PhdrsBytes(phdrs, offsetLoad)| == PHDR_SIZE * |phdrs|
  {
    hide PhdrBytes;
    if phdrs != [] {
      HeaderSizes(Relocate(phdrs[0], offsetLoad), Ehdr(0, 0));
      PhdrsBytesLength(phdrs[1..], offsetLoad);
    }
  }

  function HeaderBytes(h: Ehdr, phdrs: seq<Phdr>, offsetLoad: nat): seq<byte> {
    EhdrBytes(h) + PhdrsBytes(phdrs, offsetLoad)
  }

  /** The finished file: reserved room, notes and LOAD bytes, with the headers written over the front
      at the end. */
  function CoreFile(h: Ehdr, phdrs: seq<Phdr>, notes: seq<byte>, loads: seq<byte>): seq<byte> {
    var room := Room(|phdrs|);
    var header := HeaderBytes(h, phdrs, room + |notes|);
    var body := Zeros(room) + notes + loads;
    if |header| <= |body| then header + body[|header|..] else header
  }

  lemma FileParts(h: Ehdr, phdrs: seq<Phdr>, notes: seq<byte>, loads: seq<byte>)
    ensures var core, room := CoreFile(h, phdrs, notes, loads), Room(|phdrs|);
      var header := HeaderBytes(h, phdrs, room + |notes|);
            && |header| == EHDR_SIZE + PHDR_SIZE * |phdrs| < room
            && |core| == room + |notes| + |loads|
            && core[..|header|] == header
            && (forall i :: |header| <= i < room ==> core[i] == 0)
            && core[room..room + |notes|] == notes
            && core[room + |notes|..] == loads
  {
    hide EhdrBytes, PhdrsBytes, Room;
    var room := Room(|phdrs|);
    PhdrsBytesLength(phdrs, room + |notes|);
    HeaderSizes(Phdr(0, 0, 0, 0, 0, 0, 0, 0), h);
    var header := HeaderBytes(h, phdrs, room + |notes|);
    var zeros := Zeros(room);
    var body := zeros + notes + loads;
    var core := header + body[|header|..];
    assert core[room..room + |notes|] == body[room..room + |notes|] == notes;
    assert core[room + |notes|..] == body[room + |notes|..] == loads;
  }

  // ---------------------------------------------------------------- reading the core back

  /** Program header i of an ELF file with its headers behind the ELF header. */
  function HeaderAt(file: seq<byte>, i: nat): Option<Phdr> {
    var at := EHDR_SIZE + PHDR_SIZE * i;
    if at + PHDR_SIZE <= |file| then DecodePhdr(file[at..at + PHDR_SIZE]) else None
  }

  lemma {:induction false} PhdrsBytesAt(phdrs: seq<Phdr>, offsetLoad: nat, i: nat)
    requires i < |phdrs|
    ensures |PhdrsBytes(phdrs, offsetLoad)| >= PHDR_SIZE * i + PHDR_SIZE
    ensures var at := PHDR_SIZE * i;
      PhdrsBytes(phdrs, offsetLoad)[at..at + PHDR_SIZE] == PhdrBytes(Relocate(phdrs[i], offsetLoad))
  {
    hide PhdrBytes, Relocate, PhdrsBytes;
    TableHead(phdrs, offsetLoad);
    var head, rest := PhdrBytes(Relocate(phdrs[0], offsetLoad)), PhdrsBytes(phdrs[1..], offsetLoad);
    if i == 0 {
      assert (head + rest)[..PHDR_SIZE] == head;
    } else {
      PhdrsBytesAt(phdrs[1..], offsetLoad, i - 1);
      Shifted(head, rest, PHDR_SIZE * (i - 1), PHDR_SIZE * (i - 1) + PHDR_SIZE);
    }
  }

  lemma TableHead(phdrs: seq<Phdr>, offsetLoad: nat)
    requires phdrs != []
    ensures PhdrsBytes(phdrs, offsetLoad)
         == PhdrBytes(Relocate(phdrs[0], offsetLoad)) + PhdrsBytes(phdrs[1..], offsetLoad)
    ensures |PhdrBytes(Relocate(phdrs[0], offsetLoad))| == PHDR_SIZE
  {
    hide PhdrBytes, Relocate;
    HeaderSizes(Relocate(phdrs[0], offsetLoad), Ehdr(0, 0));
  }

  lemma Shifted(head: seq<byte>, rest: seq<byte>, from: nat, to: nat)
    requires from <= to <= |rest|
    ensures (head + rest)[|head| + from..|head| + to] == rest[from..to]
  {}

  /** What stands in the finished file: the ELF header, and every program header with the offset at which
      its bytes lie in this file, which for a LOAD header is behind the room for headers and the notes.
      Headers, notes and LOAD bytes keep to themselves, in order, up to the end of the file. */
  lemma CoreFileLayout(arch: nat, h: Ehdr, phdrs: seq<Phdr>, notes: seq<byte>, loads: seq<byte>)
    requires h.machine == Machine(arch) && h.phnum < U16
    requires forall i :: 0 <= i < |phdrs| ==> phdrs[i].Ok() && phdrs[i].offset + Room(|phdrs|) + |notes| < U64
    ensures var file := CoreFile(h, phdrs, notes, loads);
      var end, room := EHDR_SIZE + PHDR_SIZE * |phdrs|, Room(|phdrs|);
      && |file| == room + |notes| + |loads| && end < room
      && (forall i :: end <= i < room ==> file[i] == 0)
      && file[room..room + |notes|] == notes && file[room + |notes|..] == loads
      && DecodeEhdr(arch, file[..EHDR_SIZE]) == Some(h)
      && forall i :: 0 <= i < |phdrs| ==>
           && HeaderAt(file, i).Some?
           && var p := HeaderAt(file, i).value;
              && p == phdrs[i].(offset := p.offset)
              && p.offset == phdrs[i].offset + (if p.ptype == PT_LOAD then Room(|phdrs|) + |notes| else 0)
  {
    hide *;
    var at := Room(|phdrs|) + |notes|;
    var file, table := CoreFile(h, phdrs, notes, loads), PhdrsBytes(phdrs, at);
    FileParts(h, phdrs, notes, loads);
    PhdrsBytesLength(phdrs, at);
    HeaderSizes(Phdr(0, 0, 0, 0, 0, 0, 0, 0), h);
    EhdrRoundTrip(arch, h);
    HeaderParts(h, phdrs, at);
    FrontOf(file, EhdrBytes(h), table);
    forall i | 0 <= i < |phdrs|
      ensures HeaderAt(file, i).Some?
      ensures var p := HeaderAt(file, i).value;
        && p == phdrs[i].(offset := p.offset)
        && p.offset == phdrs[i].offset + (if p.ptype == PT_LOAD then at else 0)
    {
      PhdrsBytesAt(phdrs, at, i);
      Shifted(EhdrBytes(h), table, PHDR_SIZE * i, PHDR_SIZE * i + PHDR_SIZE);
      TableIn(file, EhdrBytes(h) + table, i);
      Relocated(phdrs[i], at);
    }
  }

  lemma HeaderParts(h: Ehdr, phdrs: seq<Phdr>, offsetLoad: nat)
    ensures HeaderBytes(h, phdrs, offsetLoad) == EhdrBytes(h) + PhdrsBytes(phdrs, offsetLoad)
  {}

  lemma FrontOf(file: seq<byte>, head: seq<byte>, table: seq<byte>)
    requires |file| >= |head| + |table| && file[..|head| + |table|] == head + table
    ensures file[..|head|] == head
  {
    assert file[..|head|] == file[..|head| + |table|][..|head|];
  }

  /** The header at place i of the file is the one in the table. */
  lemma TableIn(file: seq<byte>, front: seq<byte>, i: nat)
    requires EHDR_SIZE + PHDR_SIZE * i + PHDR_SIZE <= |front| <= |file| && file[..|front|] == front
    ensures var at := EHDR_SIZE + PHDR_SIZE * i; HeaderAt(file, i) == DecodePhdr(front[at..at + PHDR_SIZE])
  {
    hide DecodePhdr;
    var at := EHDR_SIZE + PHDR_SIZE * i;
    InFront(file, |front|, at, at + PHDR_SIZE);
  }

  lemma InFront(file: seq<byte>, n: nat, from: nat, to: nat)
    requires from <= to <= n <= |file|
    ensures file[..n][from..to] == file[from..to]
  {}

  lemma Relocated(p: Phdr, offsetLoad: nat)
    requires p.Ok() && p.offset + offsetLoad < U64
    ensures DecodePhdr(PhdrBytes(Relocate(p, offsetLoad)))
         == Some(p.(offset := p.offset + (if p.ptype == PT_LOAD then offsetLoad else 0)))
  {
    hide PhdrBytes, DecodePhdr;
    PhdrRoundTrip(Relocate(p, offsetLoad));
  }
}
