/** ELF notes: allocation, the note walker of the System V gABI (chapter 5, Note Section), and the
    NT_FILE payload with its decoder. */
module Notes {
  import opened Bytes
  import opened Maps

  const NT_PRSTATUS: nat := 1
  const NT_FPREGSET: nat := 2
  const NT_PRPSINFO: nat := 3
  const NT_AUXV: nat := 6
  const NT_X86_XSTATE: nat := 0x202
  const NT_FILE: nat := 0x46494c45
  const NT_SIGINFO: nat := 0x53494749

  datatype Note = Note(noteType: nat, payload: seq<byte>) {
    predicate Ok() {
      noteType < U32 && |payload| < U32
    }
  }

  const CORE_NAME: seq<byte> := [67, 79, 82, 69, 0]
  const LINUX_NAME: seq<byte> := [76, 73, 78, 85, 88, 0]

  function Name(noteType: nat): (name: seq<byte>)
    ensures |name| <= 8
  {
    if noteType == NT_X86_XSTATE then LINUX_NAME else CORE_NAME
  }

  function Align4(n: nat): nat {
    (n + 3) / 4 * 4
  }

  /** Note::allocate: a 12-byte header, an 8-byte name field, the payload, zeros up to 4. */
  function NoteBytes(note: Note): seq<byte> {
    var name := Name(note.noteType);
    ToLE(|name|, 4) + ToLE(|note.payload|, 4) + ToLE(note.noteType, 4)
    + (name + Zeros(8 - |name|))
    + (note.payload + Zeros(Align4(|note.payload|) - |note.payload|))
  }

  function NotesBytes(notes: seq<Note>): seq<byte> {
    if notes == [] then [] else NoteBytes(notes[0]) + NotesBytes(notes[1..])
  }

  // ---------------------------------------------------------------- walking

  datatype Entry = Entry(noteType: nat, name: seq<byte>, desc: seq<byte>)

  /** Entries follow each other: header, name and descriptor, the last two padded to 4 bytes. */
  function Walk(b: seq<byte>): Option<seq<Entry>>
    decreases |b|
  {
    if b == [] then Some([])
    else if |b| < 12 then None
    else
      var namesz, descsz := FromLE(b[..4]), FromLE(b[4..8]);
      var body := b[12..];
      if |body| < Align4(namesz) || |body[Align4(namesz)..]| < Align4(descsz) then None
      else
        match Walk(body[Align4(namesz)..][Align4(descsz)..])
        case None => None
        case Some(rest) =>
          Some([Entry(FromLE(b[8..12]), body[..namesz], body[Align4(namesz)..][..descsz])] + rest)
  }

  function EntryOf(note: Note): Entry {
    Entry(note.noteType, Name(note.noteType), note.payload)
  }

  function Entries(notes: seq<Note>): seq<Entry> {
    if notes == [] then [] else [EntryOf(notes[0])] + Entries(notes[1..])
  }

  lemma WalkOne(note: Note, rest: seq<byte>)
    requires note.Ok()
    ensures Walk(NoteBytes(note) + rest) ==
            match Walk(rest) case None => None case Some(es) => Some([EntryOf(note)] + es)
  {
    hide ToLE, FromLE, Zeros;
    var name := Name(note.noteType);
    var h0, h1, h2 := ToLE(|name|, 4), ToLE(|note.payload|, 4), ToLE(note.noteType, 4);
    Pow256Values();
    FromToLE(|name|, 4);
    FromToLE(|note.payload|, 4);
    FromToLE(note.noteType, 4);
    var namePart := name + Zeros(8 - |name|);
    var descPart := note.payload + Zeros(Align4(|note.payload|) - |note.payload|);
    var b := NoteBytes(note) + rest;
    assert Align4(|name|) == 8;
    assert b[..4] == h0 && b[4..8] == h1 && b[8..12] == h2;
    assert b[12..] == namePart + (descPart + rest);
    var body := b[12..];
    assert body[..|name|] == name && body[8..] == descPart + rest;
    assert (descPart + rest)[..|note.payload|] == note.payload;
    assert (descPart + rest)[|descPart|..] == rest;
  }

  /** A walker recovers exactly the generated notes and ends where they end. */
  lemma {:induction false} WalkNotes(notes: seq<Note>)
    requires forall i :: 0 <= i < |notes| ==> notes[i].Ok()
    ensures Walk(NotesBytes(notes)) == Some(Entries(notes))
    decreases notes
  {
    hide NoteBytes, EntryOf;
    if notes != [] {
      WalkOne(notes[0], NotesBytes(notes[1..]));
      WalkNotes(notes[1..]);
    }
  }

  // ---------------------------------------------------------------- NT_FILE

  predicate IsFileMapping(r: Region) {
    r.name != [] && r.inode > 0
  }

  function FileMappings(regions: seq<Region>): seq<Region> {
    if regions == [] then []
    else (if IsFileMapping(regions[0]) then [regions[0]] else []) + FileMappings(regions[1..])
  }

  function TableEntry(r: Region, page: nat): seq<byte>
    requires page > 0
  {
    ToLE(r.start, 8) + ToLE(r.end, 8) + ToLE(r.offset / page, 8)
  }

  function Table(entries: seq<Region>, page: nat): seq<byte>
    requires page > 0
  {
    if entries == [] then [] else TableEntry(entries[0], page) + Table(entries[1..], page)
  }

  function Names(entries: seq<Region>): seq<byte> {
    if entries == [] then [] else entries[0].name + [NUL] + Names(entries[1..])
  }

  predicate AllAligned(entries: seq<Region>, page: nat)
    requires page > 0
  {
    forall i :: 0 <= i < |entries| ==> entries[i].offset % page == 0
  }

  /** The page size must be a power of two: `page & (page - 1)` is zero. */
  function PowerOfTwo(page: nat): bool {
    page > 0 && (page == 1 || (page % 2 == 0 && PowerOfTwo(page / 2)))
  }

  /** Count, page size, one address triple for each mapping, then the names. */
  function FilePayload(regions: seq<Region>, page: nat): Option<seq<byte>> {
    if !PowerOfTwo(page) then None
    else
      var entries := FileMappings(regions);
      if !AllAligned(entries, page) then None
      else Some(ToLE(|entries|, 8) + ToLE(page, 8) + Table(entries, page) + Names(entries))
  }

  method CollectMappings(regions: seq<Region>) returns (entries: seq<Region>)
    ensures entries == FileMappings(regions)
  {
    entries := [];
    for i := 0 to |regions|
      invariant entries + FileMappings(regions[i..]) == FileMappings(regions)
    {
      assert regions[i..][1..] == regions[i + 1..];
      if |regions[i].name| > 0 && regions[i].inode > 0 {
        entries := entries + [regions[i]];
      }
    }
    assert entries + FileMappings(regions[|regions|..]) == entries;
  }

  method AppendTable(payload: seq<byte>, entries: seq<Region>, page: nat) returns (r: Option<seq<byte>>)
    requires page > 0
    ensures r == if AllAligned(entries, page) then Some(payload + Table(entries, page)) else None
  {
    hide TableEntry;
    var p := payload;
    for i := 0 to |entries|
      invariant p + Table(entries[i..], page) == payload + Table(entries, page)
      invariant AllAligned(entries[..i], page)
    {
      assert entries[i..][1..] == entries[i + 1..];
      if entries[i].offset % page != 0 { return None; }
      p := p + TableEntry(entries[i], page);
    }
    assert entries[..|entries|] == entries && p + Table(entries[|entries|..], page) == p;
    r := Some(p);
  }

  method AppendNames(payload: seq<byte>, entries: seq<Region>) returns (p: seq<byte>)
    ensures p == payload + Names(entries)
  {
    p := payload;
    for i := 0 to |entries|
      invariant p + Names(entries[i..]) == payload + Names(entries)
    {
      assert entries[i..][1..] == entries[i + 1..];
      p := p + (entries[i].name + [NUL]);
    }
  }

  /** Note::fill_file. */
  method FillFile(regions: seq<Region>, page: nat) returns (r: Option<seq<byte>>)
    ensures r == FilePayload(regions, page)
  {
    hide ToLE, Table, Names, FileMappings, AllAligned;
    var entries := CollectMappings(regions);
    if !PowerOfTwo(page) { return None; }
    r := AppendTable(ToLE(|entries|, 8) + ToLE(page, 8), entries, page);
    if r.None? { return; }
    var p := AppendNames(r.value, entries);
    r := Some(p);
  }

  datatype FileEntry = FileEntry(start: nat, end: nat, pages: nat, name: seq<byte>)

  /** A decoder of the format: count, page size, triples, then exactly `count` names. */
  function DecodeTable(b: seq<byte>, count: nat): Option<(seq<(nat, nat, nat)>, seq<byte>)>
    decreases count
  {
    if count == 0 then Some(([], b))
    else if |b| < 24 then None
    else
      match DecodeTable(b[24..], count - 1)
      case None => None
      case Some((rest, names)) => Some(([(FromLE(b[..8]), FromLE(b[8..16]), FromLE(b[16..24]))] + rest, names))
  }

  function NulAt(b: seq<byte>): (i: nat)
    ensures i <= |b|
  {
    if b == [] || b[0] == NUL then 0 else 1 + NulAt(b[1..])
  }

  function DecodeNames(b: seq<byte>, count: nat): Option<seq<seq<byte>>>
    decreases count
  {
    if count == 0 then if b == [] then Some([]) else None
    else
      var i := NulAt(b);
      if i == |b| then None
      else
        match DecodeNames(b[i + 1..], count - 1)
        case None => None
        case Some(rest) => Some([b[..i]] + rest)
  }

  function DecodeFilePayload(b: seq<byte>): Option<(nat, seq<FileEntry>)> {
    if |b| < 16 then None
    else
      match DecodeTable(b[16..], FromLE(b[..8]))
      case None => None
      case Some((triples, names)) =>
        match DecodeNames(names, |triples|)
        case None => None
        case Some(ns) =>
          if |ns| != |triples| then None
          else Some((FromLE(b[8..16]), Join(triples, ns)))
  }

  function Join(triples: seq<(nat, nat, nat)>, names: seq<seq<byte>>): seq<FileEntry>
    requires |triples| == |names|
  {
    if triples == [] then []
    else [FileEntry(triples[0].0, triples[0].1, triples[0].2, names[0])] + Join(triples[1..], names[1..])
  }

  function Triples(entries: seq<Region>, page: nat): (r: seq<(nat, nat, nat)>)
    requires page > 0
    ensures |r| == |entries|
  {
    if entries == [] then []
    else [(entries[0].start, entries[0].end, entries[0].offset / page)] + Triples(entries[1..], page)
  }

  function NameList(entries: seq<Region>): (r: seq<seq<byte>>)
    ensures |r| == |entries|
  {
    if entries == [] then [] else [entries[0].name] + NameList(entries[1..])
  }

  /** What a debugger should read for each mapping: addresses, offset in pages, name. */
  function FileEntries(entries: seq<Region>, page: nat): seq<FileEntry>
    requires page > 0
  {
    if entries == [] then []
    else
      var r := entries[0];
      [FileEntry(r.start, r.end, r.offset / page, r.name)] + FileEntries(entries[1..], page)
  }

  lemma {:induction false} JoinEntries(entries: seq<Region>, page: nat)
    requires page > 0
    ensures Join(Triples(entries, page), NameList(entries)) == FileEntries(entries, page)
    decreases entries
  {
    if entries != [] {
      JoinEntries(entries[1..], page);
      assert Triples(entries, page)[1..] == Triples(entries[1..], page);
      assert NameList(entries)[1..] == NameList(entries[1..]);
    }
  }

  ghost predicate Encodable(entries: seq<Region>) {
    forall r :: r in entries ==> r.Bounded() && NUL !in r.name
  }

  lemma {:induction false} TableInverts(entries: seq<Region>, page: nat, names: seq<byte>)
    requires Encodable(entries) && page > 0
    ensures DecodeTable(Table(entries, page) + names, |entries|) ==
            Some((Triples(entries, page), names))
    decreases entries
  {
    hide ToLE, FromLE;
    if entries == [] {
      assert Table(entries, page) + names == names;
    } else {
      var r := entries[0];
      assert r in entries && Encodable(entries[1..]);
      Pow256Values();
      DivBound(r.offset, page);
      FromToLE(r.start, 8);
      FromToLE(r.end, 8);
      FromToLE(r.offset / page, 8);
      TableInverts(entries[1..], page, names);
      var b := Table(entries, page) + names;
      assert b[..8] == ToLE(r.start, 8) && b[8..16] == ToLE(r.end, 8) && b[16..24] == ToLE(r.offset / page, 8);
      assert b[24..] == Table(entries[1..], page) + names;
    }
  }

  lemma DivBound(a: nat, b: nat)
    requires b > 0
    ensures a / b <= a
  {
    Times(a / b, b);
  }

  lemma {:induction false} Times(q: nat, b: nat)
    requires b > 0
    ensures b * q >= q
  {
    if q > 0 {
      Times(q - 1, b);
      assert b * q == b * (q - 1) + b;
    }
  }

  lemma {:induction false} NulAtEnd(name: seq<byte>, rest: seq<byte>)
    requires NUL !in name
    ensures NulAt(name + [NUL] + rest) == |name|
  {
    var b := name + [NUL] + rest;
    if name != [] {
      assert b[1..] == name[1..] + [NUL] + rest;
      NulAtEnd(name[1..], rest);
    }
  }

  lemma {:induction false} NamesInvert(entries: seq<Region>)
    requires Encodable(entries)
    ensures DecodeNames(Names(entries), |entries|) == Some(NameList(entries))
    decreases entries
  {
    if entries != [] {
      var r, rest := entries[0], Names(entries[1..]);
      assert r in entries && Encodable(entries[1..]);
      NulAtEnd(r.name, rest);
      NamesInvert(entries[1..]);
      assert (r.name + [NUL] + rest)[..|r.name|] == r.name;
      assert (r.name + [NUL] + rest)[|r.name| + 1..] == rest;
    }
  }

  lemma {:induction false} MappingsAreRegions(regions: seq<Region>)
    ensures |FileMappings(regions)| <= |regions|
    ensures forall r :: r in FileMappings(regions) <==> r in regions && IsFileMapping(r)
  {
    if regions != [] {
      MappingsAreRegions(regions[1..]);
      assert forall r :: r in regions <==> r == regions[0] || r in regions[1..];
    }
  }

  /** Decoding NT_FILE returns the page size and, for every file mapping in order, its addresses, its
      offset in pages and its name. */
  lemma FilePayloadInverts(parse: seq<byte> -> Option<Region>, maps: seq<byte>, page: nat)
    requires LawfulLine(parse) && ParseMaps(parse, maps).Some? && 0 < page < U64
    requires FilePayload(ParseMaps(parse, maps).value, page).Some?
    ensures var entries := FileMappings(ParseMaps(parse, maps).value);
            DecodeFilePayload(FilePayload(ParseMaps(parse, maps).value, page).value) ==
            Some((page, FileEntries(entries, page)))
  {
    hide ToLE, FromLE, Table, Names, DecodeTable, DecodeNames, FileMappings, ParseMaps, LawfulLine, PowerOfTwo,
         AllAligned, Triples, NameList, Join, FileEntries;
    var regions := ParseMaps(parse, maps).value;
    RegionLimit(parse, maps);
    NamesClean(parse, maps);
    MappingsAreRegions(regions);
    var entries := FileMappings(regions);
    Pow256Values();
    FromToLE(|entries|, 8);
    FromToLE(page, 8);
    TableInverts(entries, page, Names(entries));
    NamesInvert(entries);
    JoinEntries(entries, page);
    var b := FilePayload(regions, page).value;
    assert b[..8] == ToLE(|entries|, 8) && b[8..16] == ToLE(page, 8);
    assert b[16..] == Table(entries, page) + Names(entries);
  }

  lemma RegionLimit(parse: seq<byte> -> Option<Region>, data: seq<byte>)
    requires ParseMaps(parse, data).Some?
    ensures |ParseMaps(parse, data).value| <= MAX_REGIONS
  {}

  // ---------------------------------------------------------------- which mappings, and when

  function Doubled(k: nat): nat {
    if k == 0 then 1 else 2 * Doubled(k - 1)
  }

  lemma {:induction false} DoubledIsPower(k: nat)
    ensures PowerOfTwo(Doubled(k)) && Doubled(k) > 0
  {
    if k > 0 {
      DoubledIsPower(k - 1);
      assert Doubled(k) / 2 == Doubled(k - 1);
    }
  }

  lemma {:induction false} PowerIsDoubled(page: nat) returns (k: nat)
    requires PowerOfTwo(page)
    ensures page == Doubled(k)
  {
    if page == 1 {
      k := 0;
    } else {
      k := PowerIsDoubled(page / 2);
      k := k + 1;
    }
  }

  lemma PowerPositive(page: nat)
    ensures PowerOfTwo(page) ==> page > 0
  {}

  lemma {:induction false} InMappings(regions: seq<Region>, r: Region)
    ensures r in FileMappings(regions) <==> r in regions && r.name != [] && r.inode > 0
    decreases regions
  {
    if regions != [] {
      InMappings(regions[1..], r);
      assert regions == [regions[0]] + regions[1..];
    }
  }

  /** NT_FILE can be made if and only if the page size is a power of two and every mapping of a named inode starts
      at a multiple of it in its file; and it lists those mappings and no others. */
  lemma FileAccepted(regions: seq<Region>, page: nat)
    ensures FilePayload(regions, page).Some? <==>
            && page > 0 && (exists k: nat :: page == Doubled(k))
            && forall r :: r in regions && r.name != [] && r.inode > 0 ==> r.offset % page == 0
    ensures forall r :: r in FileMappings(regions) <==> r in regions && r.name != [] && r.inode > 0
  {
    hide FileMappings, PowerOfTwo, Table, Names;
    if PowerOfTwo(page) {
      var k := PowerIsDoubled(page);
      assert page == Doubled(k);
    }
    forall k: nat | page == Doubled(k)
      ensures PowerOfTwo(page)
    {
      DoubledIsPower(k);
    }
    forall r
      ensures r in FileMappings(regions) <==> r in regions && r.name != [] && r.inode > 0
    {
      InMappings(regions, r);
    }
    if PowerOfTwo(page) {
      var entries := FileMappings(regions);
      PowerPositive(page);
      assert AllAligned(entries, page) <==> forall r :: r in entries ==> r.offset % page == 0;
    }
  }
}
