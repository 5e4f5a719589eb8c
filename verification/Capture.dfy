/** Writing an acore: memory dump, metadata, ELF headers and tail mark over the stream writer. */
module Capturing {
  import opened Bytes
  import opened Lz4Codec
  import opened BlockStream
  import opened ProcFiles
  import opened Maps
  import opened ElfLayout
  import opened CoreRebuild
  import opened CoreProofs
  import opened RoundTrip
  import W = WriterState
  import L = Lz4Writer

  // ---------------------------------------------------------------- target memory

  /** The byte delivered for each address, if any. */
  type Delivered = nat -> Option<byte>

  datatype Pread = Data(bytes: seq<byte>) | Eof | Failed

  /** /proc/<pid>/mem: each call delivers some bytes, end of file or an error. An interrupted call is
      the one that repeats it. */
  class Memory {
    /** Whether the file can be opened. */
    const openable: bool
    /** Every byte a call has delivered, by address, and how many they are. */
    ghost var delivered: Delivered
    ghost var total: nat
    /** A call has met the end of the file. */
    ghost var ended: bool

    method Read(address: nat, n: nat) returns (r: Pread)
      requires n > 0
      modifies this
      ensures r.Data? ==> 1 <= |r.bytes| <= n && delivered == Deliver(old(delivered), address, r.bytes)
      ensures r.Data? ==> total == old(total) + |r.bytes|
      ensures !r.Data? ==> delivered == old(delivered) && total == old(total)
      ensures ended == (old(ended) || r.Eof?)
    {
      var bytes: seq<byte> := *;
      var end: bool := *;
      if 1 <= |bytes| <= n {
        delivered, total := Deliver(delivered, address, bytes), total + |bytes|;
        return Data(bytes);
      }
      ended := ended || end;
      return if end then Eof else Failed;
    }
  }

  ghost function Deliver(m: Delivered, address: nat, bytes: seq<byte>): Delivered {
    (a: nat) => if address <= a < address + |bytes| then Some(bytes[a - address]) else m(a)
  }

  ghost function ByteAt(m: Delivered, address: nat): byte {
    match m(address) case Some(b) => b case None => 0
  }

  /** n bytes from `start` on: what was delivered, and zero where nothing was. */
  ghost function Image(m: Delivered, start: nat, n: nat): (s: seq<byte>)
    ensures |s| == n
  {
    if n == 0 then [] else Image(m, start, n - 1) + [ByteAt(m, start + n - 1)]
  }

  ghost function ImageOf(m: Delivered, regions: seq<Region>): seq<byte>
    requires Positive(regions)
    decreases regions
  {
    if regions == [] then []
    else Image(m, regions[0].start, FileSize(regions[0])) + ImageOf(m, regions[1..])
  }

  ghost predicate Below(m: Delivered, address: nat) {
    forall a: nat :: a >= address ==> m(a) == None
  }

  /** m' adds to m only at `address` and above. */
  ghost predicate Extends(m: Delivered, m': Delivered, address: nat) {
    forall a: nat :: a < address ==> m(a) == m'(a)
  }

  lemma DeliverNext(m: Delivered, start: nat, bytes: seq<byte>, got: nat)
    requires Below(m, start + got)
    ensures var m' := Deliver(m, start + got, bytes);
            && Below(m', start + got + |bytes|) && Extends(m, m', start + got)
            && Image(m', start, got + |bytes|) == Image(m, start, got) + bytes
  {
    hide Image;
    var m' := Deliver(m, start + got, bytes);
    ImageKept(m, m', start, got, start + got);
    ImageSplit(m', start, got, |bytes|);
    ImageIs(m', start + got, bytes);
  }

  lemma {:induction false} ImageIs(m: Delivered, start: nat, bytes: seq<byte>)
    requires forall i :: 0 <= i < |bytes| ==> ByteAt(m, start + i) == bytes[i]
    ensures Image(m, start, |bytes|) == bytes
    decreases bytes
  {
    if bytes != [] {
      var n := |bytes| - 1;
      forall i | 0 <= i < n ensures ByteAt(m, start + i) == bytes[..n][i] {
        assert ByteAt(m, start + i) == bytes[i];
      }
      ImageIs(m, start, bytes[..n]);
      assert bytes == bytes[..n] + [bytes[n]];
    }
  }

  lemma ExtendsTwice(a: Delivered, b: Delivered, c: Delivered, x: nat, y: nat)
    requires Extends(a, b, x) && Extends(b, c, y) && x <= y
    ensures Extends(a, c, x)
  {}

  lemma {:induction false} ImageZero(m: Delivered, start: nat, n: nat)
    requires Below(m, start)
    ensures Image(m, start, n) == Zeros(n)
  {
    if n > 0 {
      ImageZero(m, start, n - 1);
      assert Zeros(n) == Zeros(n - 1) + [0];
    }
  }

  lemma ImageUndelivered(m: Delivered, start: nat, got: nat, n: nat)
    requires Below(m, start + got) && got <= n
    ensures Image(m, start, n) == Image(m, start, got) + Zeros(n - got)
  {
    ImageSplit(m, start, got, n - got);
    ImageZero(m, start + got, n - got);
  }

  lemma {:induction false} ImageSplit(m: Delivered, start: nat, a: nat, b: nat)
    ensures Image(m, start, a + b) == Image(m, start, a) + Image(m, start + a, b)
    decreases b
  {
    if b > 0 { ImageSplit(m, start, a, b - 1); }
  }

  lemma {:induction false} ImageKept(m: Delivered, m': Delivered, start: nat, n: nat, address: nat)
    requires Extends(m, m', address) && start + n <= address
    ensures Image(m', start, n) == Image(m, start, n)
    decreases n
  {
    if n > 0 { ImageKept(m, m', start, n - 1, address); }
  }

  /** Fills a buffer from memory; a failing read zero-fills the rest of the buffer. */
  method ReadBuffer(mem: Memory, address: nat, req: nat) returns (buf: seq<byte>, got: nat, eof: bool)
    requires Below(mem.delivered, address)
    modifies mem
    ensures Below(mem.delivered, address + req) && Extends(old(mem.delivered), mem.delivered, address)
    ensures !eof ==> buf == Image(mem.delivered, address, req)
    ensures got == mem.total - old(mem.total) && mem.ended == (old(mem.ended) || eof)
  {
    hide Below, Extends, Image;
    buf, got, eof := [], 0, false;
    StartBuffer(mem.delivered, address);
    while got < req
      invariant got <= req && |buf| == got && buf == Image(mem.delivered, address, got)
      invariant got == mem.total - old(mem.total) && mem.ended == old(mem.ended) && !eof
      invariant Below(mem.delivered, address + got) && Extends(old(mem.delivered), mem.delivered, address)
    {
      ghost var before := mem.delivered;
      var r := mem.Read(address + got, req - got);
      match r {
        case Data(bytes) =>
          DeliverNext(before, address, bytes, got);
          ExtendsTwice(old(mem.delivered), before, mem.delivered, address, address + got);
          buf := buf + bytes;
          got := got + |bytes|;
        case Failed =>
          ImageUndelivered(mem.delivered, address, got, req);
          BelowMore(mem.delivered, address + got, address + req);
          buf := buf + Zeros(req - got);
          return;
        case Eof =>
          BelowMore(mem.delivered, address + got, address + req);
          buf := buf + Zeros(req - got);
          eof := true;
          return;
      }
    }
  }

  lemma StartBuffer(m: Delivered, address: nat)
    ensures Image(m, address, 0) == [] && Extends(m, m, address)
  {}

  lemma BelowMore(m: Delivered, a: nat, b: nat)
    requires Below(m, a) && a <= b
    ensures Below(m, b)
  {}

  // ---------------------------------------------------------------- LOADS

  /** Blocks appended for LOADS so far, on top of what was there before. */
  ghost predicate Appended(w: W.State, base: seq<Item>, chunks: seq<seq<byte>>) {
    && W.Flush(w) == W.State(base + W.Pieces(0, 0, LOADS, chunks), [], LOADS)
    && (chunks != [] ==> w.pending == [])
    && forall i :: 0 <= i < |chunks| ==> 1 <= |chunks[i]| <= BLOCK_SIZE
  }

  lemma {:induction false} PiecesSnoc(t: nat, chunks: seq<seq<byte>>, p: seq<byte>)
    ensures W.Pieces(0, 0, t, chunks + [p]) == W.Pieces(0, 0, t, chunks) + [Block(0, t, p)]
    decreases chunks
  {
    if chunks == [] {
      assert [p][1..] == [];
      assert chunks + [p] == [p];
    } else {
      assert (chunks + [p])[0] == chunks[0] && (chunks + [p])[1..] == chunks[1..] + [p];
      PiecesSnoc(t, chunks[1..], p);
    }
  }

  lemma AppendOne(w: W.State, base: seq<Item>, chunks: seq<seq<byte>>, p: seq<byte>)
    requires Appended(w, base, chunks) && 1 <= |p| <= BLOCK_SIZE
    ensures Appended(W.WriteBlock(w, p, LOADS), base, chunks + [p])
    ensures Flatten(chunks + [p]) == Flatten(chunks) + p
  {
    hide Flatten, W.Flush;
    PiecesSnoc(LOADS, chunks, p);
    FlattenSnoc(chunks, p);
    assert W.Chunks(p) == [p];
    assert [p][1..] == [];
    var one := Block(0, LOADS, p);
    assert W.Pieces(0, 1, LOADS, [p]) == [one];
    assert base + W.Pieces(0, 0, LOADS, chunks) + [one] == base + (W.Pieces(0, 0, LOADS, chunks) + [one]);
    FlushSealed(W.WriteBlock(w, p, LOADS));
  }

  lemma FlushSealed(w: W.State)
    ensures w.pending == [] ==> W.Flush(w) == w
    ensures W.Flush(w).pending == []
  {}

  /** One buffer, cut into LOADS blocks of their own. */
  method WriteBuffer(out: L.Writer, buf: seq<byte>, ghost base: seq<Item>, ghost chunks: seq<seq<byte>>)
      returns (ok: bool, size: nat, ghost chunks': seq<seq<byte>>)
    requires out.Valid() && |buf| <= BUFFER_SIZE && Appended(out.State(), base, chunks)
    modifies out.Repr()
    ensures out.Valid() && out.checked == old(out.checked) && out.open == old(out.open)
    ensures ok ==> size == |buf| && Appended(out.State(), base, chunks') && Flatten(chunks') == Flatten(chunks) + buf
    ensures ok && buf != [] ==> chunks' != []
    ensures !ok ==> !out.open || out.out.error
  {
    hide Appended, Flatten, StreamBytes, DictAfter, History, Codec.Lawful, W.WriteBlock;
    chunks', size := chunks, 0;
    var i := 0;
    assert Flatten(chunks) + buf[..0] == Flatten(chunks);
    while i < |buf|
      invariant i <= |buf| && size == i
      invariant out.Valid() && out.checked == old(out.checked) && out.open == old(out.open)
      invariant Appended(out.State(), base, chunks') && Flatten(chunks') == Flatten(chunks) + buf[..i]
      invariant i > 0 ==> chunks' != []
    {
      var j := if |buf| - i < BLOCK_SIZE then |buf| - i else BLOCK_SIZE;
      var piece := buf[i..i + j];
      AppendOne(out.State(), base, chunks', piece);
      ok := out.WriteBlock(piece, LOADS);
      if !ok { return; }
      assert Flatten(chunks) + buf[..i] + piece == Flatten(chunks) + buf[..i + j];
      chunks', size, i := chunks' + [piece], size + j, i + j;
    }
    assert buf[..|buf|] == buf;
    ok := true;
  }

  /** One buffer of a mapping: `addr - start` bytes are behind it already. */
  method WriteChunk(out: L.Writer, mem: Memory, start: nat, addr: nat, req: nat,
                    ghost base: seq<Item>, ghost before: seq<byte>, ghost chunks: seq<seq<byte>>)
      returns (ok: bool, size: nat, got: nat, ghost chunks': seq<seq<byte>>)
    requires out.Valid() && Appended(out.State(), base, chunks) && mem !in out.Repr()
    requires start <= addr && 0 < req <= BUFFER_SIZE && Below(mem.delivered, addr)
    requires Flatten(chunks) == before + Image(mem.delivered, start, addr - start)
    modifies out.Repr(), mem
    ensures out.Valid() && out.checked == old(out.checked) && out.open == old(out.open)
    ensures Below(mem.delivered, addr + req) && Extends(old(mem.delivered), mem.delivered, addr)
    ensures ok ==> size == req && Appended(out.State(), base, chunks') && chunks' != []
    ensures ok ==> Flatten(chunks') == before + Image(mem.delivered, start, addr - start + req)
    ensures ok ==> got == mem.total - old(mem.total) && mem.ended == old(mem.ended)
    ensures !ok ==> mem.ended || !out.open || out.out.error
  {
    hide Appended, Flatten, StreamBytes, DictAfter, History, Codec.Lawful, Below, Extends, Image;
    ghost var m := mem.delivered;
    size, chunks' := 0, chunks;
    var buf, n, eof := ReadBuffer(mem, addr, req);
    got := n;
    if eof { return false, size, got, chunks'; }
    ok, size, chunks' := WriteBuffer(out, buf, base, chunks);
    if ok {
      ImageKept(m, mem.delivered, start, addr - start, addr);
      ImageSplit(mem.delivered, start, addr - start, req);
    }
  }

  /** The bytes of one mapping, buffer by buffer. */
  method WriteRegion(out: L.Writer, mem: Memory, r: Region, ghost base: seq<Item>, ghost chunks: seq<seq<byte>>)
      returns (ok: bool, size: nat, read: nat, ghost chunks': seq<seq<byte>>)
    requires out.Valid() && Appended(out.State(), base, chunks) && mem !in out.Repr()
    requires r.start < r.end <= U64 - BUFFER_SIZE && Below(mem.delivered, r.start)
    modifies out.Repr(), mem
    ensures out.Valid() && out.checked == old(out.checked) && out.open == old(out.open)
    ensures ok ==> Appended(out.State(), base, chunks') && size == FileSize(r)
    ensures ok ==> Flatten(chunks') == Flatten(chunks) + Image(mem.delivered, r.start, FileSize(r))
    ensures Below(mem.delivered, r.end) && Extends(old(mem.delivered), mem.delivered, r.start)
    ensures ok && (read > 0 || chunks != []) ==> chunks' != []
    ensures ok ==> read == mem.total - old(mem.total) && mem.ended == old(mem.ended)
    ensures !ok ==> mem.ended || !out.open || out.out.error
  {
    hide Appended, Flatten, StreamBytes, DictAfter, History, Codec.Lawful, Below, Extends, Image;
    chunks', size, read := chunks, 0, 0;
    ghost var flat := Flatten(chunks);
    var endAddr := r.start + FileSize(r);
    var addr := r.start;
    StartBuffer(mem.delivered, r.start);
    assert flat + [] == flat;
    ghost var done := addr;
    while addr < endAddr
      invariant r.start <= addr && done == (if addr < endAddr then addr else endAddr)
      invariant out.Valid() && out.checked == old(out.checked) && out.open == old(out.open)
      invariant Appended(out.State(), base, chunks') && size == done - r.start
      invariant Below(mem.delivered, done) && Extends(old(mem.delivered), mem.delivered, r.start)
      invariant Flatten(chunks') == flat + Image(mem.delivered, r.start, done - r.start)
      invariant read > 0 || chunks != [] ==> chunks' != []
      invariant read == mem.total - old(mem.total) && mem.ended == old(mem.ended)
      decreases endAddr - addr
    {
      ghost var before := mem.delivered;
      var req := if endAddr - addr < BUFFER_SIZE then endAddr - addr else BUFFER_SIZE;
      var n, got;
      ok, n, got, chunks' := WriteChunk(out, mem, r.start, addr, req, base, flat, chunks');
      ExtendsTwice(old(mem.delivered), before, mem.delivered, r.start, addr);
      done := addr + req;
      if !ok {
        BelowMore(mem.delivered, done, r.end);
        return;
      }
      read, size, addr := read + got, size + n, addr + BUFFER_SIZE;
    }
    BelowMore(mem.delivered, done, r.end);
    ok := true;
  }

  lemma ImageOfSnoc(m: Delivered, regions: seq<Region>, r: Region)
    requires Positive(regions + [r]) && Positive(regions) && r.start < r.end
    ensures ImageOf(m, regions + [r]) == ImageOf(m, regions) + Image(m, r.start, FileSize(r))
    decreases regions
  {
    hide Image;
    if regions == [] {
      assert regions + [r] == [r];
      assert [r][1..] == [];
    } else {
      assert (regions + [r])[0] == regions[0] && (regions + [r])[1..] == regions[1..] + [r];
      ImageOfSnoc(m, regions[1..], r);
    }
  }

  lemma {:induction false} ImageOfKept(m: Delivered, m': Delivered, regions: seq<Region>, address: nat)
    requires Positive(regions) && Extends(m, m', address)
    requires forall i :: 0 <= i < |regions| ==> regions[i].end <= address
    ensures ImageOf(m', regions) == ImageOf(m, regions)
    decreases regions
  {
    hide Image, Extends;
    if regions != [] {
      ImageKept(m, m', regions[0].start, FileSize(regions[0]), address);
      ImageOfKept(m, m', regions[1..], address);
    }
  }

  /** A prefix of ordered mappings, and the one that follows it. */
  lemma OrderedPrefix(regions: seq<Region>, i: nat)
    requires Ordered(regions) && i <= |regions|
    ensures Positive(regions) && Positive(regions[..i])
    ensures i < |regions| ==> regions[..i + 1] == regions[..i] + [regions[i]] && regions[i].start < regions[i].end
    ensures i < |regions| ==> forall k :: 0 <= k < i ==> regions[..i][k].end <= regions[i].start
    ensures i + 1 < |regions| ==> regions[i].end <= regions[i + 1].start
  {}

  /** The mapping at index i after the ones before it. */
  method NextRegion(out: L.Writer, mem: Memory, regions: seq<Region>, i: nat, ghost base: seq<Item>,
                    ghost chunks: seq<seq<byte>>)
      returns (ok: bool, size: nat, read: nat, ghost chunks': seq<seq<byte>>)
    requires out.Valid() && Appended(out.State(), base, chunks) && mem !in out.Repr()
    requires Ordered(regions) && i < |regions| && regions[i].end <= U64 - BUFFER_SIZE
    requires Below(mem.delivered, regions[i].start)
    requires Positive(regions[..i]) && Flatten(chunks) == ImageOf(mem.delivered, regions[..i])
    modifies out.Repr(), mem
    ensures out.Valid() && out.checked == old(out.checked) && out.open == old(out.open)
    ensures ok ==> Appended(out.State(), base, chunks') && Positive(regions[..i + 1])
    ensures ok ==> Flatten(chunks') == ImageOf(mem.delivered, regions[..i + 1])
    ensures i + 1 < |regions| ==> Below(mem.delivered, regions[i + 1].start)
    ensures ok && (read > 0 || chunks != []) ==> chunks' != []
    ensures ok ==> size == FileSize(regions[i]) && |Flatten(chunks')| == |Flatten(chunks)| + size
    ensures ok ==> read == mem.total - old(mem.total) && mem.ended == old(mem.ended)
    ensures !ok ==> mem.ended || !out.open || out.out.error
  {
    hide StreamBytes, DictAfter, History, Codec.Lawful, Below, Extends, Image, Flatten, Appended, Ordered, Positive,
         ImageOf, FileSize;
    OrderedPrefix(regions, i);
    OrderedPrefix(regions, i + 1);
    ghost var delivered := mem.delivered;
    var r := regions[i];
    ok, size, read, chunks' := WriteRegion(out, mem, r, base, chunks);
    ImageOfKept(delivered, mem.delivered, regions[..i], r.start);
    ImageOfSnoc(mem.delivered, regions[..i], r);
    if i + 1 < |regions| {
      BelowMore(mem.delivered, r.end, regions[i + 1].start);
    }
  }

  /** The mappings one after another, and the header of each. */
  method WriteRegions(out: L.Writer, mem: Memory, regions: seq<Region>, expected: seq<Phdr>, ghost base: seq<Item>)
      returns (ok: bool, phdrs: seq<Phdr>, fileSize: nat, memSize: nat, ghost chunks: seq<seq<byte>>)
    requires out.Valid() && Appended(out.State(), base, []) && mem !in out.Repr()
    requires Ordered(regions) && Below(mem.delivered, 0) && |expected| == |regions|
    requires forall i :: 0 <= i < |regions| ==>
      regions[i].end <= U64 - BUFFER_SIZE && expected[i].filesz == FileSize(regions[i])
    modifies out.Repr(), mem
    ensures out.Valid() && out.checked == old(out.checked) && out.open == old(out.open)
    ensures ok ==> Appended(out.State(), base, chunks) && Positive(regions) && phdrs == expected
    ensures ok ==> Flatten(chunks) == ImageOf(mem.delivered, regions) && fileSize == |Flatten(chunks)|
    ensures ok ==> memSize == mem.total - old(mem.total) && (memSize > 0 ==> chunks != [])
    ensures !ok ==> mem.ended || !out.open || out.out.error
  {
    hide StreamBytes, DictAfter, History, Codec.Lawful, Below, Extends, Image, Flatten, Appended, Ordered, Positive,
         ImageOf, FileSize;
    chunks, phdrs, memSize, fileSize := [], [], 0, 0;
    OrderedPrefix(regions, 0);
    StartLoads(mem.delivered);
    var i := 0;
    while i < |regions|
      invariant i <= |regions| && phdrs == expected[..i]
      invariant out.Valid() && out.checked == old(out.checked) && out.open == old(out.open)
      invariant Appended(out.State(), base, chunks)
      invariant Positive(regions[..i]) && Flatten(chunks) == ImageOf(mem.delivered, regions[..i])
      invariant i < |regions| ==> Below(mem.delivered, regions[i].start)
      invariant memSize > 0 ==> chunks != []
      invariant memSize == mem.total - old(mem.total) && fileSize == |Flatten(chunks)|
    {
      var ph := expected[i];
      var size, read;
      ok, size, read, chunks := NextRegion(out, mem, regions, i, base, chunks);
      if !ok || size != ph.filesz { return false, phdrs, fileSize, memSize, chunks; }
      assert expected[..i + 1] == expected[..i] + [ph];
      phdrs, fileSize, memSize, i := phdrs + [ph], fileSize + size, memSize + read, i + 1;
    }
    assert regions[..|regions|] == regions && expected[..|expected|] == expected;
    ok := true;
  }

  /** WriteLoads: every mapping with permissions, completely, in address order. It fails only when the
      mappings cannot be laid out, memory cannot be read at all or ends, or a write fails. */
  method WriteLoads(out: L.Writer, mem: Memory, regions: seq<Region>)
      returns (ok: bool, phdrs: seq<Phdr>, ghost chunks: seq<seq<byte>>)
    requires out.Valid() && mem !in out.Repr() && Ordered(regions) && Below(mem.delivered, 0)
    requires forall i :: 0 <= i < |regions| ==> regions[i].end <= U64 - BUFFER_SIZE
    modifies out.Repr(), mem
    ensures out.Valid() && out.checked == old(out.checked) && out.open == old(out.open)
    ensures ok ==> LoadsFrom(regions, 0) == Some((phdrs, |Flatten(chunks)|)) && phdrs != []
    ensures ok ==> Flatten(chunks) == ImageOf(mem.delivered, regions)
    ensures ok ==>
      out.State() ==
        W.State(W.Flush(W.SetBlock(old(out.State()), LOADS)).items + W.Pieces(0, 0, LOADS, chunks), [], LOADS)
    ensures ok ==> forall i :: 0 <= i < |chunks| ==> 1 <= |chunks[i]| <= BLOCK_SIZE
    ensures !ok ==>
      regions == [] || LoadsFrom(regions, 0) == None || !mem.openable || mem.ended || mem.total == old(mem.total)
                    || !out.open || out.out.error
  {
    hide StreamBytes, DictAfter, History, Codec.Lawful, Below, Image, Flatten, Appended, Ordered, Positive,
         LoadsFrom, ImageOf, LoadPhdr, FileSize, W.Flush, W.SetBlock, W.Pieces;
    chunks, phdrs := [], [];
    OrderedPrefix(regions, 0);
    var derived, expected, total := ExpectedLoads(regions);
    if !derived || expected == [] { return false, phdrs, chunks; }
    if !mem.openable { return false, phdrs, chunks; }
    ghost var before := out.State();
    var typed := out.SetBlock(LOADS);
    if !typed { return false, phdrs, chunks; }
    ghost var base := W.Flush(W.SetBlock(before, LOADS)).items;
    StartAppended(before);
    LoadSizes(regions, expected, total);
    var fileSize, memSize;
    ok, phdrs, fileSize, memSize, chunks := WriteRegions(out, mem, regions, expected, base);
    if !ok { return; }
    ImageLength(mem.delivered, regions, 0);
    if fileSize != total || memSize == 0 { return false, phdrs, chunks; }
    Finished(out.State(), base, chunks);
  }

  lemma LoadSizes(regions: seq<Region>, expected: seq<Phdr>, total: nat)
    requires Positive(regions) && LoadsFrom(regions, 0) == Some((expected, total))
    ensures |expected| == |regions| && forall i :: 0 <= i < |regions| ==> expected[i].filesz == FileSize(regions[i])
  {
    hide LoadsFrom, FileSize;
    LoadCount(regions);
    forall i | 0 <= i < |regions|
      ensures expected[i].filesz == FileSize(regions[i])
    {
      ImageAt(_ => None, regions, 0, i);
    }
  }

  lemma StartLoads(m: Delivered)
    requires Below(m, 0)
    ensures Flatten<byte>([]) == [] == ImageOf(m, [])
    ensures forall a: nat :: Below(m, a)
  {}

  lemma StartAppended(before: W.State)
    ensures var w := W.SetBlock(before, LOADS); Appended(w, W.Flush(w).items, [])
  {
    var w := W.SetBlock(before, LOADS);
    assert W.Flush(w).items + W.Pieces(0, 0, LOADS, []) == W.Flush(w).items;
  }

  lemma LoadCount(regions: seq<Region>)
    requires Positive(regions)
    ensures LoadsFrom(regions, 0).Some? ==> |LoadsFrom(regions, 0).value.0| == |regions|
    ensures Positive(regions[..0])
  {}

  lemma Finished(w: W.State, base: seq<Item>, chunks: seq<seq<byte>>)
    requires Appended(w, base, chunks) && chunks != []
    ensures w == W.State(base + W.Pieces(0, 0, LOADS, chunks), [], LOADS)
    ensures forall i :: 0 <= i < |chunks| ==> 1 <= |chunks[i]| <= BLOCK_SIZE
  {
    FlushSealed(w);
  }

  lemma {:induction false} ImageLength(m: Delivered, regions: seq<Region>, total: nat)
    requires Positive(regions) && LoadsFrom(regions, total).Some?
    ensures total + |ImageOf(m, regions)| == LoadsFrom(regions, total).value.1
    decreases regions
  {
    hide Image;
    if regions != [] {
      ImageLength(m, regions[1..], total + FileSize(regions[0]));
    }
  }

  /** Inside the LOAD stream, the bytes at a mapping's offset are that mapping's image. */
  lemma {:induction false} ImageAt(m: Delivered, regions: seq<Region>, total: nat, i: nat)
    requires Positive(regions) && LoadsFrom(regions, total).Some? && i < |regions|
    ensures var p, k := LoadsFrom(regions, total).value.0[i], LoadsFrom(regions, total).value.0[i].offset - total;
            && p.filesz == FileSize(regions[i]) && 0 <= k && k + p.filesz <= |ImageOf(m, regions)|
            && ImageOf(m, regions)[k..k + p.filesz] == Image(m, regions[i].start, p.filesz)
    decreases regions
  {
    hide Image, ImageOf, LoadsFrom;
    RegionsHead(m, regions, total);
    if i > 0 {
      var size := FileSize(regions[0]);
      ImageAt(m, regions[1..], total + size, i - 1);
      var k := LoadsFrom(regions, total).value.0[i].offset - total;
      SliceBehind(Image(m, regions[0].start, size), ImageOf(m, regions[1..]), k, FileSize(regions[i]));
    } else {
      SliceFront(Image(m, regions[0].start, FileSize(regions[0])), ImageOf(m, regions[1..]));
    }
  }

  lemma RegionsHead(m: Delivered, regions: seq<Region>, total: nat)
    requires Positive(regions) && LoadsFrom(regions, total).Some? && regions != []
    ensures var size := FileSize(regions[0]);
            && ImageOf(m, regions) == Image(m, regions[0].start, size) + ImageOf(m, regions[1..])
            && Positive(regions[1..]) && LoadsFrom(regions[1..], total + size).Some?
            && LoadsFrom(regions, total).value.0
               == [LoadPhdr(regions[0], total)] + LoadsFrom(regions[1..], total + size).value.0
            && |LoadsFrom(regions, total).value.0| == |regions|
  {
    hide Image;
  }

  lemma SliceBehind(a: seq<byte>, b: seq<byte>, k: int, n: nat)
    requires |a| <= k && k - |a| + n <= |b|
    ensures (a + b)[k..k + n] == b[k - |a|..k - |a| + n]
  {}

  lemma SliceFront(a: seq<byte>, b: seq<byte>)
    ensures (a + b)[0..|a|] == a
  {}
}
