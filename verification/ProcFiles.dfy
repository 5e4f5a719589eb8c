/** Captured /proc files inside a stream: PutFile's layout and GetFile's acceptance. */
module ProcFiles {
  import opened Bytes
  import opened Lz4Codec
  import opened BlockStream
  import W = WriterState

  const HEADER_SIZE: nat := 9
  const MAX_PROC_FILE_SIZE: nat := 64 * 1024 * 1024

  /** One captured file; f_size is the length of the data. */
  datatype ProcFile = ProcFile(pid: nat, fileType: byte, data: seq<byte>) {
    predicate Ok() {
      pid < U32 && HEADER_SIZE + |data| <= MAX_PROC_FILE_SIZE
    }
  }

  function Size(pf: ProcFile): nat {
    HEADER_SIZE + |pf.data|
  }

  function FileBytes(pf: ProcFile): (b: seq<byte>)
    ensures |b| == Size(pf)
  {
    ToLE(|pf.data|, 4) + ToLE(pf.pid, 4) + [pf.fileType] + pf.data
  }

  function DecodeFile(b: seq<byte>): ProcFile
    requires |b| >= HEADER_SIZE
  {
    ProcFile(FromLE(b[4..8]), b[8], b[9..])
  }

  /** PutFile's items: the raw size, then the file as one run of FILE blocks. */
  function FileItems(pf: ProcFile): seq<Item> {
    [Raw(ToLE(Size(pf), 4))] + W.Pieces(0, 1, FILE, W.Chunks(FileBytes(pf)))
  }

  /** Collects FILE blocks until `size` bytes are there. */
  function Gather(f: Format, c: Cursor, size: nat, acc: seq<byte>): (r: Option<(seq<byte>, Cursor)>)
    ensures r.Some? && |acc| <= size ==> |r.value.0| == size && |r.value.1.rest| <= |c.rest|
    decreases |c.rest|
  {
    if |acc| >= size then Some((acc, c))
    else
      match ReadBlock(f, c)
      case Got(h, payload, next) =>
        if h.blockType != FILE || (h.prevCont != 0) != (acc != []) || |payload| > size - |acc| then None
        else Gather(f, next, size, acc + payload)
      case _ => None
  }

  function GetFile(f: Format, c: Cursor): (r: Option<(ProcFile, Cursor)>)
    ensures r.Some? ==> |r.value.1.rest| <= |c.rest|
  {
    match ReadRaw(c, 4)
    case None => None
    case Some((prefix, c')) =>
      var size := FromLE(prefix);
      if size > MAX_PROC_FILE_SIZE || size < HEADER_SIZE then None
      else
        match Gather(f, c', size, [])
        case None => None
        case Some((bytes, c'')) =>
          if size != HEADER_SIZE + FromLE(bytes[..4]) then None
          else Some((DecodeFile(bytes), c''))
  }

  /** PutFile as calls on the stream. */
  function PutFile(w: W.State, pf: ProcFile): W.State {
    W.WriteBlock(W.WriteRaw(W.Flush(w), ToLE(Size(pf), 4)), FileBytes(pf), FILE)
  }

  lemma PutFileItems(w: W.State, pf: ProcFile)
    ensures PutFile(w, pf) == W.State(W.Flush(w).items + FileItems(pf), [], w.blockType)
  {
    hide FileBytes, ToLE, W.Pieces, W.Chunks;
    var raw := Raw(ToLE(Size(pf), 4));
    var pieces := W.Pieces(0, 1, FILE, W.Chunks(FileBytes(pf)));
    assert W.Flush(w).items + [raw] + pieces == W.Flush(w).items + ([raw] + pieces);
  }

  // ---------------------------------------------------------------- GetFile inverts PutFile

  lemma DecodeFileBytes(pf: ProcFile)
    requires pf.Ok()
    ensures DecodeFile(FileBytes(pf)) == pf
    ensures FromLE(FileBytes(pf)[..4]) == |pf.data| && FromLE(ToLE(Size(pf), 4)) == Size(pf)
  {
    hide ToLE, FromLE;
    Pow256Values();
    FromToLE(|pf.data|, 4);
    FromToLE(pf.pid, 4);
    FromToLE(Size(pf), 4);
    var a, b := ToLE(|pf.data|, 4), ToLE(pf.pid, 4);
    assert FileBytes(pf)[..4] == a && FileBytes(pf)[4..8] == b && FileBytes(pf)[9..] == pf.data;
  }

  lemma FileBytesDecode(b: seq<byte>)
    requires |b| >= HEADER_SIZE && |b| == HEADER_SIZE + FromLE(b[..4])
    ensures FileBytes(DecodeFile(b)) == b
  {
    hide ToLE, FromLE;
    ToFromLE(b[..4]);
    ToFromLE(b[4..8]);
    assert b == b[..4] + b[4..8] + [b[8]] + b[9..];
  }

  lemma {:induction false} GatherInverts(f: Format, dict: seq<byte>, parts: seq<seq<byte>>, acc: seq<byte>,
                                         tail: seq<byte>, history: seq<byte>)
    requires f.codec.Lawful() && EndsWith(history, dict)
    requires forall i :: 0 <= i < |parts| ==> 1 <= |parts[i]| <= BLOCK_SIZE
    ensures var bytes := StreamBytes(f, dict, W.Pieces(if acc == [] then 0 else 1, 1, FILE, parts)) + tail;
            Gather(f, Cursor(bytes, history), |acc| + |Flatten(parts)|, acc) ==
            Some((acc + Flatten(parts), Cursor(tail, history + Flatten(parts))))
    decreases parts
  {
    hide StreamBytes, ItemBytes, ReadBlock, Codec.Lawful, HeaderOf, Gather, Flatten, W.Pieces;
    var first := if acc == [] then 0 else 1;
    var items := W.Pieces(first, 1, FILE, parts);
    if parts == [] {
      NoParts(first, acc, history);
      NoItems(f, dict, tail);
      GatherDone(f, Cursor(tail, history), |acc|, acc);
    } else {
      var part, rest := parts[0], parts[1..];
      var tail' := StreamBytes(f, part, items[1..]) + tail;
      PartsHead(first, parts, acc);
      PartsHead(first, parts, history);
      W.StreamHead(f, dict, items, tail);
      ReadWritten(f, dict, items[0], tail', history);
      HeaderFields(f, dict, items[0]);
      GatherInverts(f, part, rest, acc + part, tail, history + part);
      GatherNext(f, Cursor(ItemBytes(f, dict, items[0]) + tail', history), |acc| + |Flatten(parts)|, acc);
    }
  }

  lemma NoParts(first: nat, acc: seq<byte>, history: seq<byte>)
    ensures W.Pieces(first, 1, FILE, []) == [] && |Flatten<byte>([])| == 0
    ensures acc + Flatten([]) == acc && history + Flatten([]) == history
  {}

  lemma PartsHead(first: nat, parts: seq<seq<byte>>, acc: seq<byte>)
    requires parts != []
    ensures var items := W.Pieces(first, 1, FILE, parts);
            && items != [] && items[0] == Block(first, FILE, parts[0])
            && items[1..] == W.Pieces(1, 1, FILE, parts[1..])
    ensures acc + Flatten(parts) == acc + parts[0] + Flatten(parts[1..])
    ensures |Flatten(parts)| == |parts[0]| + |Flatten(parts[1..])|
  {}

  lemma NoItems(f: Format, dict: seq<byte>, tail: seq<byte>)
    ensures StreamBytes(f, dict, []) + tail == tail
  {}

  lemma HeaderFields(f: Format, dict: seq<byte>, b: Item)
    requires b.Block?
    ensures HeaderOf(f, dict, b).prevCont == b.prevCont && HeaderOf(f, dict, b).blockType == b.blockType
  {}

  lemma GatherDone(f: Format, c: Cursor, size: nat, acc: seq<byte>)
    requires |acc| >= size
    ensures Gather(f, c, size, acc) == Some((acc, c))
  {}

  lemma GatherNext(f: Format, c: Cursor, size: nat, acc: seq<byte>)
    requires |acc| < size
    ensures match ReadBlock(f, c)
            case Got(h, payload, next) =>
              if h.blockType != FILE || (h.prevCont != 0) != (acc != []) || |payload| > size - |acc| then
                Gather(f, c, size, acc) == None
              else Gather(f, c, size, acc) == Gather(f, next, size, acc + payload)
            case _ => Gather(f, c, size, acc) == None
  {
    hide ReadBlock;
  }

  /** Any file up to the cap comes back, however it was cut into non-empty blocks. */
  lemma GetFileInverts(f: Format, dict: seq<byte>, pf: ProcFile, parts: seq<seq<byte>>, tail: seq<byte>,
                       history: seq<byte>)
    requires f.codec.Lawful() && EndsWith(history, dict) && pf.Ok()
    requires forall i :: 0 <= i < |parts| ==> 1 <= |parts[i]| <= BLOCK_SIZE
    requires Flatten(parts) == FileBytes(pf)
    ensures var bytes := ToLE(Size(pf), 4) + StreamBytes(f, dict, W.Pieces(0, 1, FILE, parts)) + tail;
            GetFile(f, Cursor(bytes, history)) == Some((pf, Cursor(tail, history + FileBytes(pf))))
  {
    hide StreamBytes, Codec.Lawful, Gather, FileBytes, DecodeFile, ToLE, FromLE, EndsWith;
    var prefix, body := ToLE(Size(pf), 4), StreamBytes(f, dict, W.Pieces(0, 1, FILE, parts)) + tail;
    assert prefix + StreamBytes(f, dict, W.Pieces(0, 1, FILE, parts)) + tail == prefix + body;
    assert (prefix + body)[..4] == prefix && (prefix + body)[4..] == body;
    GatherInverts(f, dict, parts, [], tail, history);
    assert [] + Flatten(parts) == Flatten(parts);
    DecodeFileBytes(pf);
  }

  /** In particular PutFile's own output, for any dictionary it was compressed with. */
  lemma GetPutFile(f: Format, dict: seq<byte>, pf: ProcFile, tail: seq<byte>, history: seq<byte>)
    requires f.codec.Lawful() && EndsWith(history, dict) && pf.Ok()
    ensures GetFile(f, Cursor(StreamBytes(f, dict, FileItems(pf)) + tail, history))
         == Some((pf, Cursor(tail, history + FileBytes(pf))))
  {
    hide GetFile, FileBytes, Codec.Lawful, W.Pieces, W.Chunks, EndsWith;
    var parts := W.Chunks(FileBytes(pf));
    W.ChunksFlatten(FileBytes(pf));
    GetFileInverts(f, dict, pf, parts, tail, history);
    var items := FileItems(pf);
    assert items[1..] == W.Pieces(0, 1, FILE, parts);
    W.RawHead(f, dict, items);
    StreamOne(f, dict, items);
  }

  lemma StreamOne(f: Format, dict: seq<byte>, items: seq<Item>)
    requires items != [] && items[0].Raw?
    ensures StreamBytes(f, dict, items) == items[0].bytes + StreamBytes(f, dict, items[1..])
  {}

  // ---------------------------------------------------------------- and accepts nothing else

  lemma {:induction false} GatherSound(f: Format, c: Cursor, size: nat, acc: seq<byte>) returns (blocks: seq<Item>)
    requires |acc| <= size && Gather(f, c, size, acc).Some?
    ensures var (bytes, c') := Gather(f, c, size, acc).value;
            && bytes == acc + History(blocks)
            && W.Parse(f, W.Shape(blocks), c) == Some((blocks, c'))
    ensures IsFileRun(blocks, acc != [])
    decreases |c.rest|
  {
    hide ReadBlock;
    if |acc| == size {
      blocks := [];
      assert acc + [] == acc;
    } else {
      var r := ReadBlock(f, c);
      var rest := GatherSound(f, r.next, size, acc + r.payload);
      var b := Block(r.header.prevCont, FILE, r.payload);
      FlagOneBit(f, c);
      blocks := [b] + rest;
      assert blocks[1..] == rest;
      W.ParseBlock(f, blocks, c);
      assert acc + r.payload + History(rest) == acc + History(blocks);
    }
  }

  lemma FlagOneBit(f: Format, c: Cursor)
    requires ReadBlock(f, c).Got?
    ensures ReadBlock(f, c).header.prevCont < 2
  {
    hide Pack, Unpack, ReadFrame, Unframe;
    FrameHead(f.checked, c.rest);
    PackUnpack(c.rest[..3]);
  }

  /** Non-empty FILE blocks, all but a first one marked as continuations. */
  ghost predicate IsFileRun(blocks: seq<Item>, continued: bool) {
    forall i :: 0 <= i < |blocks| ==>
      && blocks[i].Block? && blocks[i].blockType == FILE && blocks[i].payload != []
      && blocks[i].prevCont == (if i == 0 && !continued then 0 else 1)
  }

  /** Whatever GetFile returns is the exact concatenation of one run of FILE blocks, announced by a
      size prefix equal to the header plus f_size. */
  lemma GetFileSound(f: Format, c: Cursor) returns (blocks: seq<Item>)
    requires GetFile(f, c).Some?
    ensures var (pf, c') := GetFile(f, c).value;
            var items := [Raw(ToLE(Size(pf), 4))] + blocks;
            && W.Parse(f, W.Shape(items), c) == Some((items, c'))
            && IsFileRun(blocks, false)
            && History(blocks) == FileBytes(pf)
  {
    hide ReadBlock, Gather, W.Parse, ToLE, FromLE, IsFileRun, FileBytes, DecodeFile;
    var (prefix, c1) := ReadRaw(c, 4).value;
    var (bytes, c2) := Gather(f, c1, FromLE(prefix), []).value;
    blocks := GatherSound(f, c1, FromLE(prefix), []);
    assert bytes == History(blocks);
    FileBytesDecode(bytes);
    DecodedSize(bytes);
    ToFromLE(prefix);
    var items := [Raw(prefix)] + blocks;
    assert items[1..] == blocks && c.rest == prefix + c1.rest;
    W.ParseRaw(f, items, c1.rest, c.history);
  }

  lemma DecodedSize(b: seq<byte>)
    requires |b| >= HEADER_SIZE
    ensures Size(DecodeFile(b)) == |b|
  {}

  lemma GetFileUnfold(f: Format, c: Cursor, size: nat)
    requires |c.rest| >= 4 ==> size == FromLE(c.rest[..4])
    ensures |c.rest| < 4 || size > MAX_PROC_FILE_SIZE || size < HEADER_SIZE ==> GetFile(f, c) == None
    ensures |c.rest| >= 4 && HEADER_SIZE <= size <= MAX_PROC_FILE_SIZE ==>
              match Gather(f, c.(rest := c.rest[4..]), size, [])
              case None => GetFile(f, c) == None
              case Some((b, c')) =>
                GetFile(f, c) == if size != HEADER_SIZE + FromLE(b[..4]) then None else Some((DecodeFile(b), c'))
  {
    hide Gather, FromLE, DecodeFile;
  }

  // ---------------------------------------------------------------- and reads nothing else

  lemma {:induction false} GatherLocal(f: Format, c: Cursor, size: nat, acc: seq<byte>, more: seq<byte>)
    requires Gather(f, c, size, acc).Some?
    ensures var (bytes, c') := Gather(f, c, size, acc).value;
            Gather(f, c.(rest := c.rest + more), size, acc) == Some((bytes, c'.(rest := c'.rest + more)))
    decreases |c.rest|
  {
    hide ReadBlock;
    if |acc| < size {
      ReadBlockLocal(f, c, more);
      var r := ReadBlock(f, c);
      GatherLocal(f, r.next, size, acc + r.payload, more);
    }
  }

  lemma GetFileLocal(f: Format, c: Cursor, more: seq<byte>)
    requires GetFile(f, c).Some?
    ensures var (pf, c') := GetFile(f, c).value;
            GetFile(f, c.(rest := c.rest + more)) == Some((pf, c'.(rest := c'.rest + more)))
  {
    hide ReadBlock, Gather, FromLE, DecodeFile;
    var (prefix, c1) := ReadRaw(c, 4).value;
    assert (c.rest + more)[..4] == prefix && (c.rest + more)[4..] == c1.rest + more;
    GatherLocal(f, c1, FromLE(prefix), [], more);
  }
}
