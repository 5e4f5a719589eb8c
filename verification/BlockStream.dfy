/** The wire format of Lz4Stream as values: what a writer's calls mean, the bytes they produce, and
    how a reader takes one block or raw field off the front of the file. */
module BlockStream {
  import opened Bytes
  import opened Lz4Codec
  import Crc32

  // Block types (src/lz4.h).
  const STREAM: nat := 0
  const PROCESS: nat := 1
  const THREAD: nat := 2
  const FILE: nat := 3
  const LOADS: nat := 4
  const ELF: nat := 5
  const TYPE_MAX: nat := 6

  const SIZE_RANGE: nat := 0x8_0000   // 19 bits

  // ---------------------------------------------------------------- block headers

  /** 1 + 4 + 19 bits in three bytes. */
  datatype BlockHeader = BlockHeader(prevCont: nat, blockType: nat, size: nat) {
    predicate Fits() {
      prevCont < 2 && blockType < 16 && size < SIZE_RANGE
    }

    predicate IsTailMark() {
      this == TAIL_MARK
    }
  }

  const TAIL_MARK := BlockHeader(0, 15, SIZE_RANGE - 1)

  /** Assignment to a bit field keeps the low bits only. */
  function Pack(h: BlockHeader): (b: seq<byte>)
    ensures |b| == 3
  {
    ToLE(h.prevCont % 2 + 2 * (h.blockType % 16) + 32 * (h.size % SIZE_RANGE), 3)
  }

  function Unpack(b: seq<byte>): BlockHeader {
    var v := FromLE(b);
    BlockHeader(v % 2, v / 2 % 16, v / 32)
  }

  lemma Halves(v: nat, w: nat, a: nat)
    requires a < 2
    ensures v == 2 * w + a ==> v / 2 == w && v % 2 == a
    ensures v == 2 * (v / 2) + v % 2 && v % 2 < 2
  {}

  lemma Sixteenths(v: nat, w: nat, a: nat)
    requires a < 16
    ensures v == 16 * w + a ==> v / 16 == w && v % 16 == a
    ensures v == 16 * (v / 16) + v % 16 && v % 16 < 16
  {}

  lemma HalfSixteenth(v: nat)
    ensures v / 2 / 16 == v / 32
  {}

  lemma UnpackPack(h: BlockHeader)
    requires h.Fits()
    ensures Unpack(Pack(h)) == h
  {
    hide ToLE, FromLE, Pow256;
    Pow256Values();
    var w := h.blockType + 16 * h.size;
    var v := h.prevCont + 2 * w;
    FromToLE(v, 3);
    Halves(v, w, h.prevCont);
    Sixteenths(w, h.size, h.blockType);
    HalfSixteenth(v);
    PackWhole(h, v);
  }

  lemma PackWhole(h: BlockHeader, v: nat)
    requires h.Fits() && v == h.prevCont + 2 * (h.blockType + 16 * h.size)
    ensures Pack(h) == ToLE(v, 3)
  {
    hide ToLE;
  }

  lemma PackUnpack(b: seq<byte>)
    requires |b| == 3
    ensures Unpack(b).Fits() && Pack(Unpack(b)) == b
  {
    hide ToLE, FromLE, Pow256, Pack;
    Pow256Values();
    ToFromLE(b);
    var v := FromLE(b);
    Halves(v, 0, 0);
    Sixteenths(v / 2, 0, 0);
    HalfSixteenth(v);
    PackWhole(Unpack(b), v);
  }

  // ---------------------------------------------------------------- what a stream contains

  datatype Format = Format(codec: Codec, checked: bool)

  /** A raw protocol field, or one compressed block. */
  datatype Item =
    | Raw(bytes: seq<byte>)
    | Block(prevCont: nat, blockType: nat, payload: seq<byte>)
  {
    predicate Ok() {
      Block? ==> prevCont < 2 && blockType < TYPE_MAX && 1 <= |payload| <= BLOCK_SIZE
    }
  }

  predicate AllOk(items: seq<Item>) {
    forall i :: 0 <= i < |items| ==> items[i].Ok()
  }

  /** The dictionary a block is compressed with: the payload of the block before it. */
  function Dict(dict: seq<byte>, item: Item): seq<byte> {
    match item
    case Raw(_) => dict
    case Block(_, _, payload) => payload
  }

  function DictAfter(dict: seq<byte>, items: seq<Item>): seq<byte>
    decreases items
  {
    if items == [] then dict else DictAfter(Dict(dict, items[0]), items[1..])
  }

  function HeaderOf(f: Format, dict: seq<byte>, b: Item): BlockHeader
    requires b.Block?
  {
    BlockHeader(b.prevCont, b.blockType, |f.codec.compress(dict, b.payload)|)
  }

  function ItemBytes(f: Format, dict: seq<byte>, item: Item): seq<byte> {
    match item
    case Raw(bytes) => bytes
    case Block(_, _, payload) =>
      var header := Pack(HeaderOf(f, dict, item));
      header + f.codec.compress(dict, payload) + (if f.checked then Crc32.Checksum(header + payload) else [])
  }

  function StreamBytes(f: Format, dict: seq<byte>, items: seq<Item>): seq<byte>
    decreases items
  {
    if items == [] then []
    else ItemBytes(f, dict, items[0]) + StreamBytes(f, Dict(dict, items[0]), items[1..])
  }

  lemma {:induction false} StreamBytesConcat(f: Format, dict: seq<byte>, a: seq<Item>, b: seq<Item>)
    ensures DictAfter(dict, a + b) == DictAfter(DictAfter(dict, a), b)
    ensures StreamBytes(f, dict, a + b) == StreamBytes(f, dict, a) + StreamBytes(f, DictAfter(dict, a), b)
    decreases a
  {
    if a == [] {
      assert a + b == b;
    } else {
      assert (a + b)[0] == a[0] && (a + b)[1..] == a[1..] + b;
      StreamBytesConcat(f, Dict(dict, a[0]), a[1..], b);
    }
  }

  /** The uncompressed bytes of all blocks. */
  function History(items: seq<Item>): seq<byte> {
    if items == [] then []
    else (if items[0].Block? then items[0].payload else []) + History(items[1..])
  }

  lemma {:induction false} HistoryConcat(a: seq<Item>, b: seq<Item>)
    ensures History(a + b) == History(a) + History(b)
  {
    if a == [] {
      assert a + b == b;
    } else {
      assert (a + b)[0] == a[0] && (a + b)[1..] == a[1..] + b;
      HistoryConcat(a[1..], b);
    }
  }

  ghost predicate EndsWith(s: seq<byte>, suffix: seq<byte>) {
    |suffix| <= |s| && s[|s| - |suffix|..] == suffix
  }

  // ---------------------------------------------------------------- reading

  /** A reader between two items: the unread bytes and everything decoded so far. */
  datatype Cursor = Cursor(rest: seq<byte>, history: seq<byte>)

  datatype ReadResult =
    | Got(header: BlockHeader, payload: seq<byte>, next: Cursor)
    | CleanEof
    | Tail(rest: seq<byte>)
    | Corrupt

  /** The undecoded parts of a block. */
  datatype Frame =
    | Framed(head: seq<byte>, z: seq<byte>, sum: seq<byte>, rest: seq<byte>)
    | FrameEof
    | FrameTail(rest: seq<byte>)
    | FrameBad

  function ReadFrame(checked: bool, s: seq<byte>): (r: Frame)
    ensures r.Framed? ==> |r.head| == 3 && |r.rest| + 3 <= |s|
  {
    if s == [] then FrameEof
    else if |s| < 3 then FrameBad
    else
      var header, body := Unpack(s[..3]), s[3..];
      var sum := if checked then 4 else 0;
      if header.IsTailMark() then FrameTail(body)
      else if header.size > COMPRESS_BOUND || |body| < header.size || |body[header.size..]| < sum then FrameBad
      else Framed(s[..3], body[..header.size], body[header.size..][..sum], body[header.size..][sum..])
  }

  /** Decodes a framed block and compares its checksum. */
  function Unframe(f: Format, history: seq<byte>, frame: Frame): (r: Option<seq<byte>>)
    requires frame.Framed?
    ensures r.Some? ==> 1 <= |r.value| <= BLOCK_SIZE
  {
    match f.codec.parse(frame.z)
    case None => None
    case Some(ops) =>
      match Decode(history, ops)
      case None => None
      case Some(payload) =>
        if f.checked && frame.sum != Crc32.Checksum(frame.head + payload) then None else Some(payload)
  }

  function ReadBlock(f: Format, c: Cursor): (r: ReadResult)
    ensures r.Got? ==> |r.next.rest| < |c.rest| && 1 <= |r.payload| <= BLOCK_SIZE
  {
    match ReadFrame(f.checked, c.rest)
    case FrameEof => CleanEof
    case FrameTail(rest) => Tail(rest)
    case FrameBad => Corrupt
    case Framed(head, z, sum, rest) =>
      match Unframe(f, c.history, Framed(head, z, sum, rest))
      case None => Corrupt
      case Some(payload) => Got(Unpack(head), payload, Cursor(rest, c.history + payload))
  }

  function ReadRaw(c: Cursor, n: nat): Option<(seq<byte>, Cursor)> {
    if |c.rest| < n then None else Some((c.rest[..n], c.(rest := c.rest[n..])))
  }

  /** A block header that can be seen without consuming it. */
  function PeekHeader(c: Cursor): Option<BlockHeader> {
    if |c.rest| < 3 then None else Some(Unpack(c.rest[..3]))
  }

  // ---------------------------------------------------------------- reading inverts writing

  lemma HeaderFits(f: Format, dict: seq<byte>, b: Item)
    requires f.codec.Lawful() && b.Block? && b.Ok()
    ensures var h := HeaderOf(f, dict, b);
            h.Fits() && !h.IsTailMark() && h.size <= COMPRESS_BOUND
  {}

  lemma FrameWritten(checked: bool, h: BlockHeader, z: seq<byte>, sum: seq<byte>, tail: seq<byte>)
    requires h.Fits() && !h.IsTailMark() && h.size == |z| <= COMPRESS_BOUND && |sum| == (if checked then 4 else 0)
    ensures ReadFrame(checked, Pack(h) + z + sum + tail) == Framed(Pack(h), z, sum, tail)
  {
    hide Pack, Unpack;
    UnpackPack(h);
    var s := Pack(h) + z + sum + tail;
    assert s[..3] == Pack(h) && s[3..] == z + sum + tail;
    var body := s[3..];
    assert body[..|z|] == z && body[|z|..] == sum + tail;
    assert (sum + tail)[..|sum|] == sum && (sum + tail)[|sum|..] == tail;
  }

  lemma UnframeWritten(f: Format, dict: seq<byte>, payload: seq<byte>, frame: Frame, history: seq<byte>)
    requires f.codec.Lawful() && 1 <= |payload| <= BLOCK_SIZE && EndsWith(history, dict)
    requires frame.Framed? && frame.z == f.codec.compress(dict, payload)
    requires f.checked ==> frame.sum == Crc32.Checksum(frame.head + payload)
    ensures Unframe(f, history, frame) == Some(payload)
  {
    hide Decode, Crc32.Checksum;
    var older := history[..|history| - |dict|];
    assert older + dict == history;
    DecodeMore(older, dict, f.codec.parse(frame.z).value);
  }

  lemma ReadWritten(f: Format, dict: seq<byte>, b: Item, tail: seq<byte>, history: seq<byte>)
    requires f.codec.Lawful() && b.Block? && b.Ok() && EndsWith(history, dict)
    ensures ReadBlock(f, Cursor(ItemBytes(f, dict, b) + tail, history)) ==
            Got(HeaderOf(f, dict, b), b.payload, Cursor(tail, history + b.payload))
    ensures PeekHeader(Cursor(ItemBytes(f, dict, b) + tail, history)) == Some(HeaderOf(f, dict, b))
  {
    hide Pack, Unpack, Unframe, ReadFrame, Crc32.Checksum, EndsWith;
    var h := HeaderOf(f, dict, b);
    var head, z := Pack(h), f.codec.compress(dict, b.payload);
    var sum := if f.checked then Crc32.Checksum(head + b.payload) else [];
    HeaderFits(f, dict, b);
    FrameWritten(f.checked, h, z, sum, tail);
    UnframeWritten(f, dict, b.payload, Framed(head, z, sum, tail), history);
    UnpackPack(h);
    assert (head + z + sum + tail)[..3] == head;
  }

  // ---------------------------------------------------------------- reads only look at what they consume

  lemma ReadFrameLocal(checked: bool, s: seq<byte>, more: seq<byte>)
    requires ReadFrame(checked, s).Framed?
    ensures var r := ReadFrame(checked, s); ReadFrame(checked, s + more) == r.(rest := r.rest + more)
  {
    hide Unpack;
    var size, sum := Unpack(s[..3]).size, if checked then 4 else 0;
    assert (s + more)[..3] == s[..3] && (s + more)[3..] == s[3..] + more;
    var body := s[3..];
    assert (body + more)[..size] == body[..size] && (body + more)[size..] == body[size..] + more;
    var end := body[size..];
    assert (end + more)[..sum] == end[..sum] && (end + more)[sum..] == end[sum..] + more;
  }

  lemma ReadBlockLocal(f: Format, c: Cursor, more: seq<byte>)
    requires ReadBlock(f, c).Got?
    ensures var r := ReadBlock(f, c);
            ReadBlock(f, c.(rest := c.rest + more)) == r.(next := r.next.(rest := r.next.rest + more))
  {
    hide Unpack, Decode, Crc32.Checksum, ReadFrame;
    ReadFrameLocal(f.checked, c.rest, more);
  }

  lemma FrameHead(checked: bool, s: seq<byte>)
    requires ReadFrame(checked, s).Framed?
    ensures |s| >= 3 && ReadFrame(checked, s).head == s[..3]
  {}

  // ---------------------------------------------------------------- what a reader accepts, on the bytes

  /** The bytes in front of the cursor are one block: a header that is no tail mark, as many compressed bytes
      as it announces, and, in a checked stream, four bytes that are the bitwise CRC-32 of the header and the
      decoded bytes. */
  ghost predicate BlockAt(f: Format, c: Cursor, h: BlockHeader, z: seq<byte>, sum: seq<byte>, payload: seq<byte>,
                          rest: seq<byte>) {
    && h.Fits() && h != TAIL_MARK && h.size == |z| <= COMPRESS_BOUND && |sum| == (if f.checked then 4 else 0)
    && c.rest == Pack(h) + z + sum + rest
    && f.codec.parse(z).Some? && Decode(c.history, f.codec.parse(z).value) == Some(payload)
    && (f.checked ==>
          FromLE(sum) == Crc32.Xor(Crc32.Crc(0xffffffff, Pack(h) + payload), 0xffffffff))
  }

  lemma StoredSum(data: seq<byte>, sum: seq<byte>)
    requires |sum| == 4
    ensures sum == Crc32.Checksum(data) <==> FromLE(sum) == Crc32.Xor(Crc32.Crc(0xffffffff, data), 0xffffffff)
  {
    hide Crc32.Xor, Crc32.Crc, ToLE, FromLE, Crc32.Pow2;
    Pow256Values();
    Crc32.Pow2Values();
    Crc32.CrcInjective(0xffffffff, 0xffffffff, data);
    Crc32.XorBelow(Crc32.Crc(0xffffffff, data), 0xffffffff, 32);
    ToFromLE(sum);
    FromToLE(Crc32.Xor(Crc32.Crc(0xffffffff, data), 0xffffffff), 4);
  }

  /** A block is returned if and only if the bytes in front of the cursor are one, with exactly its header, its
      decoded bytes and the position behind it. */
  lemma ReadBlockMeaning(f: Format, c: Cursor, h: BlockHeader, payload: seq<byte>, next: Cursor)
    ensures ReadBlock(f, c) == Got(h, payload, next) <==>
            next.history == c.history + payload && exists z, sum :: BlockAt(f, c, h, z, sum, payload, next.rest)
  {
    hide Pack, Unpack, Decode, Crc32.Checksum, Crc32.Xor, Crc32.Crc, FromLE;
    if ReadBlock(f, c) == Got(h, payload, next) {
      BlockFound(f, c, h, payload, next);
    }
    forall z, sum | next.history == c.history + payload && BlockAt(f, c, h, z, sum, payload, next.rest)
      ensures ReadBlock(f, c) == Got(h, payload, next)
    {
      BlockTaken(f, c, h, z, sum, payload, next.rest);
    }
  }

  lemma BlockFound(f: Format, c: Cursor, h: BlockHeader, payload: seq<byte>, next: Cursor)
    requires ReadBlock(f, c) == Got(h, payload, next)
    ensures next.history == c.history + payload && exists z, sum :: BlockAt(f, c, h, z, sum, payload, next.rest)
  {
    hide Pack, Unpack, Decode, Crc32.Checksum, Crc32.Xor, Crc32.Crc, FromLE;
    var frame := ReadFrame(f.checked, c.rest);
    PackUnpack(frame.head);
    FrameIs(f.checked, c.rest);
    if f.checked { StoredSum(frame.head + payload, frame.sum); }
    assert BlockAt(f, c, h, frame.z, frame.sum, payload, next.rest);
  }

  lemma FrameIs(checked: bool, s: seq<byte>)
    requires ReadFrame(checked, s).Framed?
    ensures var r := ReadFrame(checked, s); var h := Unpack(r.head);
      s == r.head + r.z + r.sum + r.rest && h != TAIL_MARK && h.size == |r.z| <= COMPRESS_BOUND
    ensures |ReadFrame(checked, s).sum| == if checked then 4 else 0
  {
    hide Unpack;
    Cuts(s, Unpack(s[..3]).size, if checked then 4 else 0);
  }

  lemma Cuts(s: seq<byte>, n: nat, k: nat)
    requires |s| >= 3 + n + k
    ensures var body := s[3..]; s == s[..3] + body[..n] + body[n..][..k] + body[n..][k..]
  {
    var a, b, c, d := s[..3], s[3..][..n], s[3..][n..][..k], s[3..][n..][k..];
    Halved(s, 3);
    Halved(s[3..], n);
    Halved(s[3..][n..], k);
    ConcatAssoc(a, b, c + d);
    ConcatAssoc(a + b, c, d);
  }

  lemma Halved(s: seq<byte>, n: nat)
    requires n <= |s|
    ensures s == s[..n] + s[n..]
  {}

  lemma BlockTaken(f: Format, c: Cursor, h: BlockHeader, z: seq<byte>, sum: seq<byte>, payload: seq<byte>,
                   rest: seq<byte>)
    requires BlockAt(f, c, h, z, sum, payload, rest)
    ensures ReadBlock(f, c) == Got(h, payload, Cursor(rest, c.history + payload))
  {
    hide Pack, Unpack, Decode, Crc32.Checksum, Crc32.Xor, Crc32.Crc, FromLE, ReadFrame;
    FrameWritten(f.checked, h, z, sum, rest);
    UnpackPack(h);
    if f.checked { StoredSum(Pack(h) + payload, sum); }
  }

  /** A clean end is the end of the file, and a tail mark its three bytes; what is no block and neither of
      these is corrupt. */
  lemma ReadBlockEnds(f: Format, c: Cursor, rest: seq<byte>)
    ensures ReadBlock(f, c) == CleanEof <==> c.rest == []
    ensures ReadBlock(f, c) == Tail(rest) <==> c.rest == Pack(TAIL_MARK) + rest
  {
    hide Pack, Unpack, Decode, Crc32.Checksum;
    UnpackPack(TAIL_MARK);
    if c.rest == Pack(TAIL_MARK) + rest {
      assert c.rest[..3] == Pack(TAIL_MARK) && c.rest[3..] == rest;
    } else if |c.rest| >= 3 {
      PackUnpack(c.rest[..3]);
      assert c.rest == c.rest[..3] + c.rest[3..];
    }
  }

  /** A block of a checked stream whose stored checksum is replaced by another value is corrupt. */
  lemma ChecksumDamageDetected(f: Format, dict: seq<byte>, b: Item, sum: seq<byte>, tail: seq<byte>, history: seq<byte>)
    requires f.checked && f.codec.Lawful() && b.Block? && b.Ok() && EndsWith(history, dict)
    requires |sum| == 4
    ensures var n := |ItemBytes(f, dict, b)| - 4;
      n >= 0 && (sum != ItemBytes(f, dict, b)[n..] ==>
                   ReadBlock(f, Cursor(ItemBytes(f, dict, b)[..n] + sum + tail, history)) == Corrupt)
  {
    hide Pack, Unpack, Unframe, ReadFrame, Crc32.Checksum, EndsWith;
    var h := HeaderOf(f, dict, b);
    var head, z := Pack(h), f.codec.compress(dict, b.payload);
    WrittenParts(f, dict, b);
    HeaderFits(f, dict, b);
    FrameWritten(true, h, z, sum, tail);
    UnframeWritten(f, dict, b.payload, Framed(head, z, Crc32.Checksum(head + b.payload), tail), history);
    var good := Crc32.Checksum(head + b.payload);
    if sum != good { OtherSum(f, history, head, z, b.payload, good, sum, tail); }
  }

  lemma WrittenParts(f: Format, dict: seq<byte>, b: Item)
    requires f.checked && b.Block?
    ensures var s := ItemBytes(f, dict, b); var n := |s| - 4;
      && n >= 0 && s[..n] == Pack(HeaderOf(f, dict, b)) + f.codec.compress(dict, b.payload)
      && s[n..] == Crc32.Checksum(Pack(HeaderOf(f, dict, b)) + b.payload)
  {
    hide Pack, Crc32.Checksum;
    var front := Pack(HeaderOf(f, dict, b)) + f.codec.compress(dict, b.payload);
    var sum := Crc32.Checksum(Pack(HeaderOf(f, dict, b)) + b.payload);
    assert ItemBytes(f, dict, b) == front + sum;
  }

  lemma OtherSum(f: Format, history: seq<byte>, head: seq<byte>, z: seq<byte>, payload: seq<byte>, good: seq<byte>,
                 sum: seq<byte>, rest: seq<byte>)
    requires f.checked && Unframe(f, history, Framed(head, z, good, rest)) == Some(payload) && sum != good
    ensures Unframe(f, history, Framed(head, z, sum, rest)) == None
  {
    hide Decode, Crc32.Checksum;
  }

  /** Damage in header or data: the stored checksum is the one that was written, and what is found in its place
      frames and decodes, but differs from what was written within four consecutive bytes of header and
      decoded data. Then the block is corrupt. */
  lemma DamageDetected(f: Format, dict: seq<byte>, b: Item, h: BlockHeader, z: seq<byte>, payload: seq<byte>,
                       pre: seq<byte>, mid: seq<byte>, mid': seq<byte>, post: seq<byte>, tail: seq<byte>,
                       history: seq<byte>)
    requires f.checked && b.Block? && h.Fits() && h != TAIL_MARK && h.size == |z| <= COMPRESS_BOUND
    requires f.codec.parse(z).Some? && Decode(history, f.codec.parse(z).value) == Some(payload)
    requires Pack(HeaderOf(f, dict, b)) + b.payload == pre + mid + post && Pack(h) + payload == pre + mid' + post
    requires |mid| == |mid'| <= 4 && mid != mid'
    ensures var n := |ItemBytes(f, dict, b)| - 4;
      n >= 0 && ReadBlock(f, Cursor(Pack(h) + z + ItemBytes(f, dict, b)[n..] + tail, history)) == Corrupt
  {
    hide Pack, Unpack, Decode, Crc32.Checksum, ReadFrame;
    WrittenParts(f, dict, b);
    Crc32.BurstDetected(pre, mid, mid', post);
    FrameWritten(true, h, z, Crc32.Checksum(pre + mid + post), tail);
  }
}
