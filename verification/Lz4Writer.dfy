/** The write side of Lz4Stream: a two-slot block buffer over a stdio file. */
module Lz4Writer {
  import opened Bytes
  import opened Lz4Codec
  import opened BlockStream
  import Crc32
  import P = ProcFiles
  import W = WriterState

  const INT_MAX: nat := 0x7fff_ffff

  /** A stdio output stream: a write may be short, and a short write sets the error indicator for
      good. */
  class StdFile {
    var content: seq<byte>
    var error: bool
    /** A sync has failed. */
    var refused: bool

    constructor ()
      ensures content == [] && !error && !refused
    {
      content, error, refused := [], false, false;
    }

    method Write(s: seq<byte>) returns (n: nat)
      modifies this
      ensures n <= |s| && content == old(content) + s[..n]
      ensures error == (old(error) || n < |s|) && refused == old(refused)
    {
      var k: int := *;
      n := if 0 <= k <= |s| then k else |s|;
      content := content + s[..n];
      error := error || n < |s|;
    }

    /** Pushes buffered bytes down; this can fail for reasons of its own, and need not set the
        indicator. */
    method Sync() returns (ok: bool)
      modifies this`error, this`refused
      ensures ok ==> error == old(error)
      ensures old(error) ==> error
      ensures refused == (old(refused) || !ok)
    {
      var sticks: bool := *;
      ok := *;
      if !ok && sticks { error := true; }
      if !ok { refused := true; }
    }
  }

  /** A fixed buffer with a fill mark. */
  class Block {
    const buf: array<byte>
    var length: nat

    ghost predicate Valid()
      reads this
    {
      length <= buf.Length == BLOCK_SIZE
    }

    /** Bytes written since the last Clear. */
    ghost function Data(): seq<byte>
      requires Valid()
      reads this, buf
    {
      buf[..length]
    }

    constructor ()
      ensures Valid() && length == 0 && fresh(buf)
    {
      buf := new byte[BLOCK_SIZE];
      length := 0;
    }

    method Clear()
      requires buf.Length == BLOCK_SIZE
      modifies this
      ensures Valid() && length == 0
    {
      length := 0;
    }

    method Write(s: seq<byte>) returns (ok: bool)
      requires Valid()
      modifies this`length, buf
      ensures Valid() && ok == (old(length) + |s| <= BLOCK_SIZE)
      ensures Data() == if ok then old(Data()) + s else old(Data())
    {
      ok := length + |s| <= BLOCK_SIZE;
      if !ok { return; }
      ghost var before := buf[..length];
      for i := 0 to |s|
        invariant length == old(length)
        invariant buf[..length] == before
        invariant buf[length..length + i] == s[..i]
      {
        buf[length + i] := s[i];
      }
      length := length + |s|;
      assert buf[..length] == before + s;
    }
  }

  class Writer {
    const codec: Codec
    const out: StdFile
    const slot0: Block
    const slot1: Block
    var index: nat
    var blockType: nat
    var checked: bool
    var open: bool
    var sizeReal: nat
    var sizeFile: nat
    /** How many bytes of the other slot the encoder keeps as its dictionary. */
    var dictLength: nat
    ghost var items: seq<Item>

    ghost function Repr(): set<object> {
      {this, out, slot0, slot0.buf, slot1, slot1.buf}
    }

    function Current(): Block
      reads this`index
    {
      if index % 2 == 0 then slot0 else slot1
    }

    function Other(): Block
      reads this`index
    {
      if index % 2 == 0 then slot1 else slot0
    }

    ghost function Fmt(): Format
      reads this`checked
    {
      Format(codec, checked)
    }

    ghost predicate Slots()
      reads Repr()
    {
      && slot0 != slot1 && slot0.buf != slot1.buf
      && slot0.Valid() && slot1.Valid()
      && Other().length == 0
    }

    /** The double buffer keeps the encoder's dictionary: the other slot still holds the source bytes
        of the previous block. */
    ghost predicate DictKept()
      requires Slots()
      reads Repr()
    {
      && dictLength <= BLOCK_SIZE
      && Other().buf[..dictLength] == DictAfter([], items)
    }

    ghost predicate FileComplete()
      reads this, out
    {
      && out.content == StreamBytes(Fmt(), [], items)
      && sizeFile == |out.content| && sizeReal == |History(items)|
    }

    ghost predicate Valid()
      reads Repr()
    {
      && Slots() && DictKept() && AllOk(items)
      && codec.Lawful() && blockType < TYPE_MAX
      && (index == 0 ==> forall i :: 0 <= i < |items| ==> items[i].Raw?)
      && (!out.error ==> FileComplete())
    }

    /** Everything accepted so far. */
    ghost function State(): W.State
      requires Slots()
      reads Repr()
    {
      W.State(items, Current().Data(), blockType)
    }

    constructor (codec: Codec)
      requires codec.Lawful()
      ensures Valid() && fresh(Repr()) && State() == W.START && !checked && open && !out.error
      ensures this.codec == codec
    {
      this.codec := codec;
      out := new StdFile();
      slot0 := new Block();
      slot1 := new Block();
      index, blockType, checked, open := 0, PROCESS, false, true;
      sizeReal, sizeFile, dictLength := 0, 0, 0;
      items := [];
    }

    /** Header, compressed bytes and checksum, in that order; stops at the first short write. */
    method Emit(header: seq<byte>, z: seq<byte>, sum: seq<byte>) returns (ok: bool)
      requires !out.error
      modifies out
      ensures ok == !out.error && out.refused == old(out.refused)
      ensures ok ==> out.content == old(out.content) + (header + z + sum)
    {
      ghost var before := out.content;
      var n := out.Write(header);
      if n != |header| { return false; }
      n := out.Write(z);
      if n != |z| { return false; }
      n := out.Write(sum);
      if n != |sum| { return false; }
      assert before + header + z + sum == before + (header + z + sum);
      ok := true;
    }

    /** Compresses the current block to the file and moves to the other slot. */
    method Compress(prevCont: nat, t: nat) returns (ok: bool)
      requires Valid() && !out.error && Current().length > 0 && prevCont < 2 && t < TYPE_MAX
      modifies Repr()
      ensures Valid() && blockType == old(blockType) && checked == old(checked) && open == old(open)
      ensures ok == !out.error && out.refused == old(out.refused)
      ensures ok ==>
        State() == W.State(old(items) + [BlockStream.Block(prevCont, t, old(Current().Data()))], [], blockType)
    {
      hide StreamBytes, DictAfter, History, Pack, Crc32.Checksum, EndsWith;
      var block := Current();
      var dict := Other().buf[..dictLength];
      var payload := block.buf[..block.length];
      ghost var item := BlockStream.Block(prevCont, t, payload);
      Appended(Fmt(), items, item);
      var z := codec.compress(dict, payload);
      var header := Pack(BlockHeader(prevCont, t, |z|));
      var sum := if checked then Crc32.Checksum(header + payload) else [];
      ok := Emit(header, z, sum);
      if ok {
        Advance(item, 3 + |z| + |sum|);
      }
    }

    /** The block just written becomes the dictionary of the next one, in the other slot. */
    method Advance(ghost item: Item, written: nat)
      requires Slots() && AllOk(items) && codec.Lawful() && blockType < TYPE_MAX && !out.error
      requires item.Block? && item.Ok() && item.payload == Current().Data()
      requires DictAfter([], items + [item]) == item.payload
      requires out.content == StreamBytes(Fmt(), [], items + [item])
      requires sizeFile + written == |out.content| && sizeReal + |item.payload| == |History(items + [item])|
      modifies this, slot0, slot1
      ensures Valid() && blockType == old(blockType) && checked == old(checked) && open == old(open)
      ensures State() == W.State(old(items) + [item], [], blockType)
    {
      hide StreamBytes, DictAfter, History, EndsWith, Codec.Lawful;
      var block := Current();
      sizeReal := sizeReal + block.length;
      sizeFile := sizeFile + written;
      dictLength := block.length;
      block.Clear();
      index := index + 1;
      items := items + [item];
    }

    static lemma Appended(f: Format, items: seq<Item>, item: Item)
      ensures StreamBytes(f, [], items + [item]) == StreamBytes(f, [], items) + ItemBytes(f, DictAfter([], items), item)
      ensures DictAfter([], items + [item]) == Dict(DictAfter([], items), item)
      ensures History(items + [item]) == History(items) + (if item.Block? then item.payload else [])
    {
      hide ItemBytes;
      StreamBytesConcat(f, [], items, [item]);
      HistoryConcat(items, [item]);
      assert [item][1..] == [];
      var dict := DictAfter([], items);
      assert StreamBytes(f, dict, [item]) == ItemBytes(f, dict, item) + [];
      assert History([item]) == (if item.Block? then item.payload else []) + [];
    }

    /** Seals what is buffered. Even an empty flush fails once a write has been short. */
    method Flush() returns (ok: bool)
      requires Valid()
      modifies Repr()
      ensures Valid() && blockType == old(blockType) && checked == old(checked) && open == old(open)
      ensures old(out.error) ==> out.error
      ensures ok == (open && !out.error) && out.refused == old(out.refused)
      ensures ok ==> State() == W.Flush(old(State()))
    {
      if !open || out.error { return false; }
      if Current().length == 0 { return true; }
      ok := Compress(0, blockType);
    }

    method SetBlock(t: nat) returns (ok: bool)
      requires Valid()
      modifies Repr()
      ensures Valid() && checked == old(checked) && open == old(open)
      ensures old(out.error) ==> out.error
      ensures ok ==> State() == W.SetBlock(old(State()), t)
      ensures !ok ==> t >= TYPE_MAX || !open || out.error
      ensures t >= TYPE_MAX || !open ==> !ok && State() == old(State())
    {
      if t >= TYPE_MAX || !open { return false; }
      if t != blockType && Current().length != 0 {
        ok := Flush();
        if !ok { return; }
      }
      blockType := t;
      ok := true;
    }

    /** The checksum layout may only change before the first compressed block. */
    method EnableBlockChecksums(enabled: bool) returns (ok: bool)
      requires Valid()
      modifies this`checked
      ensures Valid() && State() == old(State()) && open == old(open)
      ensures ok == (open && (old(checked) == enabled || (index == 0 && Current().length == 0)))
      ensures checked == if ok then enabled else old(checked)
    {
      if !open { return false; }
      if checked == enabled { return true; }
      if index != 0 || Current().length != 0 { return false; }
      RawOnly(Format(codec, checked), Format(codec, enabled), [], items);
      checked, ok := enabled, true;
    }

    static lemma {:induction false} RawOnly(f: Format, g: Format, dict: seq<byte>, items: seq<Item>)
      requires forall i :: 0 <= i < |items| ==> items[i].Raw?
      ensures StreamBytes(f, dict, items) == StreamBytes(g, dict, items)
      decreases items
    {
      if items != [] { RawOnly(f, g, dict, items[1..]); }
    }

    static lemma PiecesOfRest(t: nat, first: nat, later: nat, s: seq<byte>)
      requires s != []
      ensures var j := if |s| < BLOCK_SIZE then |s| else BLOCK_SIZE;
              W.Pieces(first, later, t, W.Chunks(s))
              == [BlockStream.Block(first, t, s[..j])] + W.Pieces(later, later, t, W.Chunks(s[j..]))
    {
      var j := if |s| < BLOCK_SIZE then |s| else BLOCK_SIZE;
      if j == |s| {
        assert s[..j] == s && s[j..] == [];
      }
      assert W.Chunks(s)[0] == s[..j] && W.Chunks(s)[1..] == W.Chunks(s[j..]);
    }

    /** One more piece of s, starting at m, as a block of its own. */
    method WritePiece(s: seq<byte>, m: nat, prevCont: nat, t: nat) returns (ok: bool, m': nat)
      requires Valid() && open && !out.error && Current().length == 0 && m < |s| && prevCont < 2 && t < TYPE_MAX
      modifies Repr()
      ensures Valid() && blockType == old(blockType) && checked == old(checked) && open
      ensures ok == !out.error
      ensures ok ==> m' == (if |s| - m < BLOCK_SIZE then |s| else m + BLOCK_SIZE)
      ensures ok ==> State() == W.State(old(items) + [BlockStream.Block(prevCont, t, s[m..m'])], [], blockType)
    {
      hide StreamBytes, DictAfter, History, Codec.Lawful;
      m' := m + (if |s| - m < BLOCK_SIZE then |s| - m else BLOCK_SIZE);
      var block := Current();
      block.Clear();
      var _ := block.Write(s[m..m']);
      assert Current().Data() == s[m..m'];
      ok := Compress(prevCont, t);
    }

    method Write(s: seq<byte>) returns (ok: bool)
      requires Valid()
      modifies Repr()
      ensures Valid() && blockType == old(blockType) && checked == old(checked) && open == old(open)
      ensures old(out.error) ==> out.error && (s != [] ==> !ok)
      ensures ok ==> State() == W.Write(old(State()), s)
      ensures !ok ==> |s| > INT_MAX || !open || out.error
    {
      hide StreamBytes, DictAfter, History, Codec.Lawful, W.Pieces, W.Chunks;
      if !open || |s| > INT_MAX { return false; }
      if |s| == 0 { return true; }
      if out.error { return false; }
      if |s| <= BLOCK_SIZE - Current().length {
        Append(s);
        return true;
      }
      ok := Flush();
      if !ok { return; }
      if |s| < BLOCK_SIZE {
        assert [] + s == s;
        Append(s);
        return;
      }
      ok := WriteLong(s);
    }

    /** Bytes that fit the current block. */
    method Append(s: seq<byte>)
      requires Valid() && |s| <= BLOCK_SIZE - Current().length
      modifies Repr()
      ensures Valid() && State() == old(State()).(pending := old(State()).pending + s)
      ensures checked == old(checked) && open == old(open) && out.error == old(out.error)
    {
      hide StreamBytes, DictAfter, History, Codec.Lawful;
      var _ := Current().Write(s);
    }

    /** A record of BLOCK_SIZE bytes or more, cut into blocks. */
    method WriteLong(s: seq<byte>) returns (ok: bool)
      requires Valid() && open && !out.error && Current().length == 0
      modifies Repr()
      ensures Valid() && blockType == old(blockType) && checked == old(checked) && open
      ensures ok == !out.error
      ensures ok ==> State() == W.State(old(items) + W.Pieces(0, 0, blockType, W.Chunks(s)), [], blockType)
    {
      hide StreamBytes, DictAfter, History, Codec.Lawful, W.Pieces, W.Chunks;
      ghost var goal := items + W.Pieces(0, 0, blockType, W.Chunks(s));
      var m := 0;
      while m < |s|
        invariant Valid() && open && !out.error && Current().length == 0 && m <= |s|
        invariant blockType == old(blockType) && checked == old(checked)
        invariant items + W.Pieces(0, 0, blockType, W.Chunks(s[m..])) == goal
      {
        PiecesOfRest(blockType, 0, 0, s[m..]);
        ghost var m0 := m;
        ok, m := WritePiece(s, m, 0, blockType);
        if !ok { return; }
        assert s[m0..][..m - m0] == s[m0..m] && s[m0..][m - m0..] == s[m..];
      }
      NoPieces(0, 0, blockType, s[m..]);
      ok := true;
    }

    static lemma NoPieces(first: nat, later: nat, t: nat, s: seq<byte>)
      requires s == []
      ensures W.Pieces(first, later, t, W.Chunks(s)) == []
    {}

    /** Writes s as blocks of its own; every block after the first is marked a continuation. */
    method WriteBlock(s: seq<byte>, t: nat) returns (ok: bool)
      requires Valid()
      modifies Repr()
      ensures Valid() && blockType == old(blockType) && checked == old(checked) && open == old(open)
      ensures old(out.error) ==> out.error && !ok
      ensures ok ==> State() == W.WriteBlock(old(State()), s, t)
      ensures !ok ==> |s| > INT_MAX || t >= TYPE_MAX || !open || out.error
    {
      hide StreamBytes, DictAfter, History, Codec.Lawful, W.Pieces, W.Chunks;
      if t >= TYPE_MAX || !open || |s| > INT_MAX { return false; }
      ok := Flush();
      if !ok { return; }
      ghost var goal := items + W.Pieces(0, 1, t, W.Chunks(s));
      var m, prevCont := 0, 0;
      while m < |s|
        invariant Valid() && open && !out.error && Current().length == 0 && m <= |s| && prevCont < 2 && ok
        invariant blockType == old(blockType) && checked == old(checked)
        invariant items + W.Pieces(prevCont, 1, t, W.Chunks(s[m..])) == goal
      {
        PiecesOfRest(t, prevCont, 1, s[m..]);
        ghost var m0 := m;
        ok, m := WritePiece(s, m, prevCont, t);
        if !ok { return; }
        assert s[m0..][..m - m0] == s[m0..m] && s[m0..][m - m0..] == s[m..];
        prevCont := 1;
      }
      NoPieces(prevCont, 1, t, s[m..]);
    }

    /** A raw protocol field; buffered block bytes are sealed in front of it. Returns the number of
        bytes written, or -1. */
    method WriteRaw(s: seq<byte>) returns (rc: int)
      requires Valid()
      modifies Repr()
      ensures Valid() && blockType == old(blockType) && checked == old(checked) && open == old(open)
      ensures old(out.error) ==> out.error && (s != [] ==> rc != |s|)
      ensures rc == |s| ==> State() == W.WriteRaw(old(State()), s)
      ensures rc == |s| && s != [] ==> !out.error
      ensures old(Current().length) == 0 ==> index == old(index)
      ensures rc != |s| ==> |s| > INT_MAX || !open || out.error
    {
      hide StreamBytes, DictAfter, History, Codec.Lawful;
      if !open || |s| > INT_MAX { return -1; }
      if |s| == 0 { return 0; }
      if out.error { return -1; }
      if Current().length != 0 {
        var ok := Flush();
        if !ok { return -1; }
      }
      rc := AppendRaw(s);
    }

    method AppendRaw(s: seq<byte>) returns (n: nat)
      requires Valid() && !out.error && Current().length == 0 && s != []
      modifies this`sizeFile, this`items, out
      ensures Valid() && (n == |s|) == !out.error
      ensures n == |s| ==> State() == W.State(old(items) + [Raw(s)], [], blockType)
    {
      hide StreamBytes, DictAfter, History, Codec.Lawful, ItemBytes;
      Appended(Fmt(), items, Raw(s));
      RawFacts(Fmt(), DictAfter([], items), s);
      assert History(items) + [] == History(items);
      n := out.Write(s);
      sizeFile := sizeFile + n;
      if n == |s| {
        assert s[..n] == s;
        items := items + [Raw(s)];
      }
    }

    static lemma RawFacts(f: Format, dict: seq<byte>, s: seq<byte>)
      ensures ItemBytes(f, dict, Raw(s)) == s && Dict(dict, Raw(s)) == dict
    {}

    /** Appends a /proc file. A file that no reader would accept is refused before anything changes. */
    method PutFile(pf: P.ProcFile) returns (ok: bool)
      requires Valid()
      modifies Repr()
      ensures Valid() && blockType == old(blockType) && checked == old(checked) && open == old(open)
      ensures old(out.error) ==> out.error && !ok
      ensures ok ==> P.Size(pf) <= P.MAX_PROC_FILE_SIZE && State() == P.PutFile(old(State()), pf)
      ensures !ok ==> P.Size(pf) > P.MAX_PROC_FILE_SIZE || !open || out.error
      ensures P.Size(pf) > P.MAX_PROC_FILE_SIZE ==> State() == old(State()) && out.content == old(out.content)
    {
      hide StreamBytes, DictAfter, History, Codec.Lawful, ToLE, W.Pieces, W.Chunks, W.WriteBlock, W.WriteRaw, W.Flush;
      if !open { return false; }
      var size := P.Size(pf);
      if size > P.MAX_PROC_FILE_SIZE { return false; }
      ok := Flush();
      if !ok { return; }
      var rc := WriteRaw(ToLE(size, 4));
      if rc != 4 { return false; }
      ok := WriteBlock(P.FileBytes(pf), FILE);
    }

    /** Flushes the last block and pushes it to the disk. */
    method Sync() returns (ok: bool)
      requires Valid()
      modifies Repr()
      ensures Valid() && open == old(open) && checked == old(checked)
      ensures old(out.error) ==> out.error && !ok
      ensures ok ==> open && !out.error && State() == W.Flush(old(State()))
      ensures old(out.refused) ==> out.refused
      ensures open && !out.error && !out.refused ==> ok
      ensures ok ==> out.refused == old(out.refused)
    {
      ok := Flush();
      if !ok { return; }
      ok := out.Sync();
    }

    /** Flushes and closes; the result is the only report of bytes lost while closing. */
    method Close() returns (ok: bool)
      requires Valid()
      modifies Repr()
      ensures Valid() && !open && checked == old(checked)
      ensures old(open && out.error) ==> !ok
      ensures old(out.error) ==> out.error
      ensures old(open) && ok ==> !out.error && State() == W.Flush(old(State()))
      ensures old(out.refused) ==> out.refused
      ensures !out.error && !out.refused ==> ok
      ensures ok ==> out.refused == old(out.refused)
    {
      if !open { return true; }
      ok := Flush();
      var closed := out.Sync();
      open, ok := false, ok && closed;
    }
  }
}
