/** The read side of Lz4Stream: blocks decoded through the ring, with sticky terminal states. */
module Lz4Reader {
  import opened Bytes
  import opened Lz4Codec
  import opened BlockStream
  import Crc32
  import P = ProcFiles

  class Reader {
    const codec: Codec
    const file: seq<byte>
    const ring: RingDecoder
    var pos: nat
    var checked: bool
    var eofClean: bool
    var tailSeen: bool
    /** The block last returned by ReadBlock. */
    var block: seq<byte>

    ghost function Repr(): set<object> {
      {this, ring, ring.ring}
    }

    ghost predicate Valid()
      reads Repr()
    {
      && pos <= |file|
      && (eofClean && !tailSeen ==> ring.Valid())
    }

    /** No tail mark has been read and nothing has failed. */
    predicate Live()
      reads this
    {
      eofClean && !tailSeen
    }

    ghost function Fmt(): Format
      reads this`checked
    {
      Format(codec, checked)
    }

    /** Where the reader stands. */
    ghost function At(): Cursor
      requires pos <= |file|
      reads this`pos, ring`history
    {
      Cursor(file[pos..], ring.history)
    }

    constructor (codec: Codec, file: seq<byte>)
      ensures Valid() && fresh(Repr()) && Live() && At() == Cursor(file, []) && !checked
      ensures this.codec == codec && this.file == file
    {
      this.codec, this.file := codec, file;
      ring := new RingDecoder();
      pos, checked, eofClean, tailSeen, block := 0, false, true, false, [];
    }

    /** fread: as many of n bytes as the file still has. */
    method Fread(n: nat) returns (b: seq<byte>)
      requires pos <= |file|
      modifies this`pos
      ensures pos == old(pos) + |b| <= |file|
      ensures b == if n <= |file[old(pos)..]| then file[old(pos)..][..n] else file[old(pos)..]
    {
      var end := if pos + n <= |file| then pos + n else |file|;
      b := file[pos..end];
      pos := end;
    }

    /** Looks at the next bytes and comes back. */
    method Peek(n: nat) returns (b: seq<byte>)
      requires pos <= |file|
      modifies this`pos
      ensures pos == old(pos)
      ensures b == if n <= |file[pos..]| then file[pos..][..n] else file[pos..]
    {
      var save := pos;
      b := Fread(n);
      pos := save;
    }

    /** Takes the parts of the next block off the file. */
    method ReadFrame() returns (frame: Frame)
      requires Valid() && Live()
      modifies this`pos, this`eofClean, this`tailSeen
      ensures pos <= |file|
      ensures frame == BlockStream.ReadFrame(checked, old(file[pos..]))
      ensures Live() <==> frame.Framed? || frame.FrameEof?
      ensures match frame
              case Framed(_, _, _, rest) => file[pos..] == rest
              case FrameEof => pos == old(pos)
              case FrameTail(rest) => eofClean && tailSeen && file[pos..] == rest
              case FrameBad => !eofClean
    {
      hide Unpack;
      ghost var start := file[pos..];
      var head := Fread(3);
      if |head| != 3 {
        eofClean := |head| == 0;
        return if |head| == 0 then FrameEof else FrameBad;
      }
      ghost var body := file[pos..];
      assert body == start[3..];
      var header := Unpack(head);
      if header.IsTailMark() {
        tailSeen := true;
        return FrameTail(file[pos..]);
      }
      if header.size > COMPRESS_BOUND {
        eofClean := false;
        return FrameBad;
      }
      var z := Fread(header.size);
      if |z| != header.size {
        eofClean := false;
        return FrameBad;
      }
      ghost var end := file[pos..];
      assert end == body[header.size..];
      var stored := [];
      if checked {
        stored := Fread(4);
        if |stored| != 4 {
          eofClean := false;
          return FrameBad;
        }
      }
      assert file[pos..] == end[|stored|..];
      frame := Framed(head, z, stored, file[pos..]);
    }

    /** Reads and decodes one block. After a tail mark or a failure every call fails and nothing
        moves. */
    method ReadBlock() returns (ok: bool, header: BlockHeader)
      requires Valid()
      modifies Repr()
      ensures Valid() && checked == old(checked)
      ensures !old(Live()) ==> !ok && pos == old(pos) && eofClean == old(eofClean) && tailSeen == old(tailSeen)
      ensures old(Live()) ==>
        match BlockStream.ReadBlock(Fmt(), old(At()))
        case Got(h, payload, next) => ok && header == h && block == payload && At() == next && Live()
        case CleanEof => !ok && Live() && pos == old(pos)
        case Tail(rest) => !ok && eofClean && tailSeen && file[pos..] == rest
        case Corrupt => !ok && !eofClean
    {
      hide Unpack, Decode, Crc32.Checksum, BlockStream.ReadFrame, RingDecoder.Holds;
      header := TAIL_MARK;
      if !eofClean { return false, header; }
      if tailSeen { return false, header; }
      block := [];
      var frame := ReadFrame();
      if !frame.Framed? { return false, header; }
      var ops := codec.parse(frame.z);
      if ops.None? {
        eofClean := false;
        return false, header;
      }
      var decoded := ring.Next(ops.value);
      if decoded.None? {
        eofClean := false;
        return false, header;
      }
      if checked && Crc32.Checksum(frame.head + decoded.value) != frame.sum {
        eofClean := false;
        return false, header;
      }
      header := Unpack(frame.head);
      block, ok := decoded.value, true;
    }

    /** The stream must end exactly at its tail mark; a failure is remembered. */
    method VerifyPhysicalEof() returns (ok: bool)
      requires Valid()
      modifies this`pos, this`eofClean
      ensures Valid()
      ensures ok == old(tailSeen && eofClean && pos == |file|)
      ensures ok == (tailSeen && eofClean)
    {
      if !tailSeen {
        eofClean := false;
        return false;
      }
      if !eofClean { return false; }
      var trailing := Fread(1);
      if |trailing| != 0 {
        eofClean := false;
        return false;
      }
      ok := true;
    }

    method GetFile() returns (r: Option<P.ProcFile>)
      requires Valid() && Live()
      modifies Repr()
      ensures Valid() && checked == old(checked)
      ensures match P.GetFile(Fmt(), old(At()))
              case None => r == None
              case Some((pf, c)) => r == Some(pf) && Live() && At() == c
    {
      hide BlockStream.ReadBlock, FromLE, P.DecodeFile, P.Gather, P.GetFile, RingDecoder.Holds;
      ghost var start := At();
      var prefix := Fread(4);
      var size := FromLE(prefix);
      P.GetFileUnfold(Fmt(), start, size);
      if |prefix| != 4 { return None; }
      assert At().rest == start.rest[4..];
      if size > P.MAX_PROC_FILE_SIZE { return None; }
      if size < P.HEADER_SIZE { return None; }
      var bytes := Gather(size);
      if bytes.None? { return None; }
      if size != P.HEADER_SIZE + FromLE(bytes.value[..4]) { return None; }
      r := Some(P.DecodeFile(bytes.value));
    }

    method Gather(size: nat) returns (r: Option<seq<byte>>)
      requires Valid() && Live()
      modifies Repr()
      ensures Valid() && checked == old(checked)
      ensures match P.Gather(Fmt(), old(At()), size, [])
              case None => r == None
              case Some((bytes, c)) => r == Some(bytes) && Live() && At() == c
    {
      hide BlockStream.ReadBlock, P.Gather;
      ghost var start := At();
      var bytes: seq<byte> := [];
      while |bytes| < size
        invariant Valid() && Live() && checked == old(checked) && |bytes| <= size
        invariant P.Gather(Fmt(), start, size, []) == P.Gather(Fmt(), At(), size, bytes)
        decreases size - |bytes|
      {
        P.GatherNext(Fmt(), At(), size, bytes);
        var ok, header := ReadBlock();
        if !ok { return None; }
        if header.blockType != FILE { return None; }
        if (header.prevCont != 0) != (bytes != []) { return None; }
        if |block| > size - |bytes| { return None; }
        bytes := bytes + block;
      }
      P.GatherDone(Fmt(), At(), size, bytes);
      r := Some(bytes);
    }
  }
}
