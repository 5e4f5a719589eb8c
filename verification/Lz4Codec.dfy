/** The LZ4 block contract Arthur relies on, and the ring in which the reader decodes.

    A compressed block is a list of literals and of copies from earlier output; match finding is not
    part of this model. `Decode` gives a block its meaning against the whole output history. */
module Lz4Codec {
  import opened Bytes

  const BLOCK_SIZE: nat := 0x1_0000
  const MAX_DISTANCE: nat := 0xffff
  /** LZ4_COMPRESSBOUND(BLOCK_SIZE) */
  const COMPRESS_BOUND: nat := BLOCK_SIZE + BLOCK_SIZE / 255 + 16
  /** LZ4_decoderRingBufferSize(BLOCK_SIZE) */
  const RING_SLACK: nat := 14
  const RING_SIZE: nat := 0x1_0000 + RING_SLACK + BLOCK_SIZE

  datatype Op = Literal(bytes: seq<byte>) | Copy(distance: nat, length: nat)

  // ---------------------------------------------------------------- unbounded history

  /** Appends n bytes, each read `d` positions back; a copy may overlap its own output. */
  function CopyBack(out: seq<byte>, d: nat, n: nat): (r: seq<byte>)
    requires 1 <= d <= |out|
    ensures |r| == |out| + n && r[..|out|] == out
    decreases n
  {
    if n == 0 then out else CopyBack(out + [out[|out| - d]], d, n - 1)
  }

  function Apply(out: seq<byte>, op: Op): (r: Option<seq<byte>>)
    ensures r.Some? ==> |r.value| >= |out| && r.value[..|out|] == out
  {
    match op
    case Literal(bytes) => Some(out + bytes)
    case Copy(d, n) => if 1 <= d <= MAX_DISTANCE && d <= |out| then Some(CopyBack(out, d, n)) else None
  }

  function Run(out: seq<byte>, ops: seq<Op>): (r: Option<seq<byte>>)
    ensures r.Some? ==> |r.value| >= |out| && r.value[..|out|] == out
    decreases ops
  {
    if ops == [] then Some(out)
    else
      match Apply(out, ops[0])
      case None => None
      case Some(out') => Run(out', ops[1..])
  }

  /** The bytes of one block after `history`: 1 to BLOCK_SIZE of them, or an error. */
  function Decode(history: seq<byte>, ops: seq<Op>): (r: Option<seq<byte>>)
    ensures r.Some? ==> 1 <= |r.value| <= BLOCK_SIZE
  {
    match Run(history, ops)
    case None => None
    case Some(out) =>
      if 1 <= |out| - |history| <= BLOCK_SIZE then Some(out[|history|..]) else None
  }

  lemma CopyBackStep(out: seq<byte>, d: nat, n: nat)
    requires 1 <= d <= |out| && n > 0
    ensures CopyBack(out, d, n) == CopyBack(out + [out[|out| - d]], d, n - 1)
  {}

  lemma CopyBackDone(out: seq<byte>, d: nat)
    requires 1 <= d <= |out|
    ensures CopyBack(out, d, 0) == out
  {}

  lemma RunStep(history: seq<byte>, out: seq<byte>, ops: seq<Op>, i: nat)
    requires i < |ops| && Run(history, ops) == Run(out, ops[i..])
    ensures Apply(out, ops[i]).None? ==> Decode(history, ops) == None
    ensures Apply(out, ops[i]).Some? ==> Run(history, ops) == Run(Apply(out, ops[i]).value, ops[i + 1..])
  {
    assert ops[i..][0] == ops[i] && ops[i..][1..] == ops[i + 1..];
  }

  lemma RunEnd(history: seq<byte>, out: seq<byte>, ops: seq<Op>)
    requires Run(history, ops) == Run(out, ops[|ops|..])
    requires |history| <= |out| && out[..|history|] == history && |out| <= |history| + BLOCK_SIZE
    ensures Decode(history, ops) == if |out| == |history| then None else Some(out[|history|..])
  {}

  lemma ApplyLength(out: seq<byte>, op: Op)
    ensures op.Literal? ==> Apply(out, op) == Some(out + op.bytes)
    ensures op.Copy? && 1 <= op.distance <= MAX_DISTANCE && op.distance <= |out| ==>
              Apply(out, op) == Some(CopyBack(out, op.distance, op.length))
    ensures op.Copy? && !(1 <= op.distance <= MAX_DISTANCE && op.distance <= |out|) ==> Apply(out, op) == None
  {}

  lemma TooLong(history: seq<byte>, ops: seq<Op>, out: seq<byte>, rest: seq<Op>)
    requires Run(history, ops) == Run(out, rest) && |out| > |history| + BLOCK_SIZE
    ensures Decode(history, ops) == None
  {}

  lemma {:induction false} CopyBackMore(more: seq<byte>, out: seq<byte>, d: nat, n: nat)
    requires 1 <= d <= |out|
    ensures CopyBack(more + out, d, n) == more + CopyBack(out, d, n)
    decreases n
  {
    if n > 0 {
      var b := out[|out| - d];
      assert (more + out)[|more + out| - d] == b;
      assert more + out + [b] == more + (out + [b]);
      CopyBackMore(more, out + [b], d, n - 1);
    }
  }

  /** A block that decodes against a recent window decodes alike when more history precedes it. */
  lemma {:induction false} RunMore(more: seq<byte>, out: seq<byte>, ops: seq<Op>)
    requires Run(out, ops).Some?
    ensures Run(more + out, ops) == Some(more + Run(out, ops).value)
    decreases ops
  {
    if ops != [] {
      var out' := Apply(out, ops[0]).value;
      match ops[0] {
        case Literal(bytes) => assert more + out + bytes == more + (out + bytes);
        case Copy(d, n) => CopyBackMore(more, out, d, n);
      }
      RunMore(more, out', ops[1..]);
    }
  }

  lemma DecodeMore(more: seq<byte>, window: seq<byte>, ops: seq<Op>)
    requires Decode(window, ops).Some?
    ensures Decode(more + window, ops) == Decode(window, ops)
  {
    RunMore(more, window, ops);
    var out := Run(window, ops).value;
    assert (more + out)[|more + window|..] == out[|window|..];
  }

  // ---------------------------------------------------------------- codec contract

  /** The two directions of the library. `compress` sees the dictionary bytes it finds in memory. */
  datatype Codec = Codec(parse: seq<byte> -> Option<seq<Op>>,
                         compress: (seq<byte>, seq<byte>) -> seq<byte>) {

    /** Compression of a non-empty block succeeds within LZ4_COMPRESSBOUND, and only refers to the
        dictionary it was given. */
    ghost predicate Lawful() {
      forall dict: seq<byte>, block: seq<byte> | 1 <= |block| <= BLOCK_SIZE ::
        && 1 <= |compress(dict, block)| <= COMPRESS_BOUND
        && parse(compress(dict, block)).Some?
        && Decode(dict, parse(compress(dict, block)).value) == Some(block)
    }
  }

  // ---------------------------------------------------------------- the decode ring

  /** Lz4Stream's decode ring together with the library's record of where history lies in it:
      `prefixSize` bytes end at the write position and, after a wrap, `extSize` older ones end at
      ring position `extSize` (externalDict + extDictSize). */
  class RingDecoder {
    const ring: array<byte>
    var offset: nat
    var prefixSize: nat
    var extSize: nat
    ghost var history: seq<byte>

    /** `out` is everything decoded so far and w the write position. What the ring still holds of
        it: the current run [0, w), and the older run from RING_SLACK bytes past w. */
    ghost predicate Holds(out: seq<byte>, w: nat)
      reads this`extSize, ring
    {
      && w <= ring.Length == RING_SIZE
      && w <= |out|
      && ring[..w] == out[|out| - w..]
      && if extSize == 0 then |out| == w
         else
           && RING_SIZE - BLOCK_SIZE < extSize <= RING_SIZE
           && w + extSize <= |out|
           && forall i :: w + RING_SLACK <= i < extSize ==> ring[i] == out[|out| - w - extSize + i]
    }

    ghost predicate Valid()
      reads this, ring
    {
      prefixSize == offset && Holds(history, offset)
    }

    constructor ()
      ensures Valid() && history == [] && fresh(ring)
    {
      ring := new byte[RING_SIZE];
      offset, prefixSize, extSize := 0, 0, 0;
      history := [];
    }

    /** Writes one byte. The library copies in wide strides, so up to RING_SLACK bytes after it may
        be left with arbitrary contents. */
    method Put(ghost out: seq<byte>, w: nat, b: byte)
      requires Holds(out, w) && w < RING_SIZE
      modifies ring
      ensures Holds(out + [b], w + 1)
    {
      ghost var before := ring[..];
      ring[w] := b;
      var junk: seq<byte> := *;
      var n := 0;
      while n < |junk| && n < RING_SLACK && w + 1 + n < RING_SIZE
        invariant n <= RING_SLACK && w + 1 + n <= RING_SIZE
        invariant ring[w] == b
        invariant forall i :: 0 <= i < RING_SIZE && (i < w || w + 1 + n <= i) ==> ring[i] == before[i]
      {
        ring[w + 1 + n] := junk[n];
        n := n + 1;
      }
      assert ring[..w] == before[..w];
      assert ring[..w + 1] == ring[..w] + [b];
      assert (out + [b])[|out + [b]| - (w + 1)..] == out[|out| - w..] + [b];
    }

    /** The byte `d` positions back: in the current run, or at the end of the older one. */
    method Fetch(ghost out: seq<byte>, w: nat, d: nat) returns (b: byte)
      requires Holds(out, w) && 1 <= d <= MAX_DISTANCE && d <= |out|
      ensures b == out[|out| - d]
    {
      if d <= w {
        assert ring[..w][w - d] == out[|out| - w..][w - d];
        b := ring[w - d];
      } else {
        b := ring[extSize - (d - w)];
      }
    }

    lemma Reach(out: seq<byte>, w: nat, d: nat)
      requires Holds(out, w)
      ensures ring.Length == RING_SIZE && w <= RING_SIZE && w <= |out|
      ensures d <= MAX_DISTANCE ==> (d <= w + extSize <==> d <= |out|)
    {}

    lemma RunBytes(out: seq<byte>, w: nat)
      requires Holds(out, w)
      ensures ring.Length == RING_SIZE && w <= RING_SIZE && w <= |out|
      ensures forall i :: 0 <= i < w ==> ring[i] == out[|out| - w + i]
    {
      forall i | 0 <= i < w ensures ring[i] == out[|out| - w + i] {
        assert ring[..w][i] == out[|out| - w..][i];
      }
    }

    lemma Restart(out: seq<byte>)
      requires ring.Length == RING_SIZE && RING_SIZE - BLOCK_SIZE < extSize <= RING_SIZE && extSize <= |out|
      requires forall i :: 0 <= i < extSize ==> ring[i] == out[|out| - extSize + i]
      ensures Holds(out, 0)
    {}

    lemma Decoded(out: seq<byte>, w: nat, dest: nat)
      requires Holds(out, w) && dest <= w <= RING_SIZE == ring.Length
      ensures |out| >= w && ring[dest..w] == out[|out| - (w - dest)..]
    {
      assert ring[..w][dest..] == out[|out| - w..][dest..];
    }

    method PutLiteral(ghost out: seq<byte>, w: nat, bytes: seq<byte>)
      requires Holds(out, w) && w + |bytes| <= RING_SIZE
      modifies ring
      ensures Holds(out + bytes, w + |bytes|)
    {
      assert out + bytes[..0] == out;
      for k := 0 to |bytes|
        invariant Holds(out + bytes[..k], w + k)
      {
        Put(out + bytes[..k], w + k, bytes[k]);
        assert out + bytes[..k] + [bytes[k]] == out + bytes[..k + 1];
      }
      assert bytes[..|bytes|] == bytes;
    }

    method PutCopy(ghost out: seq<byte>, w: nat, d: nat, n: nat)
      requires Holds(out, w) && w + n <= RING_SIZE
      requires 1 <= d <= MAX_DISTANCE && d <= |out|
      modifies ring
      ensures Holds(CopyBack(out, d, n), w + n)
    {
      hide *;
      ghost var cur := out;
      for k := 0 to n
        invariant d <= |cur| && CopyBack(out, d, n) == CopyBack(cur, d, n - k)
        invariant Holds(cur, w + k)
      {
        var b := Fetch(cur, w + k, d);
        Put(cur, w + k, b);
        CopyBackStep(cur, d, n - k);
        cur := cur + [b];
      }
      CopyBackDone(cur, d);
    }

    /** LZ4_decompress_safe_continue at ring position `dest`. */
    method Decompress(ops: seq<Op>, dest: nat) returns (ok: bool, w: nat)
      requires dest + BLOCK_SIZE <= RING_SIZE && Holds(history, dest)
      modifies this`history, ring
      ensures ok == Decode(old(history), ops).Some?
      ensures ok ==> history == old(history) + Decode(old(history), ops).value
      ensures ok ==> w == dest + |history| - |old(history)| && Holds(history, w)
      ensures ok ==> ring[dest..w] == Decode(old(history), ops).value
    {
      hide *;
      ghost var out := history;
      Reach(out, dest, 1);
      w := dest;
      for i := 0 to |ops|
        invariant history == old(history) && |history| <= |out| && out[..|history|] == history
        invariant w == dest + |out| - |history| <= dest + BLOCK_SIZE
        invariant Holds(out, w)
        invariant Run(history, ops) == Run(out, ops[i..])
      {
        RunStep(history, out, ops, i);
        ApplyLength(out, ops[i]);
        if ops[i].Copy? {
          var d := ops[i].distance;
          Reach(out, w, d);
          if d < 1 || d > MAX_DISTANCE || d > w + extSize { return false, w; }
        }
        ghost var out' := Apply(out, ops[i]).value;
        var length := if ops[i].Literal? then |ops[i].bytes| else ops[i].length;
        if w + length > dest + BLOCK_SIZE {
          TooLong(history, ops, out', ops[i + 1..]);
          return false, w;
        }
        match ops[i] {
          case Literal(bytes) => PutLiteral(out, w, bytes);
          case Copy(d, n) => PutCopy(out, w, d, n);
        }
        out, w := out', w + length;
      }
      RunEnd(history, out, ops);
      if w == dest { return false, w; }
      Reach(out, w, 1);
      Decoded(out, w, dest);
      history, ok := out, true;
    }

    /** The next block will be decoded at the front of the ring. */
    method Rewind()
      requires prefixSize == offset > RING_SIZE - BLOCK_SIZE && Holds(history, offset)
      modifies this`offset, this`extSize
      ensures offset == 0 && Holds(history, 0)
    {
      hide *;
      RunBytes(history, offset);
      extSize, offset := prefixSize, 0;
      Restart(history);
    }

    /** One block: start over at the front of the ring when a maximal block no longer fits, and
        decode next to the previous block otherwise. */
    method Next(ops: seq<Op>) returns (r: Option<seq<byte>>)
      requires Valid()
      modifies this, ring
      ensures r == Decode(old(history), ops)
      ensures r.Some? ==> Valid() && history == old(history) + r.value
    {
      if RING_SIZE - offset < BLOCK_SIZE {
        Rewind();
      }
      var ok, w := Decompress(ops, offset);
      if !ok { return None; }
      r := Some(ring[offset..w]);
      offset, prefixSize := w, w;
    }
  }
}
