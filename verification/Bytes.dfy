/** Byte strings, little-endian numbers and fixed-width records. */
module Bytes {

  type byte = x: int | 0 <= x < 256

  datatype Option<+T> = None | Some(value: T)

  const U16: nat := 0x1_0000
  const U32: nat := 0x1_0000_0000
  const U64: nat := 0x1_0000_0000_0000_0000

  /** The general capture buffer (src/core.cc). */
  const BUFFER_SIZE: nat := 1024 * 1024

  /** 256 to the power w: the number of values a w-byte field can hold. */
  function Pow256(w: nat): (p: nat)
    ensures p >= 1
  {
    if w == 0 then 1 else 256 * Pow256(w - 1)
  }

  /** The w low bytes of n, least significant first. */
  function ToLE(n: nat, w: nat): (b: seq<byte>)
    ensures |b| == w
  {
    if w == 0 then [] else [n % 256] + ToLE(n / 256, w - 1)
  }

  function FromLE(b: seq<byte>): nat {
    if b == [] then 0 else b[0] + 256 * FromLE(b[1..])
  }

  lemma {:induction false} FromToLE(n: nat, w: nat)
    requires n < Pow256(w)
    ensures FromLE(ToLE(n, w)) == n
  {
    if w > 0 {
      FromToLE(n / 256, w - 1);
      assert ToLE(n, w)[1..] == ToLE(n / 256, w - 1);
    }
  }

  lemma {:induction false} ToFromLE(b: seq<byte>)
    ensures FromLE(b) < Pow256(|b|)
    ensures ToLE(FromLE(b), |b|) == b
  {
    if b != [] {
      ToFromLE(b[1..]);
      assert b == [b[0]] + b[1..];
    }
  }

  lemma Pow256Values()
    ensures Pow256(1) == 256 && Pow256(2) == U16 && Pow256(3) == 0x100_0000
    ensures Pow256(4) == U32 && Pow256(8) == U64
  {
    assert Pow256(3) == 256 * Pow256(2);
    assert Pow256(4) == 256 * Pow256(3);
    assert Pow256(5) == 256 * Pow256(4);
    assert Pow256(6) == 256 * Pow256(5);
    assert Pow256(7) == 256 * Pow256(6);
  }

  function Flatten<T>(parts: seq<seq<T>>): seq<T> {
    if parts == [] then [] else parts[0] + Flatten(parts[1..])
  }

  lemma ConcatAssoc<T>(a: seq<T>, b: seq<T>, c: seq<T>)
    ensures a + (b + c) == a + b + c
  {}

  lemma {:induction false} FlattenConcat<T>(a: seq<seq<T>>, b: seq<seq<T>>)
    ensures Flatten(a + b) == Flatten(a) + Flatten(b)
  {
    if a == [] {
      assert a + b == b;
    } else {
      assert (a + b)[0] == a[0] && (a + b)[1..] == a[1..] + b;
      FlattenConcat(a[1..], b);
      ConcatAssoc(a[0], Flatten(a[1..]), Flatten(b));
    }
  }

  /** Reads a record of the given field widths; the record must end exactly with its last field. */
  function Cut(widths: seq<nat>, b: seq<byte>): Option<seq<seq<byte>>> {
    if widths == [] then
      if b == [] then Some([]) else None
    else if |b| < widths[0] then None
    else
      match Cut(widths[1..], b[widths[0]..])
      case None => None
      case Some(fields) => Some([b[..widths[0]]] + fields)
  }

  ghost predicate Fits(widths: seq<nat>, fields: seq<seq<byte>>) {
    |widths| == |fields| && forall i :: 0 <= i < |widths| ==> |fields[i]| == widths[i]
  }

  lemma {:induction false} CutFlatten(widths: seq<nat>, fields: seq<seq<byte>>)
    requires Fits(widths, fields)
    ensures Cut(widths, Flatten(fields)) == Some(fields)
  {
    if widths != [] {
      CutFlatten(widths[1..], fields[1..]);
      assert Flatten(fields)[widths[0]..] == Flatten(fields[1..]);
      assert fields == [fields[0]] + fields[1..];
    }
  }

  lemma {:induction false} FlattenCut(widths: seq<nat>, b: seq<byte>)
    ensures var r := Cut(widths, b); r.Some? ==> Fits(widths, r.value) && Flatten(r.value) == b
  {
    if widths != [] && |b| >= widths[0] {
      FlattenCut(widths[1..], b[widths[0]..]);
      var r := Cut(widths[1..], b[widths[0]..]);
      if r.Some? {
        var all := [b[..widths[0]]] + r.value;
        assert all[1..] == r.value;
        assert b == b[..widths[0]] + b[widths[0]..];
      }
    }
  }

  function Sum(widths: seq<nat>): nat {
    if widths == [] then 0 else widths[0] + Sum(widths[1..])
  }

  lemma {:induction false} FlattenLength(widths: seq<nat>, fields: seq<seq<byte>>)
    requires Fits(widths, fields)
    ensures |Flatten(fields)| == Sum(widths)
  {
    if widths != [] { FlattenLength(widths[1..], fields[1..]); }
  }

  lemma {:induction false} SumConcat(a: seq<nat>, b: seq<nat>)
    ensures Sum(a + b) == Sum(a) + Sum(b)
  {
    if a == [] {
      assert a + b == b;
    } else {
      assert (a + b)[0] == a[0] && (a + b)[1..] == a[1..] + b;
      SumConcat(a[1..], b);
    }
  }

  lemma Sum3(a: nat, b: nat, c: nat)
    ensures Sum([]) == 0 && Sum([a]) == a && Sum([a, b, c]) == a + b + c
  {
    assert [a][1..] == [] && [a, b, c][1..] == [b, c] && [b, c][1..] == [c] && [c][1..] == [];
    assert Sum([c]) == c && Sum([b, c]) == b + c;
  }

  lemma Sum4(a: nat, b: nat, c: nat, d: nat)
    ensures Sum([a, b, c, d]) == a + b + c + d
  {
    assert [a, b, c, d][1..] == [b, c, d];
    Sum3(b, c, d);
  }

  function Zeros(n: nat): (z: seq<byte>)
    ensures |z| == n && forall i :: 0 <= i < n ==> z[i] == 0
  {
    seq(n, _ => 0)
  }
}
