/** The per-block checksum of acore v4: table-driven CRC-32 against its bitwise definition.
    Words are natural numbers, so that `>> n` is division by 2^n and `& 0xff` is `% 256`. */
module Crc32 {
  import opened Bytes

  const POLYNOMIAL: nat := 0xedb88320
  const ALL_ONES: nat := 0xffffffff

  /** Exclusive or of two numbers, bit by bit. */
  function Xor(a: nat, b: nat): nat
    decreases a + b
  {
    if a == 0 then b
    else if b == 0 then a
    else 2 * Xor(a / 2, b / 2) + (if a % 2 == b % 2 then 0 else 1)
  }

  /** One step of the reflected CRC-32 division (section 8 of RFC 1952). */
  function Bit(c: nat): nat {
    Xor(c / 2, if c % 2 == 1 then POLYNOMIAL else 0)
  }

  function Bits(c: nat, n: nat): nat
    decreases n, c
  {
    if n == 0 then c else Bits(Bit(c), n - 1)
  }

  /** The definition: each message byte enters the low end and is divided bit by bit. */
  function Crc(c: nat, data: seq<byte>): nat
    decreases data
  {
    if data == [] then c else Crc(Bits(Xor(c, data[0]), 8), data[1..])
  }

  // ---------------------------------------------------------------- exclusive or

  lemma {:induction false} XorHalves(a: nat, b: nat)
    ensures Xor(a, b) / 2 == Xor(a / 2, b / 2)
    ensures Xor(a, b) % 2 == (a % 2 + b % 2) % 2
  {}

  lemma {:induction false} XorComm(a: nat, b: nat)
    ensures Xor(a, b) == Xor(b, a)
    decreases a
  {
    if a > 0 { XorComm(a / 2, b / 2); }
  }

  lemma {:induction false} XorAssoc(a: nat, b: nat, c: nat)
    ensures Xor(Xor(a, b), c) == Xor(a, Xor(b, c))
    decreases a + b + c
  {
    if a > 0 && b > 0 && c > 0 {
      XorAssoc(a / 2, b / 2, c / 2);
      XorHalves(a, b);
      XorHalves(b, c);
      XorHalves(Xor(a, b), c);
      XorHalves(a, Xor(b, c));
    }
  }

  lemma {:induction false} XorZero(a: nat, b: nat)
    ensures Xor(a, b) == 0 <==> a == b
    decreases a
  {
    if a > 0 && b > 0 { XorZero(a / 2, b / 2); }
  }

  function Pow2(k: nat): nat {
    if k == 0 then 1 else 2 * Pow2(k - 1)
  }

  lemma {:induction false} XorBelow(a: nat, b: nat, k: nat)
    requires a < Pow2(k) && b < Pow2(k)
    ensures Xor(a, b) < Pow2(k)
  {
    if k > 0 && a > 0 && b > 0 { XorBelow(a / 2, b / 2, k - 1); }
  }

  /** Disjoint bits: exclusive or is addition. */
  lemma {:induction false} XorSplit(m: nat, r: nat, k: nat)
    requires r < Pow2(k)
    ensures Xor(m * Pow2(k), r) == m * Pow2(k) + r
  {
    if k == 0 {
      assert m * Pow2(k) == m;
    } else {
      var p := Pow2(k - 1);
      assert Pow2(k) == 2 * p;
      hide *;
      XorSplit(m, r / 2, k - 1);
      XorTwice(m * p, r);
      Associate(m, p);
    }
  }

  lemma Commute(p: nat, q: nat)
    ensures p * q == q * p && 1 * q == q
  {}

  lemma Associate(m: nat, p: nat)
    ensures m * (2 * p) == 2 * (m * p)
  {}

  lemma XorTwice(h: nat, r: nat)
    requires Xor(h, r / 2) == h + r / 2
    ensures Xor(2 * h, r) == 2 * h + r
  {
    hide *;
    XorHalves(2 * h, r);
    Double(h);
    FromHalves(Xor(2 * h, r), h + r / 2, r % 2);
    FromHalves(r, r / 2, r % 2);
  }

  lemma Double(h: nat)
    ensures 2 * h / 2 == h && 2 * h % 2 == 0
  {}

  lemma FromHalves(x: nat, q: nat, bit: nat)
    requires x / 2 == q && x % 2 == bit
    ensures x == 2 * q + bit
  {}

  // ---------------------------------------------------------------- the division step

  lemma Pow2Values()
    ensures Pow2(8) == 256 && Pow2(32) == U32
  {
    assert Pow2(8) == 256;
    Pow2Add(8, 8);
    Pow2Add(16, 16);
  }

  lemma {:induction false} Pow2Add(a: nat, b: nat)
    ensures Pow2(a + b) == Pow2(a) * Pow2(b)
  {
    if a > 0 {
      var p, q := Pow2(a - 1), Pow2(b);
      assert Pow2(a) == 2 * p && Pow2(a + b) == 2 * Pow2(a - 1 + b);
      hide *;
      Pow2Add(a - 1, b);
      Associate(q, p);
      Commute(2 * p, q);
      Commute(p, q);
    } else {
      Commute(1, Pow2(b));
    }
  }

  lemma BitBound(c: nat)
    requires c < U32
    ensures Bit(c) < U32
  {
    Pow2Values();
    XorBelow(c / 2, if c % 2 == 1 then POLYNOMIAL else 0, 32);
  }

  lemma {:induction false} BitsBound(c: nat, n: nat)
    requires c < U32
    ensures Bits(c, n) < U32
    decreases n
  {
    if n > 0 {
      BitBound(c);
      BitsBound(Bit(c), n - 1);
    }
  }

  lemma {:induction false} XorSwap(a: nat, b: nat, c: nat, d: nat)
    ensures Xor(Xor(a, b), Xor(c, d)) == Xor(Xor(a, c), Xor(b, d))
  {
    hide Xor, Bits, Pow2;
    XorAssoc(a, b, Xor(c, d));
    XorAssoc(b, c, d);
    XorComm(b, c);
    XorAssoc(c, b, d);
    XorAssoc(a, c, Xor(b, d));
  }

  lemma {:induction false} BitLinear(x: nat, y: nat)
    ensures Bit(Xor(x, y)) == Xor(Bit(x), Bit(y))
  {
    XorHalves(x, y);
    var px, py := if x % 2 == 1 then POLYNOMIAL else 0, if y % 2 == 1 then POLYNOMIAL else 0;
    XorZero(POLYNOMIAL, POLYNOMIAL);
    assert Xor(px, py) == if Xor(x, y) % 2 == 1 then POLYNOMIAL else 0;
    XorSwap(x / 2, y / 2, px, py);
  }

  lemma {:induction false} BitsLinear(x: nat, y: nat, n: nat)
    ensures Bits(Xor(x, y), n) == Xor(Bits(x, n), Bits(y, n))
    decreases n
  {
    if n > 0 {
      BitLinear(x, y);
      BitsLinear(Bit(x), Bit(y), n - 1);
    }
  }

  lemma {:induction false} BitsAdd(x: nat, m: nat, n: nat)
    ensures Bits(Bits(x, m), n) == Bits(x, m + n)
    decreases m
  {
    if m > 0 { BitsAdd(Bit(x), m - 1, n); }
  }

  /** Dividing n low zero bits out is a plain shift. */
  lemma BitEven(x: nat)
    ensures Bit(2 * x) == x
  {
    Double(x);
    XorNothing(x);
  }

  lemma XorNothing(x: nat)
    ensures Xor(x, 0) == x
  {}

  lemma BitsEven(x: nat, n: nat)
    requires n > 0
    ensures Bits(2 * x, n) == Bits(x, n - 1)
  {
    hide Xor;
    BitEven(x);
  }

  lemma {:induction false} BitsShift(m: nat, n: nat)
    ensures Bits(m * Pow2(n), n) == m
    decreases n
  {
    if n > 0 {
      var p := Pow2(n - 1);
      assert Pow2(n) == 2 * p;
      hide *;
      Associate(m, p);
      BitsEven(m * p, n);
      BitsShift(m, n - 1);
    }
  }

  /** Only zero divides to zero, because the polynomial has its top bit set. */
  lemma {:induction false} BitsZero(x: nat, n: nat)
    requires x < U32
    ensures Bits(x, n) == 0 ==> x == 0
    decreases n
  {
    if n > 0 {
      BitBound(x);
      BitsZero(Bit(x), n - 1);
      XorZero(x / 2, POLYNOMIAL);
    }
  }

  lemma {:induction false} BitsInjective(x: nat, y: nat, n: nat)
    requires x < U32 && y < U32
    ensures Bits(x, n) == Bits(y, n) ==> x == y
  {
    hide Xor, Bits, Pow2;
    Pow2Values();
    XorBelow(x, y, 32);
    BitsLinear(x, y, n);
    BitsZero(Xor(x, y), n);
    XorZero(Bits(x, n), Bits(y, n));
    XorZero(x, y);
  }

  /** Dividing n bits of a number: the low n bits are divided, the others move down. */
  lemma {:induction false} BitsSplit(m: nat, r: nat, n: nat)
    requires r < Pow2(n)
    ensures Xor(m * Pow2(n), r) == m * Pow2(n) + r
    ensures Bits(m * Pow2(n) + r, n) == Xor(Bits(r, n), m)
  {
    hide Xor, Bits, Pow2;
    XorSplit(m, r, n);
    BitsLinear(m * Pow2(n), r, n);
    BitsShift(m, n);
    XorComm(m, Bits(r, n));
  }

  /** A whole byte at once: the low byte selects a table entry, the rest moves down. */
  lemma {:induction false} TableStep(c: nat, b: byte, n: nat)
    requires n == 8
    ensures Bits(Xor(c, b), n) == Xor(Bits(Xor(c, b) % 256, n), c / 256)
  {
    hide Xor, Bits, Pow2;
    Pow2Values();
    var q, r, low := c / 256, c % 256, Xor(c % 256, b);
    XorSplit(q, r, n);
    XorAssoc(q * Pow2(n), r, b);
    XorBelow(r, b, n);
    BitsSplit(q, low, n);
    LowByte(q, low, Xor(c, b));
  }

  lemma LowByte(q: nat, low: byte, x: nat)
    requires x == q * 256 + low
    ensures x % 256 == low
  {}

  // ---------------------------------------------------------------- the program

  /** The table of crc32_update: entry i is i divided eight times. */
  method MakeTable() returns (table: array<nat>)
    ensures fresh(table) && table.Length == 256
    ensures forall i :: 0 <= i < 256 ==> table[i] == Bits(i, 8)
  {
    table := new nat[256];
    for i := 0 to 256
      invariant forall k :: 0 <= k < i ==> table[k] == Bits(k, 8)
    {
      var value := i;
      for bit := 0 to 8
        invariant Bits(value, 8 - bit) == Bits(i, 8)
      {
        value := Xor(value / 2, if value % 2 == 1 then POLYNOMIAL else 0);
      }
      table[i] := value;
    }
  }

  method Update(table: array<nat>, crc: nat, data: seq<byte>) returns (r: nat)
    requires table.Length == 256 && forall i :: 0 <= i < 256 ==> table[i] == Bits(i, 8)
    ensures r == Crc(crc, data)
  {
    r := crc;
    for i := 0 to |data|
      invariant Crc(r, data[i..]) == Crc(crc, data)
    {
      TableStep(r, data[i], 8);
      assert data[i..][1..] == data[i + 1..];
      r := Xor(table[Xor(r, data[i]) % 256], r / 256);
    }
  }

  // ---------------------------------------------------------------- what the checksum detects

  lemma {:induction false} CrcConcat(c: nat, a: seq<byte>, b: seq<byte>)
    ensures Crc(c, a + b) == Crc(Crc(c, a), b)
    decreases a
  {
    if a == [] {
      assert a + b == b;
    } else {
      assert (a + b)[1..] == a[1..] + b;
      CrcConcat(Bits(Xor(c, a[0]), 8), a[1..], b);
    }
  }

  lemma {:induction false} CrcInjective(x: nat, y: nat, data: seq<byte>)
    requires x < U32 && y < U32
    ensures Crc(x, data) < U32
    ensures Crc(x, data) == Crc(y, data) ==> x == y
    decreases data
  {
    if data != [] {
      Pow2Values();
      XorBelow(x, data[0], 32);
      XorBelow(y, data[0], 32);
      var x', y' := Bits(Xor(x, data[0]), 8), Bits(Xor(y, data[0]), 8);
      BitsBound(Xor(x, data[0]), 8);
      BitsBound(Xor(y, data[0]), 8);
      CrcInjective(x', y', data[1..]);
      BitsInjective(Xor(x, data[0]), Xor(y, data[0]), 8);
      XorCancel(x, y, data[0]);
    }
  }

  lemma {:induction false} XorCancel(x: nat, y: nat, z: nat)
    ensures Xor(x, z) == Xor(y, z) ==> x == y
    ensures Xor(z, x) == Xor(z, y) ==> x == y
  {
    hide Bits, Pow2;
    XorAssoc(x, z, z);
    XorAssoc(y, z, z);
    XorZero(z, z);
    XorComm(x, z);
    XorComm(y, z);
  }

  /** A short message enters the register as one little-endian number. */
  lemma {:induction false} CrcShort(c: nat, data: seq<byte>)
    ensures Crc(c, data) == Bits(Xor(c, FromLE(data)), 8 * |data|)
    decreases data
  {
    if data == [] {
      XorComm(c, 0);
    } else {
      CrcShort(Bits(Xor(c, data[0]), 8), data[1..]);
      EnterByte(c, data[0], FromLE(data[1..]), 8);
      BitsMore(Xor(c, FromLE(data)), 8, |data[1..]|);
    }
  }

  lemma BitsMore(x: nat, n: nat, k: nat)
    requires n == 8
    ensures Bits(Bits(x, n), 8 * k) == Bits(x, 8 * (k + 1))
  {
    BitsAdd(x, n, 8 * k);
  }

  lemma {:induction false} EnterByte(c: nat, b: byte, high: nat, n: nat)
    requires n == 8
    ensures Xor(Bits(Xor(c, b), n), high) == Bits(Xor(c, b + 256 * high), n)
  {
    hide Xor, Bits, Pow2;
    Pow2Values();
    BitsSplit(high, b, n);
    XorComm(high * 256, b);
    XorAssoc(c, b, high * 256);
    BitsLinear(Xor(c, b), high * 256, n);
    BitsShift(high, n);
  }

  /** The stored form: four little-endian bytes of the complemented register. */
  function Checksum(data: seq<byte>): (r: seq<byte>)
    ensures |r| == 4
  {
    ToLE(Xor(Crc(ALL_ONES, data), ALL_ONES), 4)
  }

  /** Any damage confined to four consecutive bytes changes the checksum. */
  lemma {:induction false} BurstDetected(pre: seq<byte>, mid: seq<byte>, mid': seq<byte>, post: seq<byte>)
    requires |mid| == |mid'| <= 4 && mid != mid'
    ensures Checksum(pre + mid + post) != Checksum(pre + mid' + post)
  {
    hide Xor, Bits, Pow2, Crc, ToLE, FromLE;
    Pow256Values();
    Pow2Values();
    CrcInjective(ALL_ONES, ALL_ONES, pre);
    var c := Crc(ALL_ONES, pre);
    CrcConcat(ALL_ONES, pre + mid, post);
    CrcConcat(ALL_ONES, pre, mid);
    CrcConcat(ALL_ONES, pre + mid', post);
    CrcConcat(ALL_ONES, pre, mid');
    var m, m' := FromLE(mid), FromLE(mid');
    ToFromLE(mid);
    ToFromLE(mid');
    CrcShort(c, mid);
    CrcShort(c, mid');
    Pow256Grows(|mid|, 4);
    XorBelow(c, m, 32);
    XorBelow(c, m', 32);
    XorCancel(m, m', c);
    BitsInjective(Xor(c, m), Xor(c, m'), 8 * |mid|);
    CrcInjective(c, c, mid);
    CrcInjective(c, c, mid');
    CrcInjective(Crc(c, mid), Crc(c, mid'), post);
    var x, x' := Crc(ALL_ONES, pre + mid + post), Crc(ALL_ONES, pre + mid' + post);
    assert x != x';
    CrcInjective(ALL_ONES, ALL_ONES, pre + mid + post);
    CrcInjective(ALL_ONES, ALL_ONES, pre + mid' + post);
    XorCancel(x, x', ALL_ONES);
    XorBelow(x, ALL_ONES, 32);
    XorBelow(x', ALL_ONES, 32);
    FromToLE(Xor(x, ALL_ONES), 4);
    FromToLE(Xor(x', ALL_ONES), 4);
  }

  lemma {:induction false} Pow256Grows(a: nat, b: nat)
    requires a <= b
    ensures Pow256(a) <= Pow256(b)
  {
    if a < b { Pow256Grows(a, b - 1); }
  }

  /** The residue of CRC-32: a message followed by its stored checksum leaves the same register, all ones
      divided through, whatever the message. */
  lemma {:induction false} Residue(data: seq<byte>)
    ensures Crc(ALL_ONES, data + Checksum(data)) == Bits(ALL_ONES, 32)
  {
    hide Xor, Bits, Pow2, Crc, ToLE, FromLE;
    Pow256Values();
    Pow2Values();
    CrcInjective(ALL_ONES, ALL_ONES, data);
    var c, sum := Crc(ALL_ONES, data), Checksum(data);
    XorBelow(c, ALL_ONES, 32);
    FromToLE(Xor(c, ALL_ONES), 4);
    CrcConcat(ALL_ONES, data, sum);
    CrcShort(c, sum);
    XorAssoc(c, c, ALL_ONES);
    XorZero(c, c);
    NothingXor(ALL_ONES);
  }

  lemma NothingXor(x: nat)
    ensures Xor(0, x) == x
  {}
}
