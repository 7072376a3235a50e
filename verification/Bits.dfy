/** Bit strings, most significant bit first, and the bytes and integers they stand for. */
module Bits {

  type Byte = x: int | 0 <= x < 256
  type Uint32 = x: int | 0 <= x < 0x1_0000_0000
  /** The `int` and `int32_t` of the C source. */
  type Int32 = x: int | -0x8000_0000 <= x < 0x8000_0000

  /** Conversion of a C `int` to `uint32_t`. */
  function AsUint32(v: Int32): Uint32 {
    if v < 0 then v + 0x1_0000_0000 else v
  }

  /** Conversion of a `uint32_t` to a C `int` (two's complement). */
  function AsInt32(v: Uint32): Int32 {
    if v < 0x8000_0000 then v else v - 0x1_0000_0000
  }

  function Pow2(n: nat): (r: nat)
    ensures r > 0
  {
    if n == 0 then 1 else 2 * Pow2(n - 1)
  }

  lemma Pow2Values()
    ensures Pow2(8) == 0x100 && Pow2(16) == 0x1_0000
    ensures Pow2(31) == 0x8000_0000 && Pow2(32) == 0x1_0000_0000
  {
    assert Pow2(12) == 0x1000;
    assert Pow2(20) == 0x10_0000;
    assert Pow2(28) == 0x1000_0000;
  }

  /** `v >> k` */
  function Shr(v: nat, k: nat): nat {
    if k == 0 then v else Shr(v / 2, k - 1)
  }

  /** `v << k` */
  function Shl(v: nat, k: nat): nat {
    if k == 0 then v else 2 * Shl(v, k - 1)
  }

  /** The low n bits of v. */
  function ToBits(v: nat, n: nat): (s: seq<bool>)
    ensures |s| == n
  {
    if n == 0 then [] else ToBits(v / 2, n - 1) + [v % 2 == 1]
  }

  function FromBits(s: seq<bool>): nat {
    if s == [] then 0
    else 2 * FromBits(s[..|s| - 1]) + (if s[|s| - 1] then 1 else 0)
  }

  /** `(x & ~(1 << k)) | (v << k)` for a single bit v */
  function PutBit(x: nat, k: nat, v: bool): nat {
    if k == 0 then 2 * (x / 2) + (if v then 1 else 0)
    else 2 * PutBit(x / 2, k - 1, v) + x % 2
  }

  lemma MulMonotone(a: int, b: int, m: nat)
    ensures a <= b ==> a * m <= b * m
  {
  }

  lemma ModUnique(v: nat, m: nat, q: nat, r: nat)
    requires r < m && v == q * m + r
    ensures v / m == q && v % m == r
  {
    MulMonotone(q + 1, v / m, m);
    MulMonotone(v / m + 1, q, m);
  }

  lemma HalveMod(v: nat, m: nat)
    requires m > 0
    ensures v % (2 * m) == 2 * ((v / 2) % m) + v % 2
  {
    var q, r := v / 2 / m, v / 2 % m;
    assert v == 2 * (q * m + r) + v % 2;
    assert v == q * (2 * m) + (2 * r + v % 2);
    ModUnique(v, 2 * m, q, 2 * r + v % 2);
  }

  lemma {:induction false} FromToBits(v: nat, n: nat)
    ensures FromBits(ToBits(v, n)) == v % Pow2(n)
  {
    if n != 0 {
      FromToBits(v / 2, n - 1);
      assert ToBits(v, n)[..n - 1] == ToBits(v / 2, n - 1);
      HalveMod(v, Pow2(n - 1));
    }
  }

  lemma {:induction false} ToFromBits(s: seq<bool>)
    ensures ToBits(FromBits(s), |s|) == s
    ensures FromBits(s) < Pow2(|s|)
  {
    if s != [] {
      ToFromBits(s[..|s| - 1]);
      assert s[..|s| - 1] + [s[|s| - 1]] == s;
    }
  }

  lemma {:induction false} ToBitsAt(v: nat, n: nat, k: nat)
    requires k < n
    ensures ToBits(v, n)[k] == (Shr(v, n - 1 - k) % 2 == 1)
  {
    if k < n - 1 {
      ToBitsAt(v / 2, n - 1, k);
    }
  }

  lemma {:induction false} PutBitBits(x: nat, k: nat, v: bool, n: nat)
    requires k < n && x < Pow2(n)
    ensures PutBit(x, k, v) < Pow2(n)
    ensures ToBits(PutBit(x, k, v), n) == ToBits(x, n)[n - 1 - k := v]
  {
    if k != 0 {
      PutBitBits(x / 2, k - 1, v, n - 1);
    }
  }

  /** The top bits of v are those of v / 2^(n - m). */
  lemma {:induction false} ToBitsPrefix(v: nat, n: nat, m: nat)
    requires m <= n
    ensures ToBits(v, n)[..m] == ToBits(Shr(v, n - m), m)
  {
    if m < n {
      ToBitsPrefix(v / 2, n - 1, m);
      assert ToBits(v, n)[..m] == ToBits(v / 2, n - 1)[..m];
    } else {
      assert ToBits(v, n)[..n] == ToBits(v, n);
    }
  }

  /** The bits of a byte buffer. */
  function BitsOf(buf: seq<Byte>): (s: seq<bool>)
    ensures |s| == 8 * |buf|
  {
    seq(8 * |buf|, i requires 0 <= i < 8 * |buf| => ToBits(buf[i / 8], 8)[i % 8])
  }

  function ByteAt(bits: seq<bool>, i: nat): Byte
    requires 8 * i + 8 <= |bits|
  {
    ToFromBits(bits[8 * i..8 * i + 8]);
    assert Pow2(8) == 256;
    FromBits(bits[8 * i..8 * i + 8])
  }

  /** The bytes of a bit string of whole bytes. */
  function Pack(bits: seq<bool>): (s: seq<Byte>)
    requires |bits| % 8 == 0
    ensures |s| == |bits| / 8
  {
    seq(|bits| / 8, i requires 0 <= i < |bits| / 8 => ByteAt(bits, i))
  }

  lemma BitOfByte(buf: seq<Byte>, k: nat)
    requires k < 8 * |buf|
    ensures BitsOf(buf)[k] == ToBits(buf[k / 8], 8)[k % 8]
  {
    hide ToBits;
  }

  lemma PackedByte(bits: seq<bool>, i: nat)
    requires |bits| % 8 == 0 && i < |bits| / 8
    ensures ToBits(Pack(bits)[i], 8) == bits[8 * i..8 * i + 8]
  {
    hide ToBits, FromBits;
    ToFromBits(bits[8 * i..8 * i + 8]);
  }

  lemma BitsOfPack(bits: seq<bool>)
    requires |bits| % 8 == 0
    ensures BitsOf(Pack(bits)) == bits
  {
    hide BitsOf, Pack, ToBits;
    forall k | 0 <= k < |bits| ensures BitsOf(Pack(bits))[k] == bits[k] {
      BitOfByte(Pack(bits), k);
      PackedByte(bits, k / 8);
      assert bits[8 * (k / 8)..8 * (k / 8) + 8][k % 8] == bits[k];
    }
  }

  lemma BitsOfByte(buf: seq<Byte>, i: nat)
    requires i < |buf|
    ensures BitsOf(buf)[8 * i..8 * i + 8] == ToBits(buf[i], 8)
  {
    forall k | 0 <= k < 8 ensures BitsOf(buf)[8 * i + k] == ToBits(buf[i], 8)[k] {
      assert (8 * i + k) / 8 == i && (8 * i + k) % 8 == k;
    }
  }

  lemma ByteOfBits(x: Byte)
    ensures FromBits(ToBits(x, 8)) == x
  {
    hide FromBits, ToBits, Pow2;
    FromToBits(x, 8);
    Pow2Values();
  }

  lemma PackBitsOf(buf: seq<Byte>)
    ensures Pack(BitsOf(buf)) == buf
  {
    forall i | 0 <= i < |buf| ensures Pack(BitsOf(buf))[i] == buf[i] {
      BitsOfByte(buf, i);
      ByteOfBits(buf[i]);
    }
  }

  /** n bits from position pos; bits past the end read as 0. */
  function Window(bits: seq<bool>, pos: nat, n: nat): (s: seq<bool>)
    ensures |s| == n
  {
    seq(n, i requires 0 <= i < n => pos + i < |bits| && bits[pos + i])
  }

  /** bits with e stored from position pos on; what falls past the end is lost. */
  function Overlay(bits: seq<bool>, pos: nat, e: seq<bool>): (s: seq<bool>)
    ensures |s| == |bits|
  {
    seq(|bits|, i requires 0 <= i < |bits| => if pos <= i < pos + |e| then e[i - pos] else bits[i])
  }

  lemma OverlayAppend(bits: seq<bool>, pos: nat, a: seq<bool>, b: seq<bool>)
    ensures Overlay(Overlay(bits, pos, a), pos + |a|, b) == Overlay(bits, pos, a + b)
  {
  }

  lemma OverlayNothing(bits: seq<bool>, pos: nat)
    ensures Overlay(bits, pos, []) == bits
  {
  }

  lemma OverlayPastEnd(bits: seq<bool>, pos: nat, e: seq<bool>)
    requires pos >= |bits|
    ensures Overlay(bits, pos, e) == bits
  {
  }
}
