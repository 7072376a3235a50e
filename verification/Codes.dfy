/** The descriptors u(n), ue(v) and se(v) of ITU-T H.264: what each one writes, and what
    each one reads from a bit string at a position (sections 7.2, 9.1 and 9.1.1). */
module Codes {
  import opened Bits

  // ---------- What is written ----------

  /** u(n): the low n bits of the C int v. */
  function U(n: nat, v: Int32): (s: seq<bool>)
    ensures |s| == n
  {
    ToBits(AsUint32(v), n)
  }

  lemma UnitBits()
    ensures U(1, 0) == [false] && U(1, 1) == [true]
  {
    assert ToBits(0, 0) == [];
  }

  function BitLength(v: nat): nat {
    if v == 0 then 0 else 1 + BitLength(v / 2)
  }

  /** The Exp-Golomb codeword of v: the bit length of v + 1, less one, in zeros, then v + 1. */
  function ExpGolomb(v: nat): seq<bool> {
    ToBits(v + 1, 2 * BitLength(v + 1) - 1)
  }

  /** What bs_write_ue writes for v: the largest value wraps to 0 and becomes a single zero. */
  function UeCode(v: Uint32): seq<bool> {
    if v == 0xffff_ffff then [false] else ExpGolomb(v)
  }

  function Ue(v: Int32): seq<bool> {
    UeCode(AsUint32(v))
  }

  /** The codeNum that stands for the signed value v. */
  function SignedCode(v: Int32): nat {
    if v <= 0 then -2 * v else 2 * v - 1
  }

  /** The codeNum of the smallest value wraps to 0. */
  function Se(v: Int32): seq<bool> {
    ExpGolomb(if v == -0x8000_0000 then 0 else SignedCode(v))
  }

  /** The values that each descriptor can carry. */
  predicate IsU(n: nat, v: Int32) {
    n == 32 || 0 <= v < Pow2(n)
  }

  predicate IsUe(v: int) {
    0 <= v <= 65534
  }

  predicate IsSe(v: int) {
    -32767 <= v <= 32767
  }

  /** The values that the writer can write without a shift of 32 or more; it writes the last one
      of each kind as something else. */
  predicate MayWriteUe(v: int) {
    IsUe(v) || v == -1
  }

  predicate MayWriteSe(v: int) {
    IsSe(v) || v == -0x8000_0000
  }

  // ---------- What is read ----------

  function UAt(bits: seq<bool>, pos: nat, n: nat): nat {
    FromBits(Window(bits, pos, n))
  }

  /** Counts zero bits from pos, at most 32 of them, up to a one bit (which is consumed) or
      the end of the buffer. Returns the count and the next position. */
  function ZerosAt(bits: seq<bool>, pos: nat, count: nat): (r: (nat, nat))
    requires count <= 32
    ensures count <= r.0 <= 32
    decreases 32 - count
  {
    if pos >= |bits| || count >= 32 then (count, pos)
    else if bits[pos] then (count, pos + 1)
    else ZerosAt(bits, pos + 1, count + 1)
  }

  lemma {:induction false} Pow2Mono(m: nat, n: nat)
    requires m <= n
    ensures Pow2(m) <= Pow2(n)
  {
    if m < n {
      Pow2Mono(m, n - 1);
    }
  }

  lemma UeBound(bits: seq<bool>, pos: nat, zeros: nat)
    requires zeros < 32
    ensures 0 <= UAt(bits, pos, zeros) + Pow2(zeros) - 1 < 0xffff_ffff
  {
    ToFromBits(Window(bits, pos, zeros));
    Pow2Mono(zeros, 31);
    Pow2Values();
  }

  function UeAt(bits: seq<bool>, pos: nat): (r: (Uint32, nat))
    ensures r.0 < 0xffff_ffff
  {
    var (zeros, next) := ZerosAt(bits, pos, 0);
    if zeros >= 32 then (0, next)
    else
      UeBound(bits, next, zeros);
      (UAt(bits, next, zeros) + Pow2(zeros) - 1, next + zeros)
  }

  /** The signed value of a codeNum held in an `int32_t`; `(r + 1) / 2` truncates and wraps. */
  function SignedValue(r: Int32): (v: Int32)
    ensures v != -0x8000_0000
  {
    if r % 2 == 0 then -(r / 2)
    else if r == 0x7fff_ffff then -0x4000_0000
    else (r + 1) / 2
  }

  function SeAt(bits: seq<bool>, pos: nat): (r: (Int32, nat))
    ensures r.0 != -0x8000_0000
  {
    var (code, next) := UeAt(bits, pos);
    (SignedValue(AsInt32(code)), next)
  }

  lemma UAtBound(bits: seq<bool>, pos: nat, n: nat)
    requires n <= 32
    ensures UAt(bits, pos, n) < 0x1_0000_0000
    ensures n < 32 ==> UAt(bits, pos, n) < Pow2(n) <= 0x8000_0000
  {
    ToFromBits(Window(bits, pos, n));
    Pow2Mono(n, if n < 32 then 31 else 32);
    Pow2Values();
  }

  /** A field of the C structures read with each descriptor. */
  function GetU(bits: seq<bool>, pos: nat, n: nat): (r: (Int32, nat))
    requires n <= 32
    ensures IsU(n, r.0)
  {
    UAtBound(bits, pos, n);
    (AsInt32(UAt(bits, pos, n)), pos + n)
  }

  function GetUe(bits: seq<bool>, pos: nat): (r: (Int32, nat))
    ensures r.0 != -1
  {
    var (code, next) := UeAt(bits, pos);
    (AsInt32(code), next)
  }

  lemma GetUField(bits: seq<bool>, pos: nat, n: nat)
    requires n <= 32
    ensures UAt(bits, pos, n) < 0x1_0000_0000
    ensures GetU(bits, pos, n) == (AsInt32(UAt(bits, pos, n)), pos + n)
  {
    UAtBound(bits, pos, n);
  }

  // ---------- What a code means ----------

  lemma DivTwice(v: nat, m: nat)
    requires m > 0
    ensures v / 2 / m == v / (2 * m)
  {
    var q, r := v / 2 / m, v / 2 % m;
    assert v / 2 == q * m + r;
    assert q * (2 * m) == 2 * (q * m);
    ModUnique(v, 2 * m, q, 2 * r + v % 2);
  }

  lemma {:induction false} ShrIsDiv(v: nat, k: nat)
    ensures Shr(v, k) == v / Pow2(k)
  {
    if k > 0 {
      ShrIsDiv(v / 2, k - 1);
      DivTwice(v, Pow2(k - 1));
    }
  }

  /** The bits of a byte come most significant first. */
  lemma BitMeaning(buf: seq<Byte>, i: nat, k: nat)
    requires i < |buf| && k < 8
    ensures BitsOf(buf)[8 * i + k] <==> buf[i] / Pow2(7 - k) % 2 == 1
  {
    hide ToBits, Shr, Pow2;
    BitOfByte(buf, 8 * i + k);
    ToBitsAt(buf[i], 8, k);
    ShrIsDiv(buf[i], 7 - k);
  }

  lemma {:induction false} ZerosRun(bits: seq<bool>, pos: nat, count: nat, z: nat)
    requires count + z <= 32 && pos + z <= |bits| && forall k :: pos <= k < pos + z ==> !bits[k]
    ensures ZerosAt(bits, pos, count) == ZerosAt(bits, pos + z, count + z)
    decreases z
  {
    if z > 0 {
      ZerosRun(bits, pos + 1, count + 1, z - 1);
    }
  }

  lemma {:induction false} FromNoBits(s: seq<bool>)
    requires forall k :: 0 <= k < |s| ==> !s[k]
    ensures FromBits(s) == 0
  {
    if s != [] {
      FromNoBits(s[..|s| - 1]);
    }
  }

  /** ue(v): z zeros, a one and z more bits stand for 2^z - 1 plus the number that those bits
      form; 32 zeros stand for 0, and a code that the end of the buffer cuts short reads as if
      zeros followed. */
  lemma UeMeaning(bits: seq<bool>, pos: nat, z: nat)
    requires z <= 32 && forall k :: pos <= k < pos + z && k < |bits| ==> !bits[k]
    ensures z < 32 && pos + z < |bits| && bits[pos + z] ==>
              UeAt(bits, pos) == (Pow2(z) - 1 + UAt(bits, pos + z + 1, z), pos + 2 * z + 1)
    ensures z < 32 && pos + z == |bits| ==> UeAt(bits, pos) == (Pow2(z) - 1, |bits| + z)
    ensures z == 32 && pos + z <= |bits| ==> UeAt(bits, pos) == (0, pos + 32)
  {
    hide FromBits, Pow2;
    if pos + z <= |bits| {
      ZerosRun(bits, pos, 0, z);
      FromNoBits(Window(bits, |bits|, z));
    }
  }

  /** se(v): the codes 1, 2, 3, 4, ... stand for 1, -1, 2, -2, ... */
  lemma SeMeaning(bits: seq<bool>, pos: nat)
    requires UeAt(bits, pos).0 < 0x7fff_ffff
    ensures var (code, next), (v, q) := UeAt(bits, pos), SeAt(bits, pos);
            q == next && (v > 0 <==> code % 2 == 1) && code == if v > 0 then 2 * v - 1 else 2 * -v
  {
    hide UeAt;
  }

  // ---------- Reading back what was written ----------

  /** e stands in bits at pos. */
  predicate At(bits: seq<bool>, pos: nat, e: seq<bool>) {
    pos + |e| <= |bits| && bits[pos..pos + |e|] == e
  }

  lemma AtSplit(bits: seq<bool>, pos: nat, a: seq<bool>, b: seq<bool>)
    requires At(bits, pos, a + b)
    ensures At(bits, pos, a) && At(bits, pos + |a|, b)
  {
    assert a == (a + b)[..|a|] == bits[pos..pos + |a|];
    assert b == (a + b)[|a|..] == bits[pos + |a|..pos + |a| + |b|];
  }

  lemma WindowIs(bits: seq<bool>, pos: nat, e: seq<bool>)
    requires At(bits, pos, e)
    ensures Window(bits, pos, |e|) == e
  {
    forall i | 0 <= i < |e| ensures Window(bits, pos, |e|)[i] == e[i] {
      assert bits[pos..pos + |e|][i] == bits[pos + i];
    }
  }

  lemma UAtWindow(bits: seq<bool>, pos: nat, n: nat)
    ensures UAt(bits, pos, n) == FromBits(Window(bits, pos, n))
  {
  }

  lemma SmallMod(v: nat, m: nat)
    requires v < m
    ensures v % m == v
  {
  }

  lemma ReadU(bits: seq<bool>, pos: nat, n: nat, v: Int32)
    requires n <= 32 && At(bits, pos, U(n, v))
    ensures UAt(bits, pos, n) == AsUint32(v) % Pow2(n)
    ensures IsU(n, v) ==> GetU(bits, pos, n) == (v, pos + n)
  {
    hide At, Window, FromBits, ToBits, Pow2;
    WindowIs(bits, pos, U(n, v));
    FromToBits(AsUint32(v), n);
    Pow2Values();
    GetUField(bits, pos, n);
    if IsU(n, v) {
      SmallMod(AsUint32(v), Pow2(n));
    }
  }

  /** The bit length of v is the least n with v < 2^n. */
  lemma {:induction false} BitLengthBounds(v: nat)
    requires v > 0
    ensures BitLength(v) > 0
    ensures Pow2(BitLength(v) - 1) <= v < Pow2(BitLength(v))
  {
    if v > 1 {
      BitLengthBounds(v / 2);
    }
  }

  lemma {:induction false} ToBitsZero(n: nat)
    ensures forall k :: 0 <= k < n ==> !ToBits(0, n)[k]
  {
    if n != 0 {
      ToBitsZero(n - 1);
    }
  }

  lemma {:induction false} LeadingBits(v: nat, n: nat, k: nat)
    requires v > 0 && k < n
    ensures n - 1 - k >= BitLength(v) ==> !ToBits(v, n)[k]
    ensures n - 1 - k == BitLength(v) - 1 ==> ToBits(v, n)[k]
  {
    if k < n - 1 {
      if v / 2 > 0 {
        LeadingBits(v / 2, n - 1, k);
      } else {
        ToBitsZero(n - 1);
      }
    } else {
      assert BitLength(v / 2) == 0 <==> v / 2 == 0;
    }
  }

  lemma {:induction false} ZerosCount(bits: seq<bool>, pos: nat, count: nat, total: nat)
    requires count <= total < 32
    requires pos + (total - count) < |bits|
    requires forall k :: pos <= k < pos + (total - count) ==> !bits[k]
    requires bits[pos + (total - count)]
    ensures ZerosAt(bits, pos, count) == (total, pos + (total - count) + 1)
    decreases total - count
  {
    if count < total {
      ZerosCount(bits, pos + 1, count + 1, total);
    }
  }

  lemma {:induction false} ToBitsSuffix(v: nat, n: nat, m: nat)
    requires m <= n
    ensures ToBits(v, n)[n - m..] == ToBits(v, m)
  {
    if m != 0 {
      ToBitsSuffix(v / 2, n - 1, m - 1);
      assert ToBits(v, n)[n - m..] == ToBits(v / 2, n - 1)[n - m..] + [v % 2 == 1];
    }
  }

  /** The codeword of v starts with BitLength(v + 1) - 1 zeros and a one. */
  lemma ExpGolombZeros(bits: seq<bool>, pos: nat, v: nat)
    requires BitLength(v + 1) <= 32 && At(bits, pos, ExpGolomb(v))
    ensures BitLength(v + 1) > 0
    ensures ZerosAt(bits, pos, 0) == (BitLength(v + 1) - 1, pos + BitLength(v + 1))
  {
    var e, len := ExpGolomb(v), BitLength(v + 1);
    forall i | pos <= i < pos + len ensures bits[i] == (i == pos + len - 1) {
      LeadingBits(v + 1, 2 * len - 1, i - pos);
      assert bits[pos..pos + |e|][i - pos] == bits[i];
    }
    ZerosCount(bits, pos, 0, len - 1);
  }

  lemma DoublePow2(z: nat)
    ensures Pow2(z + 1) == Pow2(z) + Pow2(z)
  {
  }

  lemma ExpGolombTail(v: nat)
    ensures BitLength(v + 1) > 0 && |ExpGolomb(v)| == 2 * BitLength(v + 1) - 1
    ensures ExpGolomb(v)[BitLength(v + 1)..] == ToBits(v + 1, BitLength(v + 1) - 1)
  {
    hide ToBits;
    ToBitsSuffix(v + 1, 2 * BitLength(v + 1) - 1, BitLength(v + 1) - 1);
  }

  lemma TailValue(v: nat)
    requires v > 0
    ensures BitLength(v) > 0
    ensures FromBits(ToBits(v, BitLength(v) - 1)) == v - Pow2(BitLength(v) - 1)
  {
    hide ToBits, FromBits;
    BitLengthBounds(v);
    var m := Pow2(BitLength(v) - 1);
    DoublePow2(BitLength(v) - 1);
    hide Pow2, BitLength;
    FromToBits(v, BitLength(v) - 1);
    ModUnique(v, m, 1, v - m);
  }

  /** What follows is v + 1 without its leading one. */
  lemma ExpGolombRest(bits: seq<bool>, pos: nat, v: nat)
    requires At(bits, pos, ExpGolomb(v))
    ensures var len := BitLength(v + 1);
            len > 0 && UAt(bits, pos + len, len - 1) == v + 1 - Pow2(len - 1)
  {
    hide *;
    var e, len := ExpGolomb(v), BitLength(v + 1);
    ExpGolombTail(v);
    TailValue(v + 1);
    assert e == e[..len] + e[len..];
    AtSplit(bits, pos, e[..len], e[len..]);
    WindowIs(bits, pos + len, e[len..]);
    UAtWindow(bits, pos + len, len - 1);
  }

  lemma ShortCode(v: nat)
    ensures v < 0x1_0000 <==> BitLength(v) <= 16
  {
    if v > 0 {
      BitLengthBounds(v);
      Pow2Values();
      if BitLength(v) <= 16 {
        Pow2Mono(BitLength(v), 16);
      } else {
        Pow2Mono(16, BitLength(v) - 1);
      }
    }
  }

  /** read_ue undoes write_ue at any bit alignment, for every codeNum of the writer's range. */
  lemma ReadExpGolomb(bits: seq<bool>, pos: nat, v: nat)
    requires v <= 65534 && At(bits, pos, ExpGolomb(v))
    ensures UeAt(bits, pos) == (v, pos + |ExpGolomb(v)|)
  {
    ShortCode(v + 1);
    ExpGolombZeros(bits, pos, v);
    ExpGolombRest(bits, pos, v);
  }

  lemma ReadUe(bits: seq<bool>, pos: nat, v: Int32)
    requires IsUe(v) && At(bits, pos, Ue(v))
    ensures GetUe(bits, pos) == (v, pos + |Ue(v)|)
  {
    hide At, ExpGolomb, UeAt;
    ReadExpGolomb(bits, pos, v);
  }

  lemma ReadSe(bits: seq<bool>, pos: nat, v: Int32)
    requires IsSe(v) && At(bits, pos, Se(v))
    ensures SeAt(bits, pos) == (v, pos + |Se(v)|)
  {
    hide At, ExpGolomb, UeAt;
    ReadExpGolomb(bits, pos, SignedCode(v));
  }

  predicate Starts(bits: seq<bool>, e: seq<bool>) {
    At(bits, 0, e)
  }

  lemma StartsSplit(bits: seq<bool>, a: seq<bool>, e: seq<bool>)
    requires Starts(bits, a + e)
    ensures Starts(bits, a) && At(bits, |a|, e)
  {
    AtSplit(bits, 0, a, e);
  }

  /** Everything above for the bits that come after any prefix of one bit string: each
      descriptor gives back the value that was written. */
  lemma ReadBack(bits: seq<bool>)
    ensures forall a, n: nat, v: Int32 {:trigger Starts(bits, a + U(n, v))} ::
              Starts(bits, a + U(n, v)) && n <= 32 && IsU(n, v) ==>
                Starts(bits, a) && GetU(bits, |a|, n) == (v, |a + U(n, v)|)
    ensures forall a, v: Int32 {:trigger Starts(bits, a + Ue(v))} ::
              Starts(bits, a + Ue(v)) && IsUe(v) ==>
                Starts(bits, a) && GetUe(bits, |a|) == (v, |a + Ue(v)|)
    ensures forall a, v: Int32 {:trigger Starts(bits, a + Se(v))} ::
              Starts(bits, a + Se(v)) && IsSe(v) ==>
                Starts(bits, a) && SeAt(bits, |a|) == (v, |a + Se(v)|)
  {
    hide Starts, At, U, Ue, Se, GetU, GetUe, SeAt, IsU, IsUe, IsSe;
    forall a, n: nat, v: Int32 | Starts(bits, a + U(n, v)) && n <= 32 && IsU(n, v)
      ensures Starts(bits, a) && GetU(bits, |a|, n) == (v, |a + U(n, v)|)
    {
      StartsSplit(bits, a, U(n, v));
      ReadU(bits, |a|, n, v);
    }
    forall a, v: Int32 | Starts(bits, a + Ue(v)) && IsUe(v)
      ensures Starts(bits, a) && GetUe(bits, |a|) == (v, |a + Ue(v)|)
    {
      StartsSplit(bits, a, Ue(v));
      ReadUe(bits, |a|, v);
    }
    forall a, v: Int32 | Starts(bits, a + Se(v)) && IsSe(v)
      ensures Starts(bits, a) && SeAt(bits, |a|) == (v, |a + Se(v)|)
    {
      StartsSplit(bits, a, Se(v));
      ReadSe(bits, |a|, v);
    }
  }

  lemma FlagRead(bits: seq<bool>, acc: seq<bool>, v: Int32)
    requires Starts(bits, acc + U(1, v)) && IsU(1, v)
    ensures Starts(bits, acc) && GetU(bits, |acc|, 1) == (v, |acc + U(1, v)|)
  {
    hide Starts, At, U, GetU, IsU;
    StartsSplit(bits, acc, U(1, v));
    ReadU(bits, |acc|, 1, v);
  }

  lemma SignedRead(bits: seq<bool>, acc: seq<bool>, v: Int32)
    requires Starts(bits, acc + Se(v)) && IsSe(v)
    ensures Starts(bits, acc) && SeAt(bits, |acc|) == (v, |acc + Se(v)|)
  {
    hide Starts, At, Se, SeAt, IsSe;
    StartsSplit(bits, acc, Se(v));
    ReadSe(bits, |acc|, v);
  }

  // ---------- Writing at the cursor, then reading there ----------

  lemma OverlayAt(bits: seq<bool>, pos: nat, e: seq<bool>)
    requires pos + |e| <= |bits|
    ensures At(Overlay(bits, pos, e), pos, e)
  {
  }

  /** bs_write_u then bs_read_u at any alignment gives v modulo 2^n. */
  lemma WriteReadU(bits: seq<bool>, pos: nat, n: nat, v: Uint32)
    requires n <= 32 && pos + n <= |bits|
    ensures UAt(Overlay(bits, pos, ToBits(v, n)), pos, n) == v % Pow2(n)
  {
    OverlayAt(bits, pos, ToBits(v, n));
    WindowIs(Overlay(bits, pos, ToBits(v, n)), pos, ToBits(v, n));
    FromToBits(v, n);
  }

  lemma WriteReadUe(bits: seq<bool>, pos: nat, v: Uint32)
    requires v <= 65534 && pos + |ExpGolomb(v)| <= |bits|
    ensures UeAt(Overlay(bits, pos, ExpGolomb(v)), pos) == (v, pos + |ExpGolomb(v)|)
  {
    OverlayAt(bits, pos, ExpGolomb(v));
    ReadExpGolomb(Overlay(bits, pos, ExpGolomb(v)), pos, v);
  }

  lemma WriteReadSe(bits: seq<bool>, pos: nat, v: Int32)
    requires IsSe(v) && pos + |Se(v)| <= |bits|
    ensures SeAt(Overlay(bits, pos, Se(v)), pos) == (v, pos + |Se(v)|)
  {
    OverlayAt(bits, pos, Se(v));
    ReadSe(Overlay(bits, pos, Se(v)), pos, v);
  }

  // ---------- Writing back what was read ----------

  /** a is what the reader sees from the start on; bits past the end read as 0. */
  predicate Agrees(bits: seq<bool>, a: seq<bool>) {
    Window(bits, 0, |a|) == a
  }

  /** An Exp-Golomb code as the writer writes it: at most 15 zeros and then a one. The reader
      also takes longer codes, of which some stand for values of short ones, and 32 zeros. */
  predicate PlainCode(bits: seq<bool>, pos: nat) {
    var (zeros, next) := ZerosAt(bits, pos, 0);
    zeros < 16 && next == pos + zeros + 1
  }

  lemma AgreesStarts(bits: seq<bool>, a: seq<bool>)
    ensures Starts(bits, a) <==> Agrees(bits, a) && |a| <= |bits|
  {
    if |a| <= |bits| {
      assert Window(bits, 0, |a|) == bits[0..|a|];
    }
  }

  lemma AgreesOn(bits: seq<bool>, a: seq<bool>, e: seq<bool>)
    requires Agrees(bits, a) && Window(bits, |a|, |e|) == e
    ensures Agrees(bits, a + e)
  {
    forall i | 0 <= i < |a + e| ensures Window(bits, 0, |a + e|)[i] == (a + e)[i] {
      if i < |a| {
        assert Window(bits, 0, |a|)[i] == a[i];
      } else {
        assert Window(bits, |a|, |e|)[i - |a|] == e[i - |a|];
      }
    }
  }

  lemma UWritten(bits: seq<bool>, pos: nat, n: nat)
    requires n <= 32
    ensures Window(bits, pos, n) == U(n, GetU(bits, pos, n).0)
  {
    ToFromBits(Window(bits, pos, n));
    GetUField(bits, pos, n);
  }

  lemma FlagBack(bits: seq<bool>, acc: seq<bool>)
    requires Agrees(bits, acc)
    ensures var (v, q) := GetU(bits, |acc|, 1);
            Agrees(bits, acc + U(1, v)) && |acc + U(1, v)| == q
  {
    hide Agrees, U, GetU;
    UWritten(bits, |acc|, 1);
    AgreesOn(bits, acc, U(1, GetU(bits, |acc|, 1).0));
    GetUField(bits, |acc|, 1);
  }

  lemma {:induction false} ZerosSeen(bits: seq<bool>, pos: nat, count: nat)
    requires count <= 32
    ensures var (zeros, next) := ZerosAt(bits, pos, count);
            next == pos + (zeros - count) + 1 && zeros < 32 ==>
              next <= |bits| && bits[next - 1] && forall k :: pos <= k && k + 1 < next ==> !bits[k]
    ensures var (zeros, next) := ZerosAt(bits, pos, count);
            pos + (zeros - count) <= next <= pos + (zeros - count) + 1
    decreases 32 - count
  {
    if pos < |bits| && count < 32 && !bits[pos] {
      ZerosSeen(bits, pos + 1, count + 1);
    }
  }

  lemma BitLengthIs(v: nat, z: nat)
    requires Pow2(z) <= v < Pow2(z + 1)
    ensures BitLength(v) == z + 1
  {
    BitLengthBounds(v);
    if BitLength(v) < z + 1 {
      Pow2Mono(BitLength(v), z);
    } else if BitLength(v) > z + 1 {
      Pow2Mono(z + 1, BitLength(v) - 1);
    }
  }

  lemma AddMod(m: nat, r: nat)
    requires r < m
    ensures (m + r) % m == r
  {
    ModUnique(m + r, m, 1, r);
  }

  lemma LowBitsValue(w: seq<bool>)
    ensures FromBits(ToBits(Pow2(|w|) + FromBits(w), |w|)) == FromBits(w)
  {
    hide ToBits, FromBits, Pow2;
    ToFromBits(w);
    FromToBits(Pow2(|w|) + FromBits(w), |w|);
    AddMod(Pow2(|w|), FromBits(w));
  }

  /** The low z bits do not show a 2^z on top. */
  lemma LowBits(w: seq<bool>)
    ensures ToBits(Pow2(|w|) + FromBits(w), |w|) == w
  {
    hide ToBits, FromBits, Pow2;
    LowBitsValue(w);
    ToFromBits(w);
    ToFromBits(ToBits(Pow2(|w|) + FromBits(w), |w|));
  }

  lemma CodeLength(w: seq<bool>)
    ensures BitLength(Pow2(|w|) + FromBits(w)) == |w| + 1
  {
    hide FromBits, BitLength, Pow2;
    ToFromBits(w);
    DoublePow2(|w|);
    BitLengthIs(Pow2(|w|) + FromBits(w), |w|);
  }

  /** The codeword of a value of z + 1 bits starts with z zeros and a one. */
  lemma CodeHead(v: nat, z: nat, k: nat)
    requires BitLength(v) == z + 1 && k <= z
    ensures ToBits(v, 2 * z + 1)[k] == (k == z)
  {
    hide ToBits;
    LeadingBits(v, 2 * z + 1, k);
  }

  lemma CodeTail(w: seq<bool>, k: nat)
    requires k < |w|
    ensures ToBits(Pow2(|w|) + FromBits(w), 2 * |w| + 1)[|w| + 1 + k] == w[k]
  {
    hide ToBits, FromBits, Pow2;
    var v, z := Pow2(|w|) + FromBits(w), |w|;
    LowBits(w);
    ToBitsSuffix(v, 2 * z + 1, z);
    assert ToBits(v, 2 * z + 1)[z + 1..][k] == w[k];
  }

  /** z zeros, a one and z more bits are the codeword with those bits. */
  lemma CodeBits(bits: seq<bool>, pos: nat, z: nat)
    requires pos + z < |bits| && bits[pos + z] && forall k :: pos <= k < pos + z ==> !bits[k]
    ensures var v := Pow2(z) + FromBits(Window(bits, pos + z + 1, z));
            BitLength(v) == z + 1 && Window(bits, pos, 2 * z + 1) == ToBits(v, 2 * z + 1)
  {
    hide ToBits, BitLength, FromBits, Pow2;
    var w := Window(bits, pos + z + 1, z);
    var v := Pow2(z) + FromBits(w);
    CodeLength(w);
    var got, code := Window(bits, pos, 2 * z + 1), ToBits(v, 2 * z + 1);
    forall k | 0 <= k < 2 * z + 1 ensures got[k] == code[k] {
      if k <= z {
        CodeHead(v, z, k);
      } else {
        CodeTail(w, k - z - 1);
      }
    }
  }

  lemma PlainValue(bits: seq<bool>, pos: nat)
    requires PlainCode(bits, pos)
    ensures var (z, next) := ZerosAt(bits, pos, 0);
            next == pos + z + 1 && z < 16
            && pos + z < |bits| && bits[pos + z] && (forall k :: pos <= k < pos + z ==> !bits[k])
            && UeAt(bits, pos) == (Pow2(z) + FromBits(Window(bits, pos + z + 1, z)) - 1, pos + 2 * z + 1)
  {
    hide FromBits, Pow2, Window, ZerosAt;
    ZerosSeen(bits, pos, 0);
  }

  lemma CodeWritten(bits: seq<bool>, pos: nat)
    requires PlainCode(bits, pos)
    ensures var (code, next) := UeAt(bits, pos);
            code <= 65534 && next == pos + |ExpGolomb(code)| && Window(bits, pos, |ExpGolomb(code)|) == ExpGolomb(code)
  {
    hide PlainCode, ToBits, BitLength, FromBits, Pow2, Window, ZerosAt, UeAt;
    PlainValue(bits, pos);
    var z, code := ZerosAt(bits, pos, 0).0, UeAt(bits, pos).0;
    CodeBits(bits, pos, z);
    assert BitLength(code + 1) == z + 1;
    ShortCode(code + 1);
  }

  lemma SignedBack(code: nat)
    requires code <= 65534
    ensures SignedCode(SignedValue(code)) == code && IsSe(SignedValue(code))
  {
  }

  /** Each descriptor writes back what it read, for plain codes. */
  lemma WriteBack(bits: seq<bool>)
    ensures forall a, n: nat, v: Int32 {:trigger a + U(n, v)} ::
              Agrees(bits, a) && n <= 32 && GetU(bits, |a|, n).0 == v ==>
                Agrees(bits, a + U(n, v)) && GetU(bits, |a|, n).1 == |a + U(n, v)|
    ensures forall a, v: Int32 {:trigger a + Ue(v)} ::
              Agrees(bits, a) && PlainCode(bits, |a|) && GetUe(bits, |a|).0 == v ==>
                Agrees(bits, a + Ue(v)) && GetUe(bits, |a|).1 == |a + Ue(v)| && IsUe(v)
    ensures forall a, v: Int32 {:trigger a + Se(v)} ::
              Agrees(bits, a) && PlainCode(bits, |a|) && SeAt(bits, |a|).0 == v ==>
                Agrees(bits, a + Se(v)) && SeAt(bits, |a|).1 == |a + Se(v)| && IsSe(v)
  {
    hide Agrees, PlainCode, U, ExpGolomb, UeAt, GetU, Window, ZerosAt;
    forall a, n: nat, v: Int32 | Agrees(bits, a) && n <= 32 && GetU(bits, |a|, n).0 == v
      ensures Agrees(bits, a + U(n, v)) && GetU(bits, |a|, n).1 == |a + U(n, v)|
    {
      UWritten(bits, |a|, n);
      AgreesOn(bits, a, U(n, v));
      GetUField(bits, |a|, n);
    }
    forall a, v: Int32 | Agrees(bits, a) && PlainCode(bits, |a|) && GetUe(bits, |a|).0 == v
      ensures Agrees(bits, a + Ue(v)) && GetUe(bits, |a|).1 == |a + Ue(v)| && IsUe(v)
    {
      CodeWritten(bits, |a|);
      AgreesOn(bits, a, Ue(v));
    }
    forall a, v: Int32 | Agrees(bits, a) && PlainCode(bits, |a|) && SeAt(bits, |a|).0 == v
      ensures Agrees(bits, a + Se(v)) && SeAt(bits, |a|).1 == |a + Se(v)| && IsSe(v)
    {
      CodeWritten(bits, |a|);
      SignedBack(UeAt(bits, |a|).0);
      AgreesOn(bits, a, Se(v));
    }
  }

  lemma CodePlain(bits: seq<bool>, pos: nat, code: nat)
    requires code <= 65534 && At(bits, pos, ExpGolomb(code))
    ensures PlainCode(bits, pos)
  {
    hide At, ExpGolomb, ZerosAt;
    ShortCode(code + 1);
    ExpGolombZeros(bits, pos, code);
  }

  /** The codes that the writer writes are plain. */
  lemma WrittenPlain(bits: seq<bool>)
    ensures forall a, v: Int32 {:trigger Starts(bits, a + Ue(v))} :: Starts(bits, a + Ue(v)) && IsUe(v) ==> PlainCode(bits, |a|)
    ensures forall a, v: Int32 {:trigger Starts(bits, a + Se(v))} :: Starts(bits, a + Se(v)) && IsSe(v) ==> PlainCode(bits, |a|)
  {
    forall a, v: Int32 | Starts(bits, a + Ue(v)) && IsUe(v) ensures PlainCode(bits, |a|) {
      StartsSplit(bits, a, Ue(v));
      CodePlain(bits, |a|, v);
    }
    forall a, v: Int32 | Starts(bits, a + Se(v)) && IsSe(v) ensures PlainCode(bits, |a|) {
      StartsSplit(bits, a, Se(v));
      CodePlain(bits, |a|, SignedCode(v));
    }
  }
}
