/** The bit cursor bs_t: a byte buffer with a byte pointer and a count of bits left in that
    byte. It refines a bit string with a position. */
module BitCursor {
  import opened Bits
  import opened Codes

  function Row(count: nat, length: nat): seq<nat> {
    seq(count, _ => length)
  }

  /** The bit length of 0..255 (1 for 0), as bs_write_ue looks it up. */
  const LEN_TABLE: seq<nat> :=
    [1, 1] + Row(2, 2) + Row(4, 3) + Row(8, 4) + Row(16, 5) + Row(32, 6) + Row(64, 7) + Row(128, 8)

  /** The length bs_write_ue computes for its incremented argument. */
  function TableLength(v: Uint32): nat {
    if v >= 0x100_0000 then 24 + LEN_TABLE[v / 0x100_0000]
    else if v >= 0x1_0000 then 16 + LEN_TABLE[v / 0x1_0000]
    else if v >= 0x100 then 8 + LEN_TABLE[v / 0x100]
    else LEN_TABLE[v]
  }

  lemma BitLengthPair(v: nat)
    requires v >= 4
    ensures BitLength(v) == 2 + BitLength(v / 4)
  {
    assert v / 2 / 2 == v / 4;
    assert BitLength(v / 2) == 1 + BitLength(v / 2 / 2);
  }

  lemma BitLengthNibble(v: nat)
    requires v >= 16
    ensures BitLength(v) == 4 + BitLength(v / 16)
  {
    hide BitLength;
    BitLengthPair(v);
    BitLengthPair(v / 4);
    assert v / 4 / 4 == v / 16;
  }

  lemma BitLengthByte(v: nat)
    requires v >= 0x100
    ensures BitLength(v) == 8 + BitLength(v / 0x100)
  {
    hide BitLength;
    BitLengthNibble(v);
    BitLengthNibble(v / 16);
    assert v / 16 / 16 == v / 0x100;
  }

  lemma TableByte(v: nat)
    requires 1 <= v < 0x100
    ensures LEN_TABLE[v] == BitLength(v)
  {
    if v >= 16 {
      BitLengthNibble(v);
    }
    var w := if v >= 16 then v / 16 else v;
    assert BitLength(w) == if w >= 8 then 4 else if w >= 4 then 3 else if w >= 2 then 2 else 1;
  }

  /** The table lookup gives the bit length of every 32-bit value but 0. */
  lemma TableLengthIsBitLength(v: Uint32)
    requires v >= 1
    ensures TableLength(v) == BitLength(v)
  {
    if v >= 0x100 {
      BitLengthByte(v);
    }
    if v >= 0x1_0000 {
      BitLengthByte(v / 0x100);
      assert v / 0x100 / 0x100 == v / 0x1_0000;
    }
    if v >= 0x100_0000 {
      BitLengthByte(v / 0x1_0000);
      assert v / 0x1_0000 / 0x100 == v / 0x100_0000;
    }
    TableByte(if v >= 0x100_0000 then v / 0x100_0000 else if v >= 0x1_0000 then v / 0x1_0000
              else if v >= 0x100 then v / 0x100 else v);
  }

  /** The shifts of bs_write_ue (the widest is 2 * len - 2, for v incremented with wrap-around)
      stay below 32 exactly for the values up to 65534 and the largest one. */
  lemma UeShiftsInRange(v: Uint32)
    ensures 2 * TableLength((v + 1) % 0x1_0000_0000) - 2 < 32 <==> v <= 65534 || v == 0xffff_ffff
  {
    if v != 0xffff_ffff {
      TableLengthIsBitLength(v + 1);
      ShortCode(v + 1);
    }
  }

  lemma OneBit(v: nat)
    ensures ToBits(v, 1) == [v % 2 == 1]
  {
    assert ToBits(v / 2, 0) == [];
  }

  /** The largest value wraps to 0, which the table gives length 1. */
  lemma WrappedCode()
    ensures TableLength(0) == 1 && ToBits(0, 1) == UeCode(0xffff_ffff)
  {
    assert TableLength(0) == LEN_TABLE[0] == 1;
    hide TableLength;
    OneBit(0);
  }

  lemma ShortLength(v: Uint32)
    requires v <= 65534
    ensures 0 < BitLength(v + 1) == TableLength(v + 1) <= 16
    ensures v == 0 ==> TableLength(1) == 1
  {
    BitLengthBounds(1);
    BitLengthBounds(v + 1);
    assert BitLength(1) == 1;
    hide *;
    ShortCode(v + 1);
    TableLengthIsBitLength(v + 1);
  }

  lemma ShortWritten(v: Uint32)
    requires v <= 65534
    ensures 0 < 2 * TableLength(v + 1) - 1 <= 32 && ToBits(v + 1, 2 * TableLength(v + 1) - 1) == UeCode(v)
    ensures v == 0 ==> TableLength(1) == 1
  {
    hide TableLength, BitLength, ToBits;
    ShortLength(v);
  }

  /** The bits that bs_write_ue writes are the codeword. */
  lemma WrittenCode(v: Uint32)
    requires v <= 65534 || v == 0xffff_ffff
    ensures var next := (v + 1) % 0x1_0000_0000;
            0 < 2 * TableLength(next) - 1 <= 32 && ToBits(next, 2 * TableLength(next) - 1) == UeCode(v)
    ensures v == 0 ==> UeCode(v) == ToBits(1, 1)
  {
    hide *;
    if v == 0xffff_ffff {
      WrappedCode();
    } else {
      ShortWritten(v);
    }
  }

  /** What bs_write_se makes of v with wrap-around, and the code it writes for that. */
  lemma SignedWritten(v: Int32)
    requires MayWriteSe(v)
    ensures var code := if v <= 0 then (0x1_0000_0000 - AsUint32(v)) % 0x1_0000_0000 * 2 % 0x1_0000_0000
                        else v * 2 - 1;
            0 <= code <= 65534 && UeCode(code) == Se(v)
  {
    hide ExpGolomb;
  }

  lemma OneBitOfByte(buf: seq<Byte>, i: nat, k: nat)
    requires i < |buf| && k < 8
    ensures BitsOf(buf)[8 * i + 7 - k] == (Shr(buf[i], k) % 2 == 1)
  {
    ToBitsAt(buf[i], 8, 7 - k);
    assert (8 * i + 7 - k) / 8 == i && (8 * i + 7 - k) % 8 == 7 - k;
  }

  lemma UAtOne(bits: seq<bool>, pos: nat)
    ensures UAt(bits, pos, 1) == if pos < |bits| && bits[pos] then 1 else 0
  {
    var w := Window(bits, pos, 1);
    assert FromBits(w) == 2 * FromBits(w[..0]) + if w[0] then 1 else 0;
  }

  lemma UAtNone(bits: seq<bool>, pos: nat)
    ensures UAt(bits, pos, 0) == 0
  {
  }

  lemma ShlNone(v: nat)
    ensures Shl(v, 0) == v
  {
  }

  lemma {:induction false} ShlZero(k: nat)
    ensures Shl(0, k) == 0
  {
    if k > 0 {
      ShlZero(k - 1);
    }
  }

  lemma UAtSnoc(bits: seq<bool>, pos: nat, n: nat)
    ensures UAt(bits, pos, n + 1) == 2 * UAt(bits, pos, n) + UAt(bits, pos + n, 1)
  {
    UAtOne(bits, pos + n);
    assert Window(bits, pos, n + 1)[..n] == Window(bits, pos, n);
  }

  lemma {:induction false} ShlAdd(high: nat, bit: nat, k: nat)
    ensures Shl(high, k + 1) + Shl(bit, k) == Shl(2 * high + bit, k)
  {
    if k > 0 {
      ShlAdd(high, bit, k - 1);
    }
  }

  /** One step of bs_read_u: the next bit goes to its place below those already read. */
  lemma ShiftIn(bits: seq<bool>, pos: nat, i: nat, n: nat)
    requires i < n
    ensures Shl(UAt(bits, pos, i), n - i) + Shl(UAt(bits, pos + i, 1), n - i - 1)
         == Shl(UAt(bits, pos, i + 1), n - i - 1)
  {
    UAtSnoc(bits, pos, i);
    ShlAdd(UAt(bits, pos, i), UAt(bits, pos + i, 1), n - i - 1);
  }

  /** One step of bs_write_u: the bit that it shifts out. */
  lemma ShiftedBit(v: nat, n: nat, i: nat)
    requires i < n
    ensures ToBits(Shr(v, n - i - 1) % 2, 1) == [ToBits(v, n)[i]]
  {
    hide Shr, ToBits;
    OneBit(Shr(v, n - i - 1) % 2);
    ToBitsAt(v, n, i);
    SmallMod(Shr(v, n - i - 1) % 2, 2);
  }

  lemma OneMore(a: seq<bool>, e: seq<bool>, i: nat)
    requires i < |e|
    ensures a + e[..i] + [e[i]] == a + e[..i + 1]
  {
  }

  lemma OverlayOneMore(bits: seq<bool>, pos: nat, e: seq<bool>, i: nat)
    requires i < |e|
    ensures Overlay(Overlay(bits, pos, e[..i]), pos + i, [e[i]]) == Overlay(bits, pos, e[..i + 1])
  {
    hide Overlay;
    OverlayAppend(bits, pos, e[..i], [e[i]]);
    assert e[..i] + [e[i]] == e[..i + 1];
  }

  lemma WholeByte(buf: seq<Byte>, i: nat)
    requires i < |buf|
    ensures UAt(BitsOf(buf), 8 * i, 8) == buf[i]
  {
    BitsOfByte(buf, i);
    assert Window(BitsOf(buf), 8 * i, 8) == BitsOf(buf)[8 * i..8 * i + 8];
    ByteOfBits(buf[i]);
  }

  lemma BytePosition(i: nat, k: nat, j: nat)
    requires k < 8
    ensures j == 8 * i + k <==> j / 8 == i && j % 8 == k
  {
  }

  /** Every bit but number k of byte i is as before. */
  lemma BitStoredAt(before: seq<Byte>, i: nat, k: nat, v: bool, after: seq<Byte>, j: nat)
    requires i < |before| && k < 8 && |after| == |before| && j < 8 * |before|
    requires ToBits(after[i], 8) == ToBits(before[i], 8)[k := v]
    requires j / 8 != i ==> after[j / 8] == before[j / 8]
    ensures BitsOf(after)[j] == if j == 8 * i + k then v else BitsOf(before)[j]
  {
    hide BitsOf, ToBits;
    BitOfByte(before, j);
    BitOfByte(after, j);
    BytePosition(i, k, j);
  }

  lemma BitStored(before: seq<Byte>, i: nat, k: nat, v: bool, after: seq<Byte>)
    requires i < |before| && k < 8 && |after| == |before|
    requires after[i] == PutBit(before[i], 7 - k, v)
    requires forall j :: 0 <= j < |before| && j != i ==> after[j] == before[j]
    ensures BitsOf(after) == Overlay(BitsOf(before), 8 * i + k, [v])
  {
    hide ToBits, PutBit, BitsOf, Pow2;
    Pow2Values();
    PutBitBits(before[i], 7 - k, v, 8);
    forall j | 0 <= j < 8 * |before|
      ensures BitsOf(after)[j] == Overlay(BitsOf(before), 8 * i + k, [v])[j]
    {
      BitStoredAt(before, i, k, v, after, j);
    }
  }

  lemma LowByte(v: nat)
    ensures ToBits(v % 0x100, 8) == ToBits(v, 8)
  {
    FromToBits(v, 8);
    ToFromBits(ToBits(v, 8));
    Pow2Values();
  }

  lemma ByteStored(before: seq<Byte>, i: nat, x: Byte, after: seq<Byte>)
    requires i < |before| && after == before[i := x]
    ensures BitsOf(after) == Overlay(BitsOf(before), 8 * i, ToBits(x, 8))
  {
    forall k | 0 <= k < 8 * |before|
      ensures BitsOf(after)[k] == Overlay(BitsOf(before), 8 * i, ToBits(x, 8))[k]
    {
      assert k / 8 == i <==> 8 * i <= k < 8 * i + 8;
    }
  }

  class Bs {
    const buf: array<Byte>
    const end: nat
    var p: nat
    var bitsLeft: int
    /** The bits of the buffer at bs_init, and every bit written since. */
    ghost const origin: seq<bool>
    ghost var log: seq<bool>

    ghost predicate Valid()
      reads this`bitsLeft
    {
      end <= buf.Length && 1 <= bitsLeft <= 8
    }

    /** The bits of the buffer. */
    ghost function Content(): (s: seq<bool>)
      requires end <= buf.Length
      reads buf
      ensures |s| == 8 * end
    {
      BitsOf(buf[..end])
    }

    /** The number of bits before the cursor. */
    ghost function Pos(): nat
      requires bitsLeft <= 8
      reads this`p, this`bitsLeft
    {
      8 * p + 8 - bitsLeft
    }

    /** Nothing but the log has been written, from the start of the buffer on. */
    ghost predicate Recording()
      requires Valid()
      reads this, buf
    {
      Pos() == |log| && Content() == Overlay(origin, 0, log)
    }

    /** bs_init */
    constructor (buf: array<Byte>, size: nat)
      requires size <= buf.Length
      ensures Valid() && Pos() == 0 && this.buf == buf && end == size
      ensures log == [] && origin == Content() && Recording()
    {
      this.buf := buf;
      origin := BitsOf(buf[..size]);
      end := size;
      p := 0;
      bitsLeft := 8;
      log := [];
      new;
      OverlayNothing(origin, 0);
    }

    /** The bits e were written at the cursor and nothing else changed. */
    twostate predicate Wrote(e: seq<bool>)
      requires old(Valid())
      reads this, buf
    {
      Valid() && Pos() == old(Pos()) + |e|
      && Content() == Overlay(old(Content()), old(Pos()), e)
      && (forall i :: end <= i < buf.Length ==> buf[i] == old(buf[i]))
      && log == old(log) + e
      && (old(Recording()) ==> Recording())
    }

    twostate lemma Recorded(e: seq<bool>)
      requires old(Valid()) && Valid() && Pos() == old(Pos()) + |e| && log == old(log) + e
      requires Content() == Overlay(old(Content()), old(Pos()), e)
      ensures old(Recording()) ==> Recording()
    {
      hide Content, Overlay, Pos;
      OverlayAppend(origin, 0, old(log), e);
    }

    method ByteAligned() returns (r: bool)
      requires Valid()
      ensures r == (Pos() % 8 == 0) && (Recording() ==> r == (|log| % 8 == 0))
    {
      r := bitsLeft == 8;
    }

    predicate Eof()
      reads this
    {
      p >= end
    }

    predicate Overrun()
      reads this
    {
      p > end
    }

    /** At a byte boundary bs_overrun tells exactly whether a bit past the end was passed. */
    lemma OverrunExact()
      requires Valid() && Pos() % 8 == 0
      ensures Overrun() <==> Pos() > 8 * end
    {
    }

    /** bs_pos */
    method BytePos() returns (r: nat)
      requires Valid()
      ensures r == if Pos() > 8 * end then end else Pos() / 8
    {
      r := if p > end then end else p;
    }

    method ReadU1() returns (r: Uint32)
      requires Valid()
      modifies this`p, this`bitsLeft
      ensures Valid() && Pos() == old(Pos()) + 1
      ensures r == UAt(Content(), old(Pos()), 1)
      ensures (AsInt32(r), Pos()) == GetU(Content(), old(Pos()), 1)
    {
      hide UAt, GetU, AsInt32, BitsOf, ToBits, Shr;
      bitsLeft := bitsLeft - 1;
      r := 0;
      if !Eof() {
        r := Shr(buf[p], bitsLeft) % 2;
        OneBitOfByte(buf[..end], p, bitsLeft);
      }
      UAtOne(Content(), old(Pos()));
      GetUField(Content(), old(Pos()), 1);
      if bitsLeft == 0 {
        p := p + 1;
        bitsLeft := 8;
      }
    }

    method SkipU1()
      requires Valid()
      modifies this`p, this`bitsLeft
      ensures Valid() && Pos() == old(Pos()) + 1
    {
      bitsLeft := bitsLeft - 1;
      if bitsLeft == 0 {
        p := p + 1;
        bitsLeft := 8;
      }
    }

    /** Every shift of the C loop is below n, so n > 32 would be undefined. */
    method ReadU(n: nat) returns (r: Uint32)
      requires Valid() && n <= 32
      modifies this`p, this`bitsLeft
      ensures Valid() && Pos() == old(Pos()) + n
      ensures r == UAt(Content(), old(Pos()), n)
      ensures (AsInt32(r), Pos()) == GetU(Content(), old(Pos()), n)
    {
      hide UAt, GetU, AsInt32, BitsOf, Shl;
      ghost var bits, pos := Content(), Pos();
      ShlZero(n);
      UAtNone(bits, pos);
      ShlNone(UAt(bits, pos, n));
      var acc: nat := 0;
      for i := 0 to n
        invariant Valid() && Pos() == pos + i
        invariant acc == Shl(UAt(bits, pos, i), n - i)
      {
        assert Content() == bits;
        var bit := ReadU1();
        acc := acc + Shl(bit, n - i - 1);
        ShiftIn(bits, pos, i, n);
      }
      GetUField(bits, pos, n);
      r := acc;
    }

    method SkipU(n: nat)
      requires Valid()
      modifies this`p, this`bitsLeft
      ensures Valid() && Pos() == old(Pos()) + n
    {
      for i := 0 to n
        invariant Valid() && Pos() == old(Pos()) + i
      {
        SkipU1();
      }
    }

    /** The fast path gives what eight single bits give. */
    method ReadU8() returns (r: Uint32)
      requires Valid()
      modifies this`p, this`bitsLeft
      ensures Valid() && Pos() == old(Pos()) + 8
      ensures r == UAt(Content(), old(Pos()), 8)
      ensures (AsInt32(r), Pos()) == GetU(Content(), old(Pos()), 8)
    {
      hide UAt, GetU, BitsOf;
      if bitsLeft == 8 && !Eof() {
        r := buf[p];
        WholeByte(buf[..end], p);
        GetUField(Content(), 8 * p, 8);
        p := p + 1;
        return;
      }
      r := ReadU(8);
    }

    /** The loop that bs_read_ue starts with. */
    method ReadZeros() returns (i: nat)
      requires Valid()
      modifies this`p, this`bitsLeft
      ensures Valid() && (i, Pos()) == ZerosAt(Content(), old(Pos()), 0)
    {
      hide UAt, GetU, AsInt32, BitsOf;
      ghost var bits, pos := Content(), Pos();
      i := 0;
      while !Eof() && i < 32
        invariant Valid() && i <= 32
        invariant ZerosAt(bits, Pos(), i) == ZerosAt(bits, pos, 0)
      {
        assert Content() == bits;
        UAtOne(bits, Pos());
        var bit := ReadU1();
        if bit != 0 {
          return;
        }
        i := i + 1;
      }
    }

    method ReadUe() returns (r: Uint32)
      requires Valid()
      modifies this`p, this`bitsLeft
      ensures Valid() && (r, Pos()) == UeAt(Content(), old(Pos()))
      ensures (AsInt32(r), Pos()) == GetUe(Content(), old(Pos()))
    {
      hide UAt, GetU, BitsOf, ZerosAt, AsInt32, Pow2;
      var zeros := ReadZeros();
      if zeros >= 32 { return 0; }
      UeBound(Content(), Pos(), zeros);
      r := ReadU(zeros);
      r := r + (Pow2(zeros) - 1);
    }

    method ReadSe() returns (r: Int32)
      requires Valid()
      modifies this`p, this`bitsLeft
      ensures Valid() && (r, Pos()) == SeAt(Content(), old(Pos()))
    {
      var code := ReadUe();
      r := SignedValue(AsInt32(code));
    }

    /** The part of bs_write_u1 that changes the buffer. */
    method StoreBit(v: Uint32)
      requires end <= buf.Length && 0 <= bitsLeft < 8
      modifies buf
      ensures Content() == Overlay(old(Content()), 8 * p + 7 - bitsLeft, [v % 2 == 1])
      ensures forall i :: end <= i < buf.Length ==> buf[i] == old(buf[i])
    {
      hide BitsOf, Overlay, ToBits, PutBit, Pow2;
      if !Eof() {
        Pow2Values();
        PutBitBits(buf[p], bitsLeft, v % 2 == 1, 8);
        buf[p] := PutBit(buf[p], bitsLeft, v % 2 == 1);
        BitStored(old(buf[..end]), p, 7 - bitsLeft, v % 2 == 1, buf[..end]);
      } else {
        OverlayPastEnd(Content(), 8 * p + 7 - bitsLeft, [v % 2 == 1]);
      }
    }

    method WriteU1(v: Uint32)
      requires Valid()
      modifies this`p, this`bitsLeft, this`log, buf
      ensures Wrote(ToBits(v, 1))
    {
      hide ToBits, BitsOf, Overlay, Content, Recording;
      OneBit(v);
      bitsLeft := bitsLeft - 1;
      StoreBit(v);
      if bitsLeft == 0 {
        p := p + 1;
        bitsLeft := 8;
      }
      log := log + [v % 2 == 1];
      Recorded([v % 2 == 1]);
    }

    /** Every shift of the C loop is below n, so n > 32 would be undefined. */
    method WriteU(n: nat, v: Uint32)
      requires Valid() && n <= 32
      modifies this`p, this`bitsLeft, this`log, buf
      ensures Wrote(ToBits(v, n))
    {
      ghost var bits, pos, e := Content(), Pos(), ToBits(v, n);
      OverlayNothing(bits, pos);
      hide ToBits, BitsOf, Overlay, Recording, Content, Pos, Shr;
      for i := 0 to n
        invariant Valid() && Pos() == pos + i
        invariant Content() == Overlay(bits, pos, e[..i])
        invariant forall k :: end <= k < buf.Length ==> buf[k] == old(buf[k])
        invariant log == old(log) + e[..i]
        invariant old(Recording()) ==> Recording()
      {
        ShiftedBit(v, n, i);
        var bit := Shr(v, n - i - 1) % 2;
        WriteU1(bit);
        OneMore(old(log), e, i);
        OverlayOneMore(bits, pos, e, i);
      }
      assert e[..n] == e;
    }

    /** The fast path stores the byte that eight single bits store. */
    method WriteU8(v: Uint32)
      requires Valid()
      modifies this`p, this`bitsLeft, this`log, buf
      ensures Wrote(ToBits(v, 8))
    {
      hide ToBits, BitsOf, Overlay, Recording;
      if bitsLeft == 8 && !Eof() {
        buf[p] := v % 0x100;
        p := p + 1;
        log := log + ToBits(v, 8);
        LowByte(v);
        ByteStored(old(buf[..end]), old(p), v % 0x100, buf[..end]);
        Recorded(ToBits(v, 8));
        return;
      }
      WriteU(8, v);
    }

    /** Other values would make a shift of 32 or more. */
    method WriteUe(v: Uint32)
      requires Valid() && (v <= 65534 || v == 0xffff_ffff)
      modifies this`p, this`bitsLeft, this`log, buf
      ensures Wrote(UeCode(v))
    {
      WrittenCode(v);
      hide UeCode, ToBits, TableLength;
      if v == 0 {
        WriteU1(1);
      } else {
        var next := (v + 1) % 0x1_0000_0000;
        var len := TableLength(next);
        WriteU(2 * len - 1, next);
      }
    }

    method WriteSe(v: Int32)
      requires Valid() && MayWriteSe(v)
      modifies this`p, this`bitsLeft, this`log, buf
      ensures Wrote(Se(v))
    {
      SignedWritten(v);
      hide UeCode, Se;
      if v <= 0 {
        var negated := (0x1_0000_0000 - AsUint32(v)) % 0x1_0000_0000;
        WriteUe(negated * 2 % 0x1_0000_0000);
      } else {
        WriteUe(v * 2 - 1);
      }
    }
  }
}
