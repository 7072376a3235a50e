/** read_nal_unit and write_nal_unit (h264_stream.c), and the theorem about both. */
module SpsCodec {
  import opened Bits
  import opened Wrappers
  import opened Codes
  import opened BitCursor
  import opened NalFraming
  import opened SpsSyntax
  import opened SpsParse
  import opened SpsRoundTrip
  import opened SpsExact
  import opened SpsRewrite
  import SpsReader
  import SpsWriter

  /** What read_nal_unit returns and leaves in the two records. */
  datatype ReadResult = ReadResult(code: int, nal: Nal, sps: Sps)

  /** The part of read_nal_unit that parses the payload. */
  function ReadPayload(payload: seq<Byte>, used: nat, sps: Sps): ReadResult {
    var bits := BitsOf(payload);
    var (nal, p) := GetHeader(bits, 0);
    if nal.nalUnitType != NAL_UNIT_TYPE_SPS then ReadResult(-1, nal, sps)
    else
      var (sps, p) := GetSps(bits, p);
      // the trailing bits end at the next byte boundary
      ReadResult(if p / 8 + 1 > |payload| then -1 else used, nal, sps)
  }

  function ReadNal(bytes: seq<Byte>, nal: Nal, sps: Sps): ReadResult {
    match Unescape(bytes, 0, |bytes|)
    case None => ReadResult(-1, nal, sps)
    case Some((payload, used)) => ReadPayload(payload, used, sps)
  }

  /** The bytes that write_nal_unit puts at buf[1..], or None for an error: another NAL unit
      type, or a buffer too small for the payload or for its escaped form. */
  function WriteNal(nal: Nal, sps: Sps, size: nat): Option<seq<Byte>> {
    var bits := RbspBits(nal, sps);
    if nal.nalUnitType != NAL_UNIT_TYPE_SPS || |bits| > 8 * size then None
    else
      var bytes := Escape(Pack(bits), 0);
      if 1 + |bytes| > size then None else Some(bytes)
  }

  /** When no bit was lost, the bytes before the cursor are the bits that were written. */
  lemma LogStored(b: Bs)
    requires b.Valid() && b.Recording() && |b.log| % 8 == 0 && |b.log| <= 8 * b.end
    ensures b.buf[..|b.log| / 8] == Pack(b.log)
  {
    var n := |b.log| / 8;
    var bytes := b.buf[..b.end];
    assert BitsOf(bytes)[..8 * n] == b.log;
    assert BitsOf(bytes[..n]) == BitsOf(bytes)[..8 * n];
    PackBitsOf(bytes[..n]);
    assert b.buf[..n] == bytes[..n];
  }

  lemma HeaderFields(bits: seq<bool>)
    ensures GetHeader(bits, 0) == (Nal(GetU(bits, 1, 2).0, GetU(bits, 3, 5).0), 8)
  {
  }

  /** In terms of the fields and of the position after the trailing bits. */
  lemma PayloadFields(payload: seq<Byte>, used: nat, sps: Sps)
    ensures var bits := BitsOf(payload);
            var nal := Nal(GetU(bits, 1, 2).0, GetU(bits, 3, 5).0);
            var (read, p) := GetSps(bits, 8);
            ReadPayload(payload, used, sps)
            == if nal.nalUnitType != NAL_UNIT_TYPE_SPS then ReadResult(-1, nal, sps)
               else ReadResult(if SpsReader.NextByte(p) > 8 * |payload| then -1 else used, nal, read)
  {
    hide BitsOf, GetU, GetHeader, GetSps, SpsShape;
    HeaderFields(BitsOf(payload));
  }

  class H264Stream {
    var nal: Nal
    var sps: Sps

    constructor ()
      ensures nal == Nal(0, 0)
    {
      nal := Nal(0, 0);
      sps := ZeroSps().(high := ZeroHigh().(chromaFormatIdc := 0));
    }

    method ReadRbsp(rbsp: array<Byte>, size: nat, used: nat) returns (r: int)
      requires size <= rbsp.Length
      modifies this
      ensures ReadResult(r, nal, sps) == ReadPayload(rbsp[..size], used, old(sps))
    {
      hide BitsOf, GetU, GetSps, AsInt32, SpsShape, IsU, UAt, ReadPayload, SpsReader.NextByte, Bs.Recording;
      PayloadFields(rbsp[..size], used, sps);
      var b := new Bs(rbsp, size);
      assert b.Content() == BitsOf(rbsp[..size]);
      b.SkipU(1);
      var v := b.ReadU(2);
      nal := nal.(nalRefIdc := AsInt32(v));
      v := b.ReadU(5);
      nal := nal.(nalUnitType := AsInt32(v));
      if nal.nalUnitType != NAL_UNIT_TYPE_SPS {
        return -1;
      }
      sps := SpsReader.ReadSeqParameterSetRbsp(b);
      SpsReader.NextByteAligned(b.Pos());
      SpsReader.ReadRbspTrailingBits(b);
      b.OverrunExact();
      if b.Overrun() {
        return -1;
      }
      return used;
    }

    method ReadNalUnit(buf: array<Byte>, from: nat, size: nat) returns (r: int)
      requires from + size <= buf.Length
      modifies this
      ensures ReadResult(r, nal, sps) == ReadNal(buf[from..from + size], old(nal), old(sps))
    {
      hide Unescape, ReadPayload;
      var rbsp := new Byte[size](i => 0);
      var rbspSize, used := NalToRbsp(buf, from, size, rbsp, size);
      if rbspSize < 0 {
        return -1;
      }
      r := ReadRbsp(rbsp, rbspSize, used);
    }

    method WriteNalUnit(buf: array<Byte>, size: nat) returns (r: int)
      requires size <= buf.Length && Writable(sps)
      modifies buf
      ensures match WriteNal(nal, sps, size)
              case None => r == -1
              case Some(bytes) =>
                r == 1 + |bytes| <= size && buf[0] == 0 && buf[1..r] == bytes && buf[r..] == old(buf[r..])
      ensures buf[size..] == old(buf[size..])
    {
      hide Escape, BitsOf, PutSps, PutTrailing, Overlay, ToBits, Pack, Writable;
      var rbsp := new Byte[size](i => 0);
      var b := new Bs(rbsp, size);
      b.WriteU(1, 0);
      b.WriteU(2, AsUint32(nal.nalRefIdc));
      b.WriteU(5, AsUint32(nal.nalUnitType));
      if nal.nalUnitType != NAL_UNIT_TYPE_SPS {
        return -1;
      }
      SpsWriter.WriteSeqParameterSetRbsp(b, sps);
      SpsWriter.WriteRbspTrailingBits(b);
      assert b.log == RbspBits(nal, sps);
      b.OverrunExact();
      if b.Overrun() {
        return -1;
      }
      var rbspSize := b.BytePos();
      LogStored(b);
      r := RbspToNal(rbsp, rbspSize, buf, size);
    }
  }

  lemma {:induction false} AlignLength(acc: seq<bool>)
    ensures |Align(acc)| == 8 * ((|acc| + 7) / 8)
    decreases ToAlign(|acc|)
  {
    hide Align, U, ToAlign;
    AlignStep(acc);
    if |acc| % 8 != 0 {
      ToAlignStep(|acc|);
      AlignLength(acc + U(1, 0));
    }
  }

  lemma {:induction false} AlignPrefix(acc: seq<bool>)
    ensures acc <= Align(acc)
    decreases ToAlign(|acc|)
  {
    hide Align, U, ToAlign;
    AlignStep(acc);
    if |acc| % 8 != 0 {
      ToAlignStep(|acc|);
      AlignPrefix(acc + U(1, 0));
    }
  }

  /** The payload that was written starts with the header and the SPS, and it is one byte
      longer than what they fill. */
  lemma PayloadParts(nal: Nal, sps: Sps)
    ensures var bits := RbspBits(nal, sps);
            Starts(bits, PutSps(PutHeader([], nal), sps))
            && |bits| == 8 * (|PutSps(PutHeader([], nal), sps)| / 8 + 1)
  {
    hide PutSps, PutHeader, U;
    var code := PutSps(PutHeader([], nal), sps);
    var bits := RbspBits(nal, sps);
    AlignLength(code + U(1, 1));
    AlignPrefix(code + U(1, 1));
    assert bits[0..0 + |code + U(1, 1)|] == code + U(1, 1);
    StartsSplit(bits, code, U(1, 1));
  }

  /** The header comes back whole exactly when its fields fit. */
  lemma HeaderRoundTrip(bits: seq<bool>, nal: Nal)
    requires Starts(bits, PutHeader([], nal)) && nal.nalUnitType == NAL_UNIT_TYPE_SPS
    ensures GetHeader(bits, 0).1 == 8 == |PutHeader([], nal)|
    ensures GetHeader(bits, 0).0.nalUnitType == NAL_UNIT_TYPE_SPS
    ensures GetHeader(bits, 0).0 == nal <==> IsU(2, nal.nalRefIdc)
  {
    var acc1 := [] + U(1, 0);
    var acc2 := acc1 + U(2, nal.nalRefIdc);
    StartsSplit(bits, acc2, U(5, 7));
    StartsSplit(bits, acc1, U(2, nal.nalRefIdc));
    hide Starts, At, U;
    ReadU(bits, 3, 5, 7);
    ReadU(bits, 1, 2, nal.nalRefIdc);
    assert Pow2(5) == 32;
  }

  /** Whatever comes out of write_nal_unit is parsed as the payload that went in, used whole. */
  lemma ReadWritten(nal: Nal, sps: Sps, size: nat, oldNal: Nal, oldSps: Sps)
    requires WriteNal(nal, sps, size).Some?
    ensures var bytes := WriteNal(nal, sps, size).value;
            ReadNal(bytes, oldNal, oldSps) == ReadPayload(Pack(RbspBits(nal, sps)), |bytes|, oldSps)
  {
    hide RbspBits, Escape, Unescape, ReadPayload;
    var payload := Pack(RbspBits(nal, sps));
    EscapeLength(payload, 0);
    UnescapeEscape(payload, 0, |Escape(payload, 0)|);
  }

  /** The end-to-end theorem. For every SPS that can be written, and whenever write_nal_unit
      succeeds: reading the bytes at buf[1..] uses all of them and gives the same NAL header
      and the same SPS if and only if nal_ref_idc fits and the SPS is canonical. */
  lemma WriteThenRead(nal: Nal, sps: Sps, size: nat, oldNal: Nal, oldSps: Sps)
    requires Writable(sps) && WriteNal(nal, sps, size).Some?
    ensures var bytes := WriteNal(nal, sps, size).value;
            ReadNal(bytes, oldNal, oldSps) == ReadResult(|bytes|, nal, sps)
            <==> IsU(2, nal.nalRefIdc) && Canonical(sps)
  {
    hide PutSps, PutHeader, RbspBits, GetHeader, GetSps, ReadNal, Starts, At, Escape, IsU, Canonical, Writable;
    var bytes, bits := WriteNal(nal, sps, size).value, RbspBits(nal, sps);
    var header := PutHeader([], nal);
    ReadWritten(nal, sps, size, oldNal, oldSps);
    PayloadParts(nal, sps);
    BitsOfPack(bits);
    PutSpsExtends(bits, header, sps);
    HeaderRoundTrip(bits, nal);
    if Canonical(sps) {
      SpsReadBack(bits, header, sps);
    }
    if GetSps(bits, |header|).0 == sps {
      SpsOnlyCanonical(bits, header, sps);
    }
  }

  // ---------- Read, then written ----------

  /** The payload ends with a one at q and zeros up to the next byte boundary. */
  predicate EndsPlain(bits: seq<bool>, q: nat) {
    |bits| == 8 * (q / 8 + 1) && bits[q] && forall k :: q < k < |bits| ==> !bits[k]
  }

  /** A NAL unit as the writer would have made it: used to its last byte, forbidden and reserved
      bits zero, plain codes, uncut counts and the writer's deltas, and nothing behind the
      trailing bits. */
  predicate InWriterForm(bytes: seq<Byte>) {
    match Unescape(bytes, 0, |bytes|)
    case None => false
    case Some((payload, used)) =>
      var bits := BitsOf(payload);
      used == |bytes| && |bits| > 0 && !bits[0] && PlainSps(bits, 8) && EndsPlain(bits, GetSps(bits, 8).1)
  }

  lemma StartsMore(bits: seq<bool>, acc: seq<bool>)
    requires Starts(bits, acc) && |acc| < |bits|
    ensures Starts(bits, acc + [bits[|acc|]])
  {
    assert bits[0..|acc| + 1] == bits[0..|acc|] + [bits[|acc|]];
  }

  lemma StartsWhole(bits: seq<bool>, acc: seq<bool>)
    requires Starts(bits, acc) && |acc| == |bits|
    ensures acc == bits
  {
    assert bits[0..|acc|] == bits;
  }

  lemma {:induction false} AlignIs(bits: seq<bool>, acc: seq<bool>)
    requires Starts(bits, acc) && |bits| == 8 * ((|acc| + 7) / 8) && forall k :: |acc| <= k < |bits| ==> !bits[k]
    ensures Align(acc) == bits
    decreases ToAlign(|acc|)
  {
    hide Align, U, ToAlign, Starts;
    AlignStep(acc);
    if |acc| % 8 == 0 {
      StartsWhole(bits, acc);
    } else {
      UnitBits();
      ToAlignStep(|acc|);
      StartsMore(bits, acc);
      AlignIs(bits, acc + U(1, 0));
    }
  }

  lemma {:induction false} AlignZeros(acc: seq<bool>)
    ensures forall k :: |acc| <= k < |Align(acc)| ==> !Align(acc)[k]
    decreases ToAlign(|acc|)
  {
    hide Align, U, ToAlign;
    AlignStep(acc);
    if |acc| % 8 != 0 {
      UnitBits();
      ToAlignStep(|acc|);
      AlignZeros(acc + U(1, 0));
      AlignPrefix(acc + U(1, 0));
    }
  }

  lemma TrailingExact(bits: seq<bool>, code: seq<bool>)
    requires Starts(bits, code)
    ensures bits == PutTrailing(code) <==> EndsPlain(bits, |code|)
  {
    hide Align, Starts, U;
    var stopped := code + U(1, 1);
    UnitBits();
    AlignLength(stopped);
    AlignPrefix(stopped);
    AlignZeros(stopped);
    assert Align(stopped)[|code|] == stopped[|code|];
    if EndsPlain(bits, |code|) {
      StartsMore(bits, code);
      AlignIs(bits, stopped);
    }
  }

  lemma HeaderBack(bits: seq<bool>)
    requires |bits| > 0 && !bits[0]
    ensures Agrees(bits, PutHeader([], GetHeader(bits, 0).0)) && |PutHeader([], GetHeader(bits, 0).0)| == 8
  {
    UAtOne(bits, 0);
    GetUField(bits, 0, 1);
    assert Agrees(bits, []);
    hide Agrees, U, GetU, UAt;
    WriteBack(bits);
    GetULength(bits);
    assert [] + U(1, 0) == U(1, 0);
  }

  lemma EndsWithin(bits: seq<bool>, q: nat)
    requires EndsPlain(bits, q)
    ensures q < |bits|
  {
  }

  /** The whole payload is written back when it is in the form of the writer. */
  lemma PayloadBack(bits: seq<bool>)
    requires |bits| > 0 && !bits[0] && PlainSps(bits, 8) && EndsPlain(bits, GetSps(bits, 8).1)
    ensures RbspBits(GetHeader(bits, 0).0, GetSps(bits, 8).0) == bits
  {
    hide PutSps, PutHeader, GetHeader, GetSps, Starts, At, Agrees, PlainSps, SpsShape, EndsPlain, PutTrailing;
    EndsWithin(bits, GetSps(bits, 8).1);
    var header := PutHeader([], GetHeader(bits, 0).0);
    HeaderBack(bits);
    SpsBack(bits, header);
    AgreesStarts(bits, PutSps(header, GetSps(bits, 8).0));
    TrailingExact(bits, PutSps(header, GetSps(bits, 8).0));
  }

  lemma HeaderLength(nal: Nal)
    ensures |PutHeader([], nal)| == 8
  {
  }

  lemma HeaderStartsZero(bits: seq<bool>, nal: Nal, s: Sps)
    requires bits == RbspBits(nal, s)
    ensures !bits[0]
  {
    hide PutSps, PutTrailing;
    PayloadParts(nal, s);
    PutSpsExtends(bits, PutHeader([], nal), s);
    OneBit(0);
    var first := [] + U(1, 0);
    assert first == [false];
    var header := PutHeader([], nal);
    assert header[0] == first[0];
    assert bits[0..|header|][0] == header[0];
  }

  /** A payload that is written from the SPS it holds is in the form of the writer. */
  lemma PayloadPlain(bits: seq<bool>, nal: Nal, s: Sps)
    requires bits == RbspBits(nal, s) && GetSps(bits, 8).0 == s && Writable(s)
    ensures !bits[0] && PlainSps(bits, 8) && EndsPlain(bits, GetSps(bits, 8).1)
  {
    hide PutSps, PutHeader, GetSps, Starts, At, PlainSps, SpsShape, EndsPlain, PutTrailing, Writable, Canonical, U;
    var header := PutHeader([], nal);
    HeaderLength(nal);
    HeaderStartsZero(bits, nal, s);
    PayloadParts(nal, s);
    SpsOnlyCanonical(bits, header, s);
    SpsPlain(bits, header, s);
    SpsReadBack(bits, header, s);
    TrailingExact(bits, PutSps(header, s));
  }

  /** For every NAL unit that read_nal_unit accepts: writing its header and SPS back gives the
      same bytes exactly when they were in the form of the writer and fit the buffer. */
  lemma RewriteExact(bytes: seq<Byte>, oldNal: Nal, oldSps: Sps, size: nat)
    requires ReadNal(bytes, oldNal, oldSps).code >= 0 && Writable(ReadNal(bytes, oldNal, oldSps).sps)
    ensures var r := ReadNal(bytes, oldNal, oldSps);
            WriteNal(r.nal, r.sps, size) == Some(bytes) <==> 1 + |bytes| <= size && InWriterForm(bytes)
  {
    hide Unescape, Escape, GetSps, SpsShape, Writable, RbspBits, PlainSps, EndsPlain, Pack;
    var (payload, used) := Unescape(bytes, 0, |bytes|).value;
    var bits, r := BitsOf(payload), ReadNal(bytes, oldNal, oldSps);
    GetULength(bits);
    assert GetHeader(bits, 0).1 == 8;
    hide GetHeader, GetU;
    if InWriterForm(bytes) {
      PayloadBack(bits);
      PackBitsOf(payload);
      EscapeUnescape(bytes, 0, |bytes|);
      assert bytes[..used] == bytes;
      EscapeLength(payload, 0);
    }
    if WriteNal(r.nal, r.sps, size) == Some(bytes) {
      var written := Pack(RbspBits(r.nal, r.sps));
      EscapeLength(written, 0);
      UnescapeEscape(written, 0, |bytes|);
      BitsOfPack(RbspBits(r.nal, r.sps));
      PayloadPlain(bits, r.nal, r.sps);
    }
  }

  lemma CanonicalWritable(s: Sps)
    requires Canonical(s)
    ensures Writable(s)
  {
  }

  /** Rewriting normalises: what comes out is in the form of the writer and holds the same
      header and SPS. */
  lemma RewriteNormalizes(bytes: seq<Byte>, oldNal: Nal, oldSps: Sps, size: nat)
    requires ReadNal(bytes, oldNal, oldSps).code >= 0 && Canonical(ReadNal(bytes, oldNal, oldSps).sps)
    ensures var r := ReadNal(bytes, oldNal, oldSps);
            match WriteNal(r.nal, r.sps, size)
            case None => true
            case Some(again) => ReadNal(again, oldNal, oldSps) == ReadResult(|again|, r.nal, r.sps) && InWriterForm(again)
  {
    hide Unescape, Escape, GetSps, SpsShape, Writable, RbspBits, PlainSps, EndsPlain, Pack, InWriterForm;
    var r := ReadNal(bytes, oldNal, oldSps);
    var payload := Unescape(bytes, 0, |bytes|).value.0;
    assert IsU(2, r.nal.nalRefIdc);
    if WriteNal(r.nal, r.sps, size).Some? {
      var again := WriteNal(r.nal, r.sps, size).value;
      hide *;
      CanonicalWritable(r.sps);
      WriteThenRead(r.nal, r.sps, size, oldNal, oldSps);
      RewriteExact(again, oldNal, oldSps, size);
    }
  }

  /** A NAL unit whose scaling lists have the deltas that the standard allows is read as a
      canonical SPS. */
  lemma LegalRead(bytes: seq<Byte>, oldNal: Nal, oldSps: Sps)
    requires ReadNal(bytes, oldNal, oldSps).code >= 0 && Writable(ReadNal(bytes, oldNal, oldSps).sps)
    requires LegalSps(BitsOf(Unescape(bytes, 0, |bytes|).value.0), 8)
    ensures Canonical(ReadNal(bytes, oldNal, oldSps).sps)
  {
    hide Unescape, GetSps, LegalSps, Canonical, Writable, SpsShape;
    LegalCanonical(BitsOf(Unescape(bytes, 0, |bytes|).value.0), 8);
  }

  // ---------- Complete or rejected ----------

  /** Whatever the buffer size, write_nal_unit fails or every bit of the SPS and its trailing
      bits is in the bytes it produced. */
  lemma WrittenComplete(nal: Nal, sps: Sps, size: nat)
    ensures match WriteNal(nal, sps, size)
            case None => true
            case Some(bytes) =>
              1 + |bytes| <= size
              && exists payload :: Unescape(bytes, 0, |bytes|) == Some((payload, |bytes|))
                                   && BitsOf(payload) == RbspBits(nal, sps)
  {
    hide RbspBits, Escape, Unescape, BitsOf, Pack;
    if WriteNal(nal, sps, size).Some? {
      var payload := Pack(RbspBits(nal, sps));
      EscapeLength(payload, 0);
      UnescapeEscape(payload, 0, |Escape(payload, 0)|);
      BitsOfPack(RbspBits(nal, sps));
    }
  }

  /** read_nal_unit fails exactly when the escaping is malformed, the type is another one, or
      the SPS and its stop bit do not lie within the payload. */
  lemma ReadComplete(bytes: seq<Byte>, nal: Nal, sps: Sps)
    ensures ReadNal(bytes, nal, sps).code >= 0 <==>
              match Unescape(bytes, 0, |bytes|)
              case None => false
              case Some((payload, _)) =>
                var bits := BitsOf(payload);
                var (header, p) := GetHeader(bits, 0);
                header.nalUnitType == 7 && GetSps(bits, p).1 < |bits|
  {
    hide Unescape, GetSps, GetHeader, SpsShape;
    match Unescape(bytes, 0, |bytes|)
    case None =>
    case Some((payload, used)) =>
      var bits := BitsOf(payload);
      var p := GetSps(bits, GetHeader(bits, 0).1).1;
      assert |bits| == 8 * |payload| && (p / 8 + 1 > |payload| <==> p >= 8 * |payload|);
  }

  /** A buffer of 1 + n + (n - 1) / 2 bytes, for a payload of n bytes, is always enough. */
  lemma BufferSuffices(nal: Nal, sps: Sps, size: nat)
    requires nal.nalUnitType == NAL_UNIT_TYPE_SPS
    requires var n := |RbspBits(nal, sps)| / 8; size >= 1 + n + (n - 1) / 2
    ensures WriteNal(nal, sps, size).Some?
  {
    hide RbspBits, Escape;
    var payload := Pack(RbspBits(nal, sps));
    PayloadParts(nal, sps);
    EscapeLength(payload, 0);
  }

  /** A unit of another type, or one that is malformed, leaves the SPS as it was. */
  lemma OtherKept(bytes: seq<Byte>, nal: Nal, sps: Sps)
    ensures var r := ReadNal(bytes, nal, sps);
            match Unescape(bytes, 0, |bytes|)
            case None => r == ReadResult(-1, nal, sps)
            case Some((payload, _)) =>
              r.nal == GetHeader(BitsOf(payload), 0).0
              && r.sps == if r.nal.nalUnitType == 7 then GetSps(BitsOf(payload), 8).0 else sps
  {
    hide Unescape, GetSps, SpsShape, GetU;
    match Unescape(bytes, 0, |bytes|)
    case None =>
    case Some((payload, _)) =>
      HeaderFields(BitsOf(payload));
  }

  /** write_nal_unit succeeds exactly for an SPS whose escaped form fits with the byte in front. */
  lemma WrittenExactly(nal: Nal, sps: Sps, size: nat)
    ensures WriteNal(nal, sps, size).Some? <==>
            nal.nalUnitType == 7 && 1 + |Escape(Pack(RbspBits(nal, sps)), 0)| <= size
  {
    hide RbspBits, Escape;
    EscapeLength(Pack(RbspBits(nal, sps)), 0);
  }

  function FullHigh(): High {
    var default, flat := ScalingList(1, seq(16, i => 8), 1), ScalingList(1, seq(64, i => 16), 0);
    High(3, 1, 2, 2, 1, 1, ZeroLists()[0 := default][6 := flat][11 := flat])
  }

  function FullHrd(): Hrd {
    ZeroHrd().(cpbCntMinus1 := 1, sched := ZeroSched()[1 := Sched(65534, 3, 1)], timeOffsetLength := 24)
  }

  function FullVui(): Vui {
    Vui(Aspect(1, SAR_EXTENDED, 4, 3), Overscan(1, 1), Signal(1, 5, 1, 1, 1, 1, 1), ChromaLoc(1, 2, 2),
        Timing(1, 1, -1, 1), HrdPair(1, FullHrd(), 1, FullHrd(), 1), 1, Restriction(1, 1, 2, 1, 16, 16, 2, 4))
  }

  function FullProfile(): Profile {
    Profile(100, 0, 0, 0, 0, 0, 0, 0, 41, 0)
  }

  function FullFrame(): Frame {
    Frame(4, 0, 119, 67, 0, 1, 1)
  }

  function FullCrop(): Crop {
    Crop(1, 0, 0, 0, 4)
  }

  function FullOrder(): OrderCount {
    ZeroSps().order.(picOrderCntType := 1, offsetForNonRefPic := -32767, numRefFramesInCycle := 2,
                     offsetForRefFrame := Zeros(256)[1 := 5])
  }

  /** An SPS that takes every optional branch: high profile with chroma_format_idc 3 and so with
      twelve lists, of which a 4x4 default list and two flat 8x8 lists are present; picture order
      count type 1; cropping; and all VUI parts with both HRDs. */
  function FullSps(): Sps {
    Sps(FullProfile(),
        FullHigh(),
        FullOrder(),
        FullFrame(),
        FullCrop(),
        1,
        FullVui())
  }

  lemma {:induction false} ConstantWritable(l: ScalingList, v: Int32, j: nat, last: Int32, next: Int32)
    requires j <= |l.entries| && 1 <= v <= 255 && forall k :: 0 <= k < |l.entries| ==> l.entries[k] == v
    requires 1 <= last <= 255
    ensures EntriesWritable(l, j, last, next)
    decreases |l.entries| - j
  {
    if j < |l.entries| {
      ConstantWritable(l, v, j + 1, v, if next != 0 then NextScale(l, j, last) else 0);
    }
  }

  lemma FullHighCanonical()
    ensures HighShape(FullHigh()) && HighWritable(FullHigh()) && ListsCanonical(FullHigh().lists)
  {
    var lists := FullHigh().lists;
    ConstantWritable(lists[0], 8, 0, 8, 8);
    ConstantWritable(lists[6], 16, 0, 8, 8);
    ConstantWritable(lists[11], 16, 0, 8, 8);
    hide EntriesWritable;
  }

  /** The fields of the example fit their widths. */
  lemma SmallFields()
    ensures IsU(1, 0) && IsU(1, 1) && IsU(3, 5) && IsU(4, 0) && IsU(5, 0) && IsU(5, 24)
    ensures IsU(8, 0) && IsU(8, 1) && IsU(8, 41) && IsU(8, 100) && IsU(8, SAR_EXTENDED)
    ensures IsU(16, 3) && IsU(16, 4) && IsU(32, 1) && IsU(32, -1)
  {
    Pow2Values();
  }

  lemma FullSchedCanonical()
    ensures SchedShape(FullHrd().sched, 1)
  {
    hide IsU;
    SmallFields();
  }

  lemma FullHrdCanonical()
    ensures HrdShape(FullHrd()) && HrdWritable(FullHrd())
  {
    hide IsU, SchedShape;
    SmallFields();
    FullSchedCanonical();
  }

  lemma FullVuiCanonical()
    ensures VuiShape(FullVui()) && VuiWritable(FullVui())
  {
    hide IsU, FullHrd, HrdShape, HrdWritable;
    FullHrdCanonical();
    SmallFields();
  }

  lemma FullPartsCanonical()
    ensures ProfileShape(FullProfile()) && IsHigh(FullProfile().profileIdc) && MayWriteUe(FullProfile().seqParameterSetId)
    ensures FrameShape(FullFrame()) && FrameWritable(FullFrame())
    ensures CropShape(FullCrop()) && CropWritable(FullCrop())
  {
    hide IsU;
    SmallFields();
  }

  lemma FullOrderCanonical()
    ensures OrderShape(FullOrder()) && OrderWritable(FullOrder())
  {
  }

  /** It is canonical, so it is written into a large enough buffer and read back unchanged. */
  lemma FullSpsCanonical()
    ensures Canonical(FullSps())
  {
    hide HighShape, HighWritable, ListsCanonical, VuiShape, VuiWritable, OrderShape, OrderWritable,
      ProfileShape, FrameShape, FrameWritable, CropShape, CropWritable,
      FullProfile, FullHigh, FullVui, FullOrder, FullFrame, FullCrop;
    FullPartsCanonical();
    FullHighCanonical();
    FullVuiCanonical();
    FullOrderCanonical();
  }

  // ---------- In a byte stream ----------

  lemma {:induction false} FromBitsPositive(s: seq<bool>, k: nat)
    requires k < |s| && s[k]
    ensures FromBits(s) > 0
  {
    if k < |s| - 1 {
      FromBitsPositive(s[..|s| - 1], k);
    }
  }

  /** The stop bit makes the last byte nonzero. */
  lemma LastByteNonzero(code: seq<bool>)
    ensures var payload := Pack(PutTrailing(code));
            payload != [] && payload[|payload| - 1] != 0
  {
    var bits := PutTrailing(code);
    AlignPrefix(code + U(1, 1));
    AlignLength(code + U(1, 1));
    OneBit(1);
    assert bits[|code|] == (code + U(1, 1))[|code|];
    var first := |bits| - 8;
    assert |code| >= first;
    FromBitsPositive(bits[first..first + 8], |code| - first);
  }

  /** What write_nal_unit puts at buf[1..] holds no start code and does not end in a zero. */
  lemma WrittenBytes(nal: Nal, sps: Sps, size: nat)
    requires WriteNal(nal, sps, size).Some?
    ensures var bytes := WriteNal(nal, sps, size).value;
            Clean(bytes) && bytes != [] && bytes[|bytes| - 1] != 0
  {
    hide Escape, PutSps, PutHeader, PutTrailing, Pack, Clean;
    var payload := Pack(RbspBits(nal, sps));
    LastByteNonzero(PutSps(PutHeader([], nal), sps));
    EscapeClean(payload, 0);
    EscapeLast(payload, 0);
  }

  /** Those bytes, after a start code and before another one or the end of the stream, are
      exactly what find_nal_unit finds. */
  lemma WrittenFound(nal: Nal, sps: Sps, size: nat, bytes: seq<Byte>, lead: seq<Byte>, tail: seq<Byte>, start: nat, end: nat)
    requires WriteNal(nal, sps, size) == Some(bytes)
    requires lead == [0, 0, 1] || lead == [0, 0, 0, 1]
    requires tail == [] || EndCodeAt(tail, 0)
    requires Found(lead + bytes + tail, start, end)
    ensures start <= end <= |lead + bytes + tail|
    ensures (lead + bytes + tail)[start..end] == bytes
  {
    WrittenBytes(nal, sps, size);
    hide *;
    FramingExact(lead, bytes, tail, start, end);
  }

  /** An SPS written after a start code is found by find_nal_unit and read back by
      read_nal_unit, exactly when it is canonical and nal_ref_idc fits. */
  lemma StreamRoundTrip(nal: Nal, sps: Sps, size: nat, bytes: seq<Byte>, lead: seq<Byte>, tail: seq<Byte>, start: nat, end: nat, oldNal: Nal, oldSps: Sps)
    requires Writable(sps) && WriteNal(nal, sps, size) == Some(bytes)
    requires lead == [0, 0, 1] || lead == [0, 0, 0, 1]
    requires tail == [] || EndCodeAt(tail, 0)
    requires Found(lead + bytes + tail, start, end)
    ensures start <= end <= |lead + bytes + tail|
    ensures ReadNal((lead + bytes + tail)[start..end], oldNal, oldSps) == ReadResult(end - start, nal, sps)
       <==> IsU(2, nal.nalRefIdc) && Canonical(sps)
  {
    hide *;
    WrittenFound(nal, sps, size, bytes, lead, tail, start, end);
    WriteThenRead(nal, sps, size, oldNal, oldSps);
  }
}
