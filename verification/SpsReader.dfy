/** The read_* functions of h264_stream.c: each fills its part of the record from the cursor. */
module SpsReader {
  import opened Bits
  import opened Codes
  import opened BitCursor
  import opened SpsSyntax
  import opened SpsParse

  method ReadProfile(b: Bs) returns (r: Profile)
    requires b.Valid()
    modifies b`p, b`bitsLeft
    ensures b.Valid() && (r, b.Pos()) == GetProfile(b.Content(), old(b.Pos()))
  {
    hide GetU, GetUe, AsInt32, IsU, UAt, UeAt, ProfileShape, Bs.Content, Bs.Pos, Bs.Recording, Bs.Valid;
    r := Profile(0, 0, 0, 0, 0, 0, 0, 0, 0, 0);
    var v: Uint32;
    v := b.ReadU8(); r := r.(profileIdc := AsInt32(v));
    v := b.ReadU1(); r := r.(constraintSet0Flag := AsInt32(v));
    v := b.ReadU1(); r := r.(constraintSet1Flag := AsInt32(v));
    v := b.ReadU1(); r := r.(constraintSet2Flag := AsInt32(v));
    v := b.ReadU1(); r := r.(constraintSet3Flag := AsInt32(v));
    v := b.ReadU1(); r := r.(constraintSet4Flag := AsInt32(v));
    v := b.ReadU1(); r := r.(constraintSet5Flag := AsInt32(v));
    b.SkipU(2);
    v := b.ReadU8(); r := r.(levelIdc := AsInt32(v));
    v := b.ReadUe(); r := r.(seqParameterSetId := AsInt32(v));
  }

  method ReadScalingList(b: Bs, list: ScalingList) returns (l: ScalingList)
    requires b.Valid()
    modifies b`p, b`bitsLeft
    ensures b.Valid() && (l, b.Pos()) == GetEntries(b.Content(), old(b.Pos()), list, 0, 8, 8)
  {
    hide GetU, GetUe, SeAt, AsInt32, IsU, Bs.Content, Bs.Pos;
    l := list;
    ghost var bits, pos := b.Content(), b.Pos();
    var lastScale: Int32, nextScale: Int32 := 8, 8;
    for j := 0 to |list.entries|
      invariant b.Valid() && |l.entries| == |list.entries|
      invariant GetEntries(bits, b.Pos(), l, j, lastScale, nextScale) == GetEntries(bits, pos, list, 0, 8, 8)
    {
      if nextScale != 0 {
        var deltaScale := b.ReadSe();
        nextScale := Rem256(lastScale + deltaScale + 256);
        l := l.(useDefault := if j == 0 && nextScale == 0 then 1 else 0);
      }
      l := l.(entries := l.entries[j := if nextScale == 0 then lastScale else nextScale]);
      lastScale := l.entries[j];
    }
  }

  method ReadLists(b: Bs, n: nat) returns (lists: seq<ScalingList>)
    requires b.Valid() && n <= 12
    modifies b`p, b`bitsLeft
    ensures b.Valid() && (lists, b.Pos()) == GetLists(b.Content(), old(b.Pos()), ZeroLists(), 0, n)
  {
    hide GetU, GetUe, SeAt, AsInt32, Bs.Content, Bs.Pos;
    lists := ZeroLists();
    ghost var bits, pos := b.Content(), b.Pos();
    for i := 0 to n
      invariant b.Valid() && ListsShape(lists, i)
      invariant GetLists(bits, b.Pos(), lists, i, n) == GetLists(bits, pos, ZeroLists(), 0, n)
    {
      var v := b.ReadU1();
      var l := lists[i].(present := AsInt32(v));
      if l.present != 0 {
        l := ReadScalingList(b, l);
      }
      lists := lists[i := l];
    }
  }

  method ReadHigh(b: Bs) returns (r: High)
    requires b.Valid()
    modifies b`p, b`bitsLeft
    ensures b.Valid() && (r, b.Pos()) == GetHigh(b.Content(), old(b.Pos()))
  {
    hide GetU, GetUe, SeAt, AsInt32, IsU, Bs.Content, Bs.Pos;
    r := ZeroHigh();
    var v: Uint32;
    v := b.ReadUe(); r := r.(chromaFormatIdc := AsInt32(v));
    if r.chromaFormatIdc == 3 {
      v := b.ReadU1(); r := r.(residualColourTransformFlag := AsInt32(v));
    }
    v := b.ReadUe(); r := r.(bitDepthLumaMinus8 := AsInt32(v));
    v := b.ReadUe(); r := r.(bitDepthChromaMinus8 := AsInt32(v));
    v := b.ReadU1(); r := r.(qpprimeYZeroTransformBypassFlag := AsInt32(v));
    v := b.ReadU1(); r := r.(matrixPresentFlag := AsInt32(v));
    if r.matrixPresentFlag != 0 {
      var lists := ReadLists(b, if r.chromaFormatIdc != 3 then 8 else 12);
      r := r.(lists := lists);
    }
  }

  method ReadOffsets(b: Bs, n: Int32) returns (offsets: seq<Int32>)
    requires b.Valid() && n <= 256
    modifies b`p, b`bitsLeft
    ensures b.Valid() && (offsets, b.Pos()) == GetOffsets(b.Content(), old(b.Pos()), Zeros(256), 0, n)
  {
    hide GetU, GetUe, SeAt, AsInt32, IsU, Bs.Content, Bs.Pos;
    offsets := Zeros(256);
    ghost var bits, pos := b.Content(), b.Pos();
    var i := 0;
    while i < n
      invariant b.Valid() && 0 <= i && |offsets| == 256
      invariant GetOffsets(bits, b.Pos(), offsets, i, n) == GetOffsets(bits, pos, Zeros(256), 0, n)
    {
      var w := b.ReadSe();
      offsets := offsets[i := w];
      i := i + 1;
    }
  }

  method ReadOrder(b: Bs) returns (r: OrderCount)
    requires b.Valid()
    modifies b`p, b`bitsLeft
    ensures b.Valid() && (r, b.Pos()) == GetOrder(b.Content(), old(b.Pos()))
  {
    hide GetU, GetUe, SeAt, AsInt32, IsU, Bs.Content, Bs.Pos;
    r := OrderCount(0, 0, 0, 0, 0, 0, 0, Zeros(256));
    var v: Uint32;
    var w: Int32;
    v := b.ReadUe(); r := r.(log2MaxFrameNumMinus4 := AsInt32(v));
    v := b.ReadUe(); r := r.(picOrderCntType := AsInt32(v));
    if r.picOrderCntType == 0 {
      v := b.ReadUe(); r := r.(log2MaxPicOrderCntLsbMinus4 := AsInt32(v));
    } else if r.picOrderCntType == 1 {
      v := b.ReadU1(); r := r.(deltaAlwaysZeroFlag := AsInt32(v));
      w := b.ReadSe(); r := r.(offsetForNonRefPic := w);
      w := b.ReadSe(); r := r.(offsetForTopToBottomField := w);
      v := b.ReadUe(); r := r.(numRefFramesInCycle := AsInt32(v));
      if r.numRefFramesInCycle > 256 {
        r := r.(numRefFramesInCycle := 256);
      }
      var offsets := ReadOffsets(b, r.numRefFramesInCycle);
      r := r.(offsetForRefFrame := offsets);
    }
  }

  method ReadFrame(b: Bs) returns (r: Frame)
    requires b.Valid()
    modifies b`p, b`bitsLeft
    ensures b.Valid() && (r, b.Pos()) == GetFrame(b.Content(), old(b.Pos()))
  {
    hide GetU, GetUe, SeAt, AsInt32, IsU, Bs.Content, Bs.Pos;
    r := Frame(0, 0, 0, 0, 0, 0, 0);
    var v: Uint32;
    v := b.ReadUe(); r := r.(numRefFrames := AsInt32(v));
    v := b.ReadU1(); r := r.(gapsAllowedFlag := AsInt32(v));
    v := b.ReadUe(); r := r.(widthInMbsMinus1 := AsInt32(v));
    v := b.ReadUe(); r := r.(heightInMapUnitsMinus1 := AsInt32(v));
    v := b.ReadU1(); r := r.(mbsOnlyFlag := AsInt32(v));
    if r.mbsOnlyFlag == 0 {
      v := b.ReadU1(); r := r.(mbAdaptiveFlag := AsInt32(v));
    }
    v := b.ReadU1(); r := r.(direct8x8InferenceFlag := AsInt32(v));
  }

  method ReadCrop(b: Bs) returns (r: Crop)
    requires b.Valid()
    modifies b`p, b`bitsLeft
    ensures b.Valid() && (r, b.Pos()) == GetCrop(b.Content(), old(b.Pos()))
  {
    hide GetU, GetUe, SeAt, AsInt32, IsU, Bs.Content, Bs.Pos;
    r := Crop(0, 0, 0, 0, 0);
    var v: Uint32;
    v := b.ReadU1(); r := r.(flag := AsInt32(v));
    if r.flag != 0 {
      v := b.ReadUe(); r := r.(left := AsInt32(v));
      v := b.ReadUe(); r := r.(right := AsInt32(v));
      v := b.ReadUe(); r := r.(top := AsInt32(v));
      v := b.ReadUe(); r := r.(bottom := AsInt32(v));
    }
  }

  method ReadSched(b: Bs, last: Int32) returns (sched: seq<Sched>)
    requires b.Valid() && last <= 31
    modifies b`p, b`bitsLeft
    ensures b.Valid() && (sched, b.Pos()) == GetSched(b.Content(), old(b.Pos()), ZeroSched(), 0, last)
  {
    hide GetU, GetUe, SeAt, AsInt32, IsU, Bs.Content, Bs.Pos;
    sched := ZeroSched();
    ghost var bits, pos := b.Content(), b.Pos();
    var i := 0;
    while i <= last
      invariant b.Valid() && 0 <= i && |sched| == 32
      invariant GetSched(bits, b.Pos(), sched, i, last) == GetSched(bits, pos, ZeroSched(), 0, last)
    {
      var bitRate := b.ReadUe();
      var cpbSize := b.ReadUe();
      var cbr := b.ReadU1();
      sched := sched[i := Sched(AsInt32(bitRate), AsInt32(cpbSize), AsInt32(cbr))];
      i := i + 1;
    }
  }

  method ReadHrdParameters(b: Bs) returns (r: Hrd)
    requires b.Valid()
    modifies b`p, b`bitsLeft
    ensures b.Valid() && (r, b.Pos()) == GetHrd(b.Content(), old(b.Pos()))
  {
    hide GetU, GetUe, AsInt32, IsU, UAt, UeAt, HrdShape, GetSched, ZeroSched, Bs.Content, Bs.Pos, Bs.Recording;
    r := ZeroHrd();
    var v: Uint32;
    v := b.ReadUe(); r := r.(cpbCntMinus1 := AsInt32(v));
    if r.cpbCntMinus1 > 31 {
      r := r.(cpbCntMinus1 := 31);
    }
    v := b.ReadU(4); r := r.(bitRateScale := AsInt32(v));
    v := b.ReadU(4); r := r.(cpbSizeScale := AsInt32(v));
    var sched := ReadSched(b, r.cpbCntMinus1);
    r := r.(sched := sched);
    v := b.ReadU(5); r := r.(initialCpbRemovalDelayLengthMinus1 := AsInt32(v));
    v := b.ReadU(5); r := r.(cpbRemovalDelayLengthMinus1 := AsInt32(v));
    v := b.ReadU(5); r := r.(dpbOutputDelayLengthMinus1 := AsInt32(v));
    v := b.ReadU(5); r := r.(timeOffsetLength := AsInt32(v));
  }

  method ReadAspect(b: Bs) returns (r: Aspect)
    requires b.Valid()
    modifies b`p, b`bitsLeft
    ensures b.Valid() && (r, b.Pos()) == GetAspect(b.Content(), old(b.Pos()))
  {
    hide GetU, GetUe, SeAt, AsInt32, IsU, Bs.Content, Bs.Pos;
    r := Aspect(0, 0, 0, 0);
    var v: Uint32;
    v := b.ReadU1(); r := r.(presentFlag := AsInt32(v));
    if r.presentFlag != 0 {
      v := b.ReadU8(); r := r.(idc := AsInt32(v));
      if r.idc == SAR_EXTENDED {
        v := b.ReadU(16); r := r.(sarWidth := AsInt32(v));
        v := b.ReadU(16); r := r.(sarHeight := AsInt32(v));
      }
    }
  }

  method ReadOverscan(b: Bs) returns (r: Overscan)
    requires b.Valid()
    modifies b`p, b`bitsLeft
    ensures b.Valid() && (r, b.Pos()) == GetOverscan(b.Content(), old(b.Pos()))
  {
    hide GetU, GetUe, SeAt, AsInt32, IsU, Bs.Content, Bs.Pos;
    r := Overscan(0, 0);
    var v: Uint32;
    v := b.ReadU1(); r := r.(presentFlag := AsInt32(v));
    if r.presentFlag != 0 {
      v := b.ReadU1(); r := r.(appropriateFlag := AsInt32(v));
    }
  }

  method ReadSignal(b: Bs) returns (r: Signal)
    requires b.Valid()
    modifies b`p, b`bitsLeft
    ensures b.Valid() && (r, b.Pos()) == GetSignal(b.Content(), old(b.Pos()))
  {
    hide GetU, GetUe, SeAt, AsInt32, IsU, Bs.Content, Bs.Pos;
    r := Signal(0, 0, 0, 0, 0, 0, 0);
    var v: Uint32;
    v := b.ReadU1(); r := r.(presentFlag := AsInt32(v));
    if r.presentFlag != 0 {
      v := b.ReadU(3); r := r.(videoFormat := AsInt32(v));
      v := b.ReadU1(); r := r.(fullRangeFlag := AsInt32(v));
      v := b.ReadU1(); r := r.(colourPresentFlag := AsInt32(v));
      if r.colourPresentFlag != 0 {
        v := b.ReadU8(); r := r.(primaries := AsInt32(v));
        v := b.ReadU8(); r := r.(transfer := AsInt32(v));
        v := b.ReadU8(); r := r.(matrix := AsInt32(v));
      }
    }
  }

  method ReadChromaLoc(b: Bs) returns (r: ChromaLoc)
    requires b.Valid()
    modifies b`p, b`bitsLeft
    ensures b.Valid() && (r, b.Pos()) == GetChromaLoc(b.Content(), old(b.Pos()))
  {
    hide GetU, GetUe, SeAt, AsInt32, IsU, Bs.Content, Bs.Pos;
    r := ChromaLoc(0, 0, 0);
    var v: Uint32;
    v := b.ReadU1(); r := r.(presentFlag := AsInt32(v));
    if r.presentFlag != 0 {
      v := b.ReadUe(); r := r.(topField := AsInt32(v));
      v := b.ReadUe(); r := r.(bottomField := AsInt32(v));
    }
  }

  method ReadTiming(b: Bs) returns (r: Timing)
    requires b.Valid()
    modifies b`p, b`bitsLeft
    ensures b.Valid() && (r, b.Pos()) == GetTiming(b.Content(), old(b.Pos()))
  {
    hide GetU, GetUe, SeAt, AsInt32, IsU, Bs.Content, Bs.Pos;
    r := Timing(0, 0, 0, 0);
    var v: Uint32;
    v := b.ReadU1(); r := r.(presentFlag := AsInt32(v));
    if r.presentFlag != 0 {
      v := b.ReadU(32); r := r.(numUnitsInTick := AsInt32(v));
      v := b.ReadU(32); r := r.(timeScale := AsInt32(v));
      v := b.ReadU1(); r := r.(fixedFrameRateFlag := AsInt32(v));
    }
  }

  method ReadHrdPair(b: Bs) returns (r: HrdPair)
    requires b.Valid()
    modifies b`p, b`bitsLeft
    ensures b.Valid() && (r, b.Pos()) == GetHrdPair(b.Content(), old(b.Pos()))
  {
    hide GetU, GetUe, SeAt, AsInt32, IsU, Bs.Content, Bs.Pos;
    r := HrdPair(0, ZeroHrd(), 0, ZeroHrd(), 0);
    var v: Uint32;
    v := b.ReadU1(); r := r.(nalPresentFlag := AsInt32(v));
    if r.nalPresentFlag != 0 {
      var nal := ReadHrdParameters(b);
      r := r.(nal := nal);
    }
    v := b.ReadU1(); r := r.(vclPresentFlag := AsInt32(v));
    if r.vclPresentFlag != 0 {
      var vcl := ReadHrdParameters(b);
      r := r.(vcl := vcl);
    }
    if r.nalPresentFlag != 0 || r.vclPresentFlag != 0 {
      v := b.ReadU1(); r := r.(lowDelayFlag := AsInt32(v));
    }
  }

  method ReadRestriction(b: Bs) returns (r: Restriction)
    requires b.Valid()
    modifies b`p, b`bitsLeft
    ensures b.Valid() && (r, b.Pos()) == GetRestriction(b.Content(), old(b.Pos()))
  {
    hide GetU, GetUe, SeAt, AsInt32, IsU, Bs.Content, Bs.Pos;
    r := Restriction(0, 0, 0, 0, 0, 0, 0, 0);
    var v: Uint32;
    v := b.ReadU1(); r := r.(flag := AsInt32(v));
    if r.flag != 0 {
      v := b.ReadU1(); r := r.(motionVectorsOverPicBoundariesFlag := AsInt32(v));
      v := b.ReadUe(); r := r.(maxBytesPerPicDenom := AsInt32(v));
      v := b.ReadUe(); r := r.(maxBitsPerMbDenom := AsInt32(v));
      v := b.ReadUe(); r := r.(log2MaxMvLengthHorizontal := AsInt32(v));
      v := b.ReadUe(); r := r.(log2MaxMvLengthVertical := AsInt32(v));
      v := b.ReadUe(); r := r.(numReorderFrames := AsInt32(v));
      v := b.ReadUe(); r := r.(maxDecFrameBuffering := AsInt32(v));
    }
  }

  method ReadVuiParameters(b: Bs) returns (r: Vui)
    requires b.Valid()
    modifies b`p, b`bitsLeft
    ensures b.Valid() && (r, b.Pos()) == GetVui(b.Content(), old(b.Pos()))
  {
    hide GetU, GetUe, SeAt, AsInt32, IsU, Bs.Content, Bs.Pos;
    r := ZeroVui();
    var v: Uint32;
    var aspect := ReadAspect(b);
    r := r.(aspect := aspect);
    var overscan := ReadOverscan(b);
    r := r.(overscan := overscan);
    var signal := ReadSignal(b);
    r := r.(signal := signal);
    var chromaLoc := ReadChromaLoc(b);
    r := r.(chromaLoc := chromaLoc);
    var timing := ReadTiming(b);
    r := r.(timing := timing);
    var hrd := ReadHrdPair(b);
    r := r.(hrd := hrd);
    v := b.ReadU1(); r := r.(picStructPresentFlag := AsInt32(v));
    var restriction := ReadRestriction(b);
    r := r.(restriction := restriction);
  }

  method ReadSeqParameterSetRbsp(b: Bs) returns (r: Sps)
    requires b.Valid()
    modifies b`p, b`bitsLeft
    ensures b.Valid() && (r, b.Pos()) == GetSps(b.Content(), old(b.Pos()))
  {
    hide GetU, GetUe, SeAt, AsInt32, IsU, Bs.Content, Bs.Pos;
    r := ZeroSps();
    var v: Uint32;
    var profile := ReadProfile(b);
    r := r.(profile := profile);
    if IsHigh(r.profile.profileIdc) {
      var high := ReadHigh(b);
      r := r.(high := high);
    }
    var order := ReadOrder(b);
    r := r.(order := order);
    var frame := ReadFrame(b);
    r := r.(frame := frame);
    var crop := ReadCrop(b);
    r := r.(crop := crop);
    v := b.ReadU1(); r := r.(vuiPresentFlag := AsInt32(v));
    if r.vuiPresentFlag != 0 {
      var vui := ReadVuiParameters(b);
      r := r.(vui := vui);
    }
  }

  /** The next byte boundary after at least one bit. */
  function NextByte(p: nat): nat {
    8 * (p / 8 + 1)
  }

  lemma NextByteAligned(p: nat)
    ensures NextByte(p) % 8 == 0
  {
  }

  lemma ByteReached(p: nat, q: nat)
    requires p < q <= p + 1 || p < q <= NextByte(p)
    ensures q <= NextByte(p) && (q % 8 == 0 <==> q == NextByte(p))
  {
  }

  /** read_rbsp_trailing_bits */
  method ReadRbspTrailingBits(b: Bs)
    requires b.Valid()
    modifies b`p, b`bitsLeft
    ensures b.Valid() && b.Pos() == NextByte(old(b.Pos()))
  {
    hide NextByte, Bs.Pos, BitsOf;
    ghost var start := b.Pos();
    b.SkipU(1);
    var aligned := b.ByteAligned();
    ByteReached(start, b.Pos());
    while !aligned
      invariant b.Valid() && aligned == (b.Pos() % 8 == 0)
      invariant start < b.Pos() <= NextByte(start) && (aligned <==> b.Pos() == NextByte(start))
      decreases NextByte(start) - b.Pos()
    {
      b.SkipU(1);
      aligned := b.ByteAligned();
      ByteReached(start, b.Pos());
    }
  }
}
