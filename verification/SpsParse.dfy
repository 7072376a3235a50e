/** What the read_* functions of h264_stream.c get from a bit string at a position: the
    fields and the next position, for every input. Reading past the end gives zeros. */
module SpsParse {
  import opened Bits
  import opened Codes
  import opened SpsSyntax

  predicate ProfileShape(r: Profile) {
    IsU(8, r.profileIdc) && IsU(8, r.levelIdc) && r.reservedZero2Bits == 0 && r.seqParameterSetId != -1
    && IsU(1, r.constraintSet0Flag) && IsU(1, r.constraintSet1Flag) && IsU(1, r.constraintSet2Flag)
    && IsU(1, r.constraintSet3Flag) && IsU(1, r.constraintSet4Flag) && IsU(1, r.constraintSet5Flag)
  }

  function GetProfile(bits: seq<bool>, p: nat): (r: (Profile, nat))
    ensures ProfileShape(r.0)
  {
    var (profileIdc, p) := GetU(bits, p, 8);
    var (set0, p) := GetU(bits, p, 1);
    var (set1, p) := GetU(bits, p, 1);
    var (set2, p) := GetU(bits, p, 1);
    var (set3, p) := GetU(bits, p, 1);
    var (set4, p) := GetU(bits, p, 1);
    var (set5, p) := GetU(bits, p, 1);
    var (levelIdc, p) := GetU(bits, p + 2, 8);
    var (id, p) := GetUe(bits, p);
    (Profile(profileIdc, set0, set1, set2, set3, set4, set5, 0, levelIdc, id), p)
  }

  /** Lists from n on, and absent lists, are as memset left them. */
  predicate ListsShape(lists: seq<ScalingList>, n: nat) {
    |lists| == 12
    && (forall i :: 0 <= i < 12 ==>
          IsU(1, lists[i].present) && |lists[i].entries| == ListSize(i)
          && (i >= n || lists[i].present == 0 ==> lists[i] == ZeroList(i)))
  }

  predicate HighShape(r: High) {
    IsU(1, r.qpprimeYZeroTransformBypassFlag) && IsU(1, r.matrixPresentFlag)
    && r.chromaFormatIdc != -1 && r.bitDepthLumaMinus8 != -1 && r.bitDepthChromaMinus8 != -1
    && (if r.chromaFormatIdc == 3 then IsU(1, r.residualColourTransformFlag) else r.residualColourTransformFlag == 0)
    && ListsShape(r.lists, if r.matrixPresentFlag != 0 then ListCount(r.chromaFormatIdc) else 0)
  }

  /** The C operator % by 256, which truncates towards zero. */
  function Rem256(v: int): (r: int)
    ensures -255 <= r <= 255
  {
    if v >= 0 then v % 256 else -(-v % 256)
  }

  function GetEntries(bits: seq<bool>, p: nat, l: ScalingList, j: nat, last: Int32, next: Int32): (r: (ScalingList, nat))
    ensures |r.0.entries| == |l.entries| && r.0.present == l.present
    ensures j <= |l.entries| ==> r.0.entries[..j] == l.entries[..j]
    decreases |l.entries| - j
  {
    if j >= |l.entries| then (l, p)
    else if next != 0 then
      var (delta, p) := SeAt(bits, p);
      var next': Int32 := Rem256(last + delta + 256);
      var scale := if next' == 0 then last else next';
      var l' := l.(entries := l.entries[j := scale], useDefault := if j == 0 && next' == 0 then 1 else 0);
      GetEntries(bits, p, l', j + 1, scale, next')
    else
      GetEntries(bits, p, l.(entries := l.entries[j := last]), j + 1, last, 0)
  }

  function GetLists(bits: seq<bool>, p: nat, lists: seq<ScalingList>, i: nat, n: nat): (r: (seq<ScalingList>, nat))
    requires i <= n <= 12 && ListsShape(lists, i)
    ensures ListsShape(r.0, n) && r.0[..i] == lists[..i]
    decreases n - i
  {
    if i == n then (lists, p)
    else
      var (present, p) := GetU(bits, p, 1);
      var l := lists[i].(present := present);
      var (l, p) := if present != 0 then GetEntries(bits, p, l, 0, 8, 8) else (l, p);
      var (rest, p) := GetLists(bits, p, lists[i := l], i + 1, n);
      assert rest[..i] == rest[..i + 1][..i] == lists[i := l][..i + 1][..i];
      (rest, p)
  }

  function GetHigh(bits: seq<bool>, p: nat): (r: (High, nat))
    ensures HighShape(r.0)
  {
    var (chroma, p) := GetUe(bits, p);
    var (residual, p) := if chroma == 3 then GetU(bits, p, 1) else (0, p);
    var (luma, p) := GetUe(bits, p);
    var (depth, p) := GetUe(bits, p);
    var (qpprime, p) := GetU(bits, p, 1);
    var (matrix, p) := GetU(bits, p, 1);
    var (lists, p) := if matrix != 0 then GetLists(bits, p, ZeroLists(), 0, ListCount(chroma)) else (ZeroLists(), p);
    (High(chroma, residual, luma, depth, qpprime, matrix, lists), p)
  }

  predicate OrderShape(r: OrderCount) {
    |r.offsetForRefFrame| == 256 && (forall i :: 0 <= i < 256 ==> r.offsetForRefFrame[i] != -0x8000_0000)
    && r.log2MaxFrameNumMinus4 != -1 && r.picOrderCntType != -1 && r.log2MaxPicOrderCntLsbMinus4 != -1
    && r.offsetForNonRefPic != -0x8000_0000 && r.offsetForTopToBottomField != -0x8000_0000
    && r.numRefFramesInCycle != -1
    && (r.picOrderCntType != 0 ==> r.log2MaxPicOrderCntLsbMinus4 == 0)
    && (if r.picOrderCntType == 1 then
          IsU(1, r.deltaAlwaysZeroFlag) && r.numRefFramesInCycle <= 256
          && forall i :: 0 <= i < 256 && i >= r.numRefFramesInCycle ==> r.offsetForRefFrame[i] == 0
        else
          r.deltaAlwaysZeroFlag == 0 && r.offsetForNonRefPic == 0 && r.offsetForTopToBottomField == 0
          && r.numRefFramesInCycle == 0 && r.offsetForRefFrame == Zeros(256))
  }

  function GetOffsets(bits: seq<bool>, p: nat, offsets: seq<Int32>, i: nat, n: Int32): (r: (seq<Int32>, nat))
    requires n <= |offsets|
    ensures |r.0| == |offsets|
    ensures forall k :: 0 <= k < |offsets| && (k < i || k >= n) ==> r.0[k] == offsets[k]
    ensures forall k :: i <= k < n ==> r.0[k] != -0x8000_0000
    decreases n - i
  {
    if i >= n then (offsets, p)
    else
      var (offset, p) := SeAt(bits, p);
      GetOffsets(bits, p, offsets[i := offset], i + 1, n)
  }

  function GetOrder(bits: seq<bool>, p: nat): (r: (OrderCount, nat))
    ensures OrderShape(r.0)
  {
    var (frameNum, p) := GetUe(bits, p);
    var (kind, p) := GetUe(bits, p);
    if kind == 0 then
      var (lsb, p) := GetUe(bits, p);
      (OrderCount(frameNum, kind, lsb, 0, 0, 0, 0, Zeros(256)), p)
    else if kind == 1 then
      var (alwaysZero, p) := GetU(bits, p, 1);
      var (nonRef, p) := SeAt(bits, p);
      var (topBottom, p) := SeAt(bits, p);
      var (count, p) := GetUe(bits, p);
      var count := if count > 256 then 256 else count;
      var (offsets, p) := GetOffsets(bits, p, Zeros(256), 0, count);
      (OrderCount(frameNum, kind, 0, alwaysZero, nonRef, topBottom, count, offsets), p)
    else
      (OrderCount(frameNum, kind, 0, 0, 0, 0, 0, Zeros(256)), p)
  }

  predicate FrameShape(r: Frame) {
    IsU(1, r.gapsAllowedFlag) && IsU(1, r.mbsOnlyFlag) && IsU(1, r.direct8x8InferenceFlag)
    && r.numRefFrames != -1 && r.widthInMbsMinus1 != -1 && r.heightInMapUnitsMinus1 != -1
    && (if r.mbsOnlyFlag == 0 then IsU(1, r.mbAdaptiveFlag) else r.mbAdaptiveFlag == 0)
  }

  function GetFrame(bits: seq<bool>, p: nat): (r: (Frame, nat))
    ensures FrameShape(r.0)
  {
    var (refFrames, p) := GetUe(bits, p);
    var (gaps, p) := GetU(bits, p, 1);
    var (width, p) := GetUe(bits, p);
    var (height, p) := GetUe(bits, p);
    var (mbsOnly, p) := GetU(bits, p, 1);
    var (adaptive, p) := if mbsOnly == 0 then GetU(bits, p, 1) else (0, p);
    var (direct, p) := GetU(bits, p, 1);
    (Frame(refFrames, gaps, width, height, mbsOnly, adaptive, direct), p)
  }

  predicate CropShape(r: Crop) {
    IsU(1, r.flag) && (r.flag == 0 ==> r.left == r.right == r.top == r.bottom == 0)
    && r.left != -1 && r.right != -1 && r.top != -1 && r.bottom != -1
  }

  function GetCrop(bits: seq<bool>, p: nat): (r: (Crop, nat))
    ensures CropShape(r.0)
  {
    var (flag, p) := GetU(bits, p, 1);
    if flag == 0 then (Crop(flag, 0, 0, 0, 0), p)
    else
      var (left, p) := GetUe(bits, p);
      var (right, p) := GetUe(bits, p);
      var (top, p) := GetUe(bits, p);
      var (bottom, p) := GetUe(bits, p);
      (Crop(flag, left, right, top, bottom), p)
  }

  predicate SchedFields(r: Sched) {
    r.bitRateValueMinus1 != -1 && r.cpbSizeValueMinus1 != -1 && IsU(1, r.cbrFlag)
  }

  predicate SchedShape(sched: seq<Sched>, last: Int32) {
    (forall i :: 0 <= i < |sched| ==> SchedFields(sched[i]))
    && (forall i :: 0 <= i < |sched| && i > last ==> sched[i] == Sched(0, 0, 0))
  }

  predicate HrdShape(r: Hrd) {
    |r.sched| == 32 && r.cpbCntMinus1 <= 31 && r.cpbCntMinus1 != -1
    && IsU(4, r.bitRateScale) && IsU(4, r.cpbSizeScale)
    && SchedShape(r.sched, r.cpbCntMinus1)
    && IsU(5, r.initialCpbRemovalDelayLengthMinus1) && IsU(5, r.cpbRemovalDelayLengthMinus1)
    && IsU(5, r.dpbOutputDelayLengthMinus1) && IsU(5, r.timeOffsetLength)
  }

  function GetSched(bits: seq<bool>, p: nat, sched: seq<Sched>, i: nat, last: Int32): (r: (seq<Sched>, nat))
    requires last < |sched|
    ensures |r.0| == |sched|
    ensures forall k :: 0 <= k < |sched| && (k < i || k > last) ==> r.0[k] == sched[k]
    ensures forall k :: i <= k <= last ==> SchedFields(r.0[k])
    decreases last + 1 - i
  {
    if i > last then (sched, p)
    else
      var (bitRate, p) := GetUe(bits, p);
      var (cpbSize, p) := GetUe(bits, p);
      var (cbr, p) := GetU(bits, p, 1);
      GetSched(bits, p, sched[i := Sched(bitRate, cpbSize, cbr)], i + 1, last)
  }

  function GetHrd(bits: seq<bool>, p: nat): (r: (Hrd, nat))
    ensures HrdShape(r.0)
  {
    var (count, p) := GetUe(bits, p);
    var count := if count > 31 then 31 else count;
    var (bitRate, p) := GetU(bits, p, 4);
    var (cpbSize, p) := GetU(bits, p, 4);
    var (sched, p) := GetSched(bits, p, ZeroSched(), 0, count);
    var (initial, p) := GetU(bits, p, 5);
    var (removal, p) := GetU(bits, p, 5);
    var (output, p) := GetU(bits, p, 5);
    var (offset, p) := GetU(bits, p, 5);
    (Hrd(count, bitRate, cpbSize, sched, initial, removal, output, offset), p)
  }

  predicate AspectShape(r: Aspect) {
    IsU(1, r.presentFlag)
    && (if r.presentFlag != 0 then IsU(8, r.idc) else r.idc == 0)
    && (if r.presentFlag != 0 && r.idc == SAR_EXTENDED then IsU(16, r.sarWidth) && IsU(16, r.sarHeight)
        else r.sarWidth == r.sarHeight == 0)
  }

  function GetAspect(bits: seq<bool>, p: nat): (r: (Aspect, nat))
    ensures AspectShape(r.0)
  {
    var (flag, p) := GetU(bits, p, 1);
    if flag == 0 then (Aspect(flag, 0, 0, 0), p)
    else
      var (idc, p) := GetU(bits, p, 8);
      if idc != SAR_EXTENDED then (Aspect(flag, idc, 0, 0), p)
      else
        var (width, p) := GetU(bits, p, 16);
        var (height, p) := GetU(bits, p, 16);
        (Aspect(flag, idc, width, height), p)
  }

  predicate OverscanShape(r: Overscan) {
    IsU(1, r.presentFlag) && (if r.presentFlag != 0 then IsU(1, r.appropriateFlag) else r.appropriateFlag == 0)
  }

  function GetOverscan(bits: seq<bool>, p: nat): (r: (Overscan, nat))
    ensures OverscanShape(r.0)
  {
    var (flag, p) := GetU(bits, p, 1);
    var (appropriate, p) := if flag != 0 then GetU(bits, p, 1) else (0, p);
    (Overscan(flag, appropriate), p)
  }

  predicate SignalShape(r: Signal) {
    IsU(1, r.presentFlag)
    && (if r.presentFlag != 0 then IsU(3, r.videoFormat) && IsU(1, r.fullRangeFlag) && IsU(1, r.colourPresentFlag)
        else r.videoFormat == r.fullRangeFlag == r.colourPresentFlag == 0)
    && (if r.colourPresentFlag != 0 then IsU(8, r.primaries) && IsU(8, r.transfer) && IsU(8, r.matrix)
        else r.primaries == r.transfer == r.matrix == 0)
  }

  function GetSignal(bits: seq<bool>, p: nat): (r: (Signal, nat))
    ensures SignalShape(r.0)
  {
    var (flag, p) := GetU(bits, p, 1);
    if flag == 0 then (Signal(flag, 0, 0, 0, 0, 0, 0), p)
    else
      var (format, p) := GetU(bits, p, 3);
      var (fullRange, p) := GetU(bits, p, 1);
      var (colour, p) := GetU(bits, p, 1);
      if colour == 0 then (Signal(flag, format, fullRange, colour, 0, 0, 0), p)
      else
        var (primaries, p) := GetU(bits, p, 8);
        var (transfer, p) := GetU(bits, p, 8);
        var (matrix, p) := GetU(bits, p, 8);
        (Signal(flag, format, fullRange, colour, primaries, transfer, matrix), p)
  }

  predicate ChromaLocShape(r: ChromaLoc) {
    IsU(1, r.presentFlag) && (r.presentFlag == 0 ==> r.topField == r.bottomField == 0)
    && r.topField != -1 && r.bottomField != -1
  }

  function GetChromaLoc(bits: seq<bool>, p: nat): (r: (ChromaLoc, nat))
    ensures ChromaLocShape(r.0)
  {
    var (flag, p) := GetU(bits, p, 1);
    if flag == 0 then (ChromaLoc(flag, 0, 0), p)
    else
      var (top, p) := GetUe(bits, p);
      var (bottom, p) := GetUe(bits, p);
      (ChromaLoc(flag, top, bottom), p)
  }

  predicate TimingShape(r: Timing) {
    IsU(1, r.presentFlag)
    && (if r.presentFlag != 0 then IsU(1, r.fixedFrameRateFlag)
        else r.numUnitsInTick == r.timeScale == r.fixedFrameRateFlag == 0)
  }

  function GetTiming(bits: seq<bool>, p: nat): (r: (Timing, nat))
    ensures TimingShape(r.0)
  {
    var (flag, p) := GetU(bits, p, 1);
    if flag == 0 then (Timing(flag, 0, 0, 0), p)
    else
      var (units, p) := GetU(bits, p, 32);
      var (scale, p) := GetU(bits, p, 32);
      var (fixed, p) := GetU(bits, p, 1);
      (Timing(flag, units, scale, fixed), p)
  }

  predicate HrdPairShape(r: HrdPair) {
    IsU(1, r.nalPresentFlag) && (if r.nalPresentFlag != 0 then HrdShape(r.nal) else r.nal == ZeroHrd())
    && IsU(1, r.vclPresentFlag) && (if r.vclPresentFlag != 0 then HrdShape(r.vcl) else r.vcl == ZeroHrd())
    && (if r.nalPresentFlag != 0 || r.vclPresentFlag != 0 then IsU(1, r.lowDelayFlag) else r.lowDelayFlag == 0)
  }

  function GetHrdPair(bits: seq<bool>, p: nat): (r: (HrdPair, nat))
    ensures HrdPairShape(r.0)
  {
    var (nalFlag, p) := GetU(bits, p, 1);
    var (nal, p) := if nalFlag != 0 then GetHrd(bits, p) else (ZeroHrd(), p);
    var (vclFlag, p) := GetU(bits, p, 1);
    var (vcl, p) := if vclFlag != 0 then GetHrd(bits, p) else (ZeroHrd(), p);
    var (lowDelay, p) := if nalFlag != 0 || vclFlag != 0 then GetU(bits, p, 1) else (0, p);
    (HrdPair(nalFlag, nal, vclFlag, vcl, lowDelay), p)
  }

  predicate RestrictionShape(r: Restriction) {
    IsU(1, r.flag) && r.maxBytesPerPicDenom != -1 && r.maxBitsPerMbDenom != -1
    && r.log2MaxMvLengthHorizontal != -1 && r.log2MaxMvLengthVertical != -1
    && r.numReorderFrames != -1 && r.maxDecFrameBuffering != -1
    && (if r.flag != 0 then IsU(1, r.motionVectorsOverPicBoundariesFlag)
        else r == Restriction(0, 0, 0, 0, 0, 0, 0, 0))
  }

  function GetRestriction(bits: seq<bool>, p: nat): (r: (Restriction, nat))
    ensures RestrictionShape(r.0)
  {
    var (flag, p) := GetU(bits, p, 1);
    if flag == 0 then (Restriction(flag, 0, 0, 0, 0, 0, 0, 0), p)
    else
      var (vectors, p) := GetU(bits, p, 1);
      var (bytesPerPic, p) := GetUe(bits, p);
      var (bitsPerMb, p) := GetUe(bits, p);
      var (horizontal, p) := GetUe(bits, p);
      var (vertical, p) := GetUe(bits, p);
      var (reorder, p) := GetUe(bits, p);
      var (buffering, p) := GetUe(bits, p);
      (Restriction(flag, vectors, bytesPerPic, bitsPerMb, horizontal, vertical, reorder, buffering), p)
  }

  predicate VuiShape(r: Vui) {
    AspectShape(r.aspect) && OverscanShape(r.overscan) && SignalShape(r.signal) && ChromaLocShape(r.chromaLoc)
    && TimingShape(r.timing) && HrdPairShape(r.hrd) && IsU(1, r.picStructPresentFlag)
    && RestrictionShape(r.restriction)
  }

  function GetVui(bits: seq<bool>, p: nat): (r: (Vui, nat))
    ensures VuiShape(r.0)
  {
    var (aspect, p) := GetAspect(bits, p);
    var (overscan, p) := GetOverscan(bits, p);
    var (signal, p) := GetSignal(bits, p);
    var (chromaLoc, p) := GetChromaLoc(bits, p);
    var (timing, p) := GetTiming(bits, p);
    var (hrd, p) := GetHrdPair(bits, p);
    var (picStruct, p) := GetU(bits, p, 1);
    var (restriction, p) := GetRestriction(bits, p);
    (Vui(aspect, overscan, signal, chromaLoc, timing, hrd, picStruct, restriction), p)
  }

  /** What every SPS read from any bit string looks like: flags and u(n) fields are in range,
      no field has a value that no code stands for, and what was absent is as memset (and
      chroma_format_idc = 1) left it. */
  predicate SpsShape(s: Sps) {
    ProfileShape(s.profile)
    && (if IsHigh(s.profile.profileIdc) then HighShape(s.high) else s.high == ZeroHigh())
    && OrderShape(s.order) && FrameShape(s.frame) && CropShape(s.crop)
    && IsU(1, s.vuiPresentFlag)
    && (if s.vuiPresentFlag != 0 then VuiShape(s.vui) else s.vui == ZeroVui())
  }

  function GetSps(bits: seq<bool>, p: nat): (r: (Sps, nat))
    ensures SpsShape(r.0)
  {
    var (profile, p) := GetProfile(bits, p);
    var (high, p) := if IsHigh(profile.profileIdc) then GetHigh(bits, p) else (ZeroHigh(), p);
    var (order, p) := GetOrder(bits, p);
    var (frame, p) := GetFrame(bits, p);
    var (crop, p) := GetCrop(bits, p);
    var (flag, p) := GetU(bits, p, 1);
    var (vui, p) := if flag != 0 then GetVui(bits, p) else (ZeroVui(), p);
    (Sps(profile, high, order, frame, crop, flag, vui), p)
  }

  function GetHeader(bits: seq<bool>, p: nat): (Nal, nat) {
    var (refIdc, p) := GetU(bits, p + 1, 2);
    var (kind, p) := GetU(bits, p, 5);
    (Nal(refIdc, kind), p)
  }
}
