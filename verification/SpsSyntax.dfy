/** The sequence parameter set: its fields, what is written for it (the syntax tables of
    ITU-T H.264, sections 7.3.2.1.1, 7.3.2.1.1.1, E.1.1 and E.1.2) and which values of the
    fields can be written at all. Fields of sps_t that the tables read together form one
    record here. */
module SpsSyntax {
  import opened Bits
  import opened Codes

  // ---------- The fields ----------

  datatype Nal = Nal(nalRefIdc: Int32, nalUnitType: Int32)

  const NAL_UNIT_TYPE_SPS: Int32 := 7
  const SAR_EXTENDED: Int32 := 255

  datatype Profile = Profile(
    profileIdc: Int32,
    constraintSet0Flag: Int32, constraintSet1Flag: Int32, constraintSet2Flag: Int32,
    constraintSet3Flag: Int32, constraintSet4Flag: Int32, constraintSet5Flag: Int32,
    reservedZero2Bits: Int32, levelIdc: Int32, seqParameterSetId: Int32)

  /** One scaling list: 16 entries for lists 0 to 5, 64 entries for lists 6 to 11. */
  datatype ScalingList = ScalingList(present: Int32, entries: seq<Int32>, useDefault: Int32)

  datatype High = High(
    chromaFormatIdc: Int32, residualColourTransformFlag: Int32,
    bitDepthLumaMinus8: Int32, bitDepthChromaMinus8: Int32,
    qpprimeYZeroTransformBypassFlag: Int32, matrixPresentFlag: Int32,
    lists: seq<ScalingList>)

  datatype OrderCount = OrderCount(
    log2MaxFrameNumMinus4: Int32, picOrderCntType: Int32, log2MaxPicOrderCntLsbMinus4: Int32,
    deltaAlwaysZeroFlag: Int32, offsetForNonRefPic: Int32, offsetForTopToBottomField: Int32,
    numRefFramesInCycle: Int32, offsetForRefFrame: seq<Int32>)

  datatype Frame = Frame(
    numRefFrames: Int32, gapsAllowedFlag: Int32, widthInMbsMinus1: Int32, heightInMapUnitsMinus1: Int32,
    mbsOnlyFlag: Int32, mbAdaptiveFlag: Int32, direct8x8InferenceFlag: Int32)

  datatype Crop = Crop(flag: Int32, left: Int32, right: Int32, top: Int32, bottom: Int32)

  datatype Sched = Sched(bitRateValueMinus1: Int32, cpbSizeValueMinus1: Int32, cbrFlag: Int32)

  datatype Hrd = Hrd(
    cpbCntMinus1: Int32, bitRateScale: Int32, cpbSizeScale: Int32, sched: seq<Sched>,
    initialCpbRemovalDelayLengthMinus1: Int32, cpbRemovalDelayLengthMinus1: Int32,
    dpbOutputDelayLengthMinus1: Int32, timeOffsetLength: Int32)

  datatype Aspect = Aspect(presentFlag: Int32, idc: Int32, sarWidth: Int32, sarHeight: Int32)

  datatype Overscan = Overscan(presentFlag: Int32, appropriateFlag: Int32)

  datatype Signal = Signal(
    presentFlag: Int32, videoFormat: Int32, fullRangeFlag: Int32, colourPresentFlag: Int32,
    primaries: Int32, transfer: Int32, matrix: Int32)

  datatype ChromaLoc = ChromaLoc(presentFlag: Int32, topField: Int32, bottomField: Int32)

  datatype Timing = Timing(presentFlag: Int32, numUnitsInTick: Int32, timeScale: Int32, fixedFrameRateFlag: Int32)

  datatype HrdPair = HrdPair(
    nalPresentFlag: Int32, nal: Hrd, vclPresentFlag: Int32, vcl: Hrd, lowDelayFlag: Int32)

  datatype Restriction = Restriction(
    flag: Int32, motionVectorsOverPicBoundariesFlag: Int32,
    maxBytesPerPicDenom: Int32, maxBitsPerMbDenom: Int32,
    log2MaxMvLengthHorizontal: Int32, log2MaxMvLengthVertical: Int32,
    numReorderFrames: Int32, maxDecFrameBuffering: Int32)

  datatype Vui = Vui(
    aspect: Aspect, overscan: Overscan, signal: Signal, chromaLoc: ChromaLoc, timing: Timing,
    hrd: HrdPair, picStructPresentFlag: Int32, restriction: Restriction)

  datatype Sps = Sps(
    profile: Profile, high: High, order: OrderCount, frame: Frame, crop: Crop,
    vuiPresentFlag: Int32, vui: Vui)

  // ---------- The record after memset ----------

  function ZeroSched(): (s: seq<Sched>)
    ensures |s| == 32
  {
    seq(32, i => Sched(0, 0, 0))
  }

  function ListSize(i: nat): nat {
    if i < 6 then 16 else 64
  }

  function Zeros(n: nat): (s: seq<Int32>)
    ensures |s| == n
  {
    seq(n, i => 0)
  }

  function ZeroList(i: nat): ScalingList {
    ScalingList(0, Zeros(ListSize(i)), 0)
  }

  function ZeroLists(): (s: seq<ScalingList>)
    ensures |s| == 12
  {
    seq(12, i requires 0 <= i < 12 => ZeroList(i))
  }

  function ZeroHrd(): Hrd {
    Hrd(0, 0, 0, ZeroSched(), 0, 0, 0, 0)
  }

  function ZeroHigh(): High {
    High(1, 0, 0, 0, 0, 0, ZeroLists())
  }

  function ZeroVui(): Vui {
    Vui(Aspect(0, 0, 0, 0), Overscan(0, 0), Signal(0, 0, 0, 0, 0, 0, 0), ChromaLoc(0, 0, 0), Timing(0, 0, 0, 0),
        HrdPair(0, ZeroHrd(), 0, ZeroHrd(), 0), 0, Restriction(0, 0, 0, 0, 0, 0, 0, 0))
  }

  function ZeroSps(): Sps {
    Sps(Profile(0, 0, 0, 0, 0, 0, 0, 0, 0, 0), ZeroHigh(), OrderCount(0, 0, 0, 0, 0, 0, 0, Zeros(256)),
        Frame(0, 0, 0, 0, 0, 0, 0), Crop(0, 0, 0, 0, 0), 0, ZeroVui())
  }

  // ---------- What is written ----------
  // Each Put function appends one part of the syntax to the bits written so far.

  function PutProfile(acc: seq<bool>, r: Profile): seq<bool> {
    acc + U(8, r.profileIdc)
    + U(1, r.constraintSet0Flag) + U(1, r.constraintSet1Flag) + U(1, r.constraintSet2Flag)
    + U(1, r.constraintSet3Flag) + U(1, r.constraintSet4Flag) + U(1, r.constraintSet5Flag)
    + U(2, 0) + U(8, r.levelIdc) + Ue(r.seqParameterSetId)
  }

  predicate IsHigh(profileIdc: Int32) {
    profileIdc in {100, 110, 122, 244, 44, 83, 86, 118, 128, 138, 139, 134}
  }

  function ListCount(chromaFormatIdc: Int32): nat {
    if chromaFormatIdc != 3 then 8 else 12
  }

  /** The rest of the list, from entry j on, repeats v. */
  predicate RestIs(entries: seq<Int32>, j: nat, v: Int32) {
    forall k :: j <= k < |entries| ==> entries[k] == v
  }

  /** The writer's nextScale for entry j. */
  function NextScale(l: ScalingList, j: nat, last: Int32): Int32
    requires j < |l.entries|
  {
    if l.useDefault != 0 || (j > 0 && l.entries[j] == last && RestIs(l.entries, j + 1, last)) then 0
    else l.entries[j]
  }

  /** The writer's delta_scale, folded once towards -128..127. */
  function DeltaScale(next: Int32, last: Int32): int {
    var delta := next - last;
    if delta < -128 then delta + 256 else if delta > 127 then delta - 256 else delta
  }

  /** Entries from j on, given lastScale and nextScale. */
  function PutEntries(acc: seq<bool>, l: ScalingList, j: nat, last: Int32, next: Int32): seq<bool>
    decreases |l.entries| - j
  {
    if j >= |l.entries| then acc
    else if next != 0 then
      var next' := NextScale(l, j, last);
      var delta := DeltaScale(next', last);
      PutEntries(if IsSe(delta) then acc + Se(delta) else acc, l, j + 1, l.entries[j], next')
    else PutEntries(acc, l, j + 1, l.entries[j], 0)
  }

  function PutLists(acc: seq<bool>, lists: seq<ScalingList>, i: nat, n: nat): seq<bool>
    decreases n - i
  {
    if i >= n || i >= |lists| then acc
    else
      var acc := acc + U(1, lists[i].present);
      var acc := if lists[i].present != 0 then PutEntries(acc, lists[i], 0, 8, 8) else acc;
      PutLists(acc, lists, i + 1, n)
  }

  function PutHigh(acc: seq<bool>, r: High): seq<bool> {
    var acc := acc + Ue(r.chromaFormatIdc);
    var acc := if r.chromaFormatIdc == 3 then acc + U(1, r.residualColourTransformFlag) else acc;
    var acc := acc + Ue(r.bitDepthLumaMinus8) + Ue(r.bitDepthChromaMinus8)
               + U(1, r.qpprimeYZeroTransformBypassFlag) + U(1, r.matrixPresentFlag);
    if r.matrixPresentFlag != 0 then PutLists(acc, r.lists, 0, ListCount(r.chromaFormatIdc)) else acc
  }

  function PutOffsets(acc: seq<bool>, offsets: seq<Int32>, i: nat, n: Int32): seq<bool>
    decreases n - i
  {
    if i >= n || i >= |offsets| then acc else PutOffsets(acc + Se(offsets[i]), offsets, i + 1, n)
  }

  function PutOrder(acc: seq<bool>, r: OrderCount): seq<bool> {
    var acc := acc + Ue(r.log2MaxFrameNumMinus4) + Ue(r.picOrderCntType);
    if r.picOrderCntType == 0 then acc + Ue(r.log2MaxPicOrderCntLsbMinus4)
    else if r.picOrderCntType == 1 then
      var acc := acc + U(1, r.deltaAlwaysZeroFlag) + Se(r.offsetForNonRefPic)
                 + Se(r.offsetForTopToBottomField) + Ue(r.numRefFramesInCycle);
      PutOffsets(acc, r.offsetForRefFrame, 0, r.numRefFramesInCycle)
    else acc
  }

  function PutFrame(acc: seq<bool>, r: Frame): seq<bool> {
    var acc := acc + Ue(r.numRefFrames) + U(1, r.gapsAllowedFlag) + Ue(r.widthInMbsMinus1)
               + Ue(r.heightInMapUnitsMinus1) + U(1, r.mbsOnlyFlag);
    var acc := if r.mbsOnlyFlag == 0 then acc + U(1, r.mbAdaptiveFlag) else acc;
    acc + U(1, r.direct8x8InferenceFlag)
  }

  function PutCrop(acc: seq<bool>, r: Crop): seq<bool> {
    var acc := acc + U(1, r.flag);
    if r.flag != 0 then acc + Ue(r.left) + Ue(r.right) + Ue(r.top) + Ue(r.bottom) else acc
  }

  function PutSched(acc: seq<bool>, sched: seq<Sched>, i: nat, last: Int32): seq<bool>
    decreases last + 1 - i
  {
    if i > last || i >= |sched| then acc
    else
      var acc := acc + Ue(sched[i].bitRateValueMinus1) + Ue(sched[i].cpbSizeValueMinus1) + U(1, sched[i].cbrFlag);
      PutSched(acc, sched, i + 1, last)
  }

  function PutHrd(acc: seq<bool>, r: Hrd): seq<bool> {
    var acc := acc + Ue(r.cpbCntMinus1) + U(4, r.bitRateScale) + U(4, r.cpbSizeScale);
    PutSched(acc, r.sched, 0, r.cpbCntMinus1)
    + U(5, r.initialCpbRemovalDelayLengthMinus1) + U(5, r.cpbRemovalDelayLengthMinus1)
    + U(5, r.dpbOutputDelayLengthMinus1) + U(5, r.timeOffsetLength)
  }

  function PutAspect(acc: seq<bool>, r: Aspect): seq<bool> {
    var acc := acc + U(1, r.presentFlag);
    if r.presentFlag == 0 then acc
    else
      var acc := acc + U(8, r.idc);
      if r.idc == SAR_EXTENDED then acc + U(16, r.sarWidth) + U(16, r.sarHeight) else acc
  }

  function PutOverscan(acc: seq<bool>, r: Overscan): seq<bool> {
    var acc := acc + U(1, r.presentFlag);
    if r.presentFlag != 0 then acc + U(1, r.appropriateFlag) else acc
  }

  function PutSignal(acc: seq<bool>, r: Signal): seq<bool> {
    var acc := acc + U(1, r.presentFlag);
    if r.presentFlag == 0 then acc
    else
      var acc := acc + U(3, r.videoFormat) + U(1, r.fullRangeFlag) + U(1, r.colourPresentFlag);
      if r.colourPresentFlag != 0 then acc + U(8, r.primaries) + U(8, r.transfer) + U(8, r.matrix) else acc
  }

  function PutChromaLoc(acc: seq<bool>, r: ChromaLoc): seq<bool> {
    var acc := acc + U(1, r.presentFlag);
    if r.presentFlag != 0 then acc + Ue(r.topField) + Ue(r.bottomField) else acc
  }

  function PutTiming(acc: seq<bool>, r: Timing): seq<bool> {
    var acc := acc + U(1, r.presentFlag);
    if r.presentFlag == 0 then acc
    else acc + U(32, r.numUnitsInTick) + U(32, r.timeScale) + U(1, r.fixedFrameRateFlag)
  }

  function PutHrdPair(acc: seq<bool>, r: HrdPair): seq<bool> {
    var acc := acc + U(1, r.nalPresentFlag);
    var acc := if r.nalPresentFlag != 0 then PutHrd(acc, r.nal) else acc;
    var acc := acc + U(1, r.vclPresentFlag);
    var acc := if r.vclPresentFlag != 0 then PutHrd(acc, r.vcl) else acc;
    if r.nalPresentFlag != 0 || r.vclPresentFlag != 0 then acc + U(1, r.lowDelayFlag) else acc
  }

  function PutRestriction(acc: seq<bool>, r: Restriction): seq<bool> {
    var acc := acc + U(1, r.flag);
    if r.flag == 0 then acc
    else
      acc + U(1, r.motionVectorsOverPicBoundariesFlag) + Ue(r.maxBytesPerPicDenom) + Ue(r.maxBitsPerMbDenom)
      + Ue(r.log2MaxMvLengthHorizontal) + Ue(r.log2MaxMvLengthVertical)
      + Ue(r.numReorderFrames) + Ue(r.maxDecFrameBuffering)
  }

  function PutVui(acc: seq<bool>, r: Vui): seq<bool> {
    var acc := PutSignal(PutOverscan(PutAspect(acc, r.aspect), r.overscan), r.signal);
    var acc := PutHrdPair(PutTiming(PutChromaLoc(acc, r.chromaLoc), r.timing), r.hrd);
    PutRestriction(acc + U(1, r.picStructPresentFlag), r.restriction)
  }

  function PutSps(acc: seq<bool>, s: Sps): seq<bool> {
    var acc := PutProfile(acc, s.profile);
    var acc := if IsHigh(s.profile.profileIdc) then PutHigh(acc, s.high) else acc;
    var acc := PutCrop(PutFrame(PutOrder(acc, s.order), s.frame), s.crop);
    var acc := acc + U(1, s.vuiPresentFlag);
    if s.vuiPresentFlag != 0 then PutVui(acc, s.vui) else acc
  }

  function PutHeader(acc: seq<bool>, nal: Nal): seq<bool> {
    acc + U(1, 0) + U(2, nal.nalRefIdc) + U(5, nal.nalUnitType)
  }

  /** The number of bits up to the next byte boundary. */
  function ToAlign(n: nat): nat {
    (8 - n % 8) % 8
  }

  lemma ToAlignStep(n: nat)
    requires n % 8 != 0
    ensures ToAlign(n + 1) < ToAlign(n) && (n + 8) / 8 == (n + 7) / 8
  {
  }

  function Align(acc: seq<bool>): (bits: seq<bool>)
    ensures |bits| % 8 == 0 && |bits| >= |acc|
    decreases ToAlign(|acc|)
  {
    if |acc| % 8 == 0 then acc
    else
      ToAlignStep(|acc|);
      Align(acc + U(1, 0))
  }

  lemma AlignStep(acc: seq<bool>)
    ensures Align(acc) == if |acc| % 8 == 0 then acc else Align(acc + U(1, 0))
  {
  }

  /** rbsp_trailing_bits: a one, then zeros up to a byte boundary. */
  function PutTrailing(acc: seq<bool>): (bits: seq<bool>)
    ensures |bits| % 8 == 0 && |bits| > |acc|
  {
    Align(acc + U(1, 1))
  }

  /** The whole raw byte sequence payload, header included. */
  function RbspBits(nal: Nal, s: Sps): (bits: seq<bool>)
    ensures |bits| % 8 == 0 && |bits| > 0
  {
    PutTrailing(PutSps(PutHeader([], nal), s))
  }

  // ---------- What can be written ----------

  /** Every delta that the writer emits from entry j on is in the range of se(v). */
  predicate EntriesWritable(l: ScalingList, j: nat, last: Int32, next: Int32)
    decreases |l.entries| - j
  {
    j >= |l.entries|
    || (if next != 0 then
          var next' := NextScale(l, j, last);
          IsSe(DeltaScale(next', last)) && EntriesWritable(l, j + 1, l.entries[j], next')
        else EntriesWritable(l, j + 1, l.entries[j], 0))
  }

  /** A present field can be written when no shift of the writer is out of range and no array
      is read past its end. */
  predicate HighWritable(r: High) {
    MayWriteUe(r.chromaFormatIdc) && MayWriteUe(r.bitDepthLumaMinus8) && MayWriteUe(r.bitDepthChromaMinus8)
    && |r.lists| == 12
    && (forall i :: 0 <= i < 12 ==> |r.lists[i].entries| == ListSize(i))
    && (r.matrixPresentFlag != 0 ==>
          forall i :: 0 <= i < ListCount(r.chromaFormatIdc) && r.lists[i].present != 0
                      ==> EntriesWritable(r.lists[i], 0, 8, 8))
  }

  predicate OrderWritable(r: OrderCount) {
    MayWriteUe(r.log2MaxFrameNumMinus4) && MayWriteUe(r.picOrderCntType)
    && (r.picOrderCntType == 0 ==> MayWriteUe(r.log2MaxPicOrderCntLsbMinus4))
    && |r.offsetForRefFrame| == 256
    && (r.picOrderCntType == 1 ==>
          MayWriteSe(r.offsetForNonRefPic) && MayWriteSe(r.offsetForTopToBottomField)
          && r.numRefFramesInCycle <= 256 && MayWriteUe(r.numRefFramesInCycle)
          && forall i :: 0 <= i < r.numRefFramesInCycle ==> MayWriteSe(r.offsetForRefFrame[i]))
  }

  predicate FrameWritable(r: Frame) {
    MayWriteUe(r.numRefFrames) && MayWriteUe(r.widthInMbsMinus1) && MayWriteUe(r.heightInMapUnitsMinus1)
  }

  predicate CropWritable(r: Crop) {
    r.flag != 0 ==> MayWriteUe(r.left) && MayWriteUe(r.right) && MayWriteUe(r.top) && MayWriteUe(r.bottom)
  }

  predicate HrdWritable(r: Hrd) {
    |r.sched| == 32 && -1 <= r.cpbCntMinus1 <= 31
    && forall i :: 0 <= i <= r.cpbCntMinus1 ==>
         MayWriteUe(r.sched[i].bitRateValueMinus1) && MayWriteUe(r.sched[i].cpbSizeValueMinus1)
  }

  predicate RestrictionWritable(r: Restriction) {
    r.flag != 0 ==>
      MayWriteUe(r.maxBytesPerPicDenom) && MayWriteUe(r.maxBitsPerMbDenom)
      && MayWriteUe(r.log2MaxMvLengthHorizontal) && MayWriteUe(r.log2MaxMvLengthVertical)
      && MayWriteUe(r.numReorderFrames) && MayWriteUe(r.maxDecFrameBuffering)
  }

  predicate VuiWritable(r: Vui) {
    (r.chromaLoc.presentFlag != 0 ==> MayWriteUe(r.chromaLoc.topField) && MayWriteUe(r.chromaLoc.bottomField))
    && (r.hrd.nalPresentFlag != 0 ==> HrdWritable(r.hrd.nal))
    && (r.hrd.vclPresentFlag != 0 ==> HrdWritable(r.hrd.vcl))
    && RestrictionWritable(r.restriction)
  }

  predicate Writable(s: Sps) {
    MayWriteUe(s.profile.seqParameterSetId)
    && (IsHigh(s.profile.profileIdc) ==> HighWritable(s.high))
    && OrderWritable(s.order) && FrameWritable(s.frame) && CropWritable(s.crop)
    && (s.vuiPresentFlag != 0 ==> VuiWritable(s.vui))
  }
}
