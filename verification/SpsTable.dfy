/** The syntax of the SPS as one table, written down from ITU-T H.264 (sections 7.3.1, 7.3.2.1.1,
    7.3.2.1.1.1, E.1.1 and E.1.2): which descriptor carries which field, in which order and under
    which condition. The reader and the writer follow it. */
module SpsTable {
  import opened Bits
  import opened Codes
  import opened SpsSyntax
  import opened SpsParse
  import opened SpsRoundTrip
  import opened SpsExact
  import opened SpsRewrite

  /** One row: u(n), ue(v) or se(v) with the value of the field, a count that the reader cuts to
      its array, or reserved bits. */
  datatype Item =
    | Fixed(n: nat, value: Int32)
    | Unsigned(value: Int32)
    | Count(value: Int32, max: Int32)
    | Signed(value: Int32)
    | Reserved(n: nat)

  type Items = seq<Item>

  // ---------- The table ----------
  // Each function appends the rows of one part.

  function HeaderItems(t: Items, nal: Nal): Items {
    t + [Reserved(1)] + [Fixed(2, nal.nalRefIdc)] + [Fixed(5, nal.nalUnitType)]
  }

  function ProfileItems(t: Items, r: Profile): Items {
    t + [Fixed(8, r.profileIdc)]
    + [Fixed(1, r.constraintSet0Flag)] + [Fixed(1, r.constraintSet1Flag)] + [Fixed(1, r.constraintSet2Flag)]
    + [Fixed(1, r.constraintSet3Flag)] + [Fixed(1, r.constraintSet4Flag)] + [Fixed(1, r.constraintSet5Flag)]
    + [Reserved(2)] + [Fixed(8, r.levelIdc)] + [Unsigned(r.seqParameterSetId)]
  }

  function DeltaItems(t: Items, deltas: seq<Int32>): Items
    decreases deltas
  {
    if deltas == [] then t else DeltaItems(t + [Signed(deltas[0])], deltas[1..])
  }

  function ListItems(t: Items, lists: seq<ScalingList>, deltas: seq<seq<Int32>>, i: nat, n: nat): Items
    requires n <= |lists| && n <= |deltas|
    decreases n - i
  {
    if i >= n then t
    else
      var t := t + [Fixed(1, lists[i].present)];
      ListItems(if lists[i].present != 0 then DeltaItems(t, deltas[i]) else t, lists, deltas, i + 1, n)
  }

  function HighItems(t: Items, r: High, deltas: seq<seq<Int32>>): Items
    requires |r.lists| == |deltas| == 12
  {
    var t := t + [Unsigned(r.chromaFormatIdc)];
    var t := if r.chromaFormatIdc == 3 then t + [Fixed(1, r.residualColourTransformFlag)] else t;
    var t := t + [Unsigned(r.bitDepthLumaMinus8)] + [Unsigned(r.bitDepthChromaMinus8)]
             + [Fixed(1, r.qpprimeYZeroTransformBypassFlag)] + [Fixed(1, r.matrixPresentFlag)];
    if r.matrixPresentFlag != 0 then ListItems(t, r.lists, deltas, 0, if r.chromaFormatIdc == 3 then 12 else 8) else t
  }

  function OffsetItems(t: Items, offsets: seq<Int32>, i: nat, n: Int32): Items
    requires n <= |offsets|
    decreases n - i
  {
    if i >= n then t else OffsetItems(t + [Signed(offsets[i])], offsets, i + 1, n)
  }

  function OrderItems(t: Items, r: OrderCount): Items
    requires r.picOrderCntType == 1 ==> r.numRefFramesInCycle <= |r.offsetForRefFrame|
  {
    var t := t + [Unsigned(r.log2MaxFrameNumMinus4)] + [Unsigned(r.picOrderCntType)];
    if r.picOrderCntType == 0 then t + [Unsigned(r.log2MaxPicOrderCntLsbMinus4)]
    else if r.picOrderCntType == 1 then
      var t := t + [Fixed(1, r.deltaAlwaysZeroFlag)] + [Signed(r.offsetForNonRefPic)]
               + [Signed(r.offsetForTopToBottomField)] + [Count(r.numRefFramesInCycle, 256)];
      OffsetItems(t, r.offsetForRefFrame, 0, r.numRefFramesInCycle)
    else t
  }

  function FrameItems(t: Items, r: Frame): Items {
    var t := t + [Unsigned(r.numRefFrames)] + [Fixed(1, r.gapsAllowedFlag)] + [Unsigned(r.widthInMbsMinus1)]
             + [Unsigned(r.heightInMapUnitsMinus1)] + [Fixed(1, r.mbsOnlyFlag)];
    var t := if r.mbsOnlyFlag == 0 then t + [Fixed(1, r.mbAdaptiveFlag)] else t;
    t + [Fixed(1, r.direct8x8InferenceFlag)]
  }

  function CropItems(t: Items, r: Crop): Items {
    var t := t + [Fixed(1, r.flag)];
    if r.flag != 0 then t + [Unsigned(r.left)] + [Unsigned(r.right)] + [Unsigned(r.top)] + [Unsigned(r.bottom)] else t
  }

  function SchedItems(t: Items, sched: seq<Sched>, i: nat, last: Int32): Items
    requires last < |sched|
    decreases last + 1 - i
  {
    if i > last then t
    else
      SchedItems(t + [Unsigned(sched[i].bitRateValueMinus1)] + [Unsigned(sched[i].cpbSizeValueMinus1)]
                 + [Fixed(1, sched[i].cbrFlag)],
                 sched, i + 1, last)
  }

  function HrdItems(t: Items, r: Hrd): Items
    requires r.cpbCntMinus1 < |r.sched|
  {
    var t := t + [Count(r.cpbCntMinus1, 31)] + [Fixed(4, r.bitRateScale)] + [Fixed(4, r.cpbSizeScale)];
    SchedItems(t, r.sched, 0, r.cpbCntMinus1)
    + [Fixed(5, r.initialCpbRemovalDelayLengthMinus1)] + [Fixed(5, r.cpbRemovalDelayLengthMinus1)]
    + [Fixed(5, r.dpbOutputDelayLengthMinus1)] + [Fixed(5, r.timeOffsetLength)]
  }

  function AspectItems(t: Items, r: Aspect): Items {
    var t := t + [Fixed(1, r.presentFlag)];
    var t := if r.presentFlag != 0 then t + [Fixed(8, r.idc)] else t;
    if r.presentFlag != 0 && r.idc == 255 then t + [Fixed(16, r.sarWidth)] + [Fixed(16, r.sarHeight)] else t
  }

  function OverscanItems(t: Items, r: Overscan): Items {
    var t := t + [Fixed(1, r.presentFlag)];
    if r.presentFlag != 0 then t + [Fixed(1, r.appropriateFlag)] else t
  }

  function SignalItems(t: Items, r: Signal): Items {
    var t := t + [Fixed(1, r.presentFlag)];
    var t := if r.presentFlag != 0 then t + [Fixed(3, r.videoFormat)] + [Fixed(1, r.fullRangeFlag)] + [Fixed(1, r.colourPresentFlag)]
             else t;
    if r.presentFlag != 0 && r.colourPresentFlag != 0 then
      t + [Fixed(8, r.primaries)] + [Fixed(8, r.transfer)] + [Fixed(8, r.matrix)]
    else t
  }

  function ChromaLocItems(t: Items, r: ChromaLoc): Items {
    var t := t + [Fixed(1, r.presentFlag)];
    if r.presentFlag != 0 then t + [Unsigned(r.topField)] + [Unsigned(r.bottomField)] else t
  }

  function TimingItems(t: Items, r: Timing): Items {
    var t := t + [Fixed(1, r.presentFlag)];
    if r.presentFlag != 0 then t + [Fixed(32, r.numUnitsInTick)] + [Fixed(32, r.timeScale)] + [Fixed(1, r.fixedFrameRateFlag)]
    else t
  }

  predicate HrdsSized(r: HrdPair) {
    (r.nalPresentFlag != 0 ==> r.nal.cpbCntMinus1 < |r.nal.sched|) && (r.vclPresentFlag != 0 ==> r.vcl.cpbCntMinus1 < |r.vcl.sched|)
  }

  function HrdPairItems(t: Items, r: HrdPair): Items
    requires HrdsSized(r)
  {
    var t := t + [Fixed(1, r.nalPresentFlag)];
    var t := if r.nalPresentFlag != 0 then HrdItems(t, r.nal) else t;
    var t := t + [Fixed(1, r.vclPresentFlag)];
    var t := if r.vclPresentFlag != 0 then HrdItems(t, r.vcl) else t;
    if r.nalPresentFlag != 0 || r.vclPresentFlag != 0 then t + [Fixed(1, r.lowDelayFlag)] else t
  }

  function RestrictionItems(t: Items, r: Restriction): Items {
    var t := t + [Fixed(1, r.flag)];
    if r.flag != 0 then
      t + [Fixed(1, r.motionVectorsOverPicBoundariesFlag)]
      + [Unsigned(r.maxBytesPerPicDenom)] + [Unsigned(r.maxBitsPerMbDenom)]
      + [Unsigned(r.log2MaxMvLengthHorizontal)] + [Unsigned(r.log2MaxMvLengthVertical)]
      + [Unsigned(r.numReorderFrames)] + [Unsigned(r.maxDecFrameBuffering)]
    else t
  }

  function VuiItems(t: Items, r: Vui): Items
    requires HrdsSized(r.hrd)
  {
    var t := AspectItems(t, r.aspect);
    var t := OverscanItems(t, r.overscan);
    var t := SignalItems(t, r.signal);
    var t := ChromaLocItems(t, r.chromaLoc);
    var t := TimingItems(t, r.timing);
    var t := HrdPairItems(t, r.hrd);
    RestrictionItems(t + [Fixed(1, r.picStructPresentFlag)], r.restriction)
  }

  /** The profiles whose SPS has a chroma format, bit depths and scaling lists. */
  predicate ChromaProfile(profileIdc: Int32) {
    profileIdc in {44, 83, 86, 100, 110, 118, 122, 128, 134, 138, 139, 244}
  }

  /** Every array that is used holds what its count asks for. */
  predicate Sized(s: Sps) {
    (ChromaProfile(s.profile.profileIdc) ==> |s.high.lists| == 12)
    && (s.order.picOrderCntType == 1 ==> s.order.numRefFramesInCycle <= |s.order.offsetForRefFrame|)
    && (s.vuiPresentFlag != 0 ==> HrdsSized(s.vui.hrd))
  }

  function SpsItems(t: Items, s: Sps, deltas: seq<seq<Int32>>): Items
    requires Sized(s) && |deltas| == 12
  {
    var t := ProfileItems(t, s.profile);
    var t := if ChromaProfile(s.profile.profileIdc) then HighItems(t, s.high, deltas) else t;
    var t := OrderItems(t, s.order);
    var t := FrameItems(t, s.frame);
    var t := CropItems(t, s.crop);
    var t := t + [Fixed(1, s.vuiPresentFlag)];
    if s.vuiPresentFlag != 0 then VuiItems(t, s.vui) else t
  }

  /** The table of a whole NAL unit, header included. */
  function UnitItems(nal: Nal, s: Sps, deltas: seq<seq<Int32>>): Items
    requires Sized(s) && |deltas| == 12
  {
    SpsItems(HeaderItems([], nal), s, deltas)
  }

  /** The entries of a list from j on, as section 7.3.2.1.1.1 makes them of its deltas: once a sum
      is a multiple of 256 the last entry is repeated, and no more deltas come. */
  predicate ScaledFrom(entries: seq<Int32>, deltas: seq<Int32>, j: nat, last: Int32, over: bool)
    decreases |entries| - j
  {
    if j >= |entries| then deltas == []
    else if over then deltas == [] && entries[j] == last && ScaledFrom(entries, [], j + 1, last, true)
    else
      deltas != []
      && (var sum: int := last as int + deltas[0] as int + 256;
          var next := if sum >= 0 then sum % 256 else -(-sum % 256); // % of C
          entries[j] == (if next == 0 then last else next) && ScaledFrom(entries, deltas[1..], j + 1, entries[j], next == 0))
  }

  /** The list has these deltas; it is a default list when the first one leads to 0. */
  predicate Scaled(l: ScalingList, deltas: seq<Int32>) {
    deltas != [] && ScaledFrom(l.entries, deltas, 0, 8, false)
    && l.useDefault == if (deltas[0] as int + 8 + 256) % 256 == 0 then 1 else 0
  }

  // ---------- The bits of a table ----------

  function Code(it: Item): seq<bool> {
    match it
    case Fixed(n, v) => U(n, v)
    case Unsigned(v) => Ue(v)
    case Count(v, _) => Ue(v)
    case Signed(v) => Se(v)
    case Reserved(n) => U(n, 0)
  }

  function Coded(t: Items): seq<bool> {
    if t == [] then [] else Coded(t[..|t| - 1]) + Code(t[|t| - 1])
  }

  lemma CodedMore()
    ensures forall t: Items, it: Item {:trigger Coded(t + [it])} :: Coded(t + [it]) == Coded(t) + Code(it)
  {
    forall t: Items, it: Item ensures Coded(t + [it]) == Coded(t) + Code(it) {
      assert (t + [it])[..|t + [it]| - 1] == t;
    }
  }

  /** Where the row that starts at p ends. */
  function Next(bits: seq<bool>, p: nat, it: Item): nat {
    match it
    case Fixed(n, _) => p + n
    case Reserved(n) => p + n
    case Signed(_) => SeAt(bits, p).1
    case _ => GetUe(bits, p).1
  }

  /** The code at p has the value of the row. */
  predicate Carries(bits: seq<bool>, p: nat, it: Item) {
    match it
    case Fixed(n, v) => n <= 32 && GetU(bits, p, n).0 == v
    case Reserved(_) => true
    case Signed(v) => SeAt(bits, p).0 == v
    case Unsigned(v) => GetUe(bits, p).0 == v
    case Count(v, max) => v == if GetUe(bits, p).0 > max then max else GetUe(bits, p).0
  }

  function End(bits: seq<bool>, p: nat, t: Items): nat {
    if t == [] then p else Next(bits, End(bits, p, t[..|t| - 1]), t[|t| - 1])
  }

  /** The rows stand one behind the other from p on. */
  predicate Reads(bits: seq<bool>, p: nat, t: Items) {
    t == [] || (Reads(bits, p, t[..|t| - 1]) && Carries(bits, End(bits, p, t[..|t| - 1]), t[|t| - 1]))
  }

  lemma ReadsMore(bits: seq<bool>, p: nat)
    ensures forall t: Items, it: Item {:trigger Reads(bits, p, t + [it])} ::
              Reads(bits, p, t + [it]) <==> Reads(bits, p, t) && Carries(bits, End(bits, p, t), it)
    ensures forall t: Items, it: Item {:trigger End(bits, p, t + [it])} ::
              End(bits, p, t + [it]) == Next(bits, End(bits, p, t), it)
  {
    forall t: Items, it: Item
      ensures Reads(bits, p, t + [it]) <==> Reads(bits, p, t) && Carries(bits, End(bits, p, t), it)
      ensures End(bits, p, t + [it]) == Next(bits, End(bits, p, t), it)
    {
      assert (t + [it])[..|t + [it]| - 1] == t;
    }
  }

  // ---------- The writer follows the table ----------

  lemma WriteHeaderItems(nal: Nal)
    ensures PutHeader([], nal) == Coded(HeaderItems([], nal))
  {
    hide U;
    CodedMore();
  }

  lemma WriteProfileItems(t: Items, r: Profile)
    ensures PutProfile(Coded(t), r) == Coded(ProfileItems(t, r))
  {
    hide U, Ue, Coded;
    CodedMore();
  }

  /** The deltas that the writer chooses. */
  function WrittenDeltas(l: ScalingList, j: nat, last: Int32, next: Int32): seq<Int32>
    requires EntriesWritable(l, j, last, next)
    decreases |l.entries| - j
  {
    if j >= |l.entries| || next == 0 then []
    else
      var next' := NextScale(l, j, last);
      [DeltaScale(next', last)] + WrittenDeltas(l, j + 1, l.entries[j], next')
  }

  lemma {:induction false} RestNotWritten(acc: seq<bool>, l: ScalingList, j: nat, last: Int32)
    ensures PutEntries(acc, l, j, last, 0) == acc
    decreases |l.entries| - j
  {
    if j < |l.entries| {
      RestNotWritten(acc, l, j + 1, l.entries[j]);
    }
  }

  lemma {:induction false} WriteDeltaItems(t: Items, l: ScalingList, j: nat, last: Int32, next: Int32)
    requires EntriesWritable(l, j, last, next)
    ensures PutEntries(Coded(t), l, j, last, next) == Coded(DeltaItems(t, WrittenDeltas(l, j, last, next)))
    decreases |l.entries| - j
  {
    hide Se, Coded, NextScale, DeltaScale;
    CodedMore();
    if next == 0 {
      RestNotWritten(Coded(t), l, j, last);
    } else if j < |l.entries| {
      var next' := NextScale(l, j, last);
      var ds := WrittenDeltas(l, j + 1, l.entries[j], next');
      var delta := DeltaScale(next', last);
      assert ([delta] + ds)[1..] == ds;
      WriteDeltaItems(t + [Signed(delta)], l, j + 1, l.entries[j], next');
      assert Coded(t + [Signed(delta)]) == Coded(t) + Se(delta);
    }
  }

  /** The deltas of list i, none when it is absent. */
  function ListDeltas(l: ScalingList): seq<Int32>
    requires l.present != 0 ==> EntriesWritable(l, 0, 8, 8)
  {
    if l.present != 0 then WrittenDeltas(l, 0, 8, 8) else []
  }

  lemma {:induction false} WriteListItems(t: Items, lists: seq<ScalingList>, deltas: seq<seq<Int32>>, i: nat, n: nat)
    requires n <= |lists| && n <= |deltas|
    requires forall k :: i <= k < n && lists[k].present != 0 ==>
               EntriesWritable(lists[k], 0, 8, 8) && deltas[k] == WrittenDeltas(lists[k], 0, 8, 8)
    ensures PutLists(Coded(t), lists, i, n) == Coded(ListItems(t, lists, deltas, i, n))
    decreases n - i
  {
    hide U, Coded, PutEntries, DeltaItems, WrittenDeltas, EntriesWritable;
    CodedMore();
    if i < n {
      var t1 := t + [Fixed(1, lists[i].present)];
      assert Coded(t1) == Coded(t) + U(1, lists[i].present);
      if lists[i].present != 0 {
        WriteDeltaItems(t1, lists[i], 0, 8, 8);
      }
      WriteListItems(if lists[i].present != 0 then DeltaItems(t1, deltas[i]) else t1, lists, deltas, i + 1, n);
    }
  }

  /** The writer's deltas of a matrix. */
  predicate MatrixDeltas(r: High, deltas: seq<seq<Int32>>) {
    |r.lists| == |deltas| == 12
    && (r.matrixPresentFlag != 0 ==>
          forall k :: 0 <= k < (if r.chromaFormatIdc == 3 then 12 else 8) && r.lists[k].present != 0 ==>
            EntriesWritable(r.lists[k], 0, 8, 8) && deltas[k] == WrittenDeltas(r.lists[k], 0, 8, 8))
  }

  lemma WriteHighItems(t: Items, r: High, deltas: seq<seq<Int32>>)
    requires MatrixDeltas(r, deltas)
    ensures PutHigh(Coded(t), r) == Coded(HighItems(t, r, deltas))
  {
    hide U, Ue, Coded, PutLists, ListItems, WrittenDeltas, EntriesWritable;
    CodedMore();
    if r.matrixPresentFlag != 0 {
      var t1 := t + [Unsigned(r.chromaFormatIdc)];
      var t2 := if r.chromaFormatIdc == 3 then t1 + [Fixed(1, r.residualColourTransformFlag)] else t1;
      var t3 := t2 + [Unsigned(r.bitDepthLumaMinus8)] + [Unsigned(r.bitDepthChromaMinus8)]
                + [Fixed(1, r.qpprimeYZeroTransformBypassFlag)] + [Fixed(1, r.matrixPresentFlag)];
      WriteListItems(t3, r.lists, deltas, 0, if r.chromaFormatIdc == 3 then 12 else 8);
    }
  }

  lemma {:induction false} WriteOffsetItems(t: Items, offsets: seq<Int32>, i: nat, n: Int32)
    requires n <= |offsets|
    ensures PutOffsets(Coded(t), offsets, i, n) == Coded(OffsetItems(t, offsets, i, n))
    decreases n - i
  {
    hide Se, Coded;
    CodedMore();
    if i < n {
      WriteOffsetItems(t + [Signed(offsets[i])], offsets, i + 1, n);
      assert Coded(t + [Signed(offsets[i])]) == Coded(t) + Se(offsets[i]);
    }
  }

  lemma WriteOrderItems(t: Items, r: OrderCount)
    requires r.picOrderCntType == 1 ==> r.numRefFramesInCycle <= |r.offsetForRefFrame|
    ensures PutOrder(Coded(t), r) == Coded(OrderItems(t, r))
  {
    hide U, Ue, Se, Coded, PutOffsets, OffsetItems;
    CodedMore();
    if r.picOrderCntType == 1 {
      WriteOffsetItems(t + [Unsigned(r.log2MaxFrameNumMinus4)] + [Unsigned(r.picOrderCntType)]
                       + [Fixed(1, r.deltaAlwaysZeroFlag)] + [Signed(r.offsetForNonRefPic)]
                       + [Signed(r.offsetForTopToBottomField)] + [Count(r.numRefFramesInCycle, 256)],
                       r.offsetForRefFrame, 0, r.numRefFramesInCycle);
    }
  }

  lemma WriteFrameItems(t: Items, r: Frame)
    ensures PutFrame(Coded(t), r) == Coded(FrameItems(t, r))
  {
    hide U, Ue, Coded;
    CodedMore();
  }

  lemma WriteCropItems(t: Items, r: Crop)
    ensures PutCrop(Coded(t), r) == Coded(CropItems(t, r))
  {
    hide U, Ue, Coded;
    CodedMore();
  }

  lemma {:induction false} WriteSchedItems(t: Items, sched: seq<Sched>, i: nat, last: Int32)
    requires last < |sched|
    ensures PutSched(Coded(t), sched, i, last) == Coded(SchedItems(t, sched, i, last))
    decreases last + 1 - i
  {
    hide U, Ue, Coded;
    CodedMore();
    if i <= last {
      var t1 := t + [Unsigned(sched[i].bitRateValueMinus1)] + [Unsigned(sched[i].cpbSizeValueMinus1)] + [Fixed(1, sched[i].cbrFlag)];
      assert Coded(t1) == Coded(t) + Ue(sched[i].bitRateValueMinus1) + Ue(sched[i].cpbSizeValueMinus1) + U(1, sched[i].cbrFlag);
      WriteSchedItems(t1, sched, i + 1, last);
    }
  }

  lemma WriteHrdItems(t: Items, r: Hrd)
    requires r.cpbCntMinus1 < |r.sched|
    ensures PutHrd(Coded(t), r) == Coded(HrdItems(t, r))
  {
    hide U, Ue, Coded, PutSched, SchedItems;
    CodedMore();
    WriteSchedItems(t + [Count(r.cpbCntMinus1, 31)] + [Fixed(4, r.bitRateScale)] + [Fixed(4, r.cpbSizeScale)],
                    r.sched, 0, r.cpbCntMinus1);
  }

  lemma WriteAspectItems(t: Items, r: Aspect)
    ensures PutAspect(Coded(t), r) == Coded(AspectItems(t, r))
  {
    hide U, Coded;
    CodedMore();
  }

  lemma WriteOverscanItems(t: Items, r: Overscan)
    ensures PutOverscan(Coded(t), r) == Coded(OverscanItems(t, r))
  {
    hide U, Coded;
    CodedMore();
  }

  lemma WriteSignalItems(t: Items, r: Signal)
    ensures PutSignal(Coded(t), r) == Coded(SignalItems(t, r))
  {
    hide U, Coded;
    CodedMore();
  }

  lemma WriteChromaLocItems(t: Items, r: ChromaLoc)
    ensures PutChromaLoc(Coded(t), r) == Coded(ChromaLocItems(t, r))
  {
    hide U, Ue, Coded;
    CodedMore();
  }

  lemma WriteTimingItems(t: Items, r: Timing)
    ensures PutTiming(Coded(t), r) == Coded(TimingItems(t, r))
  {
    hide U, Coded;
    CodedMore();
  }

  lemma WriteHrdPairItems(t: Items, r: HrdPair)
    requires HrdsSized(r)
    ensures PutHrdPair(Coded(t), r) == Coded(HrdPairItems(t, r))
  {
    hide U, Coded, PutHrd, HrdItems;
    CodedMore();
    var t1 := t + [Fixed(1, r.nalPresentFlag)];
    if r.nalPresentFlag != 0 {
      WriteHrdItems(t1, r.nal);
    }
    var t2 := if r.nalPresentFlag != 0 then HrdItems(t1, r.nal) else t1;
    if r.vclPresentFlag != 0 {
      WriteHrdItems(t2 + [Fixed(1, r.vclPresentFlag)], r.vcl);
    }
  }

  lemma WriteRestrictionItems(t: Items, r: Restriction)
    ensures PutRestriction(Coded(t), r) == Coded(RestrictionItems(t, r))
  {
    hide U, Ue, Coded;
    CodedMore();
  }

  lemma WriteVuiItems(t: Items, r: Vui)
    requires HrdsSized(r.hrd)
    ensures PutVui(Coded(t), r) == Coded(VuiItems(t, r))
  {
    hide U, Coded, HrdsSized, PutAspect, PutOverscan, PutSignal, PutChromaLoc, PutTiming, PutHrdPair, PutRestriction,
      AspectItems, OverscanItems, SignalItems, ChromaLocItems, TimingItems, HrdPairItems, RestrictionItems;
    CodedMore();
    var t1 := AspectItems(t, r.aspect);
    var t2 := OverscanItems(t1, r.overscan);
    var t3 := SignalItems(t2, r.signal);
    var t4 := ChromaLocItems(t3, r.chromaLoc);
    var t5 := TimingItems(t4, r.timing);
    var t6 := HrdPairItems(t5, r.hrd);
    WriteAspectItems(t, r.aspect);
    WriteOverscanItems(t1, r.overscan);
    WriteSignalItems(t2, r.signal);
    WriteChromaLocItems(t3, r.chromaLoc);
    WriteTimingItems(t4, r.timing);
    WriteHrdPairItems(t5, r.hrd);
    WriteRestrictionItems(t6 + [Fixed(1, r.picStructPresentFlag)], r.restriction);
  }

  lemma SameProfiles(profileIdc: Int32)
    ensures IsHigh(profileIdc) <==> ChromaProfile(profileIdc)
  {
  }

  lemma WriteSpsItems(t: Items, s: Sps, deltas: seq<seq<Int32>>)
    requires Sized(s) && |deltas| == 12
    requires ChromaProfile(s.profile.profileIdc) ==> MatrixDeltas(s.high, deltas)
    ensures PutSps(Coded(t), s) == Coded(SpsItems(t, s, deltas))
  {
    hide U, Coded, IsHigh, ChromaProfile, HrdsSized, MatrixDeltas,
      PutProfile, PutHigh, PutOrder, PutFrame, PutCrop, PutVui,
      ProfileItems, HighItems, OrderItems, FrameItems, CropItems, VuiItems;
    CodedMore();
    SameProfiles(s.profile.profileIdc);
    var t1 := ProfileItems(t, s.profile);
    var t2 := if ChromaProfile(s.profile.profileIdc) then HighItems(t1, s.high, deltas) else t1;
    var t3 := OrderItems(t2, s.order);
    var t4 := FrameItems(t3, s.frame);
    var t5 := CropItems(t4, s.crop);
    WriteProfileItems(t, s.profile);
    if ChromaProfile(s.profile.profileIdc) {
      WriteHighItems(t1, s.high, deltas);
    }
    WriteOrderItems(t2, s.order);
    WriteFrameItems(t3, s.frame);
    WriteCropItems(t4, s.crop);
    if s.vuiPresentFlag != 0 {
      WriteVuiItems(t5 + [Fixed(1, s.vuiPresentFlag)], s.vui);
    }
  }

  /** A canonical list has the deltas that are written for it. */
  lemma {:induction false} WrittenScaled(l: ScalingList, j: nat, last: Int32, next: Int32)
    requires j <= |l.entries| && EntriesCanonical(l) && EntriesWritable(l, j, last, next)
    requires last == if j == 0 then 8 else l.entries[j - 1]
    requires j == 0 ==> next == 8
    requires next == 0 ==> RestIs(l.entries, j, last)
    requires next != 0 && j > 0 ==> l.useDefault == 0
    ensures ScaledFrom(l.entries, WrittenDeltas(l, j, last, next), j, last, next == 0)
    decreases |l.entries| - j
  {
    hide DeltaScale;
    if j < |l.entries| {
      if next != 0 {
        var next' := NextScale(l, j, last);
        DeltaRoundTrip(next', last);
        var ds := WrittenDeltas(l, j + 1, l.entries[j], next');
        assert ([DeltaScale(next', last)] + ds)[1..] == ds;
        WrittenScaled(l, j + 1, l.entries[j], next');
      } else {
        WrittenScaled(l, j + 1, l.entries[j], 0);
      }
    }
  }

  lemma DefaultScaled(l: ScalingList)
    requires |l.entries| > 0 && EntriesCanonical(l) && EntriesWritable(l, 0, 8, 8)
    ensures var ds := WrittenDeltas(l, 0, 8, 8);
            ds != [] && l.useDefault == if (ds[0] as int + 8 + 256) % 256 == 0 then 1 else 0
  {
  }

  /** The writer follows the table, for everything it can write; the deltas of a canonical list
      make the list. */
  lemma WriterFollows(nal: Nal, s: Sps) returns (deltas: seq<seq<Int32>>)
    requires Writable(s)
    ensures Sized(s) && |deltas| == 12
    ensures RbspBits(nal, s) == PutTrailing(Coded(UnitItems(nal, s, deltas)))
    ensures ChromaProfile(s.profile.profileIdc) && s.high.matrixPresentFlag != 0 ==>
              forall i :: 0 <= i < (if s.high.chromaFormatIdc == 3 then 12 else 8)
                          && s.high.lists[i].present != 0 && EntriesCanonical(s.high.lists[i])
                          ==> Scaled(s.high.lists[i], deltas[i])
  {
    hide PutSps, SpsItems, PutHeader, HeaderItems, Coded, EntriesCanonical, EntriesWritable, WrittenDeltas, ScaledFrom,
      FrameWritable, CropWritable, RestrictionWritable, MayWriteUe, MayWriteSe;
    SameProfiles(s.profile.profileIdc);
    deltas := seq(12, i requires 0 <= i < 12 => []);
    if ChromaProfile(s.profile.profileIdc) && s.high.matrixPresentFlag != 0 {
      deltas := seq(12, i requires 0 <= i < 12 =>
        if s.high.lists[i].present != 0 && EntriesWritable(s.high.lists[i], 0, 8, 8) then WrittenDeltas(s.high.lists[i], 0, 8, 8) else []);
      forall i | 0 <= i < (if s.high.chromaFormatIdc == 3 then 12 else 8)
                 && s.high.lists[i].present != 0 && EntriesCanonical(s.high.lists[i])
        ensures Scaled(s.high.lists[i], deltas[i])
      {
        WrittenScaled(s.high.lists[i], 0, 8, 8);
        DefaultScaled(s.high.lists[i]);
      }
    }
    WriteHeaderItems(nal);
    WriteSpsItems(HeaderItems([], nal), s, deltas);
  }

  // ---------- The reader follows the table ----------

  lemma ReadsNothing(bits: seq<bool>, p: nat)
    ensures Reads(bits, p, []) && End(bits, p, []) == p
  {
  }

  lemma ReadHeaderItems(bits: seq<bool>)
    ensures var (nal, q) := GetHeader(bits, 0);
            Reads(bits, 0, HeaderItems([], nal)) && End(bits, 0, HeaderItems([], nal)) == q
  {
    hide GetU, Reads, End;
    ReadsNothing(bits, 0);
    ReadsMore(bits, 0);
    GetULength(bits);
  }

  lemma ReadProfileItems(bits: seq<bool>, p: nat, t: Items)
    requires Reads(bits, p, t)
    ensures var (r, q) := GetProfile(bits, End(bits, p, t));
            Reads(bits, p, ProfileItems(t, r)) && End(bits, p, ProfileItems(t, r)) == q
  {
    hide GetU, GetUe, Reads, End, IsU, ProfileShape;
    ReadsMore(bits, p);
    GetULength(bits);
  }

  /** The deltas that the reader takes from entry j on. */
  function DeltasAt(bits: seq<bool>, p: nat, size: nat, j: nat, last: Int32, next: Int32): seq<Int32>
    decreases size - j
  {
    if j >= size || next == 0 then []
    else
      var (delta, p') := SeAt(bits, p);
      var next' := Rem256(last + delta + 256);
      [delta] + DeltasAt(bits, p', size, j + 1, if next' == 0 then last else next', next')
  }

  /** The list after the delta for entry j. */
  function WithEntry(m: ScalingList, j: nat, last: Int32, delta: Int32): ScalingList
    requires j < |m.entries|
  {
    var next := Rem256(last + delta + 256);
    m.(entries := m.entries[j := if next == 0 then last else next], useDefault := if j == 0 && next == 0 then 1 else 0)
  }

  lemma EntryAt(bits: seq<bool>, p: nat, m: ScalingList, j: nat, last: Int32, next: Int32)
    requires j < |m.entries|
    ensures var (delta, p') := SeAt(bits, p);
            var next' := Rem256(last + delta + 256);
            var scale: Int32 := if next' == 0 then last else next';
            next != 0 ==>
              GetEntries(bits, p, m, j, last, next) == GetEntries(bits, p', WithEntry(m, j, last, delta), j + 1, scale, next')
              && GetEntries(bits, p, m, j, last, next).0.entries[j] == scale
    ensures var m' := m.(entries := m.entries[j := last]);
            GetEntries(bits, p, m, j, last, 0) == GetEntries(bits, p, m', j + 1, last, 0)
            && GetEntries(bits, p, m, j, last, 0).0.entries[j] == last
  {
    hide SeAt, Rem256;
    if next != 0 {
      EntryRead(bits, p, m, j, last, next);
    }
    var m' := m.(entries := m.entries[j := last]);
    var l := GetEntries(bits, p, m', j + 1, last, 0).0;
    assert l.entries[j] == l.entries[..j + 1][j] == m'.entries[..j + 1][j];
  }

  lemma SameSize(m: ScalingList, j: nat, last: Int32, delta: Int32)
    requires j < |m.entries|
    ensures |WithEntry(m, j, last, delta).entries| == |m.entries|
  {
  }

  lemma NoEntries(bits: seq<bool>, p: nat, m: ScalingList, j: nat, last: Int32, next: Int32)
    requires j >= |m.entries|
    ensures GetEntries(bits, p, m, j, last, next) == (m, p)
  {
  }

  lemma {:induction false} ReadDeltaItems(bits: seq<bool>, p: nat, t: Items, m: ScalingList, j: nat, last: Int32, next: Int32)
    requires j <= |m.entries| && Reads(bits, p, t)
    ensures var ds := DeltasAt(bits, End(bits, p, t), |m.entries|, j, last, next);
            Reads(bits, p, DeltaItems(t, ds))
            && End(bits, p, DeltaItems(t, ds)) == GetEntries(bits, End(bits, p, t), m, j, last, next).1
    decreases |m.entries| - j
  {
    hide SeAt, Reads, End, Rem256, WithEntry, GetEntries;
    var p' := End(bits, p, t);
    if j < |m.entries| {
      EntryAt(bits, p', m, j, last, next);
      if next != 0 {
        var delta := SeAt(bits, p').0;
        var next' := Rem256(last + delta + 256);
        var scale := if next' == 0 then last else next';
        ReadsMore(bits, p);
        assert Reads(bits, p, t + [Signed(delta)]) && End(bits, p, t + [Signed(delta)]) == SeAt(bits, p').1;
        SameSize(m, j, last, delta);
        var ds := DeltasAt(bits, SeAt(bits, p').1, |m.entries|, j + 1, scale, next');
        assert ([delta] + ds)[1..] == ds;
        ReadDeltaItems(bits, p, t + [Signed(delta)], WithEntry(m, j, last, delta), j + 1, scale, next');
      } else {
        ReadDeltaItems(bits, p, t, m.(entries := m.entries[j := last]), j + 1, last, 0);
      }
    } else {
      NoEntries(bits, p', m, j, last, next);
    }
  }

  lemma {:induction false} DeltasScale(bits: seq<bool>, p: nat, m: ScalingList, j: nat, last: Int32, next: Int32)
    requires j <= |m.entries|
    ensures ScaledFrom(GetEntries(bits, p, m, j, last, next).0.entries, DeltasAt(bits, p, |m.entries|, j, last, next), j, last, next == 0)
    decreases |m.entries| - j
  {
    hide SeAt, WithEntry, GetEntries;
    if j < |m.entries| {
      EntryAt(bits, p, m, j, last, next);
      if next != 0 {
        var (delta, p') := SeAt(bits, p);
        var next' := Rem256(last + delta + 256);
        var scale := if next' == 0 then last else next';
        SameSize(m, j, last, delta);
        var ds := DeltasAt(bits, p', |m.entries|, j + 1, scale, next');
        assert ([delta] + ds)[1..] == ds;
        DeltasScale(bits, p', WithEntry(m, j, last, delta), j + 1, scale, next');
      } else {
        DeltasScale(bits, p, m.(entries := m.entries[j := last]), j + 1, last, 0);
      }
    } else {
      NoEntries(bits, p, m, j, last, next);
    }
  }

  /** After the first entry no delta sets the default flag. */
  lemma {:induction false} DefaultKept(bits: seq<bool>, p: nat, m: ScalingList, j: nat, last: Int32, next: Int32)
    requires 0 < j <= |m.entries|
    ensures GetEntries(bits, p, m, j, last, next).0.useDefault == if next != 0 && j < |m.entries| then 0 else m.useDefault
    decreases |m.entries| - j
  {
    hide SeAt, Rem256;
    if j < |m.entries| {
      if next != 0 {
        var (delta, p') := SeAt(bits, p);
        var next' := Rem256(last + delta + 256);
        DefaultKept(bits, p', WithEntry(m, j, last, delta), j + 1, if next' == 0 then last else next', next');
      } else {
        DefaultKept(bits, p, m.(entries := m.entries[j := last]), j + 1, last, 0);
      }
    }
  }

  lemma FirstDelta(bits: seq<bool>, p: nat, size: nat)
    requires size > 0
    ensures var ds := DeltasAt(bits, p, size, 0, 8, 8); ds != [] && ds[0] == SeAt(bits, p).0
  {
    hide SeAt, Rem256;
  }

  lemma DefaultEntry(m: ScalingList, delta: Int32)
    requires |m.entries| > 0
    ensures WithEntry(m, 0, 8, delta).useDefault == if (delta as int + 8 + 256) % 256 == 0 then 1 else 0
    ensures WithEntry(m, 0, 8, delta).useDefault == if Rem256(8 + delta + 256) == 0 then 1 else 0
  {
  }

  /** A list that was read has the deltas that were read for it. */
  lemma ReadScaled(bits: seq<bool>, p: nat, m: ScalingList)
    requires |m.entries| > 0
    ensures Scaled(GetEntries(bits, p, m, 0, 8, 8).0, DeltasAt(bits, p, |m.entries|, 0, 8, 8))
  {
    hide SeAt, ScaledFrom, GetEntries, DeltasAt, WithEntry, Rem256;
    DeltasScale(bits, p, m, 0, 8, 8);
    FirstDelta(bits, p, |m.entries|);
    EntryAt(bits, p, m, 0, 8, 8);
    var (delta, p') := SeAt(bits, p);
    var next' := Rem256(8 + delta + 256);
    SameSize(m, 0, 8, delta);
    DefaultEntry(m, delta);
    DefaultKept(bits, p', WithEntry(m, 0, 8, delta), 1, if next' == 0 then 8 else next', next');
  }

  lemma {:induction false} SameListItems(t: Items, lists: seq<ScalingList>, a: seq<seq<Int32>>, b: seq<seq<Int32>>, i: nat, n: nat)
    requires n <= |lists| && n <= |a| && n <= |b| && forall k :: i <= k < n ==> a[k] == b[k]
    ensures ListItems(t, lists, a, i, n) == ListItems(t, lists, b, i, n)
    decreases n - i
  {
    hide DeltaItems;
    if i < n {
      var t := t + [Fixed(1, lists[i].present)];
      SameListItems(if lists[i].present != 0 then DeltaItems(t, a[i]) else t, lists, a, b, i + 1, n);
    }
  }

  /** The deltas of the lists that were read. */
  predicate ListsScaled(lists: seq<ScalingList>, deltas: seq<seq<Int32>>, i: nat, n: nat) {
    |deltas| == |lists| == 12 && forall k :: i <= k < n <= 12 && lists[k].present != 0 ==> Scaled(lists[k], deltas[k])
  }

  lemma {:induction false} ReadListItems(bits: seq<bool>, p: nat, t: Items, m: seq<ScalingList>, i: nat, n: nat)
    returns (deltas: seq<seq<Int32>>)
    requires i <= n <= 12 && ListsShape(m, i) && Reads(bits, p, t)
    ensures var (lists, q) := GetLists(bits, End(bits, p, t), m, i, n);
            ListsScaled(lists, deltas, i, n)
            && Reads(bits, p, ListItems(t, lists, deltas, i, n)) && End(bits, p, ListItems(t, lists, deltas, i, n)) == q
    decreases n - i
  {
    hide GetU, Reads, End, GetEntries, DeltasAt, DeltaItems, Scaled, IsU, ZeroList;
    deltas := seq(12, k requires 0 <= k < 12 => []);
    if i < n {
      var p0 := End(bits, p, t);
      var (present, p1) := GetU(bits, p0, 1);
      ReadsMore(bits, p);
      GetULength(bits);
      var t1 := t + [Fixed(1, present)];
      assert Reads(bits, p, t1) && End(bits, p, t1) == p1;
      var l0 := ZeroList(i).(present := present);
      var read := if present != 0 then GetEntries(bits, p1, l0, 0, 8, 8) else (l0, p1);
      var ds := DeltasAt(bits, p1, |l0.entries|, 0, 8, 8);
      if present != 0 {
        ZeroListSize(i);
        ReadDeltaItems(bits, p, t1, l0, 0, 8, 8);
        ReadScaled(bits, p1, l0);
      }
      var t2 := if present != 0 then DeltaItems(t1, ds) else t1;
      assert m[i].(present := present) == l0;
      assert present == 0 ==> l0 == ZeroList(i) by { ZeroListAbsent(i); }
      var m' := m[i := read.0];
      var rest := ReadListItems(bits, p, t2, m', i + 1, n);
      deltas := rest[i := ds];
      var lists := GetLists(bits, p0, m, i, n).0;
      assert lists[i] == lists[..i + 1][i] == m'[..i + 1][i] == read.0;
      SameListItems(t2, lists, rest, deltas, i + 1, n);
    }
  }

  lemma NoListsScaled(lists: seq<ScalingList>, deltas: seq<seq<Int32>>)
    requires |lists| == |deltas| == 12
    ensures ListsScaled(lists, deltas, 0, 0)
  {
  }

  lemma ScaledTwelve(lists: seq<ScalingList>, deltas: seq<seq<Int32>>, i: nat, n: nat)
    requires ListsScaled(lists, deltas, i, n)
    ensures |lists| == |deltas| == 12
  {
  }

  lemma ReadHighItems(bits: seq<bool>, p: nat, t: Items) returns (deltas: seq<seq<Int32>>)
    requires Reads(bits, p, t)
    ensures var (r, q) := GetHigh(bits, End(bits, p, t));
            ListsScaled(r.lists, deltas, 0, if r.matrixPresentFlag == 0 then 0 else if r.chromaFormatIdc == 3 then 12 else 8)
            && Reads(bits, p, HighItems(t, r, deltas)) && End(bits, p, HighItems(t, r, deltas)) == q
  {
    hide GetU, GetUe, Reads, End, IsU, ListsShape, GetLists, ListItems, ListsScaled, ZeroLists;
    ReadsMore(bits, p);
    GetULength(bits);
    NoLists(ZeroLists());
    deltas := seq(12, k requires 0 <= k < 12 => []);
    var r := GetHigh(bits, End(bits, p, t)).0;
    var t1 := t + [Unsigned(r.chromaFormatIdc)];
    var t2 := if r.chromaFormatIdc == 3 then t1 + [Fixed(1, r.residualColourTransformFlag)] else t1;
    var t3 := t2 + [Unsigned(r.bitDepthLumaMinus8)] + [Unsigned(r.bitDepthChromaMinus8)]
              + [Fixed(1, r.qpprimeYZeroTransformBypassFlag)] + [Fixed(1, r.matrixPresentFlag)];
    assert Reads(bits, p, t3);
    if r.matrixPresentFlag != 0 {
      deltas := ReadListItems(bits, p, t3, ZeroLists(), 0, if r.chromaFormatIdc == 3 then 12 else 8);
      ScaledTwelve(r.lists, deltas, 0, if r.chromaFormatIdc == 3 then 12 else 8);
    } else {
      NoListsScaled(r.lists, deltas);
    }
  }

  lemma {:induction false} ReadOffsetItems(bits: seq<bool>, p: nat, t: Items, m: seq<Int32>, i: nat, n: Int32)
    requires n <= |m| && Reads(bits, p, t)
    ensures var (offsets, q) := GetOffsets(bits, End(bits, p, t), m, i, n);
            Reads(bits, p, OffsetItems(t, offsets, i, n)) && End(bits, p, OffsetItems(t, offsets, i, n)) == q
    decreases n - i
  {
    hide SeAt, Reads, End;
    ReadsMore(bits, p);
    if i < n {
      var (offset, p') := SeAt(bits, End(bits, p, t));
      assert Reads(bits, p, t + [Signed(offset)]) && End(bits, p, t + [Signed(offset)]) == p';
      ReadOffsetItems(bits, p, t + [Signed(offset)], m[i := offset], i + 1, n);
    }
  }

  lemma ReadOrderItems(bits: seq<bool>, p: nat, t: Items)
    requires Reads(bits, p, t)
    ensures var (r, q) := GetOrder(bits, End(bits, p, t));
            Reads(bits, p, OrderItems(t, r)) && End(bits, p, OrderItems(t, r)) == q
  {
    hide GetU, GetUe, SeAt, Reads, End, IsU, GetOffsets, OffsetItems, Zeros;
    ReadsMore(bits, p);
    GetULength(bits);
    var r := GetOrder(bits, End(bits, p, t)).0;
    if r.picOrderCntType == 1 {
      var t1 := t + [Unsigned(r.log2MaxFrameNumMinus4)] + [Unsigned(r.picOrderCntType)]
                + [Fixed(1, r.deltaAlwaysZeroFlag)] + [Signed(r.offsetForNonRefPic)]
                + [Signed(r.offsetForTopToBottomField)] + [Count(r.numRefFramesInCycle, 256)];
      assert Reads(bits, p, t1);
      ReadOffsetItems(bits, p, t1, Zeros(256), 0, r.numRefFramesInCycle);
    }
  }

  lemma ReadFrameItems(bits: seq<bool>, p: nat, t: Items)
    requires Reads(bits, p, t)
    ensures var (r, q) := GetFrame(bits, End(bits, p, t));
            Reads(bits, p, FrameItems(t, r)) && End(bits, p, FrameItems(t, r)) == q
  {
    hide GetU, GetUe, Reads, End, IsU, FrameShape;
    ReadsMore(bits, p);
    GetULength(bits);
  }

  lemma ReadCropItems(bits: seq<bool>, p: nat, t: Items)
    requires Reads(bits, p, t)
    ensures var (r, q) := GetCrop(bits, End(bits, p, t));
            Reads(bits, p, CropItems(t, r)) && End(bits, p, CropItems(t, r)) == q
  {
    hide GetU, GetUe, Reads, End, IsU, CropShape;
    ReadsMore(bits, p);
    GetULength(bits);
  }

  lemma {:induction false} ReadSchedItems(bits: seq<bool>, p: nat, t: Items, m: seq<Sched>, i: nat, last: Int32)
    requires last < |m| && Reads(bits, p, t)
    ensures var (sched, q) := GetSched(bits, End(bits, p, t), m, i, last);
            Reads(bits, p, SchedItems(t, sched, i, last)) && End(bits, p, SchedItems(t, sched, i, last)) == q
    decreases last + 1 - i
  {
    hide GetU, GetUe, Reads, End, IsU, SchedFields;
    ReadsMore(bits, p);
    GetULength(bits);
    if i <= last {
      var (bitRate, p1) := GetUe(bits, End(bits, p, t));
      var (cpbSize, p2) := GetUe(bits, p1);
      var (cbr, p3) := GetU(bits, p2, 1);
      var t1 := t + [Unsigned(bitRate)] + [Unsigned(cpbSize)] + [Fixed(1, cbr)];
      assert Reads(bits, p, t1) && End(bits, p, t1) == p3;
      ReadSchedItems(bits, p, t1, m[i := Sched(bitRate, cpbSize, cbr)], i + 1, last);
    }
  }

  lemma ReadHrdItems(bits: seq<bool>, p: nat, t: Items)
    requires Reads(bits, p, t)
    ensures var (r, q) := GetHrd(bits, End(bits, p, t));
            Reads(bits, p, HrdItems(t, r)) && End(bits, p, HrdItems(t, r)) == q
  {
    hide GetU, GetUe, Reads, End, IsU, SchedShape, GetSched, SchedItems, ZeroSched;
    ReadsMore(bits, p);
    GetULength(bits);
    var r := GetHrd(bits, End(bits, p, t)).0;
    var t1 := t + [Count(r.cpbCntMinus1, 31)] + [Fixed(4, r.bitRateScale)] + [Fixed(4, r.cpbSizeScale)];
    assert Reads(bits, p, t1);
    ReadSchedItems(bits, p, t1, ZeroSched(), 0, r.cpbCntMinus1);
  }

  lemma ReadAspectItems(bits: seq<bool>, p: nat, t: Items)
    requires Reads(bits, p, t)
    ensures var (r, q) := GetAspect(bits, End(bits, p, t));
            Reads(bits, p, AspectItems(t, r)) && End(bits, p, AspectItems(t, r)) == q
  {
    hide GetU, Reads, End, IsU, AspectShape;
    ReadsMore(bits, p);
    GetULength(bits);
  }

  lemma ReadOverscanItems(bits: seq<bool>, p: nat, t: Items)
    requires Reads(bits, p, t)
    ensures var (r, q) := GetOverscan(bits, End(bits, p, t));
            Reads(bits, p, OverscanItems(t, r)) && End(bits, p, OverscanItems(t, r)) == q
  {
    hide GetU, Reads, End, IsU, OverscanShape;
    ReadsMore(bits, p);
    GetULength(bits);
  }

  lemma ReadSignalItems(bits: seq<bool>, p: nat, t: Items)
    requires Reads(bits, p, t)
    ensures var (r, q) := GetSignal(bits, End(bits, p, t));
            Reads(bits, p, SignalItems(t, r)) && End(bits, p, SignalItems(t, r)) == q
  {
    hide GetU, Reads, End, IsU, SignalShape;
    ReadsMore(bits, p);
    GetULength(bits);
  }

  lemma ReadChromaLocItems(bits: seq<bool>, p: nat, t: Items)
    requires Reads(bits, p, t)
    ensures var (r, q) := GetChromaLoc(bits, End(bits, p, t));
            Reads(bits, p, ChromaLocItems(t, r)) && End(bits, p, ChromaLocItems(t, r)) == q
  {
    hide GetU, GetUe, Reads, End, IsU, ChromaLocShape;
    ReadsMore(bits, p);
    GetULength(bits);
  }

  lemma ReadTimingItems(bits: seq<bool>, p: nat, t: Items)
    requires Reads(bits, p, t)
    ensures var (r, q) := GetTiming(bits, End(bits, p, t));
            Reads(bits, p, TimingItems(t, r)) && End(bits, p, TimingItems(t, r)) == q
  {
    hide GetU, Reads, End, IsU, TimingShape;
    ReadsMore(bits, p);
    GetULength(bits);
  }

  lemma HrdFits(r: Hrd)
    requires HrdShape(r)
    ensures r.cpbCntMinus1 < |r.sched|
  {
  }

  lemma ReadHrdPairItems(bits: seq<bool>, p: nat, t: Items)
    requires Reads(bits, p, t)
    ensures var (r, q) := GetHrdPair(bits, End(bits, p, t));
            HrdsSized(r) && Reads(bits, p, HrdPairItems(t, r)) && End(bits, p, HrdPairItems(t, r)) == q
  {
    hide GetU, Reads, End, IsU, GetHrd, HrdItems, HrdShape, ZeroHrd;
    ReadsMore(bits, p);
    GetULength(bits);
    var r := GetHrdPair(bits, End(bits, p, t)).0;
    var t1 := t + [Fixed(1, r.nalPresentFlag)];
    assert Reads(bits, p, t1);
    if r.nalPresentFlag != 0 {
      HrdFits(r.nal);
      ReadHrdItems(bits, p, t1);
    }
    var t2 := if r.nalPresentFlag != 0 then HrdItems(t1, r.nal) else t1;
    var t3 := t2 + [Fixed(1, r.vclPresentFlag)];
    assert Reads(bits, p, t3);
    if r.vclPresentFlag != 0 {
      HrdFits(r.vcl);
      ReadHrdItems(bits, p, t3);
    }
  }

  lemma ReadRestrictionItems(bits: seq<bool>, p: nat, t: Items)
    requires Reads(bits, p, t)
    ensures var (r, q) := GetRestriction(bits, End(bits, p, t));
            Reads(bits, p, RestrictionItems(t, r)) && End(bits, p, RestrictionItems(t, r)) == q
  {
    hide GetU, GetUe, Reads, End, IsU, RestrictionShape;
    ReadsMore(bits, p);
    GetULength(bits);
  }

  lemma ReadVuiItems(bits: seq<bool>, p: nat, t: Items)
    requires Reads(bits, p, t)
    ensures var (r, q) := GetVui(bits, End(bits, p, t));
            HrdsSized(r.hrd) && Reads(bits, p, VuiItems(t, r)) && End(bits, p, VuiItems(t, r)) == q
  {
    hide GetU, Reads, End, IsU, HrdsSized, VuiShape,
      GetAspect, GetOverscan, GetSignal, GetChromaLoc, GetTiming, GetHrdPair, GetRestriction,
      AspectItems, OverscanItems, SignalItems, ChromaLocItems, TimingItems, HrdPairItems, RestrictionItems;
    ReadsMore(bits, p);
    GetULength(bits);
    var r := GetVui(bits, End(bits, p, t)).0;
    var t1 := AspectItems(t, r.aspect);
    ReadAspectItems(bits, p, t);
    var t2 := OverscanItems(t1, r.overscan);
    ReadOverscanItems(bits, p, t1);
    var t3 := SignalItems(t2, r.signal);
    ReadSignalItems(bits, p, t2);
    var t4 := ChromaLocItems(t3, r.chromaLoc);
    ReadChromaLocItems(bits, p, t3);
    var t5 := TimingItems(t4, r.timing);
    ReadTimingItems(bits, p, t4);
    ReadHrdPairItems(bits, p, t5);
    var t6 := HrdPairItems(t5, r.hrd);
    var t7 := t6 + [Fixed(1, r.picStructPresentFlag)];
    assert Reads(bits, p, t7);
    ReadRestrictionItems(bits, p, t7);
  }

  lemma OrderSized(r: OrderCount)
    requires OrderShape(r)
    ensures r.picOrderCntType == 1 ==> r.numRefFramesInCycle <= |r.offsetForRefFrame|
  {
  }

  /** The SPS s and its deltas are what stands in the rows from p on, behind the rows t. */
  ghost predicate SpsRead(bits: seq<bool>, p: nat, t: Items, s: Sps, deltas: seq<seq<Int32>>, q: nat) {
    Sized(s) && |deltas| == 12
    && (ChromaProfile(s.profile.profileIdc) ==>
          ListsScaled(s.high.lists, deltas, 0,
                      if s.high.matrixPresentFlag == 0 then 0 else if s.high.chromaFormatIdc == 3 then 12 else 8))
    && Reads(bits, p, SpsItems(t, s, deltas)) && End(bits, p, SpsItems(t, s, deltas)) == q
  }

  lemma ReadSpsItems(bits: seq<bool>, p: nat, t: Items) returns (deltas: seq<seq<Int32>>)
    requires Reads(bits, p, t)
    ensures SpsRead(bits, p, t, GetSps(bits, End(bits, p, t)).0, deltas, GetSps(bits, End(bits, p, t)).1)
  {
    hide GetU, Reads, End, IsU, IsHigh, ChromaProfile, HrdsSized, ListsScaled, SpsShape, ZeroHigh, ZeroVui,
      ProfileShape, HighShape, OrderShape, FrameShape, CropShape, VuiShape,
      GetProfile, GetHigh, GetOrder, GetFrame, GetCrop, GetVui,
      ProfileItems, HighItems, OrderItems, FrameItems, CropItems, VuiItems;
    ReadsMore(bits, p);
    GetULength(bits);
    deltas := seq(12, k requires 0 <= k < 12 => []);
    var s := GetSps(bits, End(bits, p, t)).0;
    SameProfiles(s.profile.profileIdc);
    OrderSized(s.order);
    var t1 := ProfileItems(t, s.profile);
    ReadProfileItems(bits, p, t);
    if ChromaProfile(s.profile.profileIdc) {
      deltas := ReadHighItems(bits, p, t1);
      ScaledTwelve(s.high.lists, deltas, 0, if s.high.matrixPresentFlag == 0 then 0 else if s.high.chromaFormatIdc == 3 then 12 else 8);
    }
    var t2 := if ChromaProfile(s.profile.profileIdc) then HighItems(t1, s.high, deltas) else t1;
    var t3 := OrderItems(t2, s.order);
    ReadOrderItems(bits, p, t2);
    var t4 := FrameItems(t3, s.frame);
    ReadFrameItems(bits, p, t3);
    var t5 := CropItems(t4, s.crop);
    ReadCropItems(bits, p, t4);
    var t6 := t5 + [Fixed(1, s.vuiPresentFlag)];
    assert Reads(bits, p, t6);
    if s.vuiPresentFlag != 0 {
      ReadVuiItems(bits, p, t6);
    }
  }

  lemma AbsentHigh(s: Sps)
    requires SpsShape(s)
    ensures !ChromaProfile(s.profile.profileIdc) ==> s.high == High(1, 0, 0, 0, 0, 0, ZeroLists())
  {
  }

  /** The reader follows the table, whatever the bits are: header and SPS that it returns are the
      values of the rows, one behind the other from the first bit to where it stops, the present
      lists are made of the deltas that stand there, and fields without a row are as memset
      left them (and chroma_format_idc is 1). */
  lemma ReaderFollows(bits: seq<bool>) returns (deltas: seq<seq<Int32>>)
    ensures var (nal, p) := GetHeader(bits, 0);
            var (s, q) := GetSps(bits, p);
            SpsRead(bits, 0, HeaderItems([], nal), s, deltas, q)
            && (!ChromaProfile(s.profile.profileIdc) ==> s.high == High(1, 0, 0, 0, 0, 0, ZeroLists()))
  {
    hide GetHeader, HeaderItems, Reads, End, ChromaProfile, SpsRead, GetSps, SpsShape;
    ReadHeaderItems(bits);
    var nal := GetHeader(bits, 0).0;
    deltas := ReadSpsItems(bits, 0, HeaderItems([], nal));
    AbsentHigh(GetSps(bits, GetHeader(bits, 0).1).0);
  }

  /** In particular: after profile, flags, level and id come the chroma format for the twelve
      profiles and log2_max_frame_num_minus4 for every other one. */
  lemma ProfileDecides(bits: seq<bool>, p: nat)
    ensures var s := GetSps(bits, p).0;
            var idEnd := GetUe(bits, p + 24).1;
            if UAt(bits, p, 8) in {44, 83, 86, 100, 110, 118, 122, 128, 134, 138, 139, 244} then
              s.high.chromaFormatIdc == GetUe(bits, idEnd).0
            else
              s.high.chromaFormatIdc == 1 && s.order.log2MaxFrameNumMinus4 == GetUe(bits, idEnd).0
  {
    hide GetUe, UAt, GetFrame, GetCrop, GetVui, GetLists, GetOffsets, IsU, ListsShape;
    UAtBound(bits, p, 8);
    GetUField(bits, p, 8);
  }
}
