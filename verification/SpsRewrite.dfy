/** Writing an SPS back after it was read: the conditions on the bits under which the same bits
    come out again. */
module SpsRewrite {
  import opened Bits
  import opened Codes
  import opened SpsSyntax
  import opened SpsParse
  import opened SpsRoundTrip
  import opened SpsExact

  // ---------- Bits in the form of the writer ----------
  // Each Plain predicate says, for one part of the syntax at a position: every Exp-Golomb code
  // is plain, reserved bits are zero, no count was cut to its array, and the deltas of a scaling
  // list are the ones that the writer chooses for the list that was read.

  predicate PlainProfile(bits: seq<bool>, p: nat) {
    GetU(bits, p + 14, 2).0 == 0 && PlainCode(bits, p + 24)
  }

  /** Entries from j on of the list l that was read. */
  predicate PlainEntries(bits: seq<bool>, p: nat, l: ScalingList, j: nat, last: Int32, next: Int32)
    decreases |l.entries| - j
  {
    j >= |l.entries| || next == 0
    || (var (delta, p') := SeAt(bits, p);
        PlainCode(bits, p) && delta == DeltaScale(NextScale(l, j, last), last)
        && PlainEntries(bits, p', l, j + 1, l.entries[j], Rem256(last + delta + 256)))
  }

  predicate PlainLists(bits: seq<bool>, p: nat, i: nat, n: nat)
    decreases n - i
  {
    i >= n
    || (var (present, p) := GetU(bits, p, 1);
        var (l, p') := if present != 0 then GetEntries(bits, p, ZeroList(i).(present := present), 0, 8, 8) else (ZeroList(i), p);
        (present != 0 ==> PlainEntries(bits, p, l, 0, 8, 8)) && PlainLists(bits, p', i + 1, n))
  }

  predicate PlainHigh(bits: seq<bool>, p: nat) {
    var (chroma, p1) := GetUe(bits, p);
    var p2 := if chroma == 3 then p1 + 1 else p1;
    var p3 := GetUe(bits, p2).1;
    var p4 := GetUe(bits, p3).1;
    PlainCode(bits, p) && PlainCode(bits, p2) && PlainCode(bits, p3)
    && (GetU(bits, p4 + 1, 1).0 != 0 ==> PlainLists(bits, p4 + 2, 0, ListCount(chroma)))
  }

  predicate PlainOffsets(bits: seq<bool>, p: nat, i: nat, n: Int32)
    decreases n - i
  {
    i >= n || (PlainCode(bits, p) && PlainOffsets(bits, SeAt(bits, p).1, i + 1, n))
  }

  predicate PlainCycle(bits: seq<bool>, p: nat) {
    var p1 := SeAt(bits, p).1;
    var p2 := SeAt(bits, p1).1;
    var (count, p3) := GetUe(bits, p2);
    PlainCode(bits, p) && PlainCode(bits, p1) && PlainCode(bits, p2)
    && count <= 256 && PlainOffsets(bits, p3, 0, count)
  }

  predicate PlainOrder(bits: seq<bool>, p: nat) {
    var p1 := GetUe(bits, p).1;
    var (kind, p2) := GetUe(bits, p1);
    PlainCode(bits, p) && PlainCode(bits, p1)
    && (kind == 0 ==> PlainCode(bits, p2))
    && (kind == 1 ==> PlainCycle(bits, p2 + 1))
  }

  /** Two Exp-Golomb codes in a row. */
  predicate PlainPair(bits: seq<bool>, p: nat) {
    PlainCode(bits, p) && PlainCode(bits, GetUe(bits, p).1)
  }

  function AfterPair(bits: seq<bool>, p: nat): nat {
    GetUe(bits, GetUe(bits, p).1).1
  }

  predicate PlainFrame(bits: seq<bool>, p: nat) {
    PlainCode(bits, p) && PlainPair(bits, GetUe(bits, p).1 + 1)
  }

  predicate PlainCrop(bits: seq<bool>, p: nat) {
    GetU(bits, p, 1).0 != 0 ==> PlainPair(bits, p + 1) && PlainPair(bits, AfterPair(bits, p + 1))
  }

  predicate PlainSched(bits: seq<bool>, p: nat, i: nat, last: Int32)
    decreases last + 1 - i
  {
    i > last || (PlainPair(bits, p) && PlainSched(bits, AfterPair(bits, p) + 1, i + 1, last))
  }

  predicate PlainHrd(bits: seq<bool>, p: nat) {
    var (count, p1) := GetUe(bits, p);
    PlainCode(bits, p) && count <= 31 && PlainSched(bits, p1 + 8, 0, count)
  }

  predicate PlainChromaLoc(bits: seq<bool>, p: nat) {
    GetU(bits, p, 1).0 != 0 ==> PlainPair(bits, p + 1)
  }

  predicate PlainHrdPair(bits: seq<bool>, p: nat) {
    var nalFlag := GetU(bits, p, 1).0;
    var p1 := if nalFlag != 0 then GetHrd(bits, p + 1).1 else p + 1;
    (nalFlag != 0 ==> PlainHrd(bits, p + 1)) && (GetU(bits, p1, 1).0 != 0 ==> PlainHrd(bits, p1 + 1))
  }

  predicate PlainRestriction(bits: seq<bool>, p: nat) {
    GetU(bits, p, 1).0 != 0 ==>
      PlainPair(bits, p + 2) && PlainPair(bits, AfterPair(bits, p + 2))
      && PlainPair(bits, AfterPair(bits, AfterPair(bits, p + 2)))
  }

  predicate PlainVui(bits: seq<bool>, p: nat) {
    var p1 := GetSignal(bits, GetOverscan(bits, GetAspect(bits, p).1).1).1;
    var p2 := GetTiming(bits, GetChromaLoc(bits, p1).1).1;
    PlainChromaLoc(bits, p1) && PlainHrdPair(bits, p2) && PlainRestriction(bits, GetHrdPair(bits, p2).1 + 1)
  }

  predicate PlainSps(bits: seq<bool>, p: nat) {
    var (profile, p1) := GetProfile(bits, p);
    var p2 := if IsHigh(profile.profileIdc) then GetHigh(bits, p1).1 else p1;
    var p3 := GetOrder(bits, p2).1;
    var p4 := GetFrame(bits, p3).1;
    var p5 := GetCrop(bits, p4).1;
    PlainProfile(bits, p) && (IsHigh(profile.profileIdc) ==> PlainHigh(bits, p1))
    && PlainOrder(bits, p2) && PlainFrame(bits, p3) && PlainCrop(bits, p4)
    && (GetU(bits, p5, 1).0 != 0 ==> PlainVui(bits, p5 + 1))
  }

  // ---------- Plain bits are written back ----------

  lemma ProfileBack(bits: seq<bool>, acc: seq<bool>)
    requires Agrees(bits, acc) && PlainProfile(bits, |acc|)
    ensures var (r, q) := GetProfile(bits, |acc|);
            Agrees(bits, PutProfile(acc, r)) && |PutProfile(acc, r)| == q
  {
    hide Agrees, PlainCode, U, Ue, Se, GetU, GetUe, SeAt;
    WriteBack(bits);
  }

  /** A fixed-width field ends n bits on. */
  lemma GetULength(bits: seq<bool>)
    ensures forall p: nat, n: nat {:trigger GetU(bits, p, n)} :: n <= 32 ==> GetU(bits, p, n).1 == p + n
  {
  }

  /** When the delta is the writer's, writer and reader agree on the entry and on whether the rest
      is the same. */
  lemma NextAgrees(l: ScalingList, j: nat, last: Int32, delta: int)
    requires j < |l.entries| && 1 <= last <= 255 && delta == DeltaScale(NextScale(l, j, last), last)
    requires var next := Rem256(last + delta + 256); l.entries[j] == if next == 0 then last else next
    ensures NextScale(l, j, last) == Rem256(last + delta + 256) && 1 <= l.entries[j] <= 255
  {
    if NextScale(l, j, last) == 0 {
      DeltaRoundTrip(0, last);
    } else {
      DeltaConverse(l.entries[j], last);
    }
  }

  lemma {:induction false} EntriesBack(bits: seq<bool>, acc: seq<bool>, m: ScalingList, j: nat, last: Int32, next: Int32)
    requires Agrees(bits, acc) && 1 <= last <= 255 && j <= |m.entries|
    requires PlainEntries(bits, |acc|, GetEntries(bits, |acc|, m, j, last, next).0, j, last, next)
    ensures var (l, q) := GetEntries(bits, |acc|, m, j, last, next);
            Agrees(bits, PutEntries(acc, l, j, last, next)) && |PutEntries(acc, l, j, last, next)| == q
    decreases |m.entries| - j
  {
    hide Agrees, PlainCode, U, Ue, Se, GetU, GetUe, SeAt, DeltaScale, Rem256, NextScale;
    if j < |m.entries| {
      var l := GetEntries(bits, |acc|, m, j, last, next).0;
      if next != 0 {
        var delta := SeAt(bits, |acc|).0;
        var next' := Rem256(last + delta + 256);
        var scale := if next' == 0 then last else next';
        var m' := m.(entries := m.entries[j := scale], useDefault := if j == 0 && next' == 0 then 1 else 0);
        WriteBack(bits);
        assert Agrees(bits, acc + Se(delta)) && SeAt(bits, |acc|).1 == |acc + Se(delta)|;
        assert l.entries[j] == l.entries[..j + 1][j] == m'.entries[..j + 1][j];
        NextAgrees(l, j, last, delta);
        EntriesBack(bits, acc + Se(delta), m', j + 1, scale, next');
      } else {
        var m' := m.(entries := m.entries[j := last]);
        assert l.entries[j] == l.entries[..j + 1][j] == m'.entries[..j + 1][j];
        EntriesBack(bits, acc, m', j + 1, last, 0);
      }
    }
  }

  lemma ZeroListAbsent(i: nat)
    ensures ZeroList(i).(present := 0) == ZeroList(i)
  {
  }

  lemma {:induction false} ListsBack(bits: seq<bool>, acc: seq<bool>, m: seq<ScalingList>, i: nat, n: nat)
    requires Agrees(bits, acc) && i <= n <= 12 && ListsShape(m, i) && PlainLists(bits, |acc|, i, n)
    ensures var (lists, q) := GetLists(bits, |acc|, m, i, n);
            Agrees(bits, PutLists(acc, lists, i, n)) && |PutLists(acc, lists, i, n)| == q
    decreases n - i
  {
    hide Agrees, PlainCode, U, Ue, Se, GetU, GetUe, SeAt, PlainEntries, GetEntries, PutEntries, ZeroList;
    if i < n {
      var (present, p) := GetU(bits, |acc|, 1);
      var l0 := ZeroList(i).(present := present);
      var read := if present != 0 then GetEntries(bits, p, l0, 0, 8, 8) else (l0, p);
      var m' := m[i := read.0];
      var lists := GetLists(bits, |acc|, m, i, n).0;
      WriteBack(bits);
      var acc1 := acc + U(1, present);
      assert Agrees(bits, acc1) && |acc1| == p;
      var acc2 := if present != 0 then PutEntries(acc1, read.0, 0, 8, 8) else acc1;
      if present != 0 {
        EntriesBack(bits, acc1, l0, 0, 8, 8);
      }
      assert m[i].(present := present) == l0;
      assert present == 0 ==> l0 == ZeroList(i) by { ZeroListAbsent(i); }
      assert lists[i] == lists[..i + 1][i] == m'[..i + 1][i];
      ListsBack(bits, acc2, m', i + 1, n);
    }
  }

  lemma HighBack(bits: seq<bool>, acc: seq<bool>)
    requires Agrees(bits, acc) && PlainHigh(bits, |acc|)
    ensures var (r, q) := GetHigh(bits, |acc|);
            Agrees(bits, PutHigh(acc, r)) && |PutHigh(acc, r)| == q
  {
    hide Agrees, PlainCode, U, Ue, Se, GetU, GetUe, SeAt, PlainLists, GetLists, PutLists, ZeroLists, ListsShape;
    WriteBack(bits);
    GetULength(bits);
    NoLists(ZeroLists());
    var r := GetHigh(bits, |acc|).0;
    var acc1 := acc + Ue(r.chromaFormatIdc);
    var acc2 := if r.chromaFormatIdc == 3 then acc1 + U(1, r.residualColourTransformFlag) else acc1;
    var acc3 := acc2 + Ue(r.bitDepthLumaMinus8) + Ue(r.bitDepthChromaMinus8)
                + U(1, r.qpprimeYZeroTransformBypassFlag) + U(1, r.matrixPresentFlag);
    if r.matrixPresentFlag != 0 {
      ListsBack(bits, acc3, ZeroLists(), 0, ListCount(r.chromaFormatIdc));
    }
  }

  lemma {:induction false} OffsetsBack(bits: seq<bool>, acc: seq<bool>, m: seq<Int32>, i: nat, n: Int32)
    requires Agrees(bits, acc) && n <= |m| && PlainOffsets(bits, |acc|, i, n)
    ensures var (offsets, q) := GetOffsets(bits, |acc|, m, i, n);
            Agrees(bits, PutOffsets(acc, offsets, i, n)) && |PutOffsets(acc, offsets, i, n)| == q
    decreases n - i
  {
    hide Agrees, PlainCode, U, Ue, Se, GetU, GetUe, SeAt;
    WriteBack(bits);
    if i < n {
      var offset := SeAt(bits, |acc|).0;
      assert Agrees(bits, acc + Se(offset));
      OffsetsBack(bits, acc + Se(offset), m[i := offset], i + 1, n);
    }
  }

  lemma OrderBack(bits: seq<bool>, acc: seq<bool>)
    requires Agrees(bits, acc) && PlainOrder(bits, |acc|)
    ensures var (r, q) := GetOrder(bits, |acc|);
            Agrees(bits, PutOrder(acc, r)) && |PutOrder(acc, r)| == q
  {
    hide Agrees, PlainCode, U, Ue, Se, GetU, GetUe, SeAt, PlainOffsets, GetOffsets, PutOffsets;
    WriteBack(bits);
    GetULength(bits);
    var r := GetOrder(bits, |acc|).0;
    if r.picOrderCntType == 1 {
      OffsetsBack(bits, acc + Ue(r.log2MaxFrameNumMinus4) + Ue(r.picOrderCntType)
                        + U(1, r.deltaAlwaysZeroFlag) + Se(r.offsetForNonRefPic)
                        + Se(r.offsetForTopToBottomField) + Ue(r.numRefFramesInCycle),
                  Zeros(256), 0, r.numRefFramesInCycle);
    }
  }

  lemma FrameBack(bits: seq<bool>, acc: seq<bool>)
    requires Agrees(bits, acc) && PlainFrame(bits, |acc|)
    ensures var (r, q) := GetFrame(bits, |acc|);
            Agrees(bits, PutFrame(acc, r)) && |PutFrame(acc, r)| == q
  {
    hide Agrees, PlainCode, U, Ue, Se, GetU, GetUe, SeAt;
    WriteBack(bits);
    GetULength(bits);
  }

  lemma CropBack(bits: seq<bool>, acc: seq<bool>)
    requires Agrees(bits, acc) && PlainCrop(bits, |acc|)
    ensures var (r, q) := GetCrop(bits, |acc|);
            Agrees(bits, PutCrop(acc, r)) && |PutCrop(acc, r)| == q
  {
    hide Agrees, PlainCode, U, Ue, Se, GetU, GetUe, SeAt;
    WriteBack(bits);
    GetULength(bits);
  }

  lemma {:induction false} SchedBack(bits: seq<bool>, acc: seq<bool>, m: seq<Sched>, i: nat, last: Int32)
    requires Agrees(bits, acc) && last < |m| && PlainSched(bits, |acc|, i, last)
    ensures var (sched, q) := GetSched(bits, |acc|, m, i, last);
            Agrees(bits, PutSched(acc, sched, i, last)) && |PutSched(acc, sched, i, last)| == q
    decreases last + 1 - i
  {
    hide Agrees, PlainCode, U, Ue, Se, GetU, GetUe, SeAt;
    WriteBack(bits);
    GetULength(bits);
    if i <= last {
      var (bitRate, p1) := GetUe(bits, |acc|);
      var (cpbSize, p2) := GetUe(bits, p1);
      var cbr := GetU(bits, p2, 1).0;
      var acc1 := acc + Ue(bitRate) + Ue(cpbSize) + U(1, cbr);
      assert Agrees(bits, acc1) && |acc1| == p2 + 1;
      SchedBack(bits, acc1, m[i := Sched(bitRate, cpbSize, cbr)], i + 1, last);
    }
  }

  lemma HrdBack(bits: seq<bool>, acc: seq<bool>)
    requires Agrees(bits, acc) && PlainHrd(bits, |acc|)
    ensures var (r, q) := GetHrd(bits, |acc|);
            Agrees(bits, PutHrd(acc, r)) && |PutHrd(acc, r)| == q
  {
    hide Agrees, PlainCode, U, Ue, Se, GetU, GetUe, SeAt, PlainSched, GetSched, PutSched;
    WriteBack(bits);
    GetULength(bits);
    var r := GetHrd(bits, |acc|).0;
    SchedBack(bits, acc + Ue(r.cpbCntMinus1) + U(4, r.bitRateScale) + U(4, r.cpbSizeScale), ZeroSched(), 0, r.cpbCntMinus1);
  }

  lemma AspectBack(bits: seq<bool>, acc: seq<bool>)
    requires Agrees(bits, acc)
    ensures var (r, q) := GetAspect(bits, |acc|);
            Agrees(bits, PutAspect(acc, r)) && |PutAspect(acc, r)| == q
  {
    hide Agrees, U, GetU;
    WriteBack(bits);
  }

  lemma OverscanBack(bits: seq<bool>, acc: seq<bool>)
    requires Agrees(bits, acc)
    ensures var (r, q) := GetOverscan(bits, |acc|);
            Agrees(bits, PutOverscan(acc, r)) && |PutOverscan(acc, r)| == q
  {
    hide Agrees, U, GetU;
    WriteBack(bits);
  }

  lemma SignalBack(bits: seq<bool>, acc: seq<bool>)
    requires Agrees(bits, acc)
    ensures var (r, q) := GetSignal(bits, |acc|);
            Agrees(bits, PutSignal(acc, r)) && |PutSignal(acc, r)| == q
  {
    hide Agrees, U, GetU;
    WriteBack(bits);
  }

  lemma ChromaLocBack(bits: seq<bool>, acc: seq<bool>)
    requires Agrees(bits, acc) && PlainChromaLoc(bits, |acc|)
    ensures var (r, q) := GetChromaLoc(bits, |acc|);
            Agrees(bits, PutChromaLoc(acc, r)) && |PutChromaLoc(acc, r)| == q
  {
    hide Agrees, PlainCode, U, Ue, GetU, GetUe;
    WriteBack(bits);
    GetULength(bits);
  }

  lemma TimingBack(bits: seq<bool>, acc: seq<bool>)
    requires Agrees(bits, acc)
    ensures var (r, q) := GetTiming(bits, |acc|);
            Agrees(bits, PutTiming(acc, r)) && |PutTiming(acc, r)| == q
  {
    hide Agrees, U, GetU;
    WriteBack(bits);
  }

  lemma HrdPairBack(bits: seq<bool>, acc: seq<bool>)
    requires Agrees(bits, acc) && PlainHrdPair(bits, |acc|)
    ensures var (r, q) := GetHrdPair(bits, |acc|);
            Agrees(bits, PutHrdPair(acc, r)) && |PutHrdPair(acc, r)| == q
  {
    hide Agrees, U, GetU, PlainHrd, GetHrd, PutHrd;
    WriteBack(bits);
    GetULength(bits);
    var r := GetHrdPair(bits, |acc|).0;
    var acc1 := acc + U(1, r.nalPresentFlag);
    if r.nalPresentFlag != 0 {
      HrdBack(bits, acc1);
    }
    var acc2 := if r.nalPresentFlag != 0 then PutHrd(acc1, r.nal) else acc1;
    if r.vclPresentFlag != 0 {
      HrdBack(bits, acc2 + U(1, r.vclPresentFlag));
    }
  }

  lemma RestrictionBack(bits: seq<bool>, acc: seq<bool>)
    requires Agrees(bits, acc) && PlainRestriction(bits, |acc|)
    ensures var (r, q) := GetRestriction(bits, |acc|);
            Agrees(bits, PutRestriction(acc, r)) && |PutRestriction(acc, r)| == q
  {
    hide Agrees, PlainCode, U, Ue, GetU, GetUe;
    WriteBack(bits);
    GetULength(bits);
  }

  lemma VuiBack(bits: seq<bool>, acc: seq<bool>)
    requires Agrees(bits, acc) && PlainVui(bits, |acc|)
    ensures var (r, q) := GetVui(bits, |acc|);
            Agrees(bits, PutVui(acc, r)) && |PutVui(acc, r)| == q
  {
    hide Agrees, U, GetU, PutAspect, PutOverscan, PutSignal, PutChromaLoc, PutTiming, PutHrdPair, PutRestriction,
      GetAspect, GetOverscan, GetSignal, GetChromaLoc, GetTiming, GetHrdPair, GetRestriction,
      VuiShape, PlainChromaLoc, PlainHrdPair, PlainRestriction;
    var r := GetVui(bits, |acc|).0;
    var acc1 := PutAspect(acc, r.aspect);
    var acc2 := PutOverscan(acc1, r.overscan);
    var acc3 := PutSignal(acc2, r.signal);
    var acc4 := PutChromaLoc(acc3, r.chromaLoc);
    var acc5 := PutTiming(acc4, r.timing);
    var acc6 := PutHrdPair(acc5, r.hrd);
    AspectBack(bits, acc);
    OverscanBack(bits, acc1);
    SignalBack(bits, acc2);
    ChromaLocBack(bits, acc3);
    TimingBack(bits, acc4);
    HrdPairBack(bits, acc5);
    FlagBack(bits, acc6);
    RestrictionBack(bits, acc6 + U(1, r.picStructPresentFlag));
  }

  /** A plain SPS is written back. */
  lemma SpsBack(bits: seq<bool>, acc: seq<bool>)
    requires Agrees(bits, acc) && PlainSps(bits, |acc|)
    ensures var (s, q) := GetSps(bits, |acc|);
            Agrees(bits, PutSps(acc, s)) && |PutSps(acc, s)| == q
  {
    hide Agrees, U, GetU, PutProfile, PutHigh, PutOrder, PutFrame, PutCrop, PutVui, IsHigh,
      GetProfile, GetHigh, GetOrder, GetFrame, GetCrop, GetVui, SpsShape, ZeroHigh, ZeroVui,
      PlainProfile, PlainHigh, PlainOrder, PlainFrame, PlainCrop, PlainVui;
    var s := GetSps(bits, |acc|).0;
    var acc1 := PutProfile(acc, s.profile);
    var acc2 := if IsHigh(s.profile.profileIdc) then PutHigh(acc1, s.high) else acc1;
    var acc3 := PutOrder(acc2, s.order);
    var acc4 := PutFrame(acc3, s.frame);
    var acc5 := PutCrop(acc4, s.crop);
    ProfileBack(bits, acc);
    if IsHigh(s.profile.profileIdc) {
      HighBack(bits, acc1);
    }
    OrderBack(bits, acc2);
    FrameBack(bits, acc3);
    CropBack(bits, acc4);
    FlagBack(bits, acc5);
    if s.vuiPresentFlag != 0 {
      VuiBack(bits, acc5 + U(1, s.vuiPresentFlag));
    }
  }

  // ---------- What the writer writes is plain ----------

  lemma ProfilePlain(bits: seq<bool>, acc: seq<bool>, r: Profile)
    requires Starts(bits, PutProfile(acc, r)) && ProfileShape(r) && MayWriteUe(r.seqParameterSetId)
    ensures PlainProfile(bits, |acc|)
  {
    hide Starts, PlainCode, U, Ue, GetU, GetUe;
    ReadBack(bits);
    WrittenPlain(bits);
    var acc1 := acc + U(8, r.profileIdc)
                + U(1, r.constraintSet0Flag) + U(1, r.constraintSet1Flag) + U(1, r.constraintSet2Flag)
                + U(1, r.constraintSet3Flag) + U(1, r.constraintSet4Flag) + U(1, r.constraintSet5Flag);
    assert |acc1| == |acc| + 14 && |acc1 + U(2, 0) + U(8, r.levelIdc)| == |acc| + 24;
  }

  lemma {:induction false} EntriesPlain(bits: seq<bool>, acc: seq<bool>, l: ScalingList, j: nat, last: Int32, next: Int32)
    requires j <= |l.entries| && EntriesCanonical(l) && 1 <= last <= 255
    requires next != 0 && j > 0 ==> l.useDefault == 0
    requires Starts(bits, PutEntries(acc, l, j, last, next))
    ensures PlainEntries(bits, |acc|, l, j, last, next)
    decreases |l.entries| - j
  {
    hide Starts, PlainCode, U, Ue, Se, GetU, GetUe, SeAt, DeltaScale, Rem256;
    if j < |l.entries| && next != 0 {
      var next' := NextScale(l, j, last);
      DeltaRoundTrip(next', last);
      var acc1 := acc + Se(DeltaScale(next', last));
      PutEntriesExtends(bits, acc1, l, j + 1, l.entries[j], next');
      ReadBack(bits);
      WrittenPlain(bits);
      EntriesPlain(bits, acc1, l, j + 1, l.entries[j], next');
    }
  }

  lemma {:induction false} ListsPlain(bits: seq<bool>, acc: seq<bool>, lists: seq<ScalingList>, i: nat, n: nat)
    requires i <= n <= 12 && ListsShape(lists, n) && ListsCanonical(lists)
    requires Starts(bits, PutLists(acc, lists, i, n))
    ensures PlainLists(bits, |acc|, i, n)
    decreases n - i
  {
    hide Starts, PlainCode, U, Ue, Se, GetU, GetUe, SeAt, PlainEntries, GetEntries, PutEntries, EntriesCanonical;
    if i < n {
      var l := lists[i];
      var acc1 := acc + U(1, l.present);
      var acc2 := if l.present != 0 then PutEntries(acc1, l, 0, 8, 8) else acc1;
      PutListsExtends(bits, acc2, lists, i + 1, n);
      if l.present != 0 {
        EntriesRoundTrip(bits, acc1, l, ZeroList(i).(present := l.present), 0, 8, 8);
        EntriesPlain(bits, acc1, l, 0, 8, 8);
      }
      ReadBack(bits);
      ListsPlain(bits, acc2, lists, i + 1, n);
    }
  }

  lemma HighPlain(bits: seq<bool>, acc: seq<bool>, r: High)
    requires Starts(bits, PutHigh(acc, r)) && HighShape(r) && HighWritable(r) && ListsCanonical(r.lists)
    ensures PlainHigh(bits, |acc|)
  {
    hide Starts, PlainCode, U, Ue, Se, GetU, GetUe, SeAt, PlainLists, PutLists, ListsShape, EntriesWritable, ListsCanonical;
    if r.matrixPresentFlag != 0 {
      var acc1 := acc + Ue(r.chromaFormatIdc);
      var acc2 := if r.chromaFormatIdc == 3 then acc1 + U(1, r.residualColourTransformFlag) else acc1;
      var acc3 := acc2 + Ue(r.bitDepthLumaMinus8) + Ue(r.bitDepthChromaMinus8)
                  + U(1, r.qpprimeYZeroTransformBypassFlag) + U(1, r.matrixPresentFlag);
      PutListsExtends(bits, acc3, r.lists, 0, ListCount(r.chromaFormatIdc));
      ListsPlain(bits, acc3, r.lists, 0, ListCount(r.chromaFormatIdc));
    }
    ReadBack(bits);
    WrittenPlain(bits);
    GetULength(bits);
  }

  lemma {:induction false} OffsetsPlain(bits: seq<bool>, acc: seq<bool>, offsets: seq<Int32>, i: nat, n: Int32)
    requires n <= |offsets| && forall k :: i <= k < n ==> IsSe(offsets[k])
    requires Starts(bits, PutOffsets(acc, offsets, i, n))
    ensures PlainOffsets(bits, |acc|, i, n)
    decreases n - i
  {
    hide Starts, PlainCode, U, Ue, Se, GetU, GetUe, SeAt;
    if i < n {
      PutOffsetsExtends(bits, acc + Se(offsets[i]), offsets, i + 1, n);
      ReadBack(bits);
      WrittenPlain(bits);
      OffsetsPlain(bits, acc + Se(offsets[i]), offsets, i + 1, n);
    }
  }

  lemma OrderPlain(bits: seq<bool>, acc: seq<bool>, r: OrderCount)
    requires Starts(bits, PutOrder(acc, r)) && OrderShape(r) && OrderWritable(r)
    ensures PlainOrder(bits, |acc|)
  {
    hide Starts, PlainCode, U, Ue, Se, GetU, GetUe, SeAt, PlainOffsets, PutOffsets;
    if r.picOrderCntType == 1 {
      var acc1 := acc + Ue(r.log2MaxFrameNumMinus4) + Ue(r.picOrderCntType)
                  + U(1, r.deltaAlwaysZeroFlag) + Se(r.offsetForNonRefPic)
                  + Se(r.offsetForTopToBottomField) + Ue(r.numRefFramesInCycle);
      PutOffsetsExtends(bits, acc1, r.offsetForRefFrame, 0, r.numRefFramesInCycle);
      OffsetsPlain(bits, acc1, r.offsetForRefFrame, 0, r.numRefFramesInCycle);
    }
    ReadBack(bits);
    WrittenPlain(bits);
    GetULength(bits);
  }

  lemma FramePlain(bits: seq<bool>, acc: seq<bool>, r: Frame)
    requires Starts(bits, PutFrame(acc, r)) && FrameShape(r) && FrameWritable(r)
    ensures PlainFrame(bits, |acc|)
  {
    hide Starts, PlainCode, U, Ue, GetU, GetUe;
    ReadBack(bits);
    WrittenPlain(bits);
    GetULength(bits);
  }

  lemma CropPlain(bits: seq<bool>, acc: seq<bool>, r: Crop)
    requires Starts(bits, PutCrop(acc, r)) && CropShape(r) && CropWritable(r)
    ensures PlainCrop(bits, |acc|)
  {
    hide Starts, PlainCode, U, Ue, GetU, GetUe;
    ReadBack(bits);
    WrittenPlain(bits);
    GetULength(bits);
  }

  lemma {:induction false} SchedPlain(bits: seq<bool>, acc: seq<bool>, sched: seq<Sched>, i: nat, last: Int32)
    requires last < |sched| && forall k :: i <= k <= last ==>
               SchedFields(sched[k]) && MayWriteUe(sched[k].bitRateValueMinus1) && MayWriteUe(sched[k].cpbSizeValueMinus1)
    requires Starts(bits, PutSched(acc, sched, i, last))
    ensures PlainSched(bits, |acc|, i, last)
    decreases last + 1 - i
  {
    hide Starts, PlainCode, U, Ue, GetU, GetUe;
    if i <= last {
      var acc1 := acc + Ue(sched[i].bitRateValueMinus1) + Ue(sched[i].cpbSizeValueMinus1) + U(1, sched[i].cbrFlag);
      PutSchedExtends(bits, acc1, sched, i + 1, last);
      ReadBack(bits);
      WrittenPlain(bits);
      GetULength(bits);
      SchedPlain(bits, acc1, sched, i + 1, last);
    }
  }

  lemma HrdPlain(bits: seq<bool>, acc: seq<bool>, r: Hrd)
    requires Starts(bits, PutHrd(acc, r)) && HrdShape(r) && HrdWritable(r)
    ensures PlainHrd(bits, |acc|)
  {
    hide Starts, PlainCode, U, Ue, GetU, GetUe, PlainSched, PutSched;
    var acc1 := acc + Ue(r.cpbCntMinus1) + U(4, r.bitRateScale) + U(4, r.cpbSizeScale);
    ReadBack(bits);
    WrittenPlain(bits);
    GetULength(bits);
    PutSchedExtends(bits, acc1, r.sched, 0, r.cpbCntMinus1);
    SchedPlain(bits, acc1, r.sched, 0, r.cpbCntMinus1);
  }

  lemma ChromaLocPlain(bits: seq<bool>, acc: seq<bool>, r: ChromaLoc)
    requires Starts(bits, PutChromaLoc(acc, r)) && ChromaLocShape(r)
    requires r.presentFlag != 0 ==> MayWriteUe(r.topField) && MayWriteUe(r.bottomField)
    ensures PlainChromaLoc(bits, |acc|)
  {
    hide Starts, PlainCode, U, Ue, GetU, GetUe;
    ReadBack(bits);
    WrittenPlain(bits);
    GetULength(bits);
  }

  lemma HrdPairPlain(bits: seq<bool>, acc: seq<bool>, r: HrdPair)
    requires Starts(bits, PutHrdPair(acc, r)) && HrdPairShape(r)
    requires (r.nalPresentFlag != 0 ==> HrdWritable(r.nal)) && (r.vclPresentFlag != 0 ==> HrdWritable(r.vcl))
    ensures PlainHrdPair(bits, |acc|)
  {
    hide Starts, U, GetU, PlainHrd, PutHrd, GetHrd, HrdShape, HrdWritable;
    ReadBack(bits);
    GetULength(bits);
    var acc1 := acc + U(1, r.nalPresentFlag);
    var acc2 := if r.nalPresentFlag != 0 then PutHrd(acc1, r.nal) else acc1;
    if r.vclPresentFlag != 0 {
      PutHrdExtends(bits, acc2 + U(1, r.vclPresentFlag), r.vcl);
      HrdPlain(bits, acc2 + U(1, r.vclPresentFlag), r.vcl);
    }
    if r.nalPresentFlag != 0 {
      HrdRoundTrip(bits, acc1, r.nal);
      HrdPlain(bits, acc1, r.nal);
    }
  }

  lemma RestrictionPlain(bits: seq<bool>, acc: seq<bool>, r: Restriction)
    requires Starts(bits, PutRestriction(acc, r)) && RestrictionShape(r) && RestrictionWritable(r)
    ensures PlainRestriction(bits, |acc|)
  {
    hide Starts, PlainCode, U, Ue, GetU, GetUe;
    ReadBack(bits);
    WrittenPlain(bits);
    GetULength(bits);
  }

  lemma VuiPlain(bits: seq<bool>, acc: seq<bool>, r: Vui)
    requires Starts(bits, PutVui(acc, r)) && VuiShape(r) && VuiWritable(r)
    ensures PlainVui(bits, |acc|)
  {
    hide Starts, U, GetU, IsU, PutAspect, PutOverscan, PutSignal, PutChromaLoc, PutTiming, PutHrdPair, PutRestriction,
      GetAspect, GetOverscan, GetSignal, GetChromaLoc, GetTiming, GetHrdPair, GetRestriction,
      AspectShape, OverscanShape, SignalShape, ChromaLocShape, TimingShape, HrdPairShape, RestrictionShape,
      RestrictionWritable, HrdWritable, MayWriteUe, PlainChromaLoc, PlainHrdPair, PlainRestriction;
    var acc1 := PutAspect(acc, r.aspect);
    var acc2 := PutOverscan(acc1, r.overscan);
    var acc3 := PutSignal(acc2, r.signal);
    var acc4 := PutChromaLoc(acc3, r.chromaLoc);
    var acc5 := PutTiming(acc4, r.timing);
    var acc6 := PutHrdPair(acc5, r.hrd);
    var acc7 := acc6 + U(1, r.picStructPresentFlag);
    RestrictionPlain(bits, acc7, r.restriction);
    RestrictionRoundTrip(bits, acc7, r.restriction);
    FlagRead(bits, acc6, r.picStructPresentFlag);
    HrdPairPlain(bits, acc5, r.hrd);
    HrdPairRoundTrip(bits, acc5, r.hrd);
    TimingRoundTrip(bits, acc4, r.timing);
    ChromaLocPlain(bits, acc3, r.chromaLoc);
    ChromaLocRoundTrip(bits, acc3, r.chromaLoc);
    SignalRoundTrip(bits, acc2, r.signal);
    OverscanRoundTrip(bits, acc1, r.overscan);
    AspectRoundTrip(bits, acc, r.aspect);
  }

  /** A canonical SPS is written in plain bits. */
  lemma SpsPlain(bits: seq<bool>, acc: seq<bool>, s: Sps)
    requires Starts(bits, PutSps(acc, s)) && Canonical(s)
    ensures PlainSps(bits, |acc|)
  {
    hide Starts, U, GetU, IsU, MayWriteUe, ZeroHigh, ZeroVui, PutProfile, PutHigh, PutOrder, PutFrame, PutCrop, PutVui, IsHigh,
      GetProfile, GetHigh, GetOrder, GetFrame, GetCrop, GetVui, ListsCanonical,
      ProfileShape, HighShape, OrderShape, FrameShape, CropShape, VuiShape,
      HighWritable, OrderWritable, FrameWritable, CropWritable, VuiWritable,
      PlainProfile, PlainHigh, PlainOrder, PlainFrame, PlainCrop, PlainVui;
    var acc1 := PutProfile(acc, s.profile);
    var acc2 := if IsHigh(s.profile.profileIdc) then PutHigh(acc1, s.high) else acc1;
    var acc3 := PutOrder(acc2, s.order);
    var acc4 := PutFrame(acc3, s.frame);
    var acc5 := PutCrop(acc4, s.crop);
    var acc6 := acc5 + U(1, s.vuiPresentFlag);
    if s.vuiPresentFlag != 0 {
      VuiPlain(bits, acc6, s.vui);
      VuiRoundTrip(bits, acc6, s.vui);
    }
    FlagRead(bits, acc5, s.vuiPresentFlag);
    CropPlain(bits, acc4, s.crop);
    CropRoundTrip(bits, acc4, s.crop);
    FramePlain(bits, acc3, s.frame);
    FrameRoundTrip(bits, acc3, s.frame);
    OrderPlain(bits, acc2, s.order);
    OrderRoundTrip(bits, acc2, s.order);
    if IsHigh(s.profile.profileIdc) {
      HighPlain(bits, acc1, s.high);
      HighRoundTrip(bits, acc1, s.high);
    }
    ProfilePlain(bits, acc, s.profile);
    ProfileRoundTrip(bits, acc, s.profile);
  }

  // ---------- Legal deltas ----------

  /** Section 7.4.2.1.1.1 of ITU-T H.264 keeps delta_scale in -128..127. */
  predicate LegalEntries(bits: seq<bool>, p: nat, size: nat, j: nat, last: Int32, next: Int32)
    decreases size - j
  {
    j >= size || next == 0
    || (var (delta, p') := SeAt(bits, p);
        var next' := Rem256(last + delta + 256);
        -128 <= delta <= 127 && LegalEntries(bits, p', size, j + 1, if next' == 0 then last else next', next'))
  }

  predicate LegalLists(bits: seq<bool>, p: nat, i: nat, n: nat)
    decreases n - i
  {
    i >= n
    || (var (present, p) := GetU(bits, p, 1);
        var p' := if present != 0 then GetEntries(bits, p, ZeroList(i).(present := present), 0, 8, 8).1 else p;
        (present != 0 ==> LegalEntries(bits, p, ListSize(i), 0, 8, 8)) && LegalLists(bits, p', i + 1, n))
  }

  predicate LegalHigh(bits: seq<bool>, p: nat) {
    var (chroma, p1) := GetUe(bits, p);
    var p2 := if chroma == 3 then p1 + 1 else p1;
    var p3 := AfterPair(bits, p2);
    GetU(bits, p3 + 1, 1).0 != 0 ==> LegalLists(bits, p3 + 2, 0, ListCount(chroma))
  }

  predicate LegalSps(bits: seq<bool>, p: nat) {
    var (profile, p) := GetProfile(bits, p);
    IsHigh(profile.profileIdc) ==> LegalHigh(bits, p)
  }

  /** Whatever the deltas are, no entry that is read is 0 or leaves -255..255. */
  lemma {:induction false} EntriesBounded(bits: seq<bool>, p: nat, m: ScalingList, j: nat, last: Int32, next: Int32)
    requires j <= |m.entries| && last != 0 && -255 <= last <= 255
    ensures var l := GetEntries(bits, p, m, j, last, next).0;
            forall k :: j <= k < |m.entries| ==> l.entries[k] != 0 && -255 <= l.entries[k] <= 255
    decreases |m.entries| - j
  {
    hide SeAt, Rem256;
    if next == 0 {
      RestCopied(bits, p, m, j, last);
    } else if j < |m.entries| {
      var (delta, p') := SeAt(bits, p);
      var next' := Rem256(last + delta + 256);
      var scale := if next' == 0 then last else next';
      var m' := m.(entries := m.entries[j := scale], useDefault := if j == 0 && next' == 0 then 1 else 0);
      EntriesBounded(bits, p', m', j + 1, scale, next');
      var l := GetEntries(bits, p, m, j, last, next).0;
      assert l == GetEntries(bits, p', m', j + 1, scale, next').0;
      assert l.entries[j] == l.entries[..j + 1][j] == m'.entries[..j + 1][j];
    }
  }

  lemma {:induction false} EntriesLegal(bits: seq<bool>, p: nat, m: ScalingList, j: nat, last: Int32, next: Int32)
    requires j <= |m.entries| && 1 <= last <= 255 && LegalEntries(bits, p, |m.entries|, j, last, next)
    ensures var l := GetEntries(bits, p, m, j, last, next).0;
            (forall k :: j <= k < |m.entries| ==> 1 <= l.entries[k] <= 255)
            && (next == 0 ==> forall k :: j <= k < |m.entries| ==> l.entries[k] == last)
            && (next == 0 || j == |m.entries| ==> l.useDefault == m.useDefault)
            && (next != 0 && 0 < j < |m.entries| ==> l.useDefault == 0)
            && (next != 0 && 0 == j < |m.entries| && last == 8 ==> EntriesCanonical(l))
    decreases |m.entries| - j
  {
    hide SeAt;
    if next == 0 {
      RestCopied(bits, p, m, j, last);
    } else if j < |m.entries| {
      var (delta, p') := SeAt(bits, p);
      var next' := Rem256(last + delta + 256);
      var scale := if next' == 0 then last else next';
      var m' := m.(entries := m.entries[j := scale], useDefault := if j == 0 && next' == 0 then 1 else 0);
      EntriesLegal(bits, p', m', j + 1, scale, next');
      var l := GetEntries(bits, p, m, j, last, next).0;
      assert l.entries[j] == l.entries[..j + 1][j] == m'.entries[..j + 1][j];
    }
  }

  lemma ZeroListSize(i: nat)
    ensures |ZeroList(i).entries| == ListSize(i) > 0
  {
  }

  lemma ZeroListsAbsent()
    ensures forall i :: ZeroList(i).present == 0
  {
  }

  lemma {:induction false} ListsLegal(bits: seq<bool>, p: nat, m: seq<ScalingList>, i: nat, n: nat)
    requires i <= n <= 12 && ListsShape(m, i) && LegalLists(bits, p, i, n)
    requires forall k :: 0 <= k < i && m[k].present != 0 ==> EntriesCanonical(m[k])
    ensures ListsCanonical(GetLists(bits, p, m, i, n).0)
    decreases n - i
  {
    hide GetU, LegalEntries, GetEntries, EntriesCanonical, ZeroList;
    if i < n {
      var (present, p1) := GetU(bits, p, 1);
      var l0 := ZeroList(i).(present := present);
      var read := if present != 0 then GetEntries(bits, p1, l0, 0, 8, 8) else (l0, p1);
      if present != 0 {
        ZeroListSize(i);
        EntriesLegal(bits, p1, l0, 0, 8, 8);
      }
      assert m[i].(present := present) == l0;
      assert present == 0 ==> l0 == ZeroList(i) by { ZeroListAbsent(i); }
      ListsLegal(bits, read.1, m[i := read.0], i + 1, n);
    } else {
      ZeroListsAbsent();
    }
  }

  lemma ZeroListsCanonical()
    ensures ListsCanonical(ZeroLists())
  {
  }

  lemma HighLegal(bits: seq<bool>, p: nat)
    requires LegalHigh(bits, p)
    ensures ListsCanonical(GetHigh(bits, p).0.lists)
  {
    hide GetU, GetUe, LegalLists, GetLists, ZeroLists, EntriesCanonical;
    NoLists(ZeroLists());
    GetULength(bits);
    var r := GetHigh(bits, p).0;
    if r.matrixPresentFlag != 0 {
      var (chroma, p1) := GetUe(bits, p);
      var p2 := if chroma == 3 then p1 + 1 else p1;
      ListsLegal(bits, AfterPair(bits, p2) + 2, ZeroLists(), 0, ListCount(chroma));
    } else {
      ZeroListsCanonical();
    }
  }

  /** An SPS that was read with legal deltas and can be written is canonical. */
  lemma LegalCanonical(bits: seq<bool>, p: nat)
    requires LegalSps(bits, p) && Writable(GetSps(bits, p).0)
    ensures Canonical(GetSps(bits, p).0)
  {
    hide GetProfile, GetHigh, GetOrder, GetFrame, GetCrop, GetVui, GetU, LegalHigh, ListsCanonical, SpsShape, Writable, IsHigh;
    var (profile, p1) := GetProfile(bits, p);
    if IsHigh(profile.profileIdc) {
      HighLegal(bits, p1);
    } else {
      ZeroListsCanonical();
    }
  }
}
