/** Reading back what was written: for each part of the syntax, and for the whole SPS. */
module SpsRoundTrip {
  import opened Bits
  import opened Codes
  import opened SpsSyntax
  import opened SpsParse

  /** A scaling list that the standard allows: entries in 1..255, or the default list, whose
      entries the reader leaves at 8. */
  predicate EntriesCanonical(l: ScalingList) {
    if l.useDefault == 1 then forall k :: 0 <= k < |l.entries| ==> l.entries[k] == 8
    else l.useDefault == 0 && forall k :: 0 <= k < |l.entries| ==> 1 <= l.entries[k] <= 255
  }

  predicate ListsCanonical(lists: seq<ScalingList>) {
    forall i :: 0 <= i < |lists| && lists[i].present != 0 ==> EntriesCanonical(lists[i])
  }

  /** An SPS that can be written and has nothing in it that the syntax does not carry. */
  predicate Canonical(s: Sps) {
    SpsShape(s) && Writable(s) && ListsCanonical(s.high.lists)
  }

  lemma ProfileRoundTrip(bits: seq<bool>, acc: seq<bool>, r: Profile)
    requires Starts(bits, PutProfile(acc, r)) && ProfileShape(r) && MayWriteUe(r.seqParameterSetId)
    ensures Starts(bits, acc) && GetProfile(bits, |acc|) == (r, |PutProfile(acc, r)|)
  {
    hide Starts, At, U, Ue, Se, GetU, GetUe, SeAt;
    ReadBack(bits);
  }

  /** The deltas of a list with entries in 1..255 (or 0 for "the rest is the same") are in
      the range of the standard, and the reader's arithmetic modulo 256 undoes the fold. */
  lemma DeltaRoundTrip(next: Int32, last: Int32)
    requires 0 <= next <= 255 && 1 <= last <= 255
    ensures -128 <= DeltaScale(next, last) <= 127
    ensures Rem256(last + DeltaScale(next, last) + 256) == next
  {
  }

  /** Entries from j on, when the reader holds the entries before j and both sides agree on
      lastScale and on whether nextScale is 0. */
  lemma {:induction false} EntriesRoundTrip(bits: seq<bool>, acc: seq<bool>, l: ScalingList, m: ScalingList, j: nat, last: Int32, next: Int32)
    requires j <= |l.entries| == |m.entries| && |l.entries| > 0 && EntriesCanonical(l)
    requires m.present == l.present && m.entries[..j] == l.entries[..j]
    requires last == if j == 0 then 8 else l.entries[j - 1]
    requires j == 0 ==> next == 8
    requires j > 0 ==> m.useDefault == l.useDefault
    requires next == 0 ==> RestIs(l.entries, j, last)
    requires next != 0 && j > 0 ==> l.useDefault == 0
    requires Starts(bits, PutEntries(acc, l, j, last, next))
    ensures Starts(bits, acc)
    ensures GetEntries(bits, |acc|, m, j, last, next) == (l, |PutEntries(acc, l, j, last, next)|)
    decreases |l.entries| - j
  {
    hide Starts, At, U, Ue, Se, GetU, GetUe, SeAt, DeltaScale, Rem256;
    if j == |l.entries| {
      assert m.entries == m.entries[..j] == l.entries;
    } else {
      var m' := m.(entries := m.entries[j := l.entries[j]]);
      assert m'.entries[..j + 1] == l.entries[..j + 1];
      if next != 0 {
        var next' := NextScale(l, j, last);
        DeltaRoundTrip(next', last);
        EntriesRoundTrip(bits, acc + Se(DeltaScale(next', last)), l, m'.(useDefault := l.useDefault), j + 1, l.entries[j], next');
        ReadBack(bits);
      } else {
        EntriesRoundTrip(bits, acc, l, m', j + 1, l.entries[j], 0);
      }
    }
  }

  lemma {:induction false} ListsRoundTrip(bits: seq<bool>, acc: seq<bool>, lists: seq<ScalingList>, m: seq<ScalingList>, i: nat, n: nat)
    requires i <= n <= 12 && ListsShape(lists, n) && ListsShape(m, i) && ListsCanonical(lists)
    requires m[..i] == lists[..i]
    requires Starts(bits, PutLists(acc, lists, i, n))
    ensures Starts(bits, acc) && GetLists(bits, |acc|, m, i, n) == (lists, |PutLists(acc, lists, i, n)|)
    decreases n - i
  {
    hide Starts, At, U, Ue, Se, GetU, GetUe, SeAt;
    ReadBack(bits);
    if i == n {
      assert m == lists;
    } else {
      var l := lists[i];
      var acc1 := acc + U(1, l.present);
      var acc2 := if l.present != 0 then PutEntries(acc1, l, 0, 8, 8) else acc1;
      var m' := m[i := l];
      assert m'[..i + 1] == lists[..i + 1];
      ListsRoundTrip(bits, acc2, lists, m', i + 1, n);
      if l.present != 0 {
        EntriesRoundTrip(bits, acc1, l, m[i].(present := l.present), 0, 8, 8);
      }
    }
  }

  lemma NoLists(lists: seq<ScalingList>)
    ensures ListsShape(ZeroLists(), 0)
    ensures ListsShape(lists, 0) ==> lists == ZeroLists()
  {
  }

  lemma HighRoundTrip(bits: seq<bool>, acc: seq<bool>, r: High)
    requires Starts(bits, PutHigh(acc, r)) && HighShape(r) && HighWritable(r) && ListsCanonical(r.lists)
    ensures Starts(bits, acc) && GetHigh(bits, |acc|) == (r, |PutHigh(acc, r)|)
  {
    hide Starts, At, U, Ue, Se, GetU, GetUe, SeAt;
    ReadBack(bits);
    hide PutLists, GetLists, ZeroLists, ListsShape, EntriesWritable, ListsCanonical;
    NoLists(r.lists);
    if r.matrixPresentFlag != 0 {
      var acc1 := acc + Ue(r.chromaFormatIdc);
      var acc2 := if r.chromaFormatIdc == 3 then acc1 + U(1, r.residualColourTransformFlag) else acc1;
      var acc3 := acc2 + Ue(r.bitDepthLumaMinus8) + Ue(r.bitDepthChromaMinus8)
                  + U(1, r.qpprimeYZeroTransformBypassFlag) + U(1, r.matrixPresentFlag);
      ListsRoundTrip(bits, acc3, r.lists, ZeroLists(), 0, ListCount(r.chromaFormatIdc));
    }
  }

  lemma {:induction false} OffsetsRoundTrip(bits: seq<bool>, acc: seq<bool>, offsets: seq<Int32>, m: seq<Int32>, i: nat, n: Int32)
    requires |m| == |offsets| && i <= n <= |offsets|
    requires m[..i] == offsets[..i] && m[n..] == offsets[n..]
    requires forall k :: i <= k < n ==> IsSe(offsets[k])
    requires Starts(bits, PutOffsets(acc, offsets, i, n))
    ensures Starts(bits, acc) && GetOffsets(bits, |acc|, m, i, n) == (offsets, |PutOffsets(acc, offsets, i, n)|)
    decreases n - i
  {
    hide Starts, At, U, Ue, Se, GetU, GetUe, SeAt;
    if i == n {
      assert m == m[..i] + m[n..] == offsets;
    } else {
      var m' := m[i := offsets[i]];
      assert m'[..i + 1] == offsets[..i + 1] && m'[n..] == m[n..];
      OffsetsRoundTrip(bits, acc + Se(offsets[i]), offsets, m', i + 1, n);
      ReadBack(bits);
    }
  }

  lemma OrderRoundTrip(bits: seq<bool>, acc: seq<bool>, r: OrderCount)
    requires Starts(bits, PutOrder(acc, r)) && OrderShape(r) && OrderWritable(r)
    ensures Starts(bits, acc) && GetOrder(bits, |acc|) == (r, |PutOrder(acc, r)|)
  {
    hide Starts, At, U, Ue, Se, GetU, GetUe, SeAt;
    ReadBack(bits);
    if r.picOrderCntType == 1 {
      var acc1 := acc + Ue(r.log2MaxFrameNumMinus4) + Ue(r.picOrderCntType)
                  + U(1, r.deltaAlwaysZeroFlag) + Se(r.offsetForNonRefPic)
                  + Se(r.offsetForTopToBottomField) + Ue(r.numRefFramesInCycle);
      assert Zeros(256)[r.numRefFramesInCycle..] == r.offsetForRefFrame[r.numRefFramesInCycle..];
      OffsetsRoundTrip(bits, acc1, r.offsetForRefFrame, Zeros(256), 0, r.numRefFramesInCycle);
    }
  }

  lemma FrameRoundTrip(bits: seq<bool>, acc: seq<bool>, r: Frame)
    requires Starts(bits, PutFrame(acc, r)) && FrameShape(r) && FrameWritable(r)
    ensures Starts(bits, acc) && GetFrame(bits, |acc|) == (r, |PutFrame(acc, r)|)
  {
    hide Starts, At, U, Ue, Se, GetU, GetUe, SeAt;
    ReadBack(bits);
  }

  lemma CropRoundTrip(bits: seq<bool>, acc: seq<bool>, r: Crop)
    requires Starts(bits, PutCrop(acc, r)) && CropShape(r) && CropWritable(r)
    ensures Starts(bits, acc) && GetCrop(bits, |acc|) == (r, |PutCrop(acc, r)|)
  {
    hide Starts, At, U, Ue, Se, GetU, GetUe, SeAt;
    ReadBack(bits);
  }

  lemma {:induction false} SchedRoundTrip(bits: seq<bool>, acc: seq<bool>, sched: seq<Sched>, m: seq<Sched>, i: nat, last: Int32)
    requires |m| == |sched| && i <= last + 1 <= |sched|
    requires m[..i] == sched[..i] && m[last + 1..] == sched[last + 1..]
    requires forall k :: i <= k <= last ==>
               IsUe(sched[k].bitRateValueMinus1) && IsUe(sched[k].cpbSizeValueMinus1) && IsU(1, sched[k].cbrFlag)
    requires Starts(bits, PutSched(acc, sched, i, last))
    ensures Starts(bits, acc) && GetSched(bits, |acc|, m, i, last) == (sched, |PutSched(acc, sched, i, last)|)
    decreases last + 1 - i
  {
    hide Starts, At, U, Ue, Se, GetU, GetUe, SeAt;
    if i > last {
      assert m == m[..i] + m[last + 1..] == sched;
    } else {
      var m' := m[i := sched[i]];
      assert m'[..i + 1] == sched[..i + 1] && m'[last + 1..] == m[last + 1..];
      var acc1 := acc + Ue(sched[i].bitRateValueMinus1) + Ue(sched[i].cpbSizeValueMinus1) + U(1, sched[i].cbrFlag);
      SchedRoundTrip(bits, acc1, sched, m', i + 1, last);
      ReadBack(bits);
    }
  }

  lemma HrdRoundTrip(bits: seq<bool>, acc: seq<bool>, r: Hrd)
    requires Starts(bits, PutHrd(acc, r)) && HrdShape(r) && HrdWritable(r)
    ensures Starts(bits, acc) && GetHrd(bits, |acc|) == (r, |PutHrd(acc, r)|)
  {
    hide Starts, At, U, Ue, Se, GetU, GetUe, SeAt;
    ReadBack(bits);
    var acc1 := acc + Ue(r.cpbCntMinus1) + U(4, r.bitRateScale) + U(4, r.cpbSizeScale);
    assert ZeroSched()[r.cpbCntMinus1 + 1..] == r.sched[r.cpbCntMinus1 + 1..];
    SchedRoundTrip(bits, acc1, r.sched, ZeroSched(), 0, r.cpbCntMinus1);
  }

  lemma AspectRoundTrip(bits: seq<bool>, acc: seq<bool>, r: Aspect)
    requires Starts(bits, PutAspect(acc, r)) && AspectShape(r)
    ensures Starts(bits, acc) && GetAspect(bits, |acc|) == (r, |PutAspect(acc, r)|)
  {
    hide Starts, At, U, Ue, Se, GetU, GetUe, SeAt;
    ReadBack(bits);
  }

  lemma OverscanRoundTrip(bits: seq<bool>, acc: seq<bool>, r: Overscan)
    requires Starts(bits, PutOverscan(acc, r)) && OverscanShape(r)
    ensures Starts(bits, acc) && GetOverscan(bits, |acc|) == (r, |PutOverscan(acc, r)|)
  {
    hide Starts, At, U, Ue, Se, GetU, GetUe, SeAt;
    ReadBack(bits);
  }

  lemma SignalRoundTrip(bits: seq<bool>, acc: seq<bool>, r: Signal)
    requires Starts(bits, PutSignal(acc, r)) && SignalShape(r)
    ensures Starts(bits, acc) && GetSignal(bits, |acc|) == (r, |PutSignal(acc, r)|)
  {
    hide Starts, At, U, Ue, Se, GetU, GetUe, SeAt;
    ReadBack(bits);
  }

  lemma ChromaLocRoundTrip(bits: seq<bool>, acc: seq<bool>, r: ChromaLoc)
    requires Starts(bits, PutChromaLoc(acc, r)) && ChromaLocShape(r)
             && (r.presentFlag != 0 ==> MayWriteUe(r.topField) && MayWriteUe(r.bottomField))
    ensures Starts(bits, acc) && GetChromaLoc(bits, |acc|) == (r, |PutChromaLoc(acc, r)|)
  {
    hide Starts, At, U, Ue, Se, GetU, GetUe, SeAt;
    ReadBack(bits);
  }

  lemma TimingRoundTrip(bits: seq<bool>, acc: seq<bool>, r: Timing)
    requires Starts(bits, PutTiming(acc, r)) && TimingShape(r)
    ensures Starts(bits, acc) && GetTiming(bits, |acc|) == (r, |PutTiming(acc, r)|)
  {
    hide Starts, At, U, Ue, Se, GetU, GetUe, SeAt;
    ReadBack(bits);
  }

  lemma HrdPairRoundTrip(bits: seq<bool>, acc: seq<bool>, r: HrdPair)
    requires Starts(bits, PutHrdPair(acc, r)) && HrdPairShape(r)
             && (r.nalPresentFlag != 0 ==> HrdWritable(r.nal)) && (r.vclPresentFlag != 0 ==> HrdWritable(r.vcl))
    ensures Starts(bits, acc) && GetHrdPair(bits, |acc|) == (r, |PutHrdPair(acc, r)|)
  {
    hide Starts, At, U, Ue, Se, GetU, GetUe, SeAt;
    ReadBack(bits);
    var acc1 := acc + U(1, r.nalPresentFlag);
    var acc2 := if r.nalPresentFlag != 0 then PutHrd(acc1, r.nal) else acc1;
    var acc3 := acc2 + U(1, r.vclPresentFlag);
    if r.vclPresentFlag != 0 {
      HrdRoundTrip(bits, acc3, r.vcl);
    }
    if r.nalPresentFlag != 0 {
      HrdRoundTrip(bits, acc1, r.nal);
    }
  }

  lemma RestrictionRoundTrip(bits: seq<bool>, acc: seq<bool>, r: Restriction)
    requires Starts(bits, PutRestriction(acc, r)) && RestrictionShape(r) && RestrictionWritable(r)
    ensures Starts(bits, acc) && GetRestriction(bits, |acc|) == (r, |PutRestriction(acc, r)|)
  {
    hide Starts, At, U, Ue, Se, GetU, GetUe, SeAt;
    ReadBack(bits);
  }

  lemma VuiRoundTrip(bits: seq<bool>, acc: seq<bool>, r: Vui)
    requires Starts(bits, PutVui(acc, r)) && VuiShape(r) && VuiWritable(r)
    ensures Starts(bits, acc) && GetVui(bits, |acc|) == (r, |PutVui(acc, r)|)
  {
    hide Starts, U, GetU, IsU, PutAspect, PutOverscan, PutSignal, PutChromaLoc, PutTiming, PutHrdPair, PutRestriction,
      GetAspect, GetOverscan, GetSignal, GetChromaLoc, GetTiming, GetHrdPair, GetRestriction,
      AspectShape, OverscanShape, SignalShape, ChromaLocShape, TimingShape, HrdPairShape, RestrictionShape,
      RestrictionWritable, HrdWritable, MayWriteUe;
    var acc1 := PutAspect(acc, r.aspect);
    var acc2 := PutOverscan(acc1, r.overscan);
    var acc3 := PutSignal(acc2, r.signal);
    var acc4 := PutChromaLoc(acc3, r.chromaLoc);
    var acc5 := PutTiming(acc4, r.timing);
    var acc6 := PutHrdPair(acc5, r.hrd);
    RestrictionRoundTrip(bits, acc6 + U(1, r.picStructPresentFlag), r.restriction);
    FlagRead(bits, acc6, r.picStructPresentFlag);
    HrdPairRoundTrip(bits, acc5, r.hrd);
    TimingRoundTrip(bits, acc4, r.timing);
    ChromaLocRoundTrip(bits, acc3, r.chromaLoc);
    SignalRoundTrip(bits, acc2, r.signal);
    OverscanRoundTrip(bits, acc1, r.overscan);
    AspectRoundTrip(bits, acc, r.aspect);
  }

  /** The SPS that was written is the SPS that is read, through every optional branch. */
  lemma SpsReadBack(bits: seq<bool>, acc: seq<bool>, s: Sps)
    requires Starts(bits, PutSps(acc, s)) && Canonical(s)
    ensures Starts(bits, acc) && GetSps(bits, |acc|) == (s, |PutSps(acc, s)|)
  {
    hide Starts, U, GetU, IsU, MayWriteUe, ZeroHigh, ZeroVui, IsHigh, ListsCanonical,
      PutProfile, PutHigh, PutOrder, PutFrame, PutCrop, PutVui, GetProfile, GetHigh, GetOrder, GetFrame, GetCrop, GetVui,
      ProfileShape, HighShape, OrderShape, FrameShape, CropShape, VuiShape,
      HighWritable, OrderWritable, FrameWritable, CropWritable, VuiWritable;
    var acc1 := PutProfile(acc, s.profile);
    var acc2 := if IsHigh(s.profile.profileIdc) then PutHigh(acc1, s.high) else acc1;
    var acc3 := PutOrder(acc2, s.order);
    var acc4 := PutFrame(acc3, s.frame);
    var acc5 := PutCrop(acc4, s.crop);
    var acc6 := acc5 + U(1, s.vuiPresentFlag);
    if s.vuiPresentFlag != 0 {
      VuiRoundTrip(bits, acc6, s.vui);
    }
    FlagRead(bits, acc5, s.vuiPresentFlag);
    CropRoundTrip(bits, acc4, s.crop);
    FrameRoundTrip(bits, acc3, s.frame);
    OrderRoundTrip(bits, acc2, s.order);
    if IsHigh(s.profile.profileIdc) {
      HighRoundTrip(bits, acc1, s.high);
    }
    ProfileRoundTrip(bits, acc, s.profile);
  }
}
