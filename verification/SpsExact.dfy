/** The other direction: an SPS that is read back unchanged is canonical. */
module SpsExact {
  import opened Bits
  import opened Codes
  import opened SpsSyntax
  import opened SpsParse
  import opened SpsRoundTrip

  /** What starts with a concatenation starts with its first part. */
  lemma Prefixes(bits: seq<bool>)
    ensures forall a, e {:trigger Starts(bits, a + e)} :: Starts(bits, a + e) ==> Starts(bits, a)
  {
    forall a, e | Starts(bits, a + e) ensures Starts(bits, a) {
      StartsSplit(bits, a, e);
    }
  }

  lemma {:induction false} PutEntriesExtends(bits: seq<bool>, acc: seq<bool>, l: ScalingList, j: nat, last: Int32, next: Int32)
    requires Starts(bits, PutEntries(acc, l, j, last, next))
    ensures Starts(bits, acc)
    decreases |l.entries| - j
  {
    hide Starts;
    Prefixes(bits);
    if j < |l.entries| {
      if next != 0 {
        var next' := NextScale(l, j, last);
        var delta := DeltaScale(next', last);
        PutEntriesExtends(bits, if IsSe(delta) then acc + Se(delta) else acc, l, j + 1, l.entries[j], next');
      } else {
        PutEntriesExtends(bits, acc, l, j + 1, l.entries[j], 0);
      }
    }
  }

  lemma {:induction false} PutListsExtends(bits: seq<bool>, acc: seq<bool>, lists: seq<ScalingList>, i: nat, n: nat)
    requires Starts(bits, PutLists(acc, lists, i, n))
    ensures Starts(bits, acc)
    decreases n - i
  {
    hide Starts;
    Prefixes(bits);
    if i < n && i < |lists| {
      var acc1 := acc + U(1, lists[i].present);
      if lists[i].present != 0 {
        PutListsExtends(bits, PutEntries(acc1, lists[i], 0, 8, 8), lists, i + 1, n);
        PutEntriesExtends(bits, acc1, lists[i], 0, 8, 8);
      } else {
        PutListsExtends(bits, acc1, lists, i + 1, n);
      }
    }
  }

  lemma {:induction false} PutOffsetsExtends(bits: seq<bool>, acc: seq<bool>, offsets: seq<Int32>, i: nat, n: Int32)
    requires Starts(bits, PutOffsets(acc, offsets, i, n))
    ensures Starts(bits, acc)
    decreases n - i
  {
    hide Starts;
    Prefixes(bits);
    if i < n && i < |offsets| {
      PutOffsetsExtends(bits, acc + Se(offsets[i]), offsets, i + 1, n);
    }
  }

  lemma {:induction false} PutSchedExtends(bits: seq<bool>, acc: seq<bool>, sched: seq<Sched>, i: nat, last: Int32)
    requires Starts(bits, PutSched(acc, sched, i, last))
    ensures Starts(bits, acc)
    decreases last + 1 - i
  {
    hide Starts;
    Prefixes(bits);
    if i <= last && i < |sched| {
      var acc1 := acc + Ue(sched[i].bitRateValueMinus1) + Ue(sched[i].cpbSizeValueMinus1) + U(1, sched[i].cbrFlag);
      PutSchedExtends(bits, acc1, sched, i + 1, last);
    }
  }

  lemma PutHrdExtends(bits: seq<bool>, acc: seq<bool>, r: Hrd)
    requires Starts(bits, PutHrd(acc, r))
    ensures Starts(bits, acc)
  {
    hide Starts;
    Prefixes(bits);
    PutSchedExtends(bits, acc + Ue(r.cpbCntMinus1) + U(4, r.bitRateScale) + U(4, r.cpbSizeScale), r.sched, 0, r.cpbCntMinus1);
  }

  lemma PutHighExtends(bits: seq<bool>, acc: seq<bool>, r: High)
    requires Starts(bits, PutHigh(acc, r))
    ensures Starts(bits, acc)
  {
    hide Starts, PutLists;
    Prefixes(bits);
    if r.matrixPresentFlag != 0 {
      var acc1 := acc + Ue(r.chromaFormatIdc);
      var acc2 := if r.chromaFormatIdc == 3 then acc1 + U(1, r.residualColourTransformFlag) else acc1;
      var acc3 := acc2 + Ue(r.bitDepthLumaMinus8) + Ue(r.bitDepthChromaMinus8)
                  + U(1, r.qpprimeYZeroTransformBypassFlag) + U(1, r.matrixPresentFlag);
      PutListsExtends(bits, acc3, r.lists, 0, ListCount(r.chromaFormatIdc));
    }
  }

  lemma PutOrderExtends(bits: seq<bool>, acc: seq<bool>, r: OrderCount)
    requires Starts(bits, PutOrder(acc, r))
    ensures Starts(bits, acc)
  {
    hide Starts, PutOffsets, U, Ue, Se;
    Prefixes(bits);
    if r.picOrderCntType == 1 {
      PutOffsetsExtends(bits, acc + Ue(r.log2MaxFrameNumMinus4) + Ue(r.picOrderCntType)
                              + U(1, r.deltaAlwaysZeroFlag) + Se(r.offsetForNonRefPic)
                              + Se(r.offsetForTopToBottomField) + Ue(r.numRefFramesInCycle),
                        r.offsetForRefFrame, 0, r.numRefFramesInCycle);
    }
  }

  lemma PutHrdPairExtends(bits: seq<bool>, acc: seq<bool>, r: HrdPair)
    requires Starts(bits, PutHrdPair(acc, r))
    ensures Starts(bits, acc)
  {
    hide Starts, PutHrd;
    Prefixes(bits);
    var acc1 := acc + U(1, r.nalPresentFlag);
    var acc2 := if r.nalPresentFlag != 0 then PutHrd(acc1, r.nal) else acc1;
    if r.vclPresentFlag != 0 {
      PutHrdExtends(bits, acc2 + U(1, r.vclPresentFlag), r.vcl);
    }
    if r.nalPresentFlag != 0 {
      PutHrdExtends(bits, acc1, r.nal);
    }
  }

  lemma PutDisplayExtends(bits: seq<bool>, acc: seq<bool>, r: Vui)
    ensures Starts(bits, PutSignal(acc, r.signal)) ==> Starts(bits, acc)
    ensures Starts(bits, PutOverscan(acc, r.overscan)) ==> Starts(bits, acc)
    ensures Starts(bits, PutAspect(acc, r.aspect)) ==> Starts(bits, acc)
    ensures Starts(bits, PutChromaLoc(acc, r.chromaLoc)) ==> Starts(bits, acc)
    ensures Starts(bits, PutTiming(acc, r.timing)) ==> Starts(bits, acc)
    ensures Starts(bits, PutRestriction(acc, r.restriction)) ==> Starts(bits, acc)
  {
    hide Starts, U, Ue;
    Prefixes(bits);
  }

  lemma PutVuiExtends(bits: seq<bool>, acc: seq<bool>, r: Vui)
    requires Starts(bits, PutVui(acc, r))
    ensures Starts(bits, acc)
  {
    hide Starts, U, PutAspect, PutOverscan, PutSignal, PutChromaLoc, PutTiming, PutHrdPair, PutRestriction;
    var acc1 := PutAspect(acc, r.aspect);
    var acc2 := PutOverscan(acc1, r.overscan);
    var acc3 := PutSignal(acc2, r.signal);
    var acc4 := PutChromaLoc(acc3, r.chromaLoc);
    var acc5 := PutTiming(acc4, r.timing);
    var acc6 := PutHrdPair(acc5, r.hrd);
    PutDisplayExtends(bits, acc6 + U(1, r.picStructPresentFlag), r);
    Prefixes(bits);
    PutHrdPairExtends(bits, acc5, r.hrd);
    PutDisplayExtends(bits, acc4, r);
    PutDisplayExtends(bits, acc3, r);
    PutDisplayExtends(bits, acc2, r);
    PutDisplayExtends(bits, acc1, r);
    PutDisplayExtends(bits, acc, r);
  }

  lemma PutFrameExtends(bits: seq<bool>, acc: seq<bool>, s: Sps)
    ensures Starts(bits, PutProfile(acc, s.profile)) ==> Starts(bits, acc)
    ensures Starts(bits, PutFrame(acc, s.frame)) ==> Starts(bits, acc)
    ensures Starts(bits, PutCrop(acc, s.crop)) ==> Starts(bits, acc)
  {
    hide Starts, U, Ue;
    Prefixes(bits);
  }

  /** Writing an SPS keeps what was written before, whatever the fields are. */
  lemma PutSpsExtends(bits: seq<bool>, acc: seq<bool>, s: Sps)
    requires Starts(bits, PutSps(acc, s))
    ensures Starts(bits, acc)
  {
    hide Starts, U, PutProfile, PutHigh, PutOrder, PutFrame, PutCrop, PutVui;
    var acc1 := PutProfile(acc, s.profile);
    var acc2 := if IsHigh(s.profile.profileIdc) then PutHigh(acc1, s.high) else acc1;
    var acc3 := PutOrder(acc2, s.order);
    var acc4 := PutFrame(acc3, s.frame);
    var acc5 := PutCrop(acc4, s.crop);
    if s.vuiPresentFlag != 0 {
      PutVuiExtends(bits, acc5 + U(1, s.vuiPresentFlag), s.vui);
    }
    Prefixes(bits);
    PutFrameExtends(bits, acc4, s);
    PutFrameExtends(bits, acc3, s);
    PutOrderExtends(bits, acc2, s.order);
    if IsHigh(s.profile.profileIdc) {
      PutHighExtends(bits, acc1, s.high);
    }
    PutFrameExtends(bits, acc, s);
  }

  /** The fold and the reader's arithmetic give an entry back only if it is in 1..255. */
  lemma DeltaConverse(e: Int32, last: Int32)
    requires 1 <= last <= 255
    ensures var next := Rem256(last + DeltaScale(e, last) + 256);
            e == (if next == 0 then last else next) ==> 1 <= e <= 255 && next == e
  {
  }

  /** The entry that a delta stands for, and what is read after it. */
  lemma EntryRead(bits: seq<bool>, p: nat, m: ScalingList, j: nat, last: Int32, next: Int32)
    requires j < |m.entries| && next != 0
    ensures var back := Rem256(last + SeAt(bits, p).0 + 256);
            var scale: Int32 := if back == 0 then last else back;
            var m' := m.(entries := m.entries[j := scale], useDefault := if j == 0 && back == 0 then 1 else 0);
            GetEntries(bits, p, m, j, last, next) == GetEntries(bits, SeAt(bits, p).1, m', j + 1, scale, back)
            && GetEntries(bits, p, m, j, last, next).0.entries[j] == scale
  {
    hide SeAt;
    var (delta, p') := SeAt(bits, p);
    var back := Rem256(last + delta + 256);
    var scale := if back == 0 then last else back;
    var m' := m.(entries := m.entries[j := scale], useDefault := if j == 0 && back == 0 then 1 else 0);
    var r := GetEntries(bits, p', m', j + 1, scale, back).0;
    assert r.entries[j] == r.entries[..j + 1][j] == m'.entries[..j + 1][j];
  }

  lemma {:induction false} RestCopied(bits: seq<bool>, p: nat, m: ScalingList, j: nat, last: Int32)
    requires j <= |m.entries|
    ensures var r := GetEntries(bits, p, m, j, last, 0).0;
            r.useDefault == m.useDefault && |r.entries| == |m.entries|
            && forall k :: j <= k < |m.entries| ==> r.entries[k] == last
    decreases |m.entries| - j
  {
    if j < |m.entries| {
      var m' := m.(entries := m.entries[j := last]);
      RestCopied(bits, p, m', j + 1, last);
      var r := GetEntries(bits, p, m', j + 1, last, 0).0;
      assert r.entries[j] == r.entries[..j + 1][j] == m'.entries[..j + 1][j];
    }
  }

  lemma DefaultOnlyCanonical(bits: seq<bool>, acc: seq<bool>, l: ScalingList, m: ScalingList)
    requires |m.entries| == |l.entries| > 0 && l.useDefault != 0
    requires Starts(bits, PutEntries(acc, l, 0, 8, 8))
    requires GetEntries(bits, |acc|, m, 0, 8, 8).0 == l
    ensures EntriesCanonical(l)
  {
    hide Starts, GetU, GetUe, SeAt, Se;
    PutEntriesExtends(bits, acc + Se(-8), l, 1, l.entries[0], 0);
    ReadBack(bits);
    var m' := m.(entries := m.entries[0 := 8], useDefault := 1);
    RestCopied(bits, |acc + Se(-8)|, m', 1, 8);
    var r := GetEntries(bits, |acc + Se(-8)|, m', 1, 8, 0).0;
    assert r.entries[0] == r.entries[..1][0] == m'.entries[..1][0];
    assert NextScale(l, 0, 8) == 0 && DeltaScale(0, 8) == -8 && Rem256(8 - 8 + 256) == 0;
    assert r == l;
  }

  lemma RestCanonical(l: ScalingList, j: nat, last: Int32)
    requires j <= |l.entries| && l.useDefault == 0 && (j == |l.entries| || RestIs(l.entries, j, last))
    requires j < |l.entries| ==> 1 <= last <= 255
    requires forall k :: 0 <= k < j ==> 1 <= l.entries[k] <= 255
    ensures EntriesCanonical(l)
  {
  }

  lemma {:induction false} EntriesOnlyCanonical(bits: seq<bool>, acc: seq<bool>, l: ScalingList, m: ScalingList, j: nat, last: Int32, next: Int32)
    requires j <= |l.entries| == |m.entries| && l.useDefault == 0 && next != 0
    requires forall k :: 0 <= k < j ==> 1 <= l.entries[k] <= 255
    requires last == if j == 0 then 8 else l.entries[j - 1]
    requires EntriesWritable(l, j, last, next)
    requires Starts(bits, PutEntries(acc, l, j, last, next))
    requires GetEntries(bits, |acc|, m, j, last, next).0 == l
    ensures EntriesCanonical(l)
    decreases |l.entries| - j
  {
    hide Starts, SeAt, Se, DeltaScale, Rem256, GetEntries, EntriesCanonical, RestIs;
    if j == |l.entries| {
      RestCanonical(l, j, last);
    } else {
      var next' := NextScale(l, j, last);
      if j > 0 && l.entries[j] == last && RestIs(l.entries, j + 1, last) {
        RestCanonical(l, j + 1, last);
      } else {
        var delta := DeltaScale(next', last);
        PutEntriesExtends(bits, acc + Se(delta), l, j + 1, l.entries[j], next');
        SignedRead(bits, acc, delta);
        EntryRead(bits, |acc|, m, j, last, next);
        var back := Rem256(last + delta + 256);
        var scale := if back == 0 then last else back;
        var m' := m.(entries := m.entries[j := scale], useDefault := if j == 0 && back == 0 then 1 else 0);
        DeltaConverse(next', last);
        EntriesOnlyCanonical(bits, acc + Se(delta), l, m', j + 1, l.entries[j], next');
      }
    }
  }

  lemma ListOnlyCanonical(bits: seq<bool>, acc: seq<bool>, l: ScalingList, m: ScalingList)
    requires |m.entries| == |l.entries| > 0 && m.present == l.present && EntriesWritable(l, 0, 8, 8)
    requires Starts(bits, PutEntries(acc, l, 0, 8, 8))
    requires GetEntries(bits, |acc|, m, 0, 8, 8).0 == l
    ensures EntriesCanonical(l)
    ensures GetEntries(bits, |acc|, m, 0, 8, 8) == (l, |PutEntries(acc, l, 0, 8, 8)|)
  {
    hide Starts, PutEntries, GetEntries, EntriesCanonical, EntriesWritable;
    if l.useDefault != 0 {
      DefaultOnlyCanonical(bits, acc, l, m);
    } else {
      EntriesOnlyCanonical(bits, acc, l, m, 0, 8, 8);
    }
    EntriesRoundTrip(bits, acc, l, m, 0, 8, 8);
  }

  lemma {:induction false} ListsOnlyCanonical(bits: seq<bool>, acc: seq<bool>, lists: seq<ScalingList>, m: seq<ScalingList>, i: nat, n: nat)
    requires i <= n <= 12 && ListsShape(lists, n) && ListsShape(m, i) && m[..i] == lists[..i]
    requires forall k :: i <= k < n && lists[k].present != 0 ==> EntriesWritable(lists[k], 0, 8, 8)
    requires Starts(bits, PutLists(acc, lists, i, n))
    requires GetLists(bits, |acc|, m, i, n).0 == lists
    ensures forall k :: i <= k < n && lists[k].present != 0 ==> EntriesCanonical(lists[k])
    decreases n - i
  {
    hide Starts, GetU, GetUe, SeAt, U, EntriesCanonical, EntriesWritable, PutEntries, GetEntries, ZeroList;
    if i < n {
      var l := lists[i];
      var acc1 := acc + U(1, l.present);
      var acc2 := if l.present != 0 then PutEntries(acc1, l, 0, 8, 8) else acc1;
      PutListsExtends(bits, acc2, lists, i + 1, n);
      if l.present != 0 {
        PutEntriesExtends(bits, acc1, l, 0, 8, 8);
      }
      ReadBack(bits);
      var m0 := m[i].(present := l.present);
      var read := if l.present != 0 then GetEntries(bits, |acc1|, m0, 0, 8, 8) else (m0, |acc1|);
      var m' := m[i := read.0];
      assert GetLists(bits, |acc|, m, i, n) == GetLists(bits, read.1, m', i + 1, n);
      assert lists[..i + 1][i] == m'[..i + 1][i];
      assert read.0 == l;
      if l.present != 0 {
        ListOnlyCanonical(bits, acc1, l, m0);
      }
      assert m'[..i + 1] == lists[..i + 1];
      ListsOnlyCanonical(bits, acc2, lists, m', i + 1, n);
    }
  }

  lemma HighOnlyCanonical(bits: seq<bool>, acc: seq<bool>, r: High)
    requires Starts(bits, PutHigh(acc, r)) && HighWritable(r) && HighShape(r)
    requires GetHigh(bits, |acc|).0 == r
    ensures ListsCanonical(r.lists)
  {
    hide Starts, U, Ue, GetU, GetUe, SeAt, PutLists, GetLists, ZeroLists, EntriesCanonical, EntriesWritable;
    NoLists(r.lists);
    if r.matrixPresentFlag != 0 {
      var acc1 := acc + Ue(r.chromaFormatIdc);
      var acc2 := if r.chromaFormatIdc == 3 then acc1 + U(1, r.residualColourTransformFlag) else acc1;
      var acc3 := acc2 + Ue(r.bitDepthLumaMinus8) + Ue(r.bitDepthChromaMinus8)
                  + U(1, r.qpprimeYZeroTransformBypassFlag) + U(1, r.matrixPresentFlag);
      var n := ListCount(r.chromaFormatIdc);
      PutListsExtends(bits, acc3, r.lists, 0, n);
      ReadBack(bits);
      ListsOnlyCanonical(bits, acc3, r.lists, ZeroLists(), 0, n);
      assert forall i :: n <= i < 12 ==> r.lists[i] == ZeroList(i);
    } else {
      assert forall i :: 0 <= i < 12 ==> r.lists[i] == ZeroList(i);
    }
  }

  lemma NoListsCanonical()
    ensures ListsCanonical(ZeroHigh().lists)
  {
  }

  /** What is read back unchanged is canonical. */
  lemma SpsOnlyCanonical(bits: seq<bool>, acc: seq<bool>, s: Sps)
    requires Starts(bits, PutSps(acc, s)) && Writable(s)
    requires GetSps(bits, |acc|).0 == s
    ensures Canonical(s)
  {
    hide Starts, GetU, GetUe, SeAt, U, Ue, PutVui, PutCrop, PutFrame, PutOrder, PutHigh, PutProfile,
      GetVui, GetCrop, GetFrame, GetOrder, GetHigh, GetProfile,
      VuiShape, CropShape, FrameShape, OrderShape, HighShape, ProfileShape,
      VuiWritable, CropWritable, FrameWritable, OrderWritable, HighWritable, ListsCanonical;
    ReadBack(bits);
    var acc1 := PutProfile(acc, s.profile);
    var acc2 := if IsHigh(s.profile.profileIdc) then PutHigh(acc1, s.high) else acc1;
    var acc3 := PutOrder(acc2, s.order);
    var acc4 := PutFrame(acc3, s.frame);
    var acc5 := PutCrop(acc4, s.crop);
    if s.vuiPresentFlag != 0 {
      VuiRoundTrip(bits, acc5 + U(1, s.vuiPresentFlag), s.vui);
    }
    CropRoundTrip(bits, acc4, s.crop);
    FrameRoundTrip(bits, acc3, s.frame);
    OrderRoundTrip(bits, acc2, s.order);
    if IsHigh(s.profile.profileIdc) {
      PutHighExtends(bits, acc1, s.high);
      ProfileRoundTrip(bits, acc, s.profile);
      HighOnlyCanonical(bits, acc1, s.high);
    } else {
      NoListsCanonical();
    }
  }
}
