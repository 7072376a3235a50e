/** The write_* functions of h264_stream.c: each emits the syntax of its part of the record. */
module SpsWriter {
  import opened Bits
  import opened Codes
  import opened BitCursor
  import opened SpsSyntax

  method WriteProfile(b: Bs, r: Profile)
    requires b.Valid() && b.Recording() && MayWriteUe(r.seqParameterSetId)
    modifies b, b.buf
    ensures b.Valid() && b.Recording() && b.log == PutProfile(old(b.log), r)
  {
    hide Overlay, BitsOf, ToBits, UeCode, Se;
    b.WriteU8(AsUint32(r.profileIdc));
    b.WriteU1(AsUint32(r.constraintSet0Flag));
    b.WriteU1(AsUint32(r.constraintSet1Flag));
    b.WriteU1(AsUint32(r.constraintSet2Flag));
    b.WriteU1(AsUint32(r.constraintSet3Flag));
    b.WriteU1(AsUint32(r.constraintSet4Flag));
    b.WriteU1(AsUint32(r.constraintSet5Flag));
    b.WriteU(2, 0);
    b.WriteU8(AsUint32(r.levelIdc));
    b.WriteUe(AsUint32(r.seqParameterSetId));
  }

  method WriteHrdParameters(b: Bs, r: Hrd)
    requires b.Valid() && b.Recording() && HrdWritable(r)
    modifies b, b.buf
    ensures b.Valid() && b.Recording() && b.log == PutHrd(old(b.log), r)
  {
    hide Overlay, BitsOf, ToBits, UeCode, Se;
    b.WriteUe(AsUint32(r.cpbCntMinus1));
    b.WriteU(4, AsUint32(r.bitRateScale));
    b.WriteU(4, AsUint32(r.cpbSizeScale));
    ghost var log := b.log;
    for i := 0 to r.cpbCntMinus1 + 1
      invariant b.Valid() && b.Recording()
      invariant PutSched(b.log, r.sched, i, r.cpbCntMinus1) == PutSched(log, r.sched, 0, r.cpbCntMinus1)
    {
      b.WriteUe(AsUint32(r.sched[i].bitRateValueMinus1));
      b.WriteUe(AsUint32(r.sched[i].cpbSizeValueMinus1));
      b.WriteU1(AsUint32(r.sched[i].cbrFlag));
    }
    b.WriteU(5, AsUint32(r.initialCpbRemovalDelayLengthMinus1));
    b.WriteU(5, AsUint32(r.cpbRemovalDelayLengthMinus1));
    b.WriteU(5, AsUint32(r.dpbOutputDelayLengthMinus1));
    b.WriteU(5, AsUint32(r.timeOffsetLength));
  }

  /** The look-ahead loop of write_scaling_list. */
  method AllSame(entries: seq<Int32>, from: nat, v: Int32) returns (allSame: bool)
    requires from <= |entries|
    ensures allSame == RestIs(entries, from, v)
  {
    allSame := true;
    for k := from to |entries|
      invariant forall i :: from <= i < k ==> entries[i] == v
    {
      if entries[k] != v {
        allSame := false;
        break;
      }
    }
  }

  method WriteScalingList(b: Bs, l: ScalingList)
    requires b.Valid() && b.Recording() && EntriesWritable(l, 0, 8, 8)
    modifies b, b.buf
    ensures b.Valid() && b.Recording() && b.log == PutEntries(old(b.log), l, 0, 8, 8)
  {
    hide Overlay, BitsOf, ToBits, UeCode, Se;
    var lastScale: Int32, nextScale: Int32 := 8, 8;
    for j := 0 to |l.entries|
      invariant b.Valid() && b.Recording()
      invariant EntriesWritable(l, j, lastScale, nextScale)
      invariant PutEntries(b.log, l, j, lastScale, nextScale) == PutEntries(old(b.log), l, 0, 8, 8)
    {
      if nextScale != 0 {
        if l.useDefault != 0 {
          nextScale := 0;
        } else {
          nextScale := l.entries[j];
          if j > 0 && nextScale == lastScale {
            var allSame := AllSame(l.entries, j + 1, lastScale);
            if allSame {
              nextScale := 0;
            }
          }
        }
        var deltaScale: int := nextScale - lastScale;
        if deltaScale < -128 {
          deltaScale := deltaScale + 256;
        } else if deltaScale > 127 {
          deltaScale := deltaScale - 256;
        }
        b.WriteSe(deltaScale);
      }
      lastScale := l.entries[j];
    }
  }

  method WriteHigh(b: Bs, r: High)
    requires b.Valid() && b.Recording() && HighWritable(r)
    modifies b, b.buf
    ensures b.Valid() && b.Recording() && b.log == PutHigh(old(b.log), r)
  {
    hide Overlay, BitsOf, ToBits, UeCode, Se;
    b.WriteUe(AsUint32(r.chromaFormatIdc));
    if r.chromaFormatIdc == 3 {
      b.WriteU1(AsUint32(r.residualColourTransformFlag));
    }
    b.WriteUe(AsUint32(r.bitDepthLumaMinus8));
    b.WriteUe(AsUint32(r.bitDepthChromaMinus8));
    b.WriteU1(AsUint32(r.qpprimeYZeroTransformBypassFlag));
    b.WriteU1(AsUint32(r.matrixPresentFlag));
    if r.matrixPresentFlag != 0 {
      ghost var log := b.log;
      var n := if r.chromaFormatIdc != 3 then 8 else 12;
      for i := 0 to n
        invariant b.Valid() && b.Recording()
        invariant PutLists(b.log, r.lists, i, n) == PutLists(log, r.lists, 0, n)
      {
        b.WriteU1(AsUint32(r.lists[i].present));
        if r.lists[i].present != 0 {
          WriteScalingList(b, r.lists[i]);
        }
      }
    }
  }

  method WriteOrder(b: Bs, r: OrderCount)
    requires b.Valid() && b.Recording() && OrderWritable(r)
    modifies b, b.buf
    ensures b.Valid() && b.Recording() && b.log == PutOrder(old(b.log), r)
  {
    hide Overlay, BitsOf, ToBits, UeCode, Se;
    b.WriteUe(AsUint32(r.log2MaxFrameNumMinus4));
    b.WriteUe(AsUint32(r.picOrderCntType));
    if r.picOrderCntType == 0 {
      b.WriteUe(AsUint32(r.log2MaxPicOrderCntLsbMinus4));
    } else if r.picOrderCntType == 1 {
      b.WriteU1(AsUint32(r.deltaAlwaysZeroFlag));
      b.WriteSe(r.offsetForNonRefPic);
      b.WriteSe(r.offsetForTopToBottomField);
      b.WriteUe(AsUint32(r.numRefFramesInCycle));
      ghost var log := b.log;
      var i := 0;
      while i < r.numRefFramesInCycle
        invariant b.Valid() && b.Recording() && 0 <= i <= 256
        invariant PutOffsets(b.log, r.offsetForRefFrame, i, r.numRefFramesInCycle)
               == PutOffsets(log, r.offsetForRefFrame, 0, r.numRefFramesInCycle)
      {
        b.WriteSe(r.offsetForRefFrame[i]);
        i := i + 1;
      }
    }
  }

  method WriteFrame(b: Bs, r: Frame)
    requires b.Valid() && b.Recording() && FrameWritable(r)
    modifies b, b.buf
    ensures b.Valid() && b.Recording() && b.log == PutFrame(old(b.log), r)
  {
    b.WriteUe(AsUint32(r.numRefFrames));
    b.WriteU1(AsUint32(r.gapsAllowedFlag));
    b.WriteUe(AsUint32(r.widthInMbsMinus1));
    b.WriteUe(AsUint32(r.heightInMapUnitsMinus1));
    b.WriteU1(AsUint32(r.mbsOnlyFlag));
    if r.mbsOnlyFlag == 0 {
      b.WriteU1(AsUint32(r.mbAdaptiveFlag));
    }
    b.WriteU1(AsUint32(r.direct8x8InferenceFlag));
  }

  method WriteCrop(b: Bs, r: Crop)
    requires b.Valid() && b.Recording() && CropWritable(r)
    modifies b, b.buf
    ensures b.Valid() && b.Recording() && b.log == PutCrop(old(b.log), r)
  {
    b.WriteU1(AsUint32(r.flag));
    if r.flag != 0 {
      b.WriteUe(AsUint32(r.left));
      b.WriteUe(AsUint32(r.right));
      b.WriteUe(AsUint32(r.top));
      b.WriteUe(AsUint32(r.bottom));
    }
  }

  method WriteAspect(b: Bs, r: Aspect)
    requires b.Valid() && b.Recording()
    modifies b, b.buf
    ensures b.Valid() && b.Recording() && b.log == PutAspect(old(b.log), r)
  {
    b.WriteU1(AsUint32(r.presentFlag));
    if r.presentFlag != 0 {
      b.WriteU8(AsUint32(r.idc));
      if r.idc == SAR_EXTENDED {
        b.WriteU(16, AsUint32(r.sarWidth));
        b.WriteU(16, AsUint32(r.sarHeight));
      }
    }
  }

  method WriteOverscan(b: Bs, r: Overscan)
    requires b.Valid() && b.Recording()
    modifies b, b.buf
    ensures b.Valid() && b.Recording() && b.log == PutOverscan(old(b.log), r)
  {
    b.WriteU1(AsUint32(r.presentFlag));
    if r.presentFlag != 0 {
      b.WriteU1(AsUint32(r.appropriateFlag));
    }
  }

  method WriteSignal(b: Bs, r: Signal)
    requires b.Valid() && b.Recording()
    modifies b, b.buf
    ensures b.Valid() && b.Recording() && b.log == PutSignal(old(b.log), r)
  {
    b.WriteU1(AsUint32(r.presentFlag));
    if r.presentFlag != 0 {
      b.WriteU(3, AsUint32(r.videoFormat));
      b.WriteU1(AsUint32(r.fullRangeFlag));
      b.WriteU1(AsUint32(r.colourPresentFlag));
      if r.colourPresentFlag != 0 {
        b.WriteU8(AsUint32(r.primaries));
        b.WriteU8(AsUint32(r.transfer));
        b.WriteU8(AsUint32(r.matrix));
      }
    }
  }

  method WriteChromaLoc(b: Bs, r: ChromaLoc)
    requires b.Valid() && b.Recording() && (r.presentFlag != 0 ==> MayWriteUe(r.topField) && MayWriteUe(r.bottomField))
    modifies b, b.buf
    ensures b.Valid() && b.Recording() && b.log == PutChromaLoc(old(b.log), r)
  {
    b.WriteU1(AsUint32(r.presentFlag));
    if r.presentFlag != 0 {
      b.WriteUe(AsUint32(r.topField));
      b.WriteUe(AsUint32(r.bottomField));
    }
  }

  method WriteTiming(b: Bs, r: Timing)
    requires b.Valid() && b.Recording()
    modifies b, b.buf
    ensures b.Valid() && b.Recording() && b.log == PutTiming(old(b.log), r)
  {
    b.WriteU1(AsUint32(r.presentFlag));
    if r.presentFlag != 0 {
      b.WriteU(32, AsUint32(r.numUnitsInTick));
      b.WriteU(32, AsUint32(r.timeScale));
      b.WriteU1(AsUint32(r.fixedFrameRateFlag));
    }
  }

  method WriteHrdPair(b: Bs, r: HrdPair)
    requires b.Valid() && b.Recording()
    requires (r.nalPresentFlag != 0 ==> HrdWritable(r.nal)) && (r.vclPresentFlag != 0 ==> HrdWritable(r.vcl))
    modifies b, b.buf
    ensures b.Valid() && b.Recording() && b.log == PutHrdPair(old(b.log), r)
  {
    b.WriteU1(AsUint32(r.nalPresentFlag));
    if r.nalPresentFlag != 0 {
      WriteHrdParameters(b, r.nal);
    }
    b.WriteU1(AsUint32(r.vclPresentFlag));
    if r.vclPresentFlag != 0 {
      WriteHrdParameters(b, r.vcl);
    }
    if r.nalPresentFlag != 0 || r.vclPresentFlag != 0 {
      b.WriteU1(AsUint32(r.lowDelayFlag));
    }
  }

  method WriteRestriction(b: Bs, r: Restriction)
    requires b.Valid() && b.Recording() && RestrictionWritable(r)
    modifies b, b.buf
    ensures b.Valid() && b.Recording() && b.log == PutRestriction(old(b.log), r)
  {
    hide Overlay, BitsOf, ToBits, UeCode, Se;
    b.WriteU1(AsUint32(r.flag));
    if r.flag != 0 {
      b.WriteU1(AsUint32(r.motionVectorsOverPicBoundariesFlag));
      b.WriteUe(AsUint32(r.maxBytesPerPicDenom));
      b.WriteUe(AsUint32(r.maxBitsPerMbDenom));
      b.WriteUe(AsUint32(r.log2MaxMvLengthHorizontal));
      b.WriteUe(AsUint32(r.log2MaxMvLengthVertical));
      b.WriteUe(AsUint32(r.numReorderFrames));
      b.WriteUe(AsUint32(r.maxDecFrameBuffering));
    }
  }

  method WriteVuiParameters(b: Bs, r: Vui)
    requires b.Valid() && b.Recording() && VuiWritable(r)
    modifies b, b.buf
    ensures b.Valid() && b.Recording() && b.log == PutVui(old(b.log), r)
  {
    WriteAspect(b, r.aspect);
    WriteOverscan(b, r.overscan);
    WriteSignal(b, r.signal);
    WriteChromaLoc(b, r.chromaLoc);
    WriteTiming(b, r.timing);
    WriteHrdPair(b, r.hrd);
    b.WriteU1(AsUint32(r.picStructPresentFlag));
    WriteRestriction(b, r.restriction);
  }

  method WriteSeqParameterSetRbsp(b: Bs, r: Sps)
    requires b.Valid() && b.Recording() && Writable(r)
    modifies b, b.buf
    ensures b.Valid() && b.Recording() && b.log == PutSps(old(b.log), r)
  {
    hide Overlay, BitsOf, ToBits, UeCode, Se;
    WriteProfile(b, r.profile);
    if IsHigh(r.profile.profileIdc) {
      WriteHigh(b, r.high);
    }
    WriteOrder(b, r.order);
    WriteFrame(b, r.frame);
    WriteCrop(b, r.crop);
    b.WriteU1(AsUint32(r.vuiPresentFlag));
    if r.vuiPresentFlag != 0 {
      WriteVuiParameters(b, r.vui);
    }
  }

  lemma UnitBit(v: Int32)
    requires v >= 0
    ensures U(1, v) == ToBits(v, 1)
  {
  }

  method WriteRbspTrailingBits(b: Bs)
    requires b.Valid() && b.Recording()
    modifies b, b.buf
    ensures b.Valid() && b.Recording() && b.log == PutTrailing(old(b.log))
  {
    hide Overlay, BitsOf, ToBits, ExpGolomb, Bs.Content, Bs.Recording, Bs.Pos, Align, ToAlign, U;
    UnitBit(1);
    UnitBit(0);
    b.WriteU(1, 1);
    var aligned := b.ByteAligned();
    while !aligned
      invariant b.Valid() && b.Recording() && aligned == (|b.log| % 8 == 0)
      invariant Align(b.log) == PutTrailing(old(b.log))
      decreases ToAlign(|b.log|)
    {
      AlignStep(b.log);
      ToAlignStep(|b.log|);
      b.WriteU(1, 0);
      aligned := b.ByteAligned();
    }
    AlignStep(b.log);
  }
}
