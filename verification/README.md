# gilstreaming: models and proofs

This project models the parts of the repository whose behaviour is hardest to see from one
function at a time, and proves what they promise together. Each class of the source that
updates its fields is a class here, with methods proved against specification functions on
plain values; the theorems are lemmas about those functions and about runs of them.

* **H.264 SPS codec** (`h264bitstream/`). `Bits`, `Codes`: numbers as bit strings, u(n), ue(v)
  and se(v). `BitCursor`: the byte pointer with `bits_left`, which refines a bit string with a
  position. `SpsSyntax`, `SpsWriter`, `SpsParse`, `SpsReader`: the syntax tables of ITU-T H.264
  (sections 7.3.2.1.1, 7.3.2.1.1.1, E.1.1 and E.1.2) as they are written and read. `NalFraming`:
  emulation prevention (sections 7.3.1 and 7.4.1) and start codes (Annex B). `SpsRoundTrip`,
  `SpsExact` and `SpsCodec`: an SPS survives writing and reading exactly when it is canonical.
  `SpsTable`: the syntax once more as one table of rows, which reader and writer both follow.
  `SpsRewrite` and `SpsCodec`: a NAL unit survives reading and writing exactly when it is in
  the form of the writer. `Writable` says that the C code writes the record without undefined
  behaviour (Exp-Golomb values in the range of the writer's 32-bit shifts or wrapping to 0,
  counts within the arrays); `Canonical` adds that absent fields are zero, fields fit their
  widths and come from some code, and present scaling lists have entries in 1..255 or are the
  default list.
* **VM lease store** (`coordinator/store.go`). `LeaseStore`: each mutex-protected method is one
  step on the VM list, the lease map and the state file. `LeaseRuns`: every interleaving of
  calls with clock advances, failed writes, endpoint updates and restarts. `LeaseProperties`:
  what the file holds compared with memory, which expiries survive a restart, and when exactly
  the pool is exhausted. `LeaseLaws`: what each call answers and does, lease by lease.
* **Login broker** (`coordinator/auth.go`). `Auth`: each lock section is one step on three maps.
  `AuthRuns`: every interleaving of logins, polls, callbacks (split around their network
  requests), development logins, token checks and expiry, with a log of what happened.
  `AuthLaws`: the life of one login, which fixes every answer its client gets.
* **Relay** (`app/backend/relaybridge.cpp`, `coordinator/relay.go`). `RelayTcp`, `RelayRuns`: one
  TCP channel from the local socket to the VM and back. `RelayUdp`: the datagram queue.
* **App lists** (`app/backend/nvcomputer.cpp`, `app/gui/appmodel.cpp`). `AppList`: merging a
  server list. `AppGrid`: editing the visible list in place, with the announced edits.

Where the code does not do what one would expect, the code was kept and the exact condition is
proved:

* An SPS is read back unchanged exactly when it is canonical (`SpsCodec.WriteThenRead`).
* An SPS that is read and written without a change gives the same bytes exactly when they were
  in the form of the writer (`SpsCodec.RewriteExact`).
* `LeaseVM`, `AdminLease` and `AdminSnapshot` hand out an expiry from memory after a failed
  write; it is safe across a restart exactly when the file already holds it
  (`LeaseProperties.ReportedExpiry`).
* The final assertion of `AppModel::updateAppList` holds exactly under the condition of
  `AppGrid.ReconcileExact`; two apps that exchange their names make one of them appear twice
  (`AppGrid.SwapNotReached`).

Assumptions: the clock does not go back, also not across a restart (lease store and sessions);
random ids are new, and those of logins are not empty; writing the state file replaces it or
leaves it as it was; a client's callbacks run one at a time, as Qt delivers them, and a
WebSocket becomes connected and runs its connected() slot in one step; a WebSocket delivers
messages in order until it breaks. Each lemma names the assumptions it needs.

## Model

| member | source | states |
|---|---|---|
| SpsCodec.WriteThenRead | h264bitstream/h264_stream.c:8-42 | end-to-end round trip, as an equivalence: for every header of type 7 and every SPS that the C code writes without undefined behaviour (with Exp-Golomb fields of -1 and signed fields of -2^31, which wrap), when write_nal_unit succeeds (any buffer size), read_nal_unit on its output returns the length written and the same header and SPS exactly when nal_ref_idc is in 0..3 and the SPS is canonical |
| SpsCodec.RewriteExact | app/streaming/video/ffmpeg.cpp:1766-1816 | the other direction, as an equivalence: for every NAL unit that read_nal_unit accepts with an SPS that can be written, writing header and SPS back gives the same bytes exactly when they fit the buffer and were in the form of the writer (used whole, forbidden and reserved bits zero, plain Exp-Golomb codes, uncut counts, the writer's deltas, nothing behind the trailing bits); the player asserts this for an SPS that it does not change |
| SpsCodec.RewriteNormalizes | app/streaming/video/ffmpeg.cpp:1766-1816 | whatever form a canonical SPS was read from, rewriting gives a unit in the form of the writer that holds the same header and SPS |
| SpsCodec.LegalRead | h264bitstream/h264_stream.c:146-162 | a unit whose scaling lists have deltas in -128..127, as the standard requires, is read as a canonical SPS when that can be written |
| SpsCodec.TrailingExact | h264bitstream/h264_stream.c:524-532 | a payload is its SPS bits and the written trailing bits exactly when a one stands behind the SPS and zeros up to the next byte boundary end it |
| SpsRewrite.SpsBack | h264bitstream/h264_stream.c:44-144 | plain bits of an SPS are written back bit for bit, through every optional branch |
| SpsRewrite.SpsPlain | h264bitstream/h264_stream.c:303-396 | what is written for a canonical SPS is plain |
| SpsRewrite.EntriesBack | h264bitstream/h264_stream.c:398-434 | a scaling list whose deltas are the writer's is written back bit for bit |
| SpsRewrite.EntriesPlain | h264bitstream/h264_stream.c:398-434 | the writer's bits for a canonical list have the writer's deltas |
| SpsRewrite.LegalCanonical | h264bitstream/h264_stream.c:44-144 | an SPS read with legal deltas that can be written is canonical |
| SpsRewrite.EntriesBounded | h264bitstream/h264_stream.c:146-162 | whatever the deltas, no entry that is read is 0 or leaves -255..255 |
| SpsCodec.StreamRoundTrip | h264bitstream/h264_nal.c:21-61 | the same equivalence through a byte stream: the NAL unit behind a 3- or 4-byte start code, followed by nothing or by another start code, is located by find_nal_unit and then parsed |
| SpsTable.ReaderFollows | h264bitstream/h264_stream.c:44-254 | the reader follows one table of the syntax, written down without reference to it, whatever the bits are: header and SPS are the values of the rows, one behind the other from the first bit to the end position, in the order and under the conditions of the standard (the twelve profiles with a chroma format are listed by number); present lists are made of the deltas that stand there; without such a profile chroma_format_idc is 1 and the rest of that block zero |
| SpsTable.WriterFollows | h264bitstream/h264_stream.c:303-532 | the writer follows the same table, for every SPS it can write: the payload is the codes of its rows in order and the trailing bits; the deltas of a list that the standard allows make that list |
| SpsTable.ProfileDecides | h264bitstream/h264_stream.c:62-69 | for every bit string: when the first eight bits are one of the twelve listed numbers, the ue(v) code behind seq_parameter_set_id is chroma_format_idc; for every other number it is log2_max_frame_num_minus4, and chroma_format_idc is 1 |
| SpsTable.ReadScaled | h264bitstream/h264_stream.c:146-162 | a list that is read is made of the deltas that stand there as section 7.3.2.1.1.1 says, with the default flag exactly when the first sum is a multiple of 256 |
| SpsTable.WrittenScaled | h264bitstream/h264_stream.c:398-434 | the deltas that are written for a list the standard allows make that list |
| SpsTable.ReadSpsItems | h264bitstream/h264_stream.c:44-144 | the SPS part of the table, from any position |
| SpsTable.WriteSpsItems | h264bitstream/h264_stream.c:303-396 | the SPS part of the table, behind any rows |
| SpsCodec.WrittenExactly | h264bitstream/h264_stream.c:266-301 | write_nal_unit succeeds exactly for type 7 and a buffer that holds the escaped payload and one byte |
| SpsCodec.OtherKept | h264bitstream/h264_stream.c:8-42 | a malformed unit changes nothing; one of another type changes the header record only |
| SpsCodec.WrittenFound | h264bitstream/h264_nal.c:21-61 | what write_nal_unit produced, put behind a start code, is found by find_nal_unit with exactly its own bytes |
| SpsCodec.WrittenBytes | h264bitstream/h264_stream.c:266-301 | the produced bytes contain no 00 00 00, 00 00 01 or 00 00 02, are not empty and end in a nonzero byte |
| SpsCodec.WrittenComplete | h264bitstream/h264_stream.c:256-301 | success means complete: for every buffer size, write_nal_unit fails or every bit of header, SPS and trailing bits is recovered by unescaping its output, which fits the buffer |
| SpsCodec.ReadComplete | h264bitstream/h264_stream.c:8-42 | read_nal_unit succeeds exactly when the escaping is well-formed, the type is 7 and the SPS together with its stop bit lies within the payload |
| SpsCodec.BufferSuffices | h264bitstream/h264_stream.c:266-301 | a buffer of 1 + n + (n - 1) / 2 bytes is enough for every payload of n bytes |
| SpsCodec.FullSpsCanonical | h264bitstream/h264_stream.c:303-505 | an SPS that takes every optional branch (chroma_format_idc 3 with the residual colour flag, present lists among 0 to 5 and 6 to 11, order count type 1, cropping, all VUI parts) is canonical, so the round trip applies to it |
| SpsCodec.ReadWritten | h264bitstream/h264_stream.c:8-42 | whatever write_nal_unit produced is unescaped as a whole and parsed as the payload that was written, whatever the fields hold |
| SpsCodec.PayloadParts | h264bitstream/h264_stream.c:524-532 | the payload starts with header and SPS and is padded to one byte more than the whole bytes they fill |
| SpsCodec.HeaderRoundTrip | h264bitstream/h264_stream.c:19-22 | the one-byte header comes back unchanged exactly when nal_ref_idc fits two bits |
| SpsCodec.H264Stream.ReadNalUnit | h264bitstream/h264_stream.c:8-42 | return value, header and SPS after the call are those of the specification ReadNal on the input bytes and the old records, for all error paths |
| SpsCodec.H264Stream.ReadRbsp | h264bitstream/h264_stream.c:19-41 | the part after unescaping: header, type test, SPS, trailing bits and overrun test |
| SpsCodec.H264Stream.WriteNalUnit | h264bitstream/h264_stream.c:266-301 | fails for another type or a buffer too small for the payload or its escaped form; otherwise 0x00, then the escaped payload, and the rest of the buffer is unchanged |
| SpsRoundTrip.SpsReadBack | h264bitstream/h264_stream.c:44-144 | an SPS parsed at the place where it was written comes back unchanged, with the same end position, through every optional branch, when it is canonical |
| SpsExact.SpsOnlyCanonical | h264bitstream/h264_stream.c:44-144 | converse: a writable SPS that is read back unchanged is canonical |
| SpsExact.PutSpsExtends | h264bitstream/h264_stream.c:303-396 | writing an SPS never disturbs what was written before, whatever its fields |
| SpsRoundTrip.EntriesRoundTrip | h264bitstream/h264_stream.c:146-162 | scaling list: the reader recovers list and default flag from the deltas, through the early "rest is the same" cut-off and the default-list code |
| SpsRoundTrip.DeltaRoundTrip | h264bitstream/h264_stream.c:424-430 | every delta is in -128..127 and the reader's arithmetic modulo 256 undoes the fold |
| SpsExact.DeltaConverse | h264bitstream/h264_stream.c:155-156 | an entry comes back through fold and modulo arithmetic only if it is in 1..255 |
| SpsExact.EntriesOnlyCanonical | h264bitstream/h264_stream.c:146-162 | a list that is read back unchanged has all entries in 1..255 |
| SpsExact.DefaultOnlyCanonical | h264bitstream/h264_stream.c:406-408 | a list with the default flag comes back unchanged only if all its entries are 8 and the flag is 1 |
| SpsExact.ListOnlyCanonical | h264bitstream/h264_stream.c:398-434 | both cases together for one present list |
| SpsExact.ListsOnlyCanonical | h264bitstream/h264_stream.c:79-98 | the same for all lists of a scaling matrix |
| SpsExact.HighOnlyCanonical | h264bitstream/h264_stream.c:62-99 | the same for the high-profile block, present or not |
| SpsRoundTrip.ListsRoundTrip | h264bitstream/h264_stream.c:79-98 | all 8 or 12 lists, absent ones staying zero |
| SpsRoundTrip.HighRoundTrip | h264bitstream/h264_stream.c:62-99 | high-profile block |
| SpsRoundTrip.ProfileRoundTrip | h264bitstream/h264_stream.c:51-60 | profile, constraint flags, level and id |
| SpsRoundTrip.OffsetsRoundTrip | h264bitstream/h264_stream.c:116-119 | the offsets of picture order count type 1, entries beyond the count staying zero |
| SpsRoundTrip.OrderRoundTrip | h264bitstream/h264_stream.c:100-120 | all picture order count types |
| SpsRoundTrip.FrameRoundTrip | h264bitstream/h264_stream.c:121-130 | frame size and coding flags |
| SpsRoundTrip.CropRoundTrip | h264bitstream/h264_stream.c:131-138 | cropping |
| SpsRoundTrip.SchedRoundTrip | h264bitstream/h264_stream.c:244-249 | the schedules of an HRD, entries beyond the count staying zero |
| SpsRoundTrip.HrdRoundTrip | h264bitstream/h264_stream.c:235-254 | HRD parameters |
| SpsRoundTrip.AspectRoundTrip | h264bitstream/h264_stream.c:166-175 | aspect ratio, with the extended form |
| SpsRoundTrip.OverscanRoundTrip | h264bitstream/h264_stream.c:176-180 | overscan |
| SpsRoundTrip.SignalRoundTrip | h264bitstream/h264_stream.c:181-193 | video signal type with optional colour description |
| SpsRoundTrip.ChromaLocRoundTrip | h264bitstream/h264_stream.c:194-199 | chroma location |
| SpsRoundTrip.TimingRoundTrip | h264bitstream/h264_stream.c:200-206 | timing, with all 32-bit values |
| SpsRoundTrip.HrdPairRoundTrip | h264bitstream/h264_stream.c:207-220 | both HRDs and the delay flag that depends on either |
| SpsRoundTrip.RestrictionRoundTrip | h264bitstream/h264_stream.c:222-232 | bitstream restriction |
| SpsRoundTrip.VuiRoundTrip | h264bitstream/h264_stream.c:164-233 | VUI parameters as a whole |
| SpsParse.GetSps | h264bitstream/h264_stream.c:44-144 | whatever the bits, the parsed SPS has every absent field zero (chroma_format_idc 1), every u(n) field in range and every count within its array |
| SpsParse.GetHrd | h264bitstream/h264_stream.c:235-254 | whatever the bits, the count is clamped to 31 and schedules beyond it are zero |
| SpsParse.GetOrder | h264bitstream/h264_stream.c:100-120 | whatever the bits, the cycle count is clamped to 256 and offsets beyond it are zero |
| SpsParse.GetVui | h264bitstream/h264_stream.c:164-233 | whatever the bits, fields of absent VUI parts are zero and u(n) fields are in range |
| SpsReader.ReadProfile | h264bitstream/h264_stream.c:51-60 | profile block: returns the record and moves the cursor as the parse function on the bit string does, for every buffer content and cursor |
| SpsReader.ReadScalingList | h264bitstream/h264_stream.c:146-162 | scaling list loop with lastScale and nextScale: returns the record and moves the cursor as the parse function on the bit string does, for every buffer content and cursor |
| SpsReader.ReadLists | h264bitstream/h264_stream.c:81-97 | loop over the scaling lists: returns the record and moves the cursor as the parse function on the bit string does, for every buffer content and cursor |
| SpsReader.ReadHigh | h264bitstream/h264_stream.c:62-99 | high-profile block: returns the record and moves the cursor as the parse function on the bit string does, for every buffer content and cursor |
| SpsReader.ReadOffsets | h264bitstream/h264_stream.c:116-119 | loop over the offsets: returns the record and moves the cursor as the parse function on the bit string does, for every buffer content and cursor |
| SpsReader.ReadOrder | h264bitstream/h264_stream.c:100-120 | picture order count: returns the record and moves the cursor as the parse function on the bit string does, for every buffer content and cursor |
| SpsReader.ReadFrame | h264bitstream/h264_stream.c:121-130 | frame block: returns the record and moves the cursor as the parse function on the bit string does, for every buffer content and cursor |
| SpsReader.ReadCrop | h264bitstream/h264_stream.c:131-138 | cropping: returns the record and moves the cursor as the parse function on the bit string does, for every buffer content and cursor |
| SpsReader.ReadSched | h264bitstream/h264_stream.c:244-249 | loop over the schedules: returns the record and moves the cursor as the parse function on the bit string does, for every buffer content and cursor |
| SpsReader.ReadHrdParameters | h264bitstream/h264_stream.c:235-254 | HRD parameters: returns the record and moves the cursor as the parse function on the bit string does, for every buffer content and cursor |
| SpsReader.ReadAspect | h264bitstream/h264_stream.c:166-175 | aspect ratio: returns the record and moves the cursor as the parse function on the bit string does, for every buffer content and cursor |
| SpsReader.ReadOverscan | h264bitstream/h264_stream.c:176-180 | overscan: returns the record and moves the cursor as the parse function on the bit string does, for every buffer content and cursor |
| SpsReader.ReadSignal | h264bitstream/h264_stream.c:181-193 | video signal type: returns the record and moves the cursor as the parse function on the bit string does, for every buffer content and cursor |
| SpsReader.ReadChromaLoc | h264bitstream/h264_stream.c:194-199 | chroma location: returns the record and moves the cursor as the parse function on the bit string does, for every buffer content and cursor |
| SpsReader.ReadTiming | h264bitstream/h264_stream.c:200-206 | timing: returns the record and moves the cursor as the parse function on the bit string does, for every buffer content and cursor |
| SpsReader.ReadHrdPair | h264bitstream/h264_stream.c:207-220 | both HRDs: returns the record and moves the cursor as the parse function on the bit string does, for every buffer content and cursor |
| SpsReader.ReadRestriction | h264bitstream/h264_stream.c:222-232 | bitstream restriction: returns the record and moves the cursor as the parse function on the bit string does, for every buffer content and cursor |
| SpsReader.ReadVuiParameters | h264bitstream/h264_stream.c:164-233 | VUI parameters: returns the record and moves the cursor as the parse function on the bit string does, for every buffer content and cursor |
| SpsReader.ReadSeqParameterSetRbsp | h264bitstream/h264_stream.c:44-144 | the whole SPS: returns the record and moves the cursor as the parse function on the bit string does, for every buffer content and cursor |
| SpsReader.ReadRbspTrailingBits | h264bitstream/h264_stream.c:256-264 | skips one bit and then up to the byte boundary: the cursor ends at the next whole byte after its position |
| SpsWriter.WriteProfile | h264bitstream/h264_stream.c:307-316 | profile block: exactly the bits of the syntax table are added to what was recorded, and the buffer is the original overlaid with the record |
| SpsWriter.WriteScalingList | h264bitstream/h264_stream.c:398-434 | scaling list loop: exactly the bits of the syntax table are added to what was recorded, and the buffer is the original overlaid with the record |
| SpsWriter.AllSame | h264bitstream/h264_stream.c:412-418 | the inner loop finds out whether all remaining entries have one value |
| SpsWriter.WriteHigh | h264bitstream/h264_stream.c:318-355 | high-profile block: exactly the bits of the syntax table are added to what was recorded, and the buffer is the original overlaid with the record |
| SpsWriter.WriteOrder | h264bitstream/h264_stream.c:356-372 | picture order count: exactly the bits of the syntax table are added to what was recorded, and the buffer is the original overlaid with the record |
| SpsWriter.WriteFrame | h264bitstream/h264_stream.c:373-382 | frame block: exactly the bits of the syntax table are added to what was recorded, and the buffer is the original overlaid with the record |
| SpsWriter.WriteCrop | h264bitstream/h264_stream.c:383-390 | cropping: exactly the bits of the syntax table are added to what was recorded, and the buffer is the original overlaid with the record |
| SpsWriter.WriteHrdParameters | h264bitstream/h264_stream.c:507-522 | HRD parameters: exactly the bits of the syntax table are added to what was recorded, and the buffer is the original overlaid with the record |
| SpsWriter.WriteAspect | h264bitstream/h264_stream.c:438-447 | aspect ratio: exactly the bits of the syntax table are added to what was recorded, and the buffer is the original overlaid with the record |
| SpsWriter.WriteOverscan | h264bitstream/h264_stream.c:448-452 | overscan: exactly the bits of the syntax table are added to what was recorded, and the buffer is the original overlaid with the record |
| SpsWriter.WriteSignal | h264bitstream/h264_stream.c:453-465 | video signal type: exactly the bits of the syntax table are added to what was recorded, and the buffer is the original overlaid with the record |
| SpsWriter.WriteChromaLoc | h264bitstream/h264_stream.c:466-471 | chroma location: exactly the bits of the syntax table are added to what was recorded, and the buffer is the original overlaid with the record |
| SpsWriter.WriteTiming | h264bitstream/h264_stream.c:472-478 | timing: exactly the bits of the syntax table are added to what was recorded, and the buffer is the original overlaid with the record |
| SpsWriter.WriteHrdPair | h264bitstream/h264_stream.c:479-492 | both HRDs: exactly the bits of the syntax table are added to what was recorded, and the buffer is the original overlaid with the record |
| SpsWriter.WriteRestriction | h264bitstream/h264_stream.c:494-504 | bitstream restriction: exactly the bits of the syntax table are added to what was recorded, and the buffer is the original overlaid with the record |
| SpsWriter.WriteVuiParameters | h264bitstream/h264_stream.c:436-505 | VUI parameters: exactly the bits of the syntax table are added to what was recorded, and the buffer is the original overlaid with the record |
| SpsWriter.WriteSeqParameterSetRbsp | h264bitstream/h264_stream.c:303-396 | the whole SPS: exactly the bits of the syntax table are added to what was recorded, and the buffer is the original overlaid with the record |
| SpsWriter.WriteRbspTrailingBits | h264bitstream/h264_stream.c:524-532 | trailing bits: exactly the bits of the syntax table are added to what was recorded, and the buffer is the original overlaid with the record |
| SpsSyntax.RbspBits | h264bitstream/h264_stream.c:266-283 | header, SPS and trailing bits fill whole bytes |
| SpsSyntax.PutTrailing | h264bitstream/h264_stream.c:524-532 | a stop bit and zeros fill whole bytes |
| NalFraming.RbspToNal | h264bitstream/h264_nal.c:63-100 | fails exactly when the escaped payload does not fit; otherwise 0x00 at index 0, the escaped payload from index 1 on, and every byte behind it unchanged |
| NalFraming.NalToRbsp | h264bitstream/h264_nal.c:102-151 | payload, its length and the number of bytes consumed are those of the specification, with every rejection |
| NalFraming.UnescapeEscape | h264bitstream/h264_nal.c:63-151 | nal_to_rbsp undoes rbsp_to_nal for every byte sequence, from any zero count |
| NalFraming.EscapeUnescape | h264bitstream/h264_nal.c:102-151 | whenever nal_to_rbsp accepts, escaping its output gives back exactly the bytes it consumed, and only an 0x03 that ends the unit after two zeros is left over |
| NalFraming.EmulationPreventionBijection | h264bitstream/h264_nal.c:63-151 | the NAL units that are accepted and consumed whole are exactly the escaped payloads |
| NalFraming.EscapeFirst | h264bitstream/h264_nal.c:78-84 | the first 03 is put exactly before the first byte up to 03 that follows two zeros, and the rest is escaped as if nothing stood before it |
| NalFraming.EscapeNothingNeeded | h264bitstream/h264_nal.c:78-100 | a payload without such a byte is sent as it is |
| NalFraming.RejectedExactly | h264bitstream/h264_nal.c:112-140 | given room, nal_to_rbsp rejects exactly the units in which two zeros are followed by 00, 01 or 02, or by 03 and then a byte over 03 |
| NalFraming.EscapeClean | h264bitstream/h264_nal.c:78-84 | an escaped payload holds no 00 00 00, 00 00 01 or 00 00 02, even together with zeros before it |
| NalFraming.EscapeLength | h264bitstream/h264_nal.c:63-100 | at most one byte is added for every two bytes after the first |
| NalFraming.EscapeLengthTight | h264bitstream/h264_nal.c:63-100 | all zeros need exactly that many |
| NalFraming.EscapeLast | h264bitstream/h264_nal.c:63-100 | escaping keeps the last byte |
| NalFraming.FindNalUnit | h264bitstream/h264_nal.c:21-61 | the first start code and the next 00 00 00 or 00 00 01 after it, or the end of the buffer; 0 when there is none |
| NalFraming.FramingExact | h264bitstream/h264_nal.c:21-61 | a payload without emulated start codes and with a nonzero last byte is found with exactly its bytes behind a start code |
| BitCursor.Bs.constructor | h264bitstream/bs.h:52-59 | a cursor at bit 0 of the given buffer |
| BitCursor.Bs.ByteAligned | h264bitstream/bs.h:73-76 | true exactly at a multiple of eight bits |
| BitCursor.Bs.OverrunExact | h264bitstream/bs.h:80 | at a byte boundary, bs_overrun holds exactly when some bit past the end was read or written |
| BitCursor.Bs.BytePos | h264bitstream/bs.h:82 | the byte position, not past the end |
| BitCursor.Bs.ReadU1 | h264bitstream/bs.h:84-98 | the bit at the position (0 past the end), one position further |
| BitCursor.Bs.SkipU1 | h264bitstream/bs.h:100-104 | one position further |
| BitCursor.Bs.ReadU | h264bitstream/bs.h:106-115 | the n bits at the position as a number, at any alignment and past the end |
| BitCursor.Bs.SkipU | h264bitstream/bs.h:117-124 | n positions further |
| BitCursor.Bs.ReadU8 | h264bitstream/bs.h:126-137 | the fast byte read equals eight single bit reads in every cursor state |
| BitCursor.Bs.ReadZeros | h264bitstream/bs.h:144-147 | the zero count of an Exp-Golomb code: up to 32, a one bit or the end |
| BitCursor.Bs.ReadUe | h264bitstream/bs.h:139-155 | the value and the new position of the specification of ue(v), for every buffer content |
| BitCursor.Bs.ReadSe | h264bitstream/bs.h:157-169 | the value and the new position of the specification of se(v), with the wrap-around of int32_t |
| BitCursor.Bs.StoreBit | h264bitstream/bs.h:175-179 | one bit of the bit string is replaced when it lies in the buffer; nothing else changes |
| BitCursor.Bs.WriteU1 | h264bitstream/bs.h:171-182 | the bit is written at the position, every other bit and byte is unchanged, one position further |
| BitCursor.Bs.WriteU | h264bitstream/bs.h:184-191 | n bits are written at the position at any alignment, every other bit is unchanged |
| BitCursor.Bs.WriteU8 | h264bitstream/bs.h:193-204 | the fast byte write equals eight single bit writes in every cursor state |
| BitCursor.Bs.WriteUe | h264bitstream/bs.h:206-261 | the Exp-Golomb codeword is written at the position, with the length from the table; the largest value wraps and becomes one zero bit |
| BitCursor.Bs.WriteSe | h264bitstream/bs.h:263-273 | the codeword of the signed value is written at the position; the smallest value wraps to codeNum 0 |
| BitCursor.WrittenCode | h264bitstream/bs.h:206-261 | the low 2 * len - 1 bits of the incremented value, len from the table, are the codeword, for every value the writer can write |
| BitCursor.TableLengthIsBitLength | h264bitstream/bs.h:208-257 | the table lookup gives the bit length of every 32-bit value but 0 |
| BitCursor.UeShiftsInRange | h264bitstream/bs.h:240-259 | for every 32-bit value: all shifts stay below 32 exactly for the values up to 65534 and for 2^32 - 1 |
| Codes.WriteReadU | h264bitstream/bs.h:106-191 | write_u then read_u at any alignment gives v modulo 2^n, for every n up to 32 |
| Codes.WriteReadUe | h264bitstream/bs.h:139-261 | read_ue undoes write_ue for every v up to 65534 at any alignment, given room |
| Codes.WriteReadSe | h264bitstream/bs.h:157-273 | read_se undoes write_se for every v with absolute value up to 32767 at any alignment, given room |
| Codes.ReadExpGolomb | h264bitstream/bs.h:139-155 | the same wherever a codeword stands, with the end position |
| Codes.ReadU | h264bitstream/bs.h:106-115 | a u(n) field read where it stands gives the value modulo 2^n, and the value itself when it fits |
| Codes.ReadBack | h264bitstream/bs.h:84-169 | the three statements for fields that follow any written prefix |
| Codes.CodeWritten | h264bitstream/bs.h:139-261 | a code of at most 15 zeros, wherever it stands, is the codeword of the value that is read from it |
| Codes.WriteBack | h264bitstream/bs.h:84-273 | each descriptor writes back the bits it read, behind any prefix that agrees with the bits |
| Codes.BitMeaning | h264bitstream/bs.h:84-98 | bit k of a byte, counted from the most significant one, is the quotient by 2^(7-k) modulo 2 |
| Codes.UeMeaning | h264bitstream/bs.h:139-155 | z zeros, a one and z bits read as 2^z - 1 plus the number of those bits; 32 zeros read as 0; a code cut short by the end of the buffer reads as if zeros followed |
| Codes.SeMeaning | h264bitstream/bs.h:157-169 | the codes 1, 2, 3, 4, ... read as 1, -1, 2, -2, ... |
| LeaseRuns.CrashSafeLease | coordinator/store.go:100-309 | in every reachable state and every continuation (calls, failed writes, restarts, endpoint updates, time): once CreateOrRecover, AdminAssign or Heartbeat has returned a lease with expiry e and no error, no call returns another lease on its VM before e unless the lease was released, admin-released, or dropped because its VM was missing or unavailable |
| LeaseRuns.ExclusiveAllocation | coordinator/store.go:124-169 | over every run: keys are lease ids, at most one lease per VM and per (owner, device), and the times of any two leases ever granted on one VM do not overlap, also across restarts |
| LeaseRuns.StepKeepsInv | coordinator/store.go:124-318 | every allowed step keeps the invariant of runs |
| LeaseRuns.RunKeepsInv | coordinator/store.go:124-318 | so does every run |
| LeaseRuns.EveryStepGood | coordinator/store.go:124-309 | every call adds a lease only with a fresh id on a VM and client that have none, or only removes and extends; a lease it returns is in memory and in the file; unexpired leases disappear only when they are revoked |
| LeaseRuns.CreateSteps | coordinator/store.go:124-169 | the same for CreateOrRecover |
| LeaseRuns.RecoverSteps | coordinator/store.go:130-143 | the same for its recovery branch |
| LeaseRuns.AssignSteps | coordinator/store.go:274-309 | the same for AdminAssign |
| LeaseRuns.PromisedUnbroken | coordinator/store.go:124-204 | a promise recorded in the history is not broken by any continuation |
| LeaseRuns.PromiseSurvivesRestart | coordinator/store.go:100-122 | an unexpired promise survives a restart |
| LeaseRuns.RenewalExpiry | coordinator/store.go:133-179 | a returned lease always expires one time-to-live after the call |
| LeaseProperties.SyncedStep | coordinator/store.go:329-346 | disk and memory: every call leaves the file equal to memory or as it was; when file and memory agreed, they agree afterwards exactly if the file was replaced or no unexpired lease changed; the only calls after which they may not are failed writes of Heartbeat, Release and AdminRelease and a CreateOrRecover that had a lease and failed |
| LeaseProperties.PersistRestores | coordinator/store.go:329-346 | whatever the file held before, a call that returns a granted or renewed lease, or ends one, without an error has made the file equal to memory |
| LeaseProperties.RestartLosesNothing | coordinator/store.go:100-122 | over whole runs: from any reachable state whose file equals memory, as long as no call was of those lossy kinds, a restart at any later time gives exactly the leases of memory that are unexpired then |
| LeaseProperties.SyncedLoad | coordinator/store.go:100-122 | a file that agrees now gives, at any later time, the leases of memory that are unexpired then |
| LeaseProperties.MemoryExpiry | coordinator/store.go:171-261 | for every unexpired lease in memory of every state of a run: no continuation grants its VM to another lease before its expiry, unless it is ended on purpose, if and only if the state file holds the lease with at least that expiry |
| LeaseProperties.ReportedExpiry | coordinator/store.go:206-261 | so the expiry that LeaseVM, AdminLease or AdminSnapshot reports in any reachable state is as safe as a granted one exactly under that condition |
| LeaseProperties.ReportedNotDurable | coordinator/store.go:171-224 | a concrete run in which LeaseVM reports an expiry that the file does not hold |
| LeaseProperties.NotDurableBroken | coordinator/store.go:100-169 | when the file is behind, a restart and a new client take the VM before that expiry |
| LeaseProperties.DurableUnbroken | coordinator/store.go:100-169 | otherwise no continuation breaks it |
| LeaseProperties.AllocatorExact | coordinator/store.go:124-169 | with distinct VM ids and whatever the map order: the client's own usable lease is recovered together with its VM, which can serve; otherwise the first available VM in pool order that no unexpired lease holds is granted; exhaustion is reported exactly when neither exists |
| LeaseLaws.AnswerServes | coordinator/store.go:124-309 | for every call: a granted lease comes with a VM of the pool that has the id of the lease and can serve (enabled, with an address and a port from 1 to 65535); LeaseVM names the first VM with that id, and it can serve; AdminLease names the first VM with that id |
| LeaseLaws.CreateExact | coordinator/store.go:124-169 | CreateOrRecover, lease by lease, also with equal VM ids: an unexpired lease of the client whose VM can serve is extended and comes back with that VM; otherwise the client's lease goes and the first VM that can serve and that no other client holds is granted with a new lease of exactly these fields; every other unexpired lease stays as it was; the file is written exactly when a lease is returned |
| LeaseLaws.RecoverLaw | coordinator/store.go:130-143 | the recovery case: lease, VM, memory and file, with and without a successful write |
| LeaseLaws.AllocateLaw | coordinator/store.go:145-169 | the allocation case: VM, fields of the lease, memory and file, and each error |
| LeaseLaws.HeartbeatExact | coordinator/store.go:171-189 | only the owner extends, and only an unexpired lease, to one time-to-live from now; each error; every other lease; the file |
| LeaseLaws.ReleaseExact | coordinator/store.go:191-204 | only the owner removes the lease; an unknown id is no error; every other lease; the file |
| LeaseLaws.LeaseVMExact | coordinator/store.go:206-224 | only the owner of an unexpired lease is told its VM, and only while that can serve; nothing but expired leases goes |
| LeaseLaws.AdminSnapshotExact | coordinator/store.go:226-244 | all VMs and all unexpired leases; the file is written exactly when a lease has expired, and only then can the call fail |
| LeaseLaws.AdminLeaseExact | coordinator/store.go:246-261 | any unexpired lease with the first VM of its id; each error |
| LeaseLaws.AdminReleaseExact | coordinator/store.go:263-272 | the lease goes, whoever owns it; each error; every other lease; the file |
| LeaseLaws.AdminAssignExact | coordinator/store.go:274-309 | the VM is assigned exactly when it can serve, neither it nor the client has an unexpired lease, and id and write succeed, with a lease of exactly these fields; each error in its order; every other lease; the file |
| LeaseLaws.UpdateExact | coordinator/store.go:57-65 | every VM with an update becomes it in its place, nothing else changes |
| LeaseLaws.LoadExact | coordinator/store.go:100-122 | a start has exactly the unexpired leases of the file, as they stand there |
| LeaseLaws.FindFirst | coordinator/store.go:320-327 | the lookup by id gives the first VM with that id |
| LeaseStore.FindVM | coordinator/store.go:320-327 | the VM with the id, or none exists |
| LeaseStore.FirstFree | coordinator/store.go:149-153 | the first VM of the list that is available and not occupied, or none is |
| LeaseStore.ClientLeaseUnique | coordinator/store.go:131-132 | with exclusive leases the loop over the map can meet only one lease of the client |
| LeaseStore.Store.constructor | coordinator/store.go:90-98 | an empty map over the given file |
| LeaseStore.Store.LoadFile | coordinator/store.go:100-122 | unexpired leases of the file are added; an unreadable file changes nothing |
| LeaseStore.Store.ReapLocked | coordinator/store.go:311-318 | exactly the expired leases are removed |
| LeaseStore.Store.VmById | coordinator/store.go:320-327 | the first VM with the id |
| LeaseStore.Store.FindClient | coordinator/store.go:131-132 | some lease of the client, or there is none |
| LeaseStore.Store.OccupiedIds | coordinator/store.go:145-148 | exactly the VMs of the leases in the map |
| LeaseStore.Store.PersistLocked | coordinator/store.go:329-346 | the file becomes the map, or stays as it was |
| LeaseStore.Store.CreateOrRecoverLease | coordinator/store.go:124-169 | new state and result are those of the specification for some lease of the client, whatever the map; with one lease per client that is the specification itself |
| LeaseStore.Store.RecoverLease | coordinator/store.go:133-143 | the lease is extended and persisted, or dropped for a new one when its VM cannot be used |
| LeaseStore.Store.AllocateFirst | coordinator/store.go:145-168 | the allocation loop: new state and result are those of the specification, with the roll-back after a failed write |
| LeaseStore.Store.HeartbeatLease | coordinator/store.go:171-189 | new state and result are those of the specification |
| LeaseStore.Store.ReleaseLease | coordinator/store.go:191-204 | new state and result are those of the specification |
| LeaseStore.Store.LeaseAndVM | coordinator/store.go:206-224 | new state and result are those of the specification |
| LeaseStore.Store.SnapshotForAdmin | coordinator/store.go:226-244 | new state and result are those of the specification |
| LeaseStore.Store.LeaseForAdmin | coordinator/store.go:246-261 | new state and result are those of the specification |
| LeaseStore.Store.ReleaseForAdmin | coordinator/store.go:263-272 | new state and result are those of the specification |
| LeaseStore.Store.AssignForAdmin | coordinator/store.go:274-309 | new state and result are those of the specification for one of the two orders in which the conflicts can be met |
| LeaseStore.Store.AssignConflict | coordinator/store.go:287-294 | no conflict exactly when VM and client are free; otherwise one that holds |
| LeaseStore.Store.Update | coordinator/store.go:57-65 | every VM with an update takes it, the order stays |
| AuthRuns.LoginSingleUse | coordinator/auth.go:98-226 | in every reachable state, over every interleaving: a state is accepted by at most one callback, a login fails or gets one token and never both, a token is returned by at most one poll, each of these rests on the step before it, and every entry of stateToRequest points to a pending login with that state, no token and no error |
| AuthRuns.LoginCompletes | coordinator/auth.go:98-226 | from every reachable state, whatever other clients do in between: when Start accepts a login, a callback with its state within ten minutes is accepted, and when the exchange succeeds in time a poll in time returns that token and profile |
| AuthRuns.CallbackCompletes | coordinator/auth.go:142-226 | the same from the moment a login awaits its callback |
| AuthLaws.PollExact | coordinator/auth.go:142-173 | after every run, the answer to a poll is fixed by the life of that login: not found exactly when it was never started, has expired or was answered for good; pending, with the clock reading of Start plus ten minutes, exactly while it is not settled; failed, with the reason of the exchange that failed, or authenticated, with its token and profile, exactly once |
| AuthLaws.CallbackExact | coordinator/auth.go:175-190 | after every run, a callback is accepted for a login exactly when it brings the state of that login for the first time and before the login expires |
| AuthLaws.StepMatches | coordinator/auth.go:98-283 | every step changes the maps of the broker for each login as the life of that login says, and leaves the other logins alone |
| AuthLaws.StartExact | coordinator/auth.go:98-140 | Start answers with the two ids and ten minutes from its clock reading exactly when there is a device id that is not blank and both ids could be made; otherwise it changes nothing |
| AuthLaws.BlankExact | coordinator/auth.go:103-106 | a device id is blank when it has nothing but white space, listed by code point |
| AuthLaws.SessionExact | coordinator/auth.go:208-225 | a token of a login opens a session of its profile for twelve hours; when the login is gone there is none |
| AuthLaws.DevExact | coordinator/auth.go:228-257 | a development login needs the switch, a device and a token; its owner is the device, for twelve hours |
| AuthRuns.StartStage | coordinator/auth.go:118-138 | Start replies with the ids and the expiry, and the login then awaits its callback |
| AuthRuns.TokenExact | coordinator/auth.go:272-283 | AuthenticateToken returns an owner only for an unexpired session opened for that token, and finds every session that is unexpired at the time of the call (hash without collisions) |
| AuthRuns.ReturnedTokenWorks | coordinator/auth.go:215-223 | a token that a poll returned stands for the profile that came with it until its session expires |
| AuthRuns.StepKeepsInv | coordinator/auth.go:98-283 | every allowed step keeps the invariant of runs |
| AuthRuns.StepKeepsSessions | coordinator/auth.go:215-283 | every step keeps exactly the unexpired sessions that were opened, each under the hash of its token |
| AuthRuns.StageStays | coordinator/auth.go:98-283 | no step about other logins touches an unexpired login or its state |
| AuthRuns.StartKeeps | coordinator/auth.go:118-127 | Start keeps the invariant |
| AuthRuns.StatusKeeps | coordinator/auth.go:142-169 | Status keeps the invariant |
| AuthRuns.BeginKeeps | coordinator/auth.go:175-190 | the first lock section of Callback keeps the invariant |
| AuthRuns.FinishKeeps | coordinator/auth.go:191-225 | the end of Callback keeps the invariant |
| AuthRuns.CleanupSmaller | coordinator/auth.go:339-351 | cleanup drops an expired login together with its state, so that no state is left without its login |
| Auth.AuthBroker.constructor | coordinator/auth.go:67-81 | empty maps |
| Auth.AuthBroker.CleanupLocked | coordinator/auth.go:339-351 | exactly the expired logins, their states and the expired sessions are removed |
| Auth.AuthBroker.DropExpiredLogins | coordinator/auth.go:340-345 | the first loop: expired logins leave with their states |
| Auth.AuthBroker.DropExpiredSessions | coordinator/auth.go:346-350 | the second loop: expired sessions leave |
| Auth.AuthBroker.StartLogin | coordinator/auth.go:98-140 | new state and reply are those of the specification |
| Auth.AuthBroker.LoginStatus | coordinator/auth.go:142-173 | new state and reply are those of the specification |
| Auth.AuthBroker.BeginCallback | coordinator/auth.go:175-190 | the state is consumed before the expiry test; new state and reply are those of the specification |
| Auth.AuthBroker.FailPending | coordinator/auth.go:331-337 | the error is recorded when the login is still pending |
| Auth.AuthBroker.FinishCallback | coordinator/auth.go:191-226 | new state and reply are those of the specification |
| Auth.AuthBroker.DevelopmentLogin | coordinator/auth.go:228-257 | new state and reply are those of the specification |
| Auth.AuthBroker.AuthenticateToken | coordinator/auth.go:272-283 | cleanup, then the owner of an unexpired session |
| RelayRuns.TcpPipe | app/backend/relaybridge.cpp:386-470 | in every run with any chunking: bytes read locally are bytes written to the VM, then in writeAll, then in the WebSocket, then pending, in order, while the WebSocket is intact, and a front part of them at any time; pending data fits one message; the coordinator rejects a message only if one local read was over the limit; towards the client a front part arrives, and what has arrived with what is under way is all that was read while the WebSocket is intact and no loop failed; a close frame for an ended stream is the last frame, behind all bytes read, and once it has arrived the whole stream has |
| RelayRuns.ChunkExact | app/backend/relaybridge.cpp:394-406 | a local read in any run: the tunnel closes in that step exactly when it is not connected and more than 1048576 bytes would wait; otherwise WebSocket and connection stay as they were and the bytes stand behind all that was read before, sent or waiting (a WebSocket that broke unnoticed swallows them) |
| RelayRuns.ClosesExactly | app/backend/relaybridge.cpp:386-470 | an open tunnel closes exactly when the local socket or the WebSocket goes, when it gets a close frame, or when such a read comes |
| RelayRuns.ConnectedExactly | app/backend/relaybridge.cpp:409-451 | it is connected from the connected() signal until it closes or the closing handshake begins, and a closed one stays closed |
| RelayRuns.UpExact | app/backend/relaybridge.cpp:409-414 | when the WebSocket connects, what waits becomes one message |
| RelayRuns.LoopsEndExactly | coordinator/relay.go:144-178 | the loop that reads the WebSocket ends exactly with a failed read, a failed write or a message over 1048576 bytes; the loop that reads the VM with the error of a read or a message that is not taken |
| RelayRuns.WriteAllIsSteps | coordinator/relay.go:246-255 | a run of writeAll is a sequence of write steps that leads to the state it leaves |
| RelayRuns.ClientLoopIsSteps | coordinator/relay.go:146-161 | a run of the loop that reads the WebSocket, as ClientToUpstream is proved to run, is a sequence of receive and write steps |
| RelayRuns.UpstreamLoopIsSteps | coordinator/relay.go:162-178 | a run of the loop that reads the VM, as UpstreamToClient is proved to run, is a sequence of read steps with the same messages and the same end |
| RelayRuns.StepForward | coordinator/relay.go:144-161 | every step keeps the order and completeness of bytes towards the VM |
| RelayRuns.StepBackward | coordinator/relay.go:162-200 | every step keeps the order and completeness of bytes towards the client, and a close frame is the last frame |
| RelayRuns.CloseBackward | coordinator/relay.go:180-190 | the close frame of an ended stream is placed behind all bytes read from the VM |
| RelayRuns.DeliverBackward | app/backend/relaybridge.cpp:415-451 | delivering frames in order keeps this |
| RelayRuns.ChunkForward | app/backend/relaybridge.cpp:394-406 | a local read keeps the order of bytes, connected or pending |
| RelayRuns.UpForward | app/backend/relaybridge.cpp:409-414 | flushing the pending bytes when the WebSocket connects keeps the order |
| RelayTcp.WriteAll | coordinator/relay.go:246-255 | whatever the single writes do, a front part of the payload is written in order, all of it on success; how much, and what is left of the results, is a function of payload and results |
| RelayTcp.WriteAllExact | coordinator/relay.go:246-255 | writeAll succeeds exactly when some writes from the first on all succeed and together take the payload |
| RelayTcp.WantedExact | coordinator/relay.go:146-161 | what the messages ask for ends before the first one over 1048576 bytes |
| RelayTcp.LoopSucceeds | coordinator/relay.go:146-161 | a connection that takes every write whole gets all of it |
| RelayTcp.ForwardedExact | coordinator/relay.go:162-178 | every read that brought data becomes one message and the loop ends as the reads do, unless the WebSocket takes fewer messages: then it ends with a failure after those |
| RelayTcp.ClientToUpstream | coordinator/relay.go:146-161 | exactly the bytes of the outcome function are written in order: a front part of the binary messages up to the first one over the limit, all of it when no write failed |
| RelayTcp.UpstreamToClient | coordinator/relay.go:162-178 | messages and end are those of the specification: they carry, in order, a front part of what was read, all of it unless a message was not taken; no message is empty or over 64 KiB |
| RelayTcp.WantedAll | coordinator/relay.go:146-161 | the loop writes a front part of what the messages ask for, all of it when no write failed |
| RelayTcp.ForwardedData | coordinator/relay.go:162-178 | the messages carry a front part of the data, all of it unless one was not taken |
| RelayTcp.Conn.Write | coordinator/relay.go:246-255 | a write takes some front part of its argument |
| RelayTcp.TcpTunnel.constructor | app/backend/relaybridge.cpp:388-392 | an open tunnel, not connected, with nothing pending |
| RelayTcp.TcpTunnel.CloseTcpTunnel | app/backend/relaybridge.cpp:460-470 | closes once |
| RelayTcp.TcpTunnel.OnReadyRead | app/backend/relaybridge.cpp:394-406 | sent at once, or kept while it fits 1 MiB, or the tunnel is closed |
| RelayTcp.TcpTunnel.OnConnected | app/backend/relaybridge.cpp:409-414 | pending bytes become one message |
| RelayTcp.TcpTunnel.OnBinaryMessage | app/backend/relaybridge.cpp:415-424 | written to the local socket while it is connected |
| RelayTcp.TcpTunnel.OnDisconnected | app/backend/relaybridge.cpp:425-451 | closing, with what was written to the local socket kept |
| RelayUdp.UdpQueue | app/backend/relaybridge.cpp:168-187 | in every run, with WebSockets coming up, closing and going down at any time: sent messages are arrived datagrams in order, each at most once; the queue is exactly the newest 256 (or all) of those after the last one sent, so it is empty while connected; datagrams are skipped only where 256 newer ones were sent instead; while the bridge runs, queued datagrams have a WebSocket or a running timer that opens one |
| RelayUdp.SocketExact | app/backend/relaybridge.cpp:472-501 | which WebSocket the endpoint has after a step, and whether it is connected: a queued datagram and a retry open one exactly when there is none and the bridge runs, and only its own end takes it away |
| RelayUdp.TimerExact | app/backend/relaybridge.cpp:492-501 | a timer is started exactly when the current WebSocket goes while the bridge runs and something is queued |
| RelayUdp.StepForgetsNothing | app/backend/relaybridge.cpp:472-501 | no step leaves queued datagrams without WebSocket and timer |
| RelayUdp.StepKeepsInv | app/backend/relaybridge.cpp:472-507 | every step keeps this |
| RelayUdp.SendRest | app/backend/relaybridge.cpp:480-484 | a flush continues the order |
| RelayUdp.SendFull | app/backend/relaybridge.cpp:178-181 | a flush after a loss sends a whole queue |
| RelayUdp.NewestMore | app/backend/relaybridge.cpp:178-181 | dropping the oldest of a full queue keeps the newest |
| RelayUdp.UdpEndpoint.constructor | app/backend/relaybridge.cpp:57-65 | an endpoint without WebSocket and with an empty queue |
| RelayUdp.UdpEndpoint.ReadyRead | app/backend/relaybridge.cpp:168-187 | each datagram of the loop is sent or queued as in the specification |
| RelayUdp.UdpEndpoint.OpenUdpTunnel | app/backend/relaybridge.cpp:472-479 | a WebSocket is created when there is none and the bridge runs |
| RelayUdp.UdpEndpoint.OnConnected | app/backend/relaybridge.cpp:480-484 | the queue is sent in order by the current WebSocket only |
| RelayUdp.UdpEndpoint.OnDisconnected | app/backend/relaybridge.cpp:492-501 | the current WebSocket is forgotten; a retry is due when something is queued |
| AppGrid.ReconcileExact | app/gui/appmodel.cpp:148-206 | updateAppList ends with the new visible list, as its assertion claims, exactly when the apps that stay keep their relative order and no new app stands before one that stays with an equal lower-cased name |
| AppGrid.StrictNamesReach | app/gui/appmodel.cpp:148-206 | so always when both lists are strictly sorted by lower-cased name and no app that stays changes that name |
| AppGrid.TieNotReached | app/gui/appmodel.cpp:148-206 | a concrete pair of sorted lists with distinct ids, with two equal names, for which the final assertion fails |
| AppGrid.SwapNotReached | app/gui/appmodel.cpp:148-206 | two apps that exchange their names: the result shows one of them twice |
| AppGrid.AddAllKeeps | app/gui/appmodel.cpp:182-203 | while the result has distinct ids, insertions keep the order of the apps that are already shown |
| AppGrid.VisibleExact | app/gui/appmodel.cpp:132-146 | exactly the apps that are not hidden, or asked for, or on screen |
| AppGrid.VisibleConcat | app/gui/appmodel.cpp:132-146 | each app is judged by itself, and the order stays |
| AppGrid.VisibleKeeps | app/gui/appmodel.cpp:132-146 | filtering keeps ids distinct and the list sorted |
| AppGrid.ReplayConcat | app/gui/appmodel.cpp:148-206 | announced edits replay in sequence |
| AppGrid.AnnounceMore | app/gui/appmodel.cpp:148-206 | so do edits of which none is idle |
| AppGrid.ReconcileContent | app/gui/appmodel.cpp:148-206 | whatever was shown and whatever the order: the grid then holds apps of the new list only, with their new data, and every id of the new list |
| AppGrid.InsertPosExact | app/gui/appmodel.cpp:182-198 | a new app goes before the first app with a larger name, or to the end, and is not added when its id is met before that |
| AppGrid.SurvivorOrder | app/gui/appmodel.cpp:154-180 | the apps that stay keep their order |
| AppGrid.AppModel.constructor | app/gui/appmodel.cpp:11-21 | the grid after the first update: the reconciliation of an empty grid with the list of the computer |
| AppGrid.FirstListReached | app/gui/appmodel.cpp:11-21 | a sorted list with distinct ids is shown at once as it is |
| AppGrid.ServerListShown | app/gui/appmodel.cpp:148-206 | from the server to the grid: whatever was known and shown, after a server list with distinct ids the grid shows exactly the visible part of the merged list if and only if the apps that stay keep their order and no tie comes ahead of them |
| AppGrid.AppModel.IsAppCurrentlyVisible | app/gui/appmodel.cpp:121-130 | whether an app with this id is shown |
| AppGrid.AppModel.GetVisibleApps | app/gui/appmodel.cpp:132-146 | the filtered list, in order |
| AppGrid.AppModel.UpdateAppList | app/gui/appmodel.cpp:148-206 | the new visible list is the reconciliation of the old one with the filtered new one, and replaying the announced edits on the old list gives the same list, each edit changing it |
| AppGrid.AppModel.RemoveAndUpdate | app/gui/appmodel.cpp:154-180 | the first loop, in place, with its edits |
| AppGrid.AppModel.AddNew | app/gui/appmodel.cpp:182-203 | the second loop, in place, with its edits |
| AppList.MergeKeepsFlags | app/backend/nvcomputer.cpp:465-483 | when the lists differ, the result is a sorted permutation of the server list in which each app known before keeps its hidden and directLaunch flags |
| AppList.MergeExact | app/backend/nvcomputer.cpp:465-483 | the whole result for any two different lists: the stable sort of the server's list in which an app that was not known is as the server sent it and an app that was known has the two flags of its last known entry |
| AppList.NewAppKept | app/backend/nvcomputer.cpp:465-483 | a new app arrives exactly as the server sent it |
| AppList.BeforeExact | app/backend/nvcomputer.cpp:123-128 | the order compares lower-cased names character by character, a prefix coming first |
| AppList.MergeSorted | app/backend/nvcomputer.cpp:465-483 | a sorted list stays sorted, whatever the server sends, and distinct ids of the server list stay distinct |
| AppList.MergeIdempotent | app/backend/nvcomputer.cpp:465-483 | applying the same server list again changes nothing |
| AppList.StableSortIs | app/backend/nvcomputer.cpp:123-128 | the sort is a stable sort by lower-cased name and a permutation |
| AppList.StableSortUnique | app/backend/nvcomputer.cpp:123-128 | there is only one list that is stably sorted |
| AppList.WithFlagsOf | app/backend/nvcomputer.cpp:470-479 | only the two flags change, and they are those of the known app |
| AppList.Computer.constructor | app/backend/nvcomputer.cpp:46-52 | the list from the settings, sorted |
| AppList.Computer.SortAppList | app/backend/nvcomputer.cpp:123-128 | the list becomes its stable sort |
| AppList.Computer.UpdateAppList | app/backend/nvcomputer.cpp:465-483 | the list becomes the merge; the result says whether the lists differed |
| AppList.Computer.CopyFlags | app/backend/nvcomputer.cpp:472-477 | every new app with the id takes over the flags, the others are unchanged |

## Left out

- HTTP handlers, JSON, cookies, the requests to the identity provider, Sunshine, mDNS and Cloudflare calls: their outcomes are parameters of the steps.
- Cryptography: tokens are fresh values and the hash of a token is any function, without collisions where a lemma says so.
- The JSON form of the state file: reading gives back what was written. Its creation of directories and the temporary file are one step that succeeds or leaves the old file.
- LeaseStore.Store.LoadFile: leases in the file are keyed by their id; a file edited by hand with two leases of one id is not modelled, nor is the clock reading taken anew for each lease.
- VM fields that no lease decision reads (discovery name, public address and port, API URL), ClientEndpoint and VMs.
- UpdateVMs with updates that change ids is allowed by the steps; only AllocatorExact needs distinct ids.
- The time to live is the same for all restarts of one run; the VM list of a restart is arbitrary.
- NewAuthBrokerFromEnvironment, ProfileForOwner, the callback page and the authorize URL.
- Memory management in the C code, null pointers, negative and zero sizes; buffers are arrays.
- sps_t is regrouped into records by syntax table; scaling lists 0 to 5 and 6 to 11 are one sequence.
- SpsCodec.H264Stream.WriteNalUnit: an SPS outside Writable is a precondition, because bs_write_u would shift by 32 or more, or loops would run past an array.
- BitCursor.Bs.ReadSe: the signed overflow of (r+1)/2 for code 2^31 - 1, undefined in C, is modelled as wrap-around.
- BitCursor.Bs.ReadU: n over 32 is a precondition for the same reason as in the writer.
- The build without FAST_U8, which takes the slow path that ReadU8 and WriteU8 equal.
- NalFraming.FindNalUnit: the second test for a start code in the C code can never fail, which its proof shows.
- AppList.Computer.SortAppList: std::stable_sort is modelled by the one list that is stably sorted; lower-casing is any function.
- AppModel rows other than the visible list (running state, box art, setAppHidden, setAppDirectLaunch) and the signals of the views.
- RelayRuns.TcpPipe: sockets deliver nothing more after they were aborted or closed, and the local socket is connected while the tunnel is open.
- The relay's port checks, TURN helper, keepalive, dial retries, deadlines and timers; a timer is an event that can happen at any time.
- relayUDP of the coordinator, which forwards each message as one datagram.
- RelayBridge::stop is one event of the datagram queue and an abort of a tunnel; deleting the objects is not modelled.
- DRM hooks, pairing, identity keys, settings, GUI state and gamepad code.
