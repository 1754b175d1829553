# Model of the audio server and its firmware

A Go server and C firmware move audio and control messages between them: the firmware captures
samples, filters and encodes them, queues packets and sends them as RTP; the server plays them in
order from a jitter buffer and records them; both speak a length-prefixed control protocol, and
each keeps a lifecycle for its streams. This project models those parts and proves what they keep,
over every run. `dafny verify dfyconfig.toml` checks all of it.

Where the source works by updating state, the model is a class or a method with the same fields,
branches and loops, proved against a specification on values; the theorems are about the
specification and carry over through the methods' postconditions. Goroutines and tasks are state
machines whose steps interleave freely.

- `SerialNumber`, `Playout`, `JitterSpec`, `JitterBuffer`, `JitterRefinement`, `JitterRuns`,
  `JitterOrder`, `JitterReordered`, `JitterCounters`: the jitter buffer. `Playout` is the intended behaviour over
  unbounded packet indices; the 16-bit buffer is shown to follow it inside a window, and whole runs
  are composed from there.
- `FrameSpec`, `FrameDecoders`: one pure parser for the control protocol, and both decoders and
  both encoders proved against it.
- `AudioKernel`: DC blocker, gain control and narrowing of the Opus task.
- `PcmRing`, `EncodedQueue`, `RingIndex`: the two circular buffers.
- `RtpPacket`, `RtpSender`, `EndToEnd`: packetizer, send task, and the composition from the encoder's
  queue through a lossy network to the jitter buffer's output.
- `OggCrc`, `OggCrcDivision`, `OggPage`, `OpusRecorder`: the recorder's files, and a reader for them.
- `StreamLifecycle`, `StreamServer`, `Server`: streams, registry and RTP bindings.
- `Correlation`, `Sessions`, `SessionManager`: request and reply correlation, live sessions.
- `DeviceState`, `AudioManager`, `Device`: the device state machine driven by the control task.
- `Bytes`, `Seqs`, `Wrappers`: byte layouts and small helpers.

## What the proofs found

- Playing in order is not unconditional. `nextPresentDue` looks at due packets only, so a packet that
  is buffered but not yet due can be jumped over and stepped back to later, which also adds almost
  65536 to `Lost` (`JitterRuns.OvertakenPacketExample`). `JitterOrder.RunOutputInOrderIff` gives the exact
  condition on the buffered deadlines for the output to be in order; `Playout.LeavesNoneBehindIff` and
  `Playout.OrderedForeverIff` give it for leaving no packet behind, at one Emit and at all later ones.
- `Reordered` counts a packet as overtaken when it is behind the largest kept before it, except that one
  exactly 32768 ahead of that is taken for behind; `JitterReordered.ReorderedCountsOvertakenIff` shows this
  is the only way the counter goes wrong on arrivals inside the window.
- Sixteen bits identify an arrival exactly in [expected - 32768, expected + 32768)
  (`JitterRefinement.WindowIsExact`, `JitterRefinement.IdentifiedIffInWindow`).
- The DC blocker's output is within 2^23 - 1 of its input from below and 2^23 - 992 from above, and
  both are reached; a removed bias settles in [-992, 0], not at zero.
- The gain never leaves [256, 13107], so the clamps of the stored gain never act; neither do the error
  branch of `rtp_serialize` in the send loop and the one of `eq_pop`.
- An Ogg page holds one packet of at most 65024 bytes: from 65025 on the segment count is truncated and
  the page cannot be read back (`OggPage.PacketPageReadsBackIff`). The receive path never gets there, since
  it reads datagrams into 2048 bytes (`server/internal/rtp/receiver.go:221`).
- One active stream per device holds when the starts of a device do not overlap; `StartStream` replaces
  the old stream and binds the new one without a lock around both, and two overlapping calls leave two
  live streams (`StreamServer.OverlappingStartsGiveTwo`; `StreamServer.OneThroughoutIff` is exact). A
  start whose send fails is removed from the registry while its object stays in STARTING
  (`StreamServer.LeftStartingIff`).
- On the device a running pipeline does not imply STREAMING. A Wi-Fi loss and return under a live control
  session leaves the state at WIFI_CONNECTED until the session ends, while the stream runs on
  (`Device.StreamOutlivesState`); and a start_stream before hello_ack is obeyed, so that a stream runs in
  IDLE with nothing having gone wrong (`Device.EarlyStartOutrunsState`). `Device.WholeSessionInStepIff` says
  exactly when the two agree at the end of a session.
- ESP_ERR_INVALID_STATE means "already streaming" and is also passed on from the capture driver, so such a
  failed start is retried once with nothing running; and a start with invalid parameters while a stream
  runs is rejected only after that stream was stopped (`Device.ReplyIsTrue`).

## Model

| member | source | states |
|---|---|---|
| EndToEnd.ServerPlaysSubsequenceOfEncoded | client/components/rtp_sender/rtp_sender.c:49-89 | end to end, over every interleaving of encoder pushes and send turns and every network that loses, repeats or reorders: under the window and the deadline condition the payloads played are a subsequence of the payloads the queue accepted |
| EndToEnd.PlaysWhatWasPopped | server/internal/rtp/jitter.go:72-146 | under the same conditions the output is the popped payloads at strictly increasing positions, each at most once, unaltered, carried by a successful send and returned at an Emit no sooner than the playout delay after a receipt of it; expected stands right behind the last packet played, or at the first arrival while nothing was, and Lost is exactly the number of numbered packets between the first arrival and that position that were not played, failed sends included |
| EndToEnd.OrderedPushesAreTimely | server/internal/rtp/jitter.go:96-102 | the conditions follow from conditions at the arrivals: inside the window, every Push leaves the deadline condition true, Emit times never go back |
| EndToEnd.ServerPlaysSubsequenceWhenPushesOrdered | client/components/rtp_sender/rtp_sender.c:49-89 | end to end with the conditions at the arrivals |
| EndToEnd.NothingLostPlaysEverything | server/internal/rtp/jitter.go:72-146 | end to end without loss: when the queue dropped nothing and is empty, every datagram arrives, however often and in whatever order, none is counted late and the buffer is empty, the payloads played are exactly the payloads the queue accepted, in order |
| EndToEnd.TimelyIsOrderly | server/internal/rtp/jitter.go:89-102 | arrivals drawn from the sent datagrams and inside the window meet the hypotheses of the jitter-buffer ordering theorem |
| EndToEnd.PoppedAreReturned | client/components/rtp_sender/rtp_sender.c:61-76 | what the send loop pops is what the queue returns, in order, whatever the lock and send outcomes |
| JitterRuns.OrderlyRunPlaysInOrder | server/internal/rtp/jitter.go:72-146 | over every run of Push and Emit with arrivals inside the window and deadlines in order at each Emit: output strictly increasing in true index across any number of wraps, each packet as it arrived, none before its deadline, nothing buffered skipped, and Lost exactly the indices passed and not played |
| JitterRuns.NothingWaitsPastItsDelay | server/internal/rtp/jitter.go:113-144 | after any orderly run and Emit, whatever is left in the buffer stands at or behind a packet, also left, whose receipt time plus the playout delay is still to come: nothing waits for anything else |
| JitterCounters.RejectionsAreCounted | server/internal/rtp/jitter.go:85-95 | over every run, whatever arrives: Duplicate is the number of arrivals whose number was buffered, Late the number of those not buffered and at least 32768 ahead of expected, that is behind it |
| JitterCounters.RejectionsByIndex | server/internal/rtp/jitter.go:85-95 | over every orderly run: Duplicate is the number of arrivals of a packet that was waiting to be played, Late the number of arrivals behind the last packet played or before the first to arrive |
| JitterCounters.NoneLateMeansAllPlayed | server/internal/rtp/jitter.go:72-146 | over every orderly run with Late zero that ends with an empty buffer, exactly the indices that arrived were played |
| JitterRuns.TickStrandsIff | server/internal/rtp/jitter.go:113-144 | the deadline condition is exact: after an orderly run the next Emit leaves a packet behind the playing position if and only if the condition fails |
| JitterOrder.RunOutputInOrderIff | server/internal/rtp/jitter.go:108-146 | exactly when the output is in order: after any orderly run, the packets played by the run, by an Emit and by a later one at which all that was buffered is due come in the order of their true indices if and only if the deadline condition held at the first of the two |
| JitterOrder.OutputInOrderIff | server/internal/rtp/jitter.go:113-144 | the same from any buffer that stands for true indices, for the output of the two Emits together |
| JitterReordered.ReorderedCountsOvertakenIff | server/internal/rtp/jitter.go:96-100 | over every orderly run, at every moment Reordered is the number of kept arrivals behind an earlier kept one and maxSeen is the largest kept, if and only if no kept arrival is exactly 32768 ahead of the largest kept before it |
| JitterRuns.PushOrderPlaysInOrder | server/internal/rtp/jitter.go:89-102 | the same playout theorem with its condition at the pushes: if every Push inside the window leaves the deadline condition true and Emit times never go back, every Emit plays in order and nothing buffered is ever skipped |
| JitterRuns.PushesOrderedIsOrderly | server/internal/rtp/jitter.go:96-146 | the condition at the pushes gives the condition at every Emit, at whatever later times Emit is called |
| JitterRuns.HeadsOkIffPushesOrdered | server/internal/rtp/jitter.go:96-102 | with receipt times that never go back, every Push leaves the condition true if and only if each kept arrival, seen alone, is no overtaken gap head |
| JitterRuns.HeadsOkPlaysInOrder | server/internal/rtp/jitter.go:89-102 | so arrival times alone decide: under that condition on each arrival playout is in order |
| JitterRuns.OvertakenPacketExample | server/internal/rtp/jitter.go:124-143 | without it order fails: three arrivals at increasing times play 100, 103, 102 and leave Lost at 65536 |
| JitterRuns.RunAccounts | server/internal/rtp/jitter.go:76-145 | with no assumption at all: every arrival is rejected, still buffered or played exactly once; Received = Duplicate + Late + buffered + emitted; expected = first + emitted + Lost modulo 65536 |
| JitterRefinement.EmitRefines | server/internal/rtp/jitter.go:108-146 | an Emit of the 16-bit buffer is one emission of playout over unbounded indices: same packets, same order, same Lost, and hook calls with the low 16 bits of the losses it reports |
| JitterRefinement.EmitStrandsNothingIff | server/internal/rtp/jitter.go:108-146 | an Emit leaves nothing behind if and only if the buffered deadlines satisfy the condition, and then plays exactly the due prefix |
| JitterRefinement.PushRefines | server/internal/rtp/jitter.go:76-102 | inside [expected - 32768, expected + 32768) a packet is classified by its true index: duplicate, late or kept |
| JitterRefinement.WindowIsExact | server/internal/rtp/jitter.go:85-102 | for every index less than 65536 from expected, the verdict duplicate, late or kept is the true one if and only if the index is inside the window |
| JitterRefinement.VerdictIsOfWindow | server/internal/rtp/jitter.go:85-102 | however far away a packet is, its verdict is the true one of the only index inside the window with the same low 16 bits |
| JitterRefinement.IdentifiedIffInWindow | server/internal/rtp/jitter.go:85-102 | less than 65536 behind and however far ahead, a packet gets its true verdict and the buffer still stands for what arrived if and only if it is inside the window |
| JitterRefinement.ReorderedIffInWindow | server/internal/rtp/jitter.go:96-100 | Reordered counts a kept packet exactly when it is behind the largest index kept, and maxSeen stays that maximum, if and only if the packet is inside the window around maxSeen |
| JitterRefinement.HooksReportLosses | server/internal/rtp/jitter.go:128-142 | the loss hook names, in increasing order and each once, exactly those numbers the Emit passed and did not play that are among the first 1024 of their gap: no more often than Lost grows, and as often while the Emit advances by at most 1024 |
| JitterRefinement.AllDueIsEmittedSorted | server/internal/rtp/jitter.go:108-146 | when everything buffered is due, Emit returns exactly the buffer sorted by forward distance, empties it and adds the span less the count to Lost |
| JitterRefinement.NothingStrandedForeverIff | server/internal/rtp/jitter.go:113-144 | no Emit of the 16-bit buffer at any later time strands a packet if and only if the buffered deadlines satisfy the gap-head condition |
| JitterRefinement.EmitExists | server/internal/rtp/jitter.go:113-145 | at any time and from any buffer a complete Emit exists |
| JitterRefinement.ScanFindsLeast | server/internal/rtp/jitter.go:165-180 | nextPresentDue keeps the least true index among the due packets visited so far |
| JitterRefinement.FullScanFindsLeast | server/internal/rtp/jitter.go:165-180 | and over the whole map returns the due packet of least index, or none when nothing is due |
| JitterRefinement.ScanIgnoresOrder | server/internal/rtp/jitter.go:167-175 | nextPresentDue gives the same packet for every map iteration order |
| JitterRefinement.StrandedIff | server/internal/rtp/jitter.go:89-102 | a buffered sequence number is behind the expected one by half-range order exactly when its true index is |
| Playout.EmissionIsOrdered | server/internal/rtp/jitter.go:113-145 | every emission plays due packets only, in strictly increasing order |
| Playout.EmissionAccounts | server/internal/rtp/jitter.go:113-145 | every emission removes exactly what it plays and counts lost exactly what it passes without playing |
| Playout.StopsAfterLast | server/internal/rtp/jitter.go:113-126 | an emission stops right after the last packet it played |
| Playout.LeavesNoneBehindIff | server/internal/rtp/jitter.go:113-144 | an emission leaves no packet behind if and only if the deadline condition holds at its time |
| Playout.EmitsDuePrefix | server/internal/rtp/jitter.go:113-145 | in order, an emission plays exactly the longest due prefix of the buffer, sorted |
| Playout.EmissionIsPlayPrefix | server/internal/rtp/jitter.go:113-145 | in order, state and output of an emission have a closed form |
| Playout.AllDueEmptiesBuffer | server/internal/rtp/jitter.go:108-146 | in playout over unbounded indices, when everything buffered is due, an emission plays the whole buffer in order, empties it and adds the span less the count to the losses |
| Playout.ReportedAreLost | server/internal/rtp/jitter.go:131-142 | in playout over unbounded indices, only lost indices are reported, each once and in order; all of them while an emission advances no further than the cap |
| Playout.ReportedIff | server/internal/rtp/jitter.go:131-142 | in playout over unbounded indices, a lost index is reported if and only if it is among the first cap indices from where the emission began or from behind a played one |
| Playout.OrderedForeverIff | server/internal/rtp/jitter.go:113-144 | no emission at any later time leaves a packet behind if and only if every packet heading a gap is due no later than those after it, unless something before it is |
| Playout.EmissionExists | server/internal/rtp/jitter.go:113-145 | at any time there is a complete emission from any state |
| Playout.PlayPrefixKeepsGapHeads | server/internal/rtp/jitter.go:113-144 | the closed form of an Emit keeps that condition for every later time |
| Playout.EmitKeepsGapHeads | server/internal/rtp/jitter.go:113-144 | an Emit keeps that condition |
| Playout.AcceptKeepsGapHeadsIff | server/internal/rtp/jitter.go:96-102 | with receipt times that never go back, accepting a packet keeps it if and only if the packet itself is not overtaken; a packet in sequence or the newest never is |
| JitterSpec.EmitConserves | server/internal/rtp/jitter.go:108-146 | whatever the arrivals: an Emit plays only due buffered packets, moves each once, and advances expected by played plus lost |
| JitterSpec.TurnMeasure | server/internal/rtp/jitter.go:113-144 | each turn of the loop decreases (buffer size, expected packet missing or not yet due), so Emit terminates |
| JitterBuffer.JitterBuffer.constructor | server/internal/rtp/jitter.go:62-68 | an empty buffer |
| JitterBuffer.JitterBuffer.Push | server/internal/rtp/jitter.go:72-103 | one step of the specification for every packet and time, whose counters JitterCounters.RejectionsAreCounted and JitterReordered.ReorderedCountsOvertakenIff say |
| JitterBuffer.JitterBuffer.NextPresentDue | server/internal/rtp/jitter.go:165-180 | the scan over the map in an arbitrary order |
| JitterBuffer.JitterBuffer.ReportGap | server/internal/rtp/jitter.go:131-142 | the hook calls of one gap, capped at 1024 |
| JitterBuffer.JitterBuffer.EmitTurn | server/internal/rtp/jitter.go:114-143 | one iteration of the loop is one turn, or the loop stops |
| JitterBuffer.JitterBuffer.Emit | server/internal/rtp/jitter.go:108-146 | the loop terminates, and state, output and hook calls are those of a complete run of turns |
| SerialNumber.BeforeIsLess | server/internal/rtp/jitter.go:204-206 | seqBefore agrees with integer order if and only if the difference lies in [-32768, 32768) |
| SerialNumber.BeforeOrdersHalfWindow | server/internal/rtp/jitter.go:204-212 | inside a half window seqBefore is the order of forward distance (section 3.2 of RFC 1982) |
| SerialNumber.BeforeHasCycles | server/internal/rtp/jitter.go:204-206 | beyond it, it is not an order |
| SerialNumber.DistanceIsDifference | server/internal/rtp/jitter.go:210-212 | seqDistance is the true difference of indices less than 65536 apart |
| FrameSpec.ChunkingIsIrrelevant | client/components/control_protocol/control_frame.c:54-110 | for every split of the stream: frames, failure and bytes left depend only on the concatenation |
| FrameSpec.FramingRoundTrip | server/internal/control/frame.go:38-50 | any payloads of at most 16384 bytes, encoded, concatenated and cut anywhere, come out exactly, with nothing left over |
| FrameSpec.OversizeIsFatal | server/internal/control/frame.go:86-94 | an oversize length is fatal at that frame, whatever follows, and hides no earlier frame |
| FrameSpec.ParseConcat | server/internal/control/frame.go:63-76 | parsing may stop anywhere and resume on the remainder |
| FrameSpec.ParseOfEncode | server/internal/control/frame.go:86-102 | parsing inverts encoding |
| FrameSpec.EncodeOfParse | client/components/control_protocol/control_frame.c:80-102 | encoding inverts parsing: no byte is lost or invented and the remainder is a strict prefix of a frame or starts with an oversize length |
| FrameDecoders.CpFrameEncode | client/components/control_protocol/control_frame.c:25-43 | encodes, or reports OVERSIZE or NOSPACE and leaves the buffer alone |
| FrameDecoders.CpDecoder.constructor | client/components/control_protocol/control_frame.c:45-52 | an empty decoder |
| FrameDecoders.CpDecoder.Reset | client/components/control_protocol/control_frame.c:45-52 | clears the latch and the buffer |
| FrameDecoders.CpDecoder.Extract | client/components/control_protocol/control_frame.c:79-102 | delivers the frames the pure parser finds, keeps its remainder, latches on oversize |
| FrameDecoders.CpDecoder.Push | client/components/control_protocol/control_frame.c:54-110 | one step of the pure decoder; the 16388-byte buffer always has room and is never overrun |
| FrameDecoders.FrameReader.constructor | server/internal/control/frame.go:56-58 | an empty reader |
| FrameDecoders.FrameReader.NextFrame | server/internal/control/frame.go:86-102 | the first frame, need-more or error, by the pure parser |
| FrameDecoders.FrameReader.Push | server/internal/control/frame.go:63-76 | one step of the same pure decoder, so both decoders deliver and fail alike; after a failure every push fails |
| FrameDecoders.WriteFrame | server/internal/control/frame.go:38-50 | writes exactly the encoding; a failing sink holds a prefix of it; too large writes nothing |
| AudioKernel.DcBound | client/components/opus_encoder/opus_encoder_task.c:131-141 | over an unbounded stream of samples in [-m, m) the filter output stays within one input range of the input, per channel |
| AudioKernel.DcFits | client/components/opus_encoder/opus_encoder_task.c:134-140 | for 24-bit samples the cast to int32 is lossless, and no int64 product overflows for any int32 samples |
| AudioKernel.DcBoundIsReached | client/components/opus_encoder/opus_encoder_task.c:131-141 | the bound is reached at both ends by constant streams |
| AudioKernel.DcIsRemoved | client/components/opus_encoder/opus_encoder_task.c:55-62 | a constant bias x is removed: after at most abs(x) samples of the channel the output is settled in [-992, 0] |
| AudioKernel.SlotHoldsSample | client/components/i2s_capture/i2s_capture.c:38-41 | a 24-bit sample comes out of the top of its slot whatever the low byte holds |
| AudioKernel.GainMovesToDesired | client/components/opus_encoder/opus_encoder_task.c:154-164 | the gain moves toward the desired gain and never past it: a fall leaves three eighths of the way, rounded down, a rise 31 parts in 32, rounded up, and it rests exactly within 31 below |
| AudioKernel.GainStaysInRange | client/components/opus_encoder/opus_encoder_task.c:154-165 | over every run from unity the gain stays in [256, 13107], below the coded maximum |
| AudioKernel.GainConverges | client/components/opus_encoder/opus_encoder_task.c:154-165 | under a constant peak of at least 30000 the gain falls exactly to the desired value or rises to within 31 below it, in at most abs(desired - g) frames |
| AudioKernel.GainSettles | client/components/opus_encoder/opus_encoder_task.c:154-165 | what the gain control is for: under a constant peak of at least 30000, from any gain, ten frames end a fall with gain * peak at most 6000 * 65536 and one gain step more above it; 12851 frames end any rise within 32 steps; peaks above 1536000 get the least gain of 256 |
| AudioKernel.SilenceHoldsGain | client/components/opus_encoder/opus_encoder_task.c:159-159 | frames with peaks below 30000 leave the gain as it is |
| AudioKernel.NarrowIsRounded | client/components/opus_encoder/opus_encoder_task.c:177-181 | narrowing is the product of sample and gain over 65536, rounded to nearest with halves up and cut to 16 bits, and no other value is |
| AudioKernel.OutputWithinTarget | client/components/opus_encoder/opus_encoder_task.c:154-182 | on a frame whose gain is not reduced and whose peak is at most 1536000 every output lies within +-6000 |
| AudioKernel.OpusKernel.constructor | client/components/opus_encoder/opus_encoder_task.c:131-132 | zero filter state, unity gain, and the fall-back to one channel |
| AudioKernel.OpusKernel.Filter | client/components/opus_encoder/opus_encoder_task.c:134-140 | one filter step in the channel's state |
| AudioKernel.OpusKernel.RemoveDc | client/components/opus_encoder/opus_encoder_task.c:128-141 | in place, over frames: each sample becomes the filter output at its place in the whole stream |
| AudioKernel.OpusKernel.Peak | client/components/opus_encoder/opus_encoder_task.c:148-153 | the largest magnitude of the frame, at least 1 |
| AudioKernel.OpusKernel.UpdateGain | client/components/opus_encoder/opus_encoder_task.c:154-165 | one gain step; the clamps to 256 and 20000 never act |
| AudioKernel.OpusKernel.NarrowFrame | client/components/opus_encoder/opus_encoder_task.c:175-182 | every sample is the product with the gain over 65536, rounded and cut to 16 bits |
| AudioKernel.OpusKernel.Process | client/components/opus_encoder/opus_encoder_task.c:128-182 | the whole frame: filter, gain, narrowing; every output sample is the filtered sample times the gain chosen, over 65536, rounded and cut to 16 bits |
| PcmRing.RunDelivers | client/components/audio_buffer/pcm_ring.c:54-108 | over every run: the ring holds the newest samples offered, reads are disjoint stretches of the offered stream in order, and offered = read + held + overflow |
| PcmRing.ReadsDrain | client/components/audio_buffer/pcm_ring.c:91-108 | reads in a row return the oldest samples, as many as they ask for or all there are, however divided |
| PcmRing.CountersTell | client/components/audio_buffer/pcm_ring.c:78-106 | over every run total_written is what the writes stored, at most the capacity each, and total_read what the reads returned |
| PcmRing.MarksAreReached | client/components/audio_buffer/pcm_ring.c:5-15 | over every run both marks are never passed, empty states aside, and each was reached |
| PcmRing.ChannelsStayAligned | client/components/audio_buffer/pcm_ring.c:61-76 | with an even capacity and whole stereo chunks every frame read starts with a left sample, whatever overflows |
| PcmRing.RingSizesAreEven | client/components/audio_manager/audio_manager.c:61-75 | both ring sizes are even: ten frames with PSRAM, four without |
| PcmRing.WriteHolds | client/components/audio_buffer/pcm_ring.c:54-89 | a write leaves the last capacity samples of contents and input, and overflows only into a full ring |
| PcmRing.ReadHolds | client/components/audio_buffer/pcm_ring.c:91-108 | a read takes a prefix |
| PcmRing.PcmRing.constructor | client/components/audio_buffer/pcm_ring.c:17-39 | an empty ring |
| PcmRing.PcmRing.Write | client/components/audio_buffer/pcm_ring.c:54-89 | one step of the bounded sequence, oversize and wrapping writes included |
| PcmRing.PcmRing.Read | client/components/audio_buffer/pcm_ring.c:91-108 | one step of the bounded sequence |
| PcmRing.PcmRing.UpdateWatermarks | client/components/audio_buffer/pcm_ring.c:5-15 | high and low water marks |
| EncodedQueue.RunIsFifo | client/components/audio_buffer/encoded_queue.c:51-105 | over every run: pushed = popped + held + dropped, the pushes too large are counted as rejected, and what was popped, followed by what is held, is what was accepted with only dropped packets left out: nothing, when no drop was counted |
| EncodedQueue.PopsDrain | client/components/audio_buffer/encoded_queue.c:83-105 | n pops into buffers that take any slot return the n oldest packets in order and leave the rest: as many pops as packets, or more, return all and leave none |
| EncodedQueue.AnswersTell | client/components/audio_buffer/encoded_queue.c:51-105 | the return codes: a push is 1 exactly when its packet becomes the newest, 0 when too large, -1 without slots; a pop is 1 exactly when it returns the oldest packet, 0 when there is none, -1 when it exceeds the buffer, which changes nothing |
| EncodedQueue.HighWaterIsTheMost | client/components/audio_buffer/encoded_queue.c:77-79 | the high-water mark is never exceeded over the run, and was reached |
| EncodedQueue.OpIsFifo | client/components/audio_buffer/encoded_queue.c:51-105 | one operation returns the oldest packet or drops it, and drops only when every slot is taken |
| EncodedQueue.EncodedQueue.constructor | client/components/audio_buffer/encoded_queue.c:15-34 | an empty queue over a fresh arena |
| EncodedQueue.EncodedQueue.Push | client/components/audio_buffer/encoded_queue.c:51-81 | one step of the bounded queue: drop oldest when full, reject oversize, surviving slots keep their bytes |
| EncodedQueue.EncodedQueue.Pop | client/components/audio_buffer/encoded_queue.c:83-105 | one step of the bounded queue: the oldest packet, byte for byte, or nothing changed |
| RtpPacket.WireRoundTrip | client/components/rtp/rtp_packet.c:57-90 | what the packetizer writes is read back by section 5.1 of RFC 3550 with every field and the payload unchanged; only an empty payload is refused |
| RtpPacket.WireLayout | client/components/rtp/rtp_packet.c:71-83 | the bytes: 0x80, marker and payload type, then sequence, timestamp and source in network order, then the payload |
| RtpPacket.AcceptsExactlyWire | server/internal/rtp/packet.go:39-61 | the reader accepts exactly what a packetizer with the expected payload type could have written for a non-empty payload, and refuses everything else for the first of the four errors |
| Bytes.BigEndian | client/components/rtp/rtp_packet.c:8-21 | 16- and 32-bit fields are in network order, first byte most significant, and every four bytes are some field |
| RtpPacket.AdvanceNth | client/components/rtp/rtp_packet.c:85-87 | the n-th packet carries the initial sequence plus n and timestamp plus 960 n, wrapped |
| RtpPacket.Packetizer.constructor | client/components/rtp/rtp_packet.c:38-55 | initial state from the three mixed values |
| RtpPacket.Packetizer.Serialize | client/components/rtp/rtp_packet.c:57-90 | writes exactly the packet and advances, or refuses and changes nothing |
| RtpSender.SendRunIsFaithful | client/components/rtp_sender/rtp_sender.c:49-89 | over every run the n-th packet popped is the n-th datagram, numbered accordingly, the marker on the first only; errors counted are exactly failed sends, which still use a number; packets and bytes sent and the last sequence and timestamp are those of the datagrams sent |
| RtpSender.DatagramsReadBack | client/components/rtp_sender/rtp_sender.c:70-87 | the n-th datagram is parsed as version 2 with the sender's payload type and source, sequence plus n and timestamp plus 960 n, wrapped, and the n-th payload popped; the marker bit is set in the first alone |
| RtpSender.TurnsDrain | client/components/rtp_sender/rtp_sender.c:49-89 | n turns with the lock pop and offer the n oldest packets in order and leave the rest, whatever the sends return: as many turns as packets empty the queue |
| RtpSender.SendStepIsFaithful | client/components/rtp_sender/rtp_sender.c:49-89 | the same for one turn; pop and serialize never fail |
| RtpSender.PipelineNeverFails | client/components/audio_manager/audio_manager.c:61-73 | with either board's slot size, from every state the task reaches, eq_pop does not refuse and the packet fits the send buffer, so neither call can return an error |
| RtpSender.SlotsTakePayloads | client/components/audio_manager/audio_manager.c:61-73 | 1500-byte slots, the largest payload, with PSRAM; 512 without |
| RtpSender.RtpSender.constructor | client/components/rtp_sender/rtp_sender.c:27-41 | the task before its first turn |
| RtpSender.RtpSender.Turn | client/components/rtp_sender/rtp_sender.c:49-89 | one turn of the loop over the real queue and packetizer |
| OpusRecorder.RecordingReadsBack | server/internal/audio/opus_recorder.go:109-280 | when the accepted packets after the first two are below 65025 bytes, reading the finished file by section 6 of RFC 3533 gives, checksums right and nothing left over: a BOS page whose packet section 5.1 of RFC 7845 reads as version 1 with the recorder's channels, pre-skip and rate, gain 0 and family 0; a page whose packet section 5.2 reads as vendor espmic and no comments; each of those packets byte for byte with granule preskip + i * (rate / 50); and an EOS page with the last granule; numbered from 0 modulo 2^32 |
| OpusRecorder.HeadReadsBack | server/internal/audio/opus_recorder.go:204-217 | the identification packet, read by section 5.1 of RFC 7845: version 1, channels modulo 256, pre-skip, rate modulo 2^32, gain 0, mapping family 0 |
| OpusRecorder.TagsReadBack | server/internal/audio/opus_recorder.go:250-262 | the comment packet, read by section 5.2 of RFC 7845: vendor espmic, no comments |
| OggPage.LittleEndian | server/internal/audio/opus_recorder.go:175-177 | 32- and 64-bit page fields are little-endian |
| OpusRecorder.FileReadsBack | server/internal/audio/opus_recorder.go:169-201 | any sequence of such pages reads back as exactly those pages |
| OggPage.PacketPageReadsBackIff | server/internal/audio/opus_recorder.go:169-197 | one packet page reads back if and only if the packet is shorter than 65025 bytes: from there the segment count does not fit its byte |
| OggPage.SealedReadsBack | server/internal/audio/opus_recorder.go:264-280 | a page whose table counts its body reads back, whatever follows |
| OggPage.LacingDelimits | server/internal/audio/opus_recorder.go:181-192 | the segment table delimits exactly the packet, including lengths divisible by 255 |
| OggPage.LacingLength | server/internal/audio/opus_recorder.go:171-181 | the table has len/255 + 1 entries |
| OggPage.ByteFlipDetected | server/internal/audio/opus_recorder.go:194-197 | altering any one byte of a written page makes its checksum fail |
| OggPage.CorruptionDetected | server/internal/audio/opus_recorder.go:194-197 | so does any change confined to four consecutive covered bytes or to the checksum |
| OggCrc.CrcIsLinear | server/internal/audio/opus_recorder.go:283-296 | the checksum is XOR-linear on inputs of equal length |
| OggCrcDivision.CrcIsRemainder | server/internal/audio/opus_recorder.go:283-296 | the checksum is the remainder, and the only one of degree below 32, of the message followed by 32 zero bits on division by the polynomial 0x104C11DB7 over the field of two elements |
| OggCrc.UnstepOfStep | server/internal/audio/opus_recorder.go:287-293 | the bit step can be undone |
| OggCrc.StepOfUnstep | server/internal/audio/opus_recorder.go:287-293 | and every state is reached: a bijection on 32 bits |
| OggCrc.CrcStateInjective | server/internal/audio/opus_recorder.go:285-295 | on any fixed data different states stay different |
| OggCrc.ByteChangeChangesCrc | server/internal/audio/opus_recorder.go:283-296 | changing any one byte changes the checksum |
| OggCrc.FourBytesAreOneWord | server/internal/audio/opus_recorder.go:285-294 | four bytes enter the state as one 32-bit word |
| OggCrc.BurstChangesCrc | server/internal/audio/opus_recorder.go:283-296 | changing any four consecutive bytes changes the checksum |
| OggCrc.UpdateCrc | server/internal/audio/opus_recorder.go:286-293 | the eight-step loop over one byte computes the specification |
| OggCrc.ComputeCrc | server/internal/audio/opus_recorder.go:283-296 | the loops compute the specification |
| OpusRecorder.OpusRecorder.constructor | server/internal/audio/opus_recorder.go:62-84 | the file starts with OpusHead and OpusTags |
| OpusRecorder.OpusRecorder.BuildPage | server/internal/audio/opus_recorder.go:169-197 | the loop builds the lacing table and the page seals it |
| OpusRecorder.OpusRecorder.WriteOpusHead | server/internal/audio/opus_recorder.go:204-217 | the identification page |
| OpusRecorder.OpusRecorder.WriteOpusTags | server/internal/audio/opus_recorder.go:250-262 | the comment page |
| OpusRecorder.OpusRecorder.WritePacket | server/internal/audio/opus_recorder.go:134-146 | accepted unless closed or the channel is full |
| OpusRecorder.OpusRecorder.WriterStep | server/internal/audio/opus_recorder.go:87-92 | the writer takes the oldest packet |
| OpusRecorder.OpusRecorder.WritePageForPacket | server/internal/audio/opus_recorder.go:109-129 | the first two are skipped; later ones get the next granule and a page |
| OpusRecorder.OpusRecorder.Finalize | server/internal/audio/opus_recorder.go:150-166 | drains the channel, closes the stream once; the file is then the finished file of everything accepted and the byte counter its length |
| OpusRecorder.OpusRecorder.WriteEosPage | server/internal/audio/opus_recorder.go:264-280 | the closing page |
| StreamLifecycle.PhasesOnlyAdvance | server/internal/stream/stream.go:118-315 | over any calls, legal or not, a stream only advances, changes phase at most six times, and once COMPLETE or FAILED never changes |
| StreamLifecycle.ReasonTellsHowItEnded | server/internal/stream/stream.go:235-303 | over any calls on a new stream: COMPLETE without a reason exactly when a stop was requested and then confirmed, COMPLETE as replaced exactly when it was forced while live, FAILED always with a reason, no reason before the end |
| StreamLifecycle.FailureTellsWhy | server/internal/stream/stream.go:144-315 | over any calls on a new stream: it has failed with a reason if and only if the event that reason stands for was reported in a phase that has it, or the device rejected the start with that reason |
| StreamLifecycle.PhaseIsHeldSince | server/internal/stream/stream.go:118-315 | over any calls, accepted or not: a stream is in a live phase if and only if some call took it there from the phase before, or it began there, and no call since ends that phase |
| StreamLifecycle.ClocksTell | server/internal/stream/stream.go:118-211 | over any calls on a new stream: its RTP wait runs from the call that started it, its liveness from its last packet, its start time from Start |
| StreamLifecycle.Stream.constructor | server/internal/stream/stream.go:100-109 | a stream starts in CREATED with no reason |
| StreamLifecycle.Stream.Start | server/internal/stream/stream.go:118-127 | CREATED to WAITING_FOR_DEVICE; refused in any other phase, which is left alone |
| StreamLifecycle.Stream.DeviceCommandSent | server/internal/stream/stream.go:133-141 | to STARTING; refused in any other phase, which is left alone |
| StreamLifecycle.Stream.DeviceRejected | server/internal/stream/stream.go:144-156 | STARTING to FAILED; refused in any other phase, which is left alone |
| StreamLifecycle.Stream.MarkServerRestartFailed | server/internal/stream/stream.go:164-175 | live phases to FAILED; refused in any other phase, which is left alone |
| StreamLifecycle.Stream.StreamStarted | server/internal/stream/stream.go:179-188 | STARTING to RTP_WAIT; refused in any other phase, which is left alone |
| StreamLifecycle.Stream.FirstPacket | server/internal/stream/stream.go:191-200 | RTP_WAIT to ACTIVE; refused in any other phase, which is left alone |
| StreamLifecycle.Stream.Packet | server/internal/stream/stream.go:204-211 | refreshes the clock in ACTIVE, changes nothing otherwise |
| StreamLifecycle.Stream.RTPWaitTimedOut | server/internal/stream/stream.go:215-222 | true exactly in RTP_WAIT at or past its deadline |
| StreamLifecycle.Stream.RTPDisappeared | server/internal/stream/stream.go:226-233 | true exactly in ACTIVE with no packet for the disappearance limit |
| StreamLifecycle.Stream.StopRequested | server/internal/stream/stream.go:236-244 | ACTIVE to STOPPING; refused in any other phase, which is left alone |
| StreamLifecycle.Stream.Stopped | server/internal/stream/stream.go:247-255 | STOPPING to COMPLETE; refused in any other phase, which is left alone |
| StreamLifecycle.Stream.ForceComplete | server/internal/stream/stream.go:259-269 | any live phase to COMPLETE, with the reason that it was replaced; a stream that is over is left alone |
| StreamLifecycle.Stream.DeviceDisconnected | server/internal/stream/stream.go:270-279 | ACTIVE to FAILED; refused in any other phase, which is left alone |
| StreamLifecycle.Stream.RTPWaitTimeout | server/internal/stream/stream.go:282-291 | RTP_WAIT to FAILED; refused in any other phase, which is left alone |
| StreamLifecycle.Stream.RTPTimeout | server/internal/stream/stream.go:294-303 | ACTIVE to FAILED; refused in any other phase, which is left alone |
| StreamLifecycle.Stream.DecodeError | server/internal/stream/stream.go:306-315 | ACTIVE to FAILED; refused in any other phase, which is left alone |
| StreamServer.RunKeepsInv | server/internal/server/server.go:360-403 | in every interleaving the bound RTP sockets are exactly the registered streams in non-terminal phases, and registered STARTING and STOPPING streams have their call in flight |
| StreamServer.StepKeepsInv | server/internal/server/server.go:448-471 | each atomic step keeps that invariant |
| StreamServer.OverIsForever | server/internal/server/server.go:823-838 | across any run, registered or not, a stream keeps its device and limits and only advances, and one in COMPLETE or FAILED never leaves it |
| StreamServer.StepKeepsOneIff | server/internal/server/server.go:360-403 | a step breaks one-stream-per-device if and only if it binds a stream for a device that has one |
| StreamServer.OneThroughoutIff | server/internal/server/server.go:360-403 | over every run, whatever is interleaved: a device has at most one live stream before and after every step if and only if no successful bind of the run finds one of the device alive |
| StreamServer.SerialRunKeepsOne | server/internal/server/server.go:360-403 | at most one live stream per device on every run in which the starts of a device do not overlap between replacing and binding |
| StreamServer.OverlappingStartsGiveTwo | server/internal/server/server.go:360-403 | two overlapping starts do give a device two live streams |
| StreamServer.ReplaceClears | server/internal/stream/stream.go:366-378 | replacing leaves the device with no live stream |
| StreamServer.TickEndsExactlyTheExpired | server/internal/server/server.go:823-838 | a monitor pass fails, closes and removes exactly the streams that have waited five seconds for RTP or been one second without a packet, or their configured limits, each with its own reason, and leaves every other as it is |
| StreamServer.DisconnectEndsExactlyTheActive | server/internal/server/server.go:901-915 | a disconnect fails, closes and removes exactly the ACTIVE streams of the device, and leaves every other as it is |
| StreamServer.PacketsKeepStreamAlive | server/internal/server/server.go:492-511 | a packet at time t makes a waiting or active stream ACTIVE; over every run that leaves it alone afterwards it stays as it is until the first monitor pass one second, or its configured limit, after t, which ends it |
| StreamServer.StartedStreamHasItsLimit | server/internal/server/server.go:823-838 | a stream started at time t with no packet yet: over every run that leaves it alone it stays registered, bound and in RTP_WAIT until the first monitor pass five seconds, or its configured limit, after t, which fails it with the wait reason and frees its socket |
| StreamServer.LimitsAreExact | server/internal/stream/stream.go:215-233 | the same for any stream waiting for RTP or active: over every run that leaves it alone, ended for good by the first pass at its limit or later, untouched if there is none |
| StreamServer.QuietServerFreesEverySocket | server/internal/server/server.go:823-838 | with no call in flight a late enough tick closes every socket: none is leaked |
| StreamServer.StartedMeansWaiting | server/internal/server/server.go:457-471 | a start succeeds with the stream registered, bound and in RTP_WAIT, and fails after stream_started exactly when it was replaced meanwhile |
| StreamServer.BindMakesStarting | server/internal/server/server.go:382-407 | a successful bind makes a STARTING stream of the device with the limits given, registered, bound, its call in flight; a failed one leaves everything else as it was |
| StreamServer.RefusedMeansGone | server/internal/server/server.go:567-580 | a refused start fails as rejected, unless it was replaced meanwhile, and is closed and removed |
| StreamServer.ReplaceEndsExactlyOne | server/internal/server/server.go:360-371 | replacing completes, closes and removes one listed stream of the device and leaves every other as it is |
| StreamServer.StopBeginsIff | server/internal/server/server.go:585-596 | a stop begins exactly for a registered ACTIVE stream |
| StreamServer.StopAlwaysCompletes | server/internal/server/server.go:596-642 | a stop ends COMPLETE with the socket closed on every reply, even when replaced meanwhile |
| StreamServer.LeftStartingIff | server/internal/server/server.go:448-455 | a start leaves its stream unregistered and not ended if and only if sending start_stream failed before any replacement, and then it is left in STARTING |
| Server.Server.constructor | server/internal/stream/stream.go:325-325 | an empty server |
| Server.Server.GetByDevice | server/internal/stream/stream.go:366-378 | some listed stream of the device, or none exists |
| Server.Server.CloseStream | server/internal/rtp/receiver.go:193-207 | frees the socket |
| Server.Server.Remove | server/internal/stream/stream.go:357-361 | drops the stream from the registry |
| Server.Server.StartReplace | server/internal/server/server.go:360-371 | over stream objects, the replacing step: some earlier live stream of the device is completed, its socket closed, and it is removed |
| Server.Server.StartBind | server/internal/server/server.go:382-407 | over stream objects, the binding step: socket bound, stream registered in STARTING; a failed bind changes nothing else |
| Server.Server.OnSendFailed | server/internal/server/server.go:449-455 | the error path of the reply step |
| Server.Server.OnRefused | server/internal/server/server.go:567-580 | the refusing paths of the reply step |
| Server.Server.OnStarted | server/internal/server/server.go:459-471 | the stream_started path of the reply step, with its check that the stream is still bound |
| Server.Server.StartReply | server/internal/server/server.go:448-581 | over stream objects, the reply step for every reply; success is reported exactly for stream_started with the socket still bound |
| Server.Server.StopBegin | server/internal/server/server.go:585-596 | over stream objects, the stop step: refused exactly when the stream is unknown or not ACTIVE |
| Server.Server.StopReply | server/internal/server/server.go:601-642 | over stream objects, the same end for every reply |
| Server.Server.OnPacket | server/internal/server/server.go:492-511 | over stream objects, the packet step: promotion by the stream's own phase, none for an unregistered stream |
| Server.Server.Cleanup | server/internal/server/server.go:924-926 | closes and removes each id, harmless for one already gone |
| Server.Server.ExpireOne | server/internal/server/server.go:826-834 | one stream: exactly the expired ones fail |
| Server.Server.MonitorTick | server/internal/server/server.go:823-838 | the pass over the registry in any order and its cleanup are exactly the specified tick |
| Server.Server.OnDeviceDisconnect | server/internal/server/server.go:901-915 | the pass over the registry in any order and its cleanup are exactly the specified disconnect |
| Correlation.CallersReceiveOnlyTheirOwn | server/internal/control/session_manager.go:117-140 | in every interleaving of callers, handlers and timeouts a caller receives only messages that carry its own request id, are of the kinds its call awaits, and were routed after it registered |
| Correlation.AtMostOneReply | server/internal/control/session_manager.go:135-140 | a registration receives at most one message, and nothing later changes it |
| Correlation.WaiterReceives | server/internal/control/session_manager.go:131-139 | a message in a caller's channel stays there over every run until that caller receives it, and is what it then receives |
| Correlation.RegisterRefusesIff | server/internal/control/session_manager.go:117-124 | a registration is refused if and only if a call that has not returned has the same id in the same map; otherwise the caller waits at its own empty channel |
| Correlation.ReturnFreesTheId | server/internal/control/session_manager.go:125-129 | a caller that gives up can always return, which removes its own id and nothing else |
| Correlation.NothingLeftRegistered | server/internal/control/session_manager.go:125-129 | when all callers have returned both maps are empty |
| Correlation.RegisteredIsUnreturned | server/internal/control/session_manager.go:117-129 | each map holds exactly the calls that have not returned, one per id |
| Correlation.UnregisterRemovesItsOwn | server/internal/control/session_manager.go:232-236 | the deferred delete by key never removes another caller's registration |
| Correlation.RoutedToTheWaiter | server/internal/control/session_manager.go:174-191 | whatever runs between lookup and send, a reply with the id of a waiting request caller reaches its channel if it still waits, unless another reply is already there |
| Correlation.RoutedToTheStreamWaiter | server/internal/control/session_manager.go:332-359 | the same for a start_stream or stop_stream caller, once the message has passed the request callers, also when its id is pending there too |
| Correlation.PassesRequestCallersIff | server/internal/control/session_manager.go:40-48 | a message passes the request callers if and only if none is registered under its id at the lookup or that one's channel is full at the send; otherwise that channel takes it |
| Correlation.StreamCallersAreLast | server/internal/control/session_manager.go:332-359 | there a message ends: dropped if no stream caller is registered under its id at the lookup, or that one's channel is full at the send; otherwise that channel takes it |
| Correlation.InboundMeetsRequestsFirst | server/internal/control/session_manager.go:40-48 | an inbound message is looked up among the request callers first, whatever runs before |
| Correlation.RunKeepsInv | server/internal/control/session_manager.go:332-359 | the routing invariant over every run |
| Sessions.UnregistersIffMostRecent | server/internal/control/session_manager.go:80-88 | UnregisterIf succeeds if and only if the session is the device's most recently ready one and has not been closed or evicted since |
| Sessions.AtMostOneTeardown | server/internal/control/session_manager.go:59-88 | a session that became ready once is torn down at most once |
| Sessions.StaleCloseIsIgnored | server/internal/control/session_manager.go:74-88 | closing a session that a reconnect replaced changes nothing |
| SessionManager.SessionManager.constructor | server/internal/control/session_manager.go:28-34 | empty maps |
| SessionManager.SessionManager.OnReady | server/internal/control/session_manager.go:59-65 | the session becomes the device's live one |
| SessionManager.SessionManager.Unregister | server/internal/control/session_manager.go:68-72 | the device has none |
| SessionManager.SessionManager.UnregisterIf | server/internal/control/session_manager.go:80-88 | succeeds exactly for the most recently ready session |
| SessionManager.SessionManager.Register | server/internal/control/session_manager.go:117-124 | refuses a duplicate or registers a fresh channel |
| SessionManager.SessionManager.Receive | server/internal/control/session_manager.go:135-137 | takes the message from the caller's channel |
| SessionManager.SessionManager.GiveUp | server/internal/control/session_manager.go:131-139 | a failed send or an ended context |
| SessionManager.SessionManager.Deregister | server/internal/control/session_manager.go:125-129 | the deferred delete |
| SessionManager.SessionManager.LookupRequest | server/internal/control/session_manager.go:174-184 | the lookup under the lock |
| SessionManager.SessionManager.LookupStream | server/internal/control/session_manager.go:332-352 | the same for stream callers |
| SessionManager.SessionManager.Offer | server/internal/control/session_manager.go:185-190 | the non-blocking send |
| Device.RunIsSafe | client/components/control_task/control_task.c:445-490 | over every run, with Wi-Fi and boot events between any two control-task events and any failures: after each message and loss STREAMING implies a running pipeline and STREAM_STARTING does not persist |
| Device.StepKeepsSafe | client/components/control_task/control_task.c:445-490 | the same for one step |
| Device.LossEndsTheStream | client/components/control_task/control_task.c:636-651 | losing the control connection ends the stream exactly when the task goes on; the device is then connecting if it had control and nothing disturbed it, and without control otherwise |
| Device.FailureKeepsConnecting | client/components/control_task/control_task.c:622-631 | a failed attempt leaves an undisturbed device that had control connecting, with its stream, and gives control to none |
| Device.LossThenReconnect | client/components/control_task/control_task.c:622-651 | after an undisturbed loss, any number of failed attempts and a connection, the device is IDLE with nothing running |
| Device.ReplyIsTrue | client/components/control_task/control_task.c:445-482 | stream_started is sent exactly when the parameters are valid and everything was given, at the first attempt or at the second, made when a stream ran or capture alone failed with ESP_ERR_INVALID_STATE; then the requested stream runs; a rejected start leaves nothing running, a malformed one changes nothing; the code is invalid_request exactly for a malformed message and internal exactly when a second attempt failed |
| Device.StreamIsToldByMessages | client/components/control_task/control_task.c:445-490 | over every run, in whatever state messages are met and whatever falls between them, the running stream is the one told by the stops, the losses, the starts and what was given for each |
| Device.UndisturbedStart | client/components/control_task/control_task.c:450-481 | an idle device goes to STREAMING or back to IDLE with the reply, and a stop takes it back to IDLE |
| Device.NominalBoot | client/main/app_main.c:256-260 | boot, network, connect and hello_ack lead to IDLE |
| Device.StepInStepIff | client/components/control_task/control_task.c:419-490 | with state and pipeline in step, a message or outside event keeps them so if and only if no gap it uses holds a Wi-Fi loss, a fatal error or forced provisioning; otherwise control is lost |
| Device.SessionInStepIff | client/components/control_task/control_task.c:419-490 | the same over every sequence of messages and outside events: in step at the end, and a stream running only in STREAMING, if and only if nothing disturbed it |
| Device.WholeSessionInStepIff | client/components/control_task/control_task.c:434-455 | a whole session from its connect ends in step if and only if nothing disturbed it and either the stops, starts and answers before hello_ack leave no stream running or a start with parameters or a stop came later |
| Device.FromIdleInStepIff | client/components/control_task/control_task.c:445-490 | from IDLE with or without a stream: in step at the end if and only if undisturbed and, with a stream, a start with parameters or a stop has come since |
| Device.EarlyStartOutrunsState | client/components/control_task/control_task.c:445-455 | from boot, undisturbed: a start_stream before hello_ack is obeyed, so a stream runs in CONTROL_CONNECTING and then in IDLE |
| Device.BlipOutlastsSession | client/components/state_machine/device_state.c:49-53 | once Wi-Fi has dropped under a live session no message restores the state before the task reconnects |
| Device.StreamOutlivesState | client/main/app_main.c:146-160 | from boot: a Wi-Fi loss and return while a stream runs leaves it running in WIFI_CONNECTED |
| DeviceState.OutsideOnlyLeaves | client/components/state_machine/device_state.c:39-66 | outside events can take the control states away, never give them |
| DeviceState.GapKeepsControlIff | client/components/state_machine/device_state.c:45-66 | a sequence of outside events leaves a state with control as it is if and only if it holds no Wi-Fi loss, fatal error or forced provisioning; otherwise control is lost |
| DeviceState.StatesAreEarned | client/components/state_machine/device_state.c:39-113 | over every sequence of events since boot, STREAMING is reached only after Wi-Fi up, control connect, control connected, start and started in this order, and each state on the way only after its part of them |
| DeviceState.StateIsHeldSince | client/components/state_machine/device_state.c:39-113 | over every sequence of events since boot, for each of the nine states: the device is in it if and only if some event took it there from a state that has that edge, or it is still booting, and no event since ends it |
| Device.Device.constructor | client/main/app_main.c:203-207 | BOOT, nothing running |
| Device.Device.NotifySm | client/main/app_main.c:61-76 | outside events, then one event |
| Device.Device.OnHelloAck | client/components/control_task/control_task.c:434-437 | connected |
| Device.Device.OnStartStream | client/components/control_task/control_task.c:445-482 | the start branch over the real audio manager |
| Device.Device.OnStopStream | client/components/control_task/control_task.c:484-490 | nothing held afterwards; the reply names the stream that ran |
| Device.Device.OnSessionEnded | client/components/control_task/control_task.c:636-651 | the loss path; nothing held when the task goes on |
| AudioManager.StartFailsAtFirst | client/components/audio_manager/audio_manager.c:153-255 | a start fails with the error of the first stage that fails, of initialisation, running stream, parameters, storage, sender, encoder and capture, and succeeds when none does |
| AudioManager.AudioManager.constructor | client/components/audio_manager/audio_manager.c:99-120 | nothing held |
| AudioManager.AudioManager.Release | client/components/audio_manager/audio_manager.c:144-151 | only a held handle can be given back |
| AudioManager.AudioManager.FreeStorage | client/components/audio_manager/audio_manager.c:144-151 | gives back exactly what is held, each once, and only when no task runs on it |
| AudioManager.AudioManager.Start | client/components/audio_manager/audio_manager.c:153-264 | any outcome leaves all eight resources held or none; a stream runs exactly on success; the error is the first failure |
| AudioManager.AudioManager.Stop | client/components/audio_manager/audio_manager.c:266-280 | idempotent; nothing held afterwards |

## Left out

- Sockets, TLS, HTTP, WebSocket, SQLite, NVS, I2S, FreeRTOS, logging: the outcomes of sends, lock waits, binds, allocations and task starts are arbitrary parameters; file writes are assumed to succeed.
- Allocation of Go and C objects, and NULL arguments: arrays and objects of the model are never null, so the guards that only test for null pointers have no counterpart.
- Counter widths: the 64-bit statistics counters and the millisecond clocks are unbounded integers.
- The inter-arrival jitter estimate and the bitrate estimate are floating point and feed nothing but statistics.
- JitterRuns.OrderlyRunPlaysInOrder: assumes the deadline condition at each Emit and the window, because without them the property is false; JitterOrder.RunOutputInOrderIff, JitterRuns.TickStrandsIff and JitterRefinement.WindowIsExact say how far, and JitterRuns.PushOrderPlaysInOrder puts the condition at the pushes.
- EndToEnd.ServerPlaysSubsequenceOfEncoded: takes every arrival's true place in the sender's numbering as known to the statement, not to the buffer, and assumes the same two conditions.
- RtpPacket.WireRoundTrip: the reader is a fixed-header reader after section 5.1 of RFC 3550 in place of the pion library, without padding, extension or contributing sources, which the packetizer never writes.
- RtpPacket.AcceptsExactlyWire: is about that fixed-header reader; the pion parser also accepts padding, extensions and contributing sources.
- RtpPacket.Packetizer.constructor: the quality of `mix32` is not modelled; its three values are parameters.
- AudioKernel.OpusKernel.Process: the Opus encoder itself, which follows it, is not part of this model.
- OpusRecorder.OpusRecorder.WritePacket: its check and its channel send are one step, so the race with Finalize between them is not modelled; Finalize likewise is one step.
- OpusRecorder.RecordingReadsBack: proves the code's own granule rule (the first data page carries pre-skip), not conformance to section 4 of RFC 7845.
- Who owns a recorder: `StopStream` does not finalize the Opus recorder and `SetOnCompressed` is one callback for all streams, so no such property is stated.
- StreamServer.RunKeepsInv: the monitor's pass and its cleanup are one step, as are binding and registering a stream; between the two halves the invariant does not hold in the source.
- Freshness of stream ids, which are 64 random bits, is assumed when a stream is bound; ids and device names are only compared.
- `Registry` restore after a restart, metrics, recordings metadata and the device `online` flag.
- Correlation.CallersReceiveOnlyTheirOwn: request ids are numbers, only compared, with 0 for the empty id; validation of the request before it is registered is left out.
- The backoff and the read loop of the control task, JSON parsing, `set_config` and `get_status`: they change neither the device state nor the pipeline.
- Truncation of long stream ids on the device, and the `Session` handshake.
- `Session.readFrame`, `ReadFrame`, `cp_message_type`, `FlacRecorder` and the WAV recorder.
