# audio-bridge: a verified model

audio-bridge carries a headset's microphone from a Linux host into a Windows guest, and the
guest's playback back, as 16-bit PCM over UDP. This project models its core and proves what
its comments and tests promise: the jitter buffer that absorbs network jitter and clock
drift, the wire format, the session that both ends keep over a lossy network, and the
schedule on which captured audio is sent.

There are three layers. Functions on values say what each operation means; classes do the same
in place, sample by sample and byte by byte, as the program does, and every method is proved
to compute the function's result. The theorems are about the functions, and so about the
classes. The meaning of the functions is stated once more from outside, in numbers, offsets and
conditions that do not use them (`PlayedSamples`, `PacketLayout`, `GuestAnswers`, `HostAnswers`).

| file | contents |
|---|---|
| `Wrappers.dfy`, `Numbers.dfy`, `Frames.dfy` | results, machine integers and rounding, interleaved frames |
| `Ring.dfy` | the growable ring that holds the queue, and where its storage is cut in two |
| `JitterModel.dfy`, `JitterBuffer.dfy` | the jitter buffer as a value and as an object |
| `JitterRuns.dfy` | invariants, conservation, amplitude, consumption and resampling over whole runs |
| `PlayedSamples.dfy` | what every push and pull keeps and plays, sample by sample, in plain arithmetic |
| `SequenceTracking.dfy` | 32-bit sequence numbers against unbounded ones; realignment after loss |
| `DriftControl.dfy` | why the rate controller never lets the buffer run dry or over |
| `Utf8.dfy`, `Wire.dfy`, `WireTheorems.dfy`, `WireCodec.dfy` | the wire format, its theorems, the codec in place |
| `PacketLayout.dfy`, `AudioStreams.dfy` | every byte of a packet by its offset, every refusal by its cause; streams of audio packets |
| `VmSession.dfy`, `VmTheorems.dfy`, `VmAgent.dfy` | the guest's event loop, who owns its session, the loop in place |
| `GuestAnswers.dfy`, `HostAnswers.dfy` | what each end does and sends at every event, both ways, and its stream of audio |
| `HostSession.dfy`, `HostAgent.dfy` | the host's event loop, as functions and in place |
| `Bridge.dfy`, `Recovery.dfy` | host, guest and network together: agreement, integrity, recovery |
| `CaptureSchedule.dfy` | the capture queue and its wall-clock packetiser |

## How things are modelled

- `f64` is `real` and `f64::round` rounds half away from zero; `as i16` saturates, and is proved never to have to.
- Integers are unbounded, and every wrap-around, cast and two's complement reading that the program relies on is written out. The statistics counters, which are 64 bits wide, are not wrapped.
- Clock readings arrive with the events, as whole numbers. Each branch of an event loop, and each call under the jitter buffer's lock, is one atomic step.
- Whether an audio thread can be started, whether the receiving task takes a packet, and the texts formatted for people are parameters. A device that cannot be opened does not fail a session: its thread keeps trying, and resets the buffer each time.
- The network is the set of all datagrams ever sent. Any of them may be delivered, any number of times, in any order, or never. Other hosts may send the guest anything, under their own addresses.
- A growing ring at least doubles its storage and moves the shorter part of a wrapped queue, as the standard library's `VecDeque` does.

## Where the code and its documentation differ

The model follows the code.

- `PayloadMismatch` is documented as "`frames` disagrees with the payload" (crates/proto/src/lib.rs:302), but only an odd or empty payload raises it (crates/proto/src/lib.rs:509). `frames` is a 16-bit cast and is exact exactly when the count fits (`AudioRoundTrip`).
- The audio header is 17 bytes (`AudioHeaderBack`); the repository's README says 12, and `fits_ethernet_mtu` counts 19.
- `validate` admits one format whose packets do not fit the receive buffer: 96 kHz stereo in 20 ms packets (`OnlyOneFormatTooBig`). Every such packet is cut on receipt and then refused (`ReceivedIff`).
- A device summary longer than 255 bytes is cut without regard to character boundaries, and the host then cannot read the Ok (`HelloAckDecodes`).
- A token longer than 255 bytes never matches itself (`OwnTokenPassesIff`).
- A session whose capture thread cannot be started leaves its render thread running. `NothingLeaksIff` says exactly when, and `LeaksPileUp` that every repeated Hello adds one more.
- After a new handshake the host counts from 0 again, and the first packet is expected to be played. A guest that kept an unchanged session may expect a later number (`ResumesAtOnceIff` says exactly when the first packet it hears is only counted late), and a guest with a new session can be put in the same state by a packet of the old connection that arrives first (`StalePacketDelays`, and `StaleInput` is such a run).

## Main results

- **Drift control is safe for ever** (`NeverDryNeverOver`). Taking out of the fill level what the current rate will still use up turns the second-order loop into an integrator of the clamped correction (`StorageIntegrates`). One bound on that quantity holds for ever, for any clock drift within a bound, varying from pull to pull, any network backlog within a bound, and pulls whose size varies within a bound. Lock-step operation and a sender 0.2 % off with a target of three packets, as in the repository's own tests, are instances.
- **A pull is a random-access resampler** (`PlaysResampled`, `PlaysFade`, `UnderrunsIff`), and the nested loops of the class compute it.
- **The stream realigns after any loss** (`RealignsAfterLoss`): every accepted packet sits in its own slot of the stream, and the buffer acts as if sequence numbers were unbounded.
- **Samples are conserved and never amplified**, over all runs (`SamplesConserved`, `NeverLouder`).
- **Printer and parser are inverse on every buffer** (`DecodesIff`), and a verdict other than "too short" is final (`VerdictIsFinal`).
- **What is heard** (`PlaysMean`, `PlaysFadeOut`, `AcceptsNext`): every sample played or queued, from the samples that came in.
- **What is on the wire** (`PrintsShown`, `PrintsAudio`, `ReadsShown`, `ReadsAudio`, `RefusedIff`): every byte by its offset and value, and for every datagram whether it is read, as what, and otherwise exactly why not.
- **Both streams** (`SpokenStream`, `CapturedStream`): all captured audio and nothing else, in order, under successive wrapping numbers, to the other end only.
- **Audio leaves in order** (`AlwaysInOrder`, `PacketsCarryDelivered`): every packet of a capture run is silence or its own slice of everything collected, whatever was cut or caught up.
- **Isolation** (`OthersHaveNoEffect`): while its owner is heard in time, a session is, audio and replies included, as if no other host existed. A takeover needs the token and the owner's silence (`TakeoverNeedsSilence`).
- **Agreement and integrity over the network** (`ConnectedMeansGranted`, `OnlySpokenAudioIsPushed`).
- **Recovery** (`PacketVerdict`, `ResumesAtOnceIff`): over every run of host, guest, network and other hosts, when a microphone packet is played, and when the first one after a new handshake is.

## Model

| member | source | states |
|---|---|---|
| JitterBufferClass.JitterBuffer.constructor | crates/proto/src/jitter.rs:84-105 | a new buffer is empty, warming, and sized as configured: target at least two packets, cap four targets |
| JitterBufferClass.JitterBuffer.Reset | crates/proto/src/jitter.rs:125-132 | everything but the counters is as new |
| JitterBufferClass.JitterBuffer.Push | crates/proto/src/jitter.rs:136-168 | the in-place push of interleaved samples has the effect of the push on frames, a partial trailing frame being ignored |
| JitterBufferClass.JitterBuffer.Conceal | crates/proto/src/jitter.rs:173-191 | exactly `packets * framesPerPacket` frames are appended, the i-th being the newest frame scaled by `FadeOut(i)`; the short-cut once the fade is over changes nothing |
| JitterBufferClass.JitterBuffer.LastFrame | crates/proto/src/jitter.rs:195-209 | for a non-empty queue the newest queued frame, never the fallback, wherever the ring's storage is cut |
| JitterBufferClass.JitterBuffer.Trim | crates/proto/src/jitter.rs:211-222 | an over-full queue keeps its newest `target` frames and the rest are counted in samples |
| JitterBufferClass.JitterBuffer.Pull | crates/proto/src/jitter.rs:227-268 | the whole output and the whole new state are those of the closed-form resampler; the nested loops terminate |
| JitterBufferClass.JitterBuffer.UpdateRate | crates/proto/src/jitter.rs:272-279 | the rate moves a fiftieth of the way to the clamped correction of the fill error |
| JitterBufferClass.JitterBuffer.Underrun | crates/proto/src/jitter.rs:283-296 | the rest of the output is the held frame fading out; the buffer warms up again, keeping rate and expected number |
| Ring.LastGroupFound | crates/proto/src/jitter.rs:195-209 | with storage laid out in whole frames the last frame never straddles the seam |
| Ring.ExtendAligned | crates/proto/src/jitter.rs:164-165 | appending whole frames, growing the storage if need be, keeps the seam on a frame boundary |
| JitterModel.PushValid | crates/proto/src/jitter.rs:136-168 | every push keeps the class invariant |
| JitterModel.PullValid | crates/proto/src/jitter.rs:227-268 | every pull keeps the class invariant and produces exactly the frames asked for |
| JitterRuns.AlwaysValid | crates/proto/src/jitter.rs:84-105 | after any run from a new buffer: fill at most the cap, target between two packets and the cap, rate within 1 ± 0.004, fraction below 2.004, and a playing buffer is never empty |
| JitterRuns.RunBalanced | crates/proto/src/jitter.rs:136-222 | over any run accepted, concealed and initial frames equal popped, dropped, flushed and queued ones, and the lost and overrun counters match |
| JitterRuns.PullBalanced | crates/proto/src/jitter.rs:242-296 | a pull takes exactly what it pops, and an underrun's clear flushes nothing |
| JitterRuns.SamplesConserved | crates/proto/src/jitter.rs:42-56 | the balance in samples from a new buffer, in terms of the `lost` and `overruns` statistics |
| JitterRuns.NeverLouder | crates/proto/tests/session.rs:253-255 | if every pushed sample is within an amplitude, so is everything queued, held and played over the run |
| Numbers.LerpWithin | crates/proto/src/jitter.rs:260-265 | interpolation stays between its ends, so the cast never saturates |
| Numbers.ScaleWithin | crates/proto/src/jitter.rs:307-309 | attenuation never exceeds the sample, so the cast never saturates |
| JitterRuns.PullConsumes | crates/proto/src/jitter.rs:242-267 | frames popped plus the new fraction equal the old fraction plus `n` times the rate |
| JitterRuns.RunConsumes | crates/proto/src/jitter.rs:242-267 | the same law summed over any run without underrun or restart |
| JitterRuns.AtMostTwo | crates/proto/src/jitter.rs:244-253 | no output frame uses up more than two input frames |
| JitterRuns.PopsAbout | crates/proto/src/jitter.rs:242-267 | a pull's pops differ from `n` by at most `0.004 n + 2.004` |
| JitterRuns.UnderrunsIff | crates/proto/src/jitter.rs:242-258 | a pull underruns exactly when it asks for at least one frame and its last would read past the queue |
| JitterRuns.PlaysResampled | crates/proto/src/jitter.rs:260-266 | output frame `f` is the rounded interpolation of the held frame and queue at `frac + f * rate` |
| JitterRuns.PlaysFade | crates/proto/src/jitter.rs:283-291 | from the first frame that cannot be interpolated on, the output is the newest frame faded out |
| JitterRuns.FlowsJoin | crates/proto/src/jitter.rs:242-267 | the interpolation loop, at the rate a pull has settled on, can be cut anywhere without changing audio or state |
| JitterRuns.FadeEnds | crates/proto/src/jitter.rs:299-305 | a fade starts at the frame itself and is silent from its 240th frame on |
| JitterRuns.FadeNeverSwells | crates/proto/src/jitter.rs:170-172 | every sample of a fade moves towards zero and keeps its sign |
| JitterRuns.TrimLandsOnTarget | crates/proto/src/jitter.rs:211-222 | trimming leaves exactly the newest `target` frames, or everything, and counts what it drops |
| PlayedSamples.WarmsUp | crates/proto/src/jitter.rs:227-240 | a warming buffer below its target plays zeros and stays as it is; any other stops warming up until it runs dry |
| PlayedSamples.RateMoves | crates/proto/src/jitter.rs:269-279 | the new rate is 49 parts the old one and one part 1 plus a hundredth of the relative distance from the target, at most 0.004 either way |
| PlayedSamples.PlaysMean | crates/proto/src/jitter.rs:242-266 | every interpolated sample is the integer nearest to `x[k] * (1 - t) + x[k + 1] * t`, halves away from zero, where the read head stands at `k + t` |
| PlayedSamples.PlaysFadeOut | crates/proto/src/jitter.rs:283-309 | frame `i` after the last one that can be interpolated is the newest frame times `1 - i / 240`, rounded, and zero from 240 on |
| PlayedSamples.RunsDryIff | crates/proto/src/jitter.rs:242-258 | the underrun counter moves exactly when the last output frame reads past the queue, and no other counter does |
| PlayedSamples.UnderrunLeaves | crates/proto/src/jitter.rs:283-296 | what a pull that runs dry leaves: nothing queued, zeros held, warming up |
| PlayedSamples.PullLeaves | crates/proto/src/jitter.rs:242-267 | what any other pull leaves: the frames from the read head on, and the fraction |
| PlayedSamples.LateIsDropped | crates/proto/src/jitter.rs:142-149 | a packet is only counted late exactly when its number is half the 32-bit circle or more ahead of the expected one, that is, behind it |
| PlayedSamples.AcceptsNext | crates/proto/src/jitter.rs:136-191 | after a packet up to 50 numbers ahead: every queued frame, the filler being the newest frame times `1 - i / 240`, the counters, the next number, and the cut at the cap |
| PlayedSamples.AcceptsAfterJump | crates/proto/src/jitter.rs:150-168 | after a packet further ahead: a restarted buffer that holds the packet alone |
| PlayedSamples.ResetLeaves | crates/proto/src/jitter.rs:125-132 | what a reset leaves |
| PlayedSamples.SizesOf | crates/proto/src/jitter.rs:84-105 | the sizes in frames against the times in milliseconds; the cap is always four targets |
| Frames.InterleaveAt | crates/proto/src/jitter.rs:260-266 | channel `c` of output frame `f` is sample `f * channels + c` |
| SequenceTracking.DecisionsAgree | crates/proto/src/jitter.rs:142-161 | within half the sequence space, wrapping changes no late, accept, lose or resync decision |
| SequenceTracking.TracksIdeal | crates/proto/src/jitter.rs:137-162 | over any run in that window the queue is the newest part of the ideal stream, accepted numbers strictly rise, and accepted plus missing is expected minus first |
| SequenceTracking.CountersAreIdeal | crates/proto/src/jitter.rs:42-56 | the late, lost, accepted and resync counters are those of the ideal receiver |
| SequenceTracking.StaysAligned | crates/proto/tests/session.rs:263-301 | with full packets, every accepted packet is in its own slot of the enqueued stream, whatever was lost |
| SequenceTracking.SlotPosition | crates/proto/tests/session.rs:263-301 | the slot of packet `first + k` starts at frame `k * framesPerPacket` |
| SequenceTracking.RealignsAfterLoss | crates/proto/tests/session.rs:263-301 | all of the above from a new buffer |
| DriftControl.StorageIntegrates | crates/proto/src/jitter.rs:272-279 | a pull of `k` changes the level less 49 times the lean of `n` frames by exactly `k` frames, the correction of `n`, and the lean of the difference |
| DriftControl.CorrectionHolds | crates/proto/src/jitter.rs:23-33 | `band` frames or more from the target the clamped correction outweighs the disturbance, and closer to it the two together lead no further than `band` |
| DriftControl.SteadyPull | crates/proto/src/jitter.rs:227-268 | a steady buffer never runs dry during a pull of any size within the spread |
| DriftControl.FillBounds | crates/proto/src/jitter.rs:453-519 | how far a steady buffer's fill can be from its target |
| DriftControl.NeverDryNeverOver | crates/proto/src/jitter.rs:10-19 | over any number of rounds within the drift, backlog and pull-size bounds: no underrun, no overrun, nothing lost or late, and the buffer stays steady |
| DriftControl.SafeFromWarmUp | crates/proto/src/jitter.rs:453-519 | the same, with the fill bounds, from the first pull after warm-up, at up to a whole pull beyond the target |
| DriftControl.LockStepSuits | crates/host/src/pulse.rs:149-172 | packet-sized pulls and pushes need no more than the two-packet target every buffer has |
| DriftControl.CrystalDriftSuits | crates/proto/src/jitter.rs:453-519 | which targets suit a sender off by up to 0.2 % that delivers whole packets: three packets of more than 250 frames do, and four of any size |
| DriftControl.TestsAreInstances | crates/proto/src/jitter.rs:453-519 | the buffer of the drift tests, 480-frame packets and a target of three, is covered |
| DriftControl.RateTracksSender | crates/proto/src/jitter.rs:453-519 | the extra frames read and the extra frames produced differ by a bound that does not grow with the run |
| Utf8.CutIsUtf8 | crates/proto/src/lib.rs:401-404 | cutting well-formed UTF-8 (section 4 of RFC 3629) leaves well-formed UTF-8 exactly at the character boundaries |
| Utf8.Utf8Iff | crates/proto/src/lib.rs:485-500 | the bytes accepted as text are exactly those that encode some sequence of Unicode scalar values |
| WireTheorems.DecodesIff | crates/proto/src/lib.rs:371-531 | a buffer decodes to a control packet exactly when the packet's encoding is a prefix of it and its fields fit 255 bytes |
| WireTheorems.DecodesWhatWasEncoded | crates/proto/src/lib.rs:371-531 | round trip |
| WireTheorems.HelloDecodes | crates/proto/src/lib.rs:382-384 | a Hello of any token length comes back with the token cut to 255 bytes |
| WireTheorems.HelloAckDecodes | crates/proto/src/lib.rs:401-404 | a HelloAck comes back with the message cut at 255 bytes when that is a character boundary, and is refused otherwise |
| WireTheorems.VerdictIsFinal | crates/proto/src/lib.rs:459-531 | except for audio, a verdict other than `TooShort` is not changed by more bytes |
| WireTheorems.PrefixIsTooShort | crates/proto/src/lib.rs:459-531 | every strict prefix of a control packet is too short |
| WireTheorems.AudioRoundTrip | crates/proto/src/lib.rs:429-521 | header fields and samples come back; the frame count is exact exactly when it fits 16 bits |
| WireTheorems.AudioPrefixDecodes | crates/proto/src/lib.rs:502-521 | what every prefix of an audio packet decodes to |
| WireTheorems.PayloadIsSamples | crates/proto/src/lib.rs:450-457 | every payload of whole samples is the encoding of what it decodes to |
| WireTheorems.ReceivedIff | crates/proto/src/lib.rs:37-38 | audio survives the 4096-byte receive buffer exactly when its packet fits |
| WireTheorems.OnlyOneFormatTooBig | crates/proto/src/lib.rs:196-216 | among valid formats only 96 kHz stereo in 20 ms packets does not fit |
| WireTheorems.ValidFormatIff | crates/proto/src/lib.rs:196-216 | which formats are accepted; the check for a packet without frames never fires |
| WireTheorems.PacketSize | crates/proto/src/lib.rs:176-183 | frames and samples of a packet of a valid format |
| WireTheorems.TokenMatchesIff | crates/proto/src/lib.rs:536-546 | the fold of differences is zero exactly when the tokens are equal |
| WireTheorems.OwnTokenPassesIff | crates/vm/src/net.rs:205-211 | the guest's own token in a Hello passes exactly when it is at most 255 bytes long |
| PacketLayout.PrintsShown | crates/proto/src/lib.rs:372-422 | every byte of every control packet, by offset and value, and the length |
| PacketLayout.ReadsShown | crates/proto/src/lib.rs:459-531 | a datagram is read as a control packet exactly when it shows that packet byte by byte, uncut |
| PacketLayout.PrintsAudio | crates/proto/src/lib.rs:429-448 | the 17 header bytes, the 16-bit frame count, and sample `i` low byte first at `17 + 2 i` |
| PacketLayout.ReadsAudio | crates/proto/src/lib.rs:502-521 | a datagram is read as audio exactly when it shows such a header and a positive even number of bytes after it |
| PacketLayout.ReadsSamples | crates/proto/src/lib.rs:450-457 | sample `i` of a payload, by value |
| PacketLayout.RefusedIff | crates/proto/src/lib.rs:459-531 | for every datagram exactly which error refuses it, by fixed offsets, or that none does |
| WireCodec.Reader.Take | crates/proto/src/lib.rs:337-342 | the cursor gives the next `n` bytes and moves past them, or reports a short buffer |
| WireCodec.DecodeDatagram | crates/proto/src/lib.rs:459-532 | the cursor-based parser computes `Decode`, and yields a control packet exactly where it was printed |
| WireCodec.EncodePacket | crates/proto/src/lib.rs:372-422 | the appending printer computes `Encode` |
| WireCodec.EncodeAudioPacket | crates/proto/src/lib.rs:429-448 | the audio printer overwrites its vector with `EncodeAudio` |
| WireCodec.DecodePayload | crates/proto/src/lib.rs:451-457 | the sample loop computes `DecodeSamples` |
| VmTheorems.OkIff | crates/vm/src/net.rs:183-268 | a Hello is answered Ok exactly when admitted and already granted or startable; then the live session is the one asked for |
| VmTheorems.RepeatKeepsBuffer | crates/vm/src/net.rs:236-240 | a repeated Hello changes nothing but the time stamp |
| GuestAnswers.HelloAnswered | crates/vm/src/net.rs:193-268 | the one answer to a Hello, byte by byte, with the status for each of the five cases |
| GuestAnswers.HelloLeaves | crates/vm/src/net.rs:205-330 | the state after each of them, a new session field by field |
| GuestAnswers.SendsOnly | crates/vm/src/net.rs:85-164 | Hellos aside, exactly when the guest sends what to whom |
| GuestAnswers.SessionEndsIff | crates/vm/src/net.rs:85-173 | exactly when a session ends |
| GuestAnswers.BufferAfter | crates/vm/src/net.rs:110-123 | exactly what becomes of a lasting session's buffer at every event |
| GuestAnswers.CapturedStream | crates/vm/src/net.rs:152-164 | over any run, the owner is sent all captured packets and no other audio, under successive wrapping numbers, and nobody else any |
| VmTheorems.SessionEndsOnly | crates/vm/src/net.rs:139-173 | a session ends only by its owner's word, its owner's silence, or with the program |
| VmTheorems.NewOwnerWasAdmitted | crates/vm/src/net.rs:205-261 | the owner changes only to the sender of an admitted Hello |
| VmTheorems.StampIsLastHeard | crates/vm/src/net.rs:110-138 | a live session's time stamp is that of the last event that counted as word from its owner |
| VmTheorems.TakeoverNeedsSilence | crates/vm/src/net.rs:225-234 | after any run, a takeover needs the token, valid formats and the owner unheard for the whole timeout |
| VmTheorems.OthersHaveNoEffect | crates/vm/src/net.rs:225-234 | while its owner is heard in time, removing all other hosts' datagrams changes neither state nor replies to the owner |
| VmTheorems.BufferChangesOnly | crates/vm/src/net.rs:110-123 | only the owner's microphone audio under its session, the render thread, or a new session changes the buffer |
| VmTheorems.ThreadsAccounted | crates/vm/src/net.rs:270-330 | running threads are the session's own plus those leaked by failed starts |
| VmTheorems.NothingLeaksIff | crates/vm/src/net.rs:287-306 | after any run no thread is left over exactly when none of its Hellos was an admitted one for a new session whose render thread started and whose capture thread did not |
| VmTheorems.LeaksPileUp | crates/vm/src/net.rs:287-306 | a run of such Hellos leaves one more thread for each of them, and no session |
| VmTheorems.StepEquipped | crates/vm/src/net.rs:280-296 | a live session has a buffer exactly when the microphone is enabled |
| VmAgentClass.VmAgent.ShutDown | crates/vm/src/net.rs:49-61 | the session is gone and its threads are joined |
| VmAgentClass.VmAgent.Start | crates/vm/src/net.rs:270-330 | a new session with its own empty buffer, or none and a possible leaked thread |
| VmAgentClass.VmAgent.OnHello | crates/vm/src/net.rs:183-268 | state and reply of every branch of the handshake |
| VmAgentClass.VmAgent.OnAudio | crates/vm/src/net.rs:110-123 | the shared buffer gets the packet only from the owner, under its session, in the microphone direction |
| VmAgentClass.VmAgent.OnDatagram | crates/vm/src/net.rs:94-150 | state and replies for any datagram |
| VmAgentClass.VmAgent.OnCaptured | crates/vm/src/net.rs:152-164 | captured audio goes to the owner under the next number |
| VmAgentClass.VmAgent.OnSweep | crates/vm/src/net.rs:166-173 | a session silent for longer than the timeout is closed |
| VmAgentClass.VmAgent.OnInterrupt | crates/vm/src/net.rs:85-92 | an interrupt says goodbye to the owner and closes the session |
| HostSession.NumbersCountPackets | crates/host/src/net.rs:165-178 | within a connection the next number counts the microphone packets since its start |
| HostSession.ConnectsFresh | crates/host/src/net.rs:125-134 | every new connection counts from 0 and has an empty speaker buffer |
| HostSession.DisconnectsOnly | crates/host/src/net.rs:136-197 | the host disconnects only on a refusal, a goodbye or the guest's silence |
| HostSession.SpeakerChangesOnly | crates/host/src/net.rs:109-119 | only speaker audio of its own session, resets and the playback thread change the host's buffer |
| HostAnswers.ConnectedIff | crates/host/src/net.rs:120-201 | exactly when the host is connected after an event |
| HostAnswers.SpeakerAfter | crates/host/src/net.rs:109-201 | exactly what becomes of the speaker's buffer at every event |
| HostAnswers.ClocksAfter | crates/host/src/net.rs:96-201 | when the guest was last heard, which ping is outstanding and what round trip was measured |
| HostAnswers.SendsOnly | crates/host/src/net.rs:85-201 | exactly when the host sends what, as a receiver reads it |
| HostAnswers.SpokenStream | crates/host/src/net.rs:165-178 | over any run of a connection, all microphone packets and no other audio are sent, under successive wrapping numbers |
| HostAgentClass.HostAgent.OnDatagram | crates/host/src/net.rs:96-163 | state and replies for any datagram |
| HostAgentClass.HostAgent.OnMicPacket | crates/host/src/net.rs:165-178 | microphone audio is dropped until connected and numbered from then on |
| HostAgentClass.HostAgent.OnHelloTick | crates/host/src/net.rs:180-184 | a Hello goes out while not connected |
| HostAgentClass.HostAgent.OnPingTick | crates/host/src/net.rs:186-201 | a live connection is pinged and a silent one given up |
| Bridge.ConnectedMeansGranted | crates/host/src/net.rs:120-135 | on any network and with any other hosts, a connected host's exact session has existed at the guest, its formats are valid and its token is the guest's |
| Bridge.HostsSession | crates/vm/src/net.rs:236-262 | a session that the host owns is always exactly the one it asks for |
| Bridge.OnlySpokenAudioIsPushed | crates/vm/src/net.rs:110-123 | a datagram changes the buffer of the host's session only by starting an empty one or pushing a packet exactly as the host sent it |
| Recovery.ZeroIsLateIff | crates/proto/src/jitter.rs:142-149 | packet 0 is late exactly for a buffer that expects a number from 1 to 2^31 |
| Recovery.AllLateUntilExpected | crates/proto/src/jitter.rs:145-149 | such a buffer counts every earlier packet late, in any order and with pulls in between, and is otherwise as if only the reader had been there |
| Recovery.ResumesAtExpected | crates/proto/src/jitter.rs:141-161 | after any such run a number is late exactly when it is below the expected one or half the space beyond, and the expected one is taken up |
| Recovery.HelloRejoins | crates/vm/src/net.rs:238-267 | a Hello of an admitted host, whenever it arrives, leaves the guest with its old session or a new one, and an Ok on its way |
| Recovery.OkConnects | crates/host/src/net.rs:120-134 | that Ok, whenever it arrives, connects the host and starts its numbering at 0 |
| Recovery.PacketVerdict | crates/vm/src/net.rs:110-123 | in every reachable state, exactly when a microphone packet is accepted, counted late, or without effect |
| Recovery.ResumesAtOnceIff | crates/host/src/net.rs:125-133 | over every run, the first microphone packet heard after the Hello is accepted, except exactly when the guest has kept its session and numbering and that makes the packet late; for number 0, when it expects a number from 1 to 2^31 |
| Recovery.StalePacketDelays | crates/proto/src/jitter.rs:141-149 | a packet of an earlier connection heard first makes packet 0 late exactly when its number is below 2^31, even in a new session |
| Recovery.StaleInput | crates/vm/src/net.rs:110-123 | a complete run in which that happens |
| CaptureSchedule.CaptureLoop.EmitDuePackets | crates/vm/src/audio_wasapi.rs:403-432 | the packets attempted, the queue left and the next due time, with and without a hang-up |
| CaptureSchedule.CaptureLoop.DrainEndpoint | crates/vm/src/audio_wasapi.rs:364-391 | all chunks are queued in order, silent ones as zeros |
| CaptureSchedule.CaptureLoop.CapQueue | crates/vm/src/audio_wasapi.rs:334-341 | the newest four packets' worth is kept |
| CaptureSchedule.BurstSize | crates/vm/src/audio_wasapi.rs:48-51 | nothing early, one packet per period begun, one after a bad slip, and never more than `500 ms / d + 1` |
| CaptureSchedule.NextIsSoon | crates/vm/src/audio_wasapi.rs:416-430 | a call that sends leaves the next packet due after now and within one period |
| CaptureSchedule.PacketsAreSlices | crates/vm/src/audio_wasapi.rs:417-421 | the packets of a call are consecutive slices of the collected stream, then silence |
| CaptureSchedule.AlwaysInOrder | crates/vm/src/audio_wasapi.rs:321-432 | over any run every packet is silence or a slice of everything collected, at rising offsets without overlap, each at a whole frame |
| CaptureSchedule.CallIsTick | crates/vm/src/audio_wasapi.rs:403-432 | what a call of the loop sends and leaves behind is the run's step |
| CaptureSchedule.SoundsAt | crates/vm/src/audio_wasapi.rs:364-391 | sample `k` of chunk `i` is queued behind all earlier chunks: as it is, or 0 when the chunk is silent |
| CaptureSchedule.PacketsCarryDelivered | crates/vm/src/audio_wasapi.rs:321-432 | every sample of every packet of a run is 0, or the sample handed over at the packet's place in the stream |
| CaptureSchedule.CapKeeps | crates/vm/src/audio_wasapi.rs:334-341 | the cap in numbers: the newest `4 * size` samples |
| CaptureSchedule.SlipIs | crates/vm/src/audio_wasapi.rs:403-416 | the slip in numbers: beyond 500 000 000 ns the schedule starts over |
| CaptureSchedule.NoDriftBetweenResets | crates/vm/src/audio_wasapi.rs:393-432 | between resets the schedule moves by exactly one period for each packet |

## Left out

- Floating-point rounding of the rate and the fraction: reals are exact, where the tests allow 1e-9.
- PulseAudio, WASAPI and COM calls, device lookup and listing: foreign libraries. What they deliver is a parameter.
- The async runtime, sockets, threads and mutexes: each locked call or select branch is one atomic step, and a send that fails is a datagram that is never delivered.
- Configuration files, command line, logging, printed statistics and display texts: straight-line plumbing.
- The counters of packets sent, received and dropped that the agents print: they influence nothing.
- `fits_ethernet_mtu`: it only decides whether a warning is printed.
- Timing of the token comparison, secrecy of the token and uniqueness of session identifiers.
- Wrap-around of the 64-bit statistics and overflow of `usize` sizes: out of reach of any run.
- DriftControl.NeverDryNeverOver: the guest's render loop pulls whatever space its device has free (crates/vm/src/audio_wasapi.rs:250-265); the result covers sizes within `spread` of a nominal size, as far as `Suits` allows, because a device that asks for the whole buffer at once empties any buffer.
- VmAgentClass.VmAgent.OnHello: which of the two formats the refusal text names is not modelled, because texts are parameters.
- Forged source addresses: a datagram under the host's address comes from the host, because the model gives other senders their own addresses.
