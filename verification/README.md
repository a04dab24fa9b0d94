# WAV Trigger serial driver, modelled in Dafny

The WAV Trigger is a polyphonic audio board driven over a serial line at
57600 baud. The firmware's `WavTrigger` class talks to it in fixed-layout
frames `F0 AA LEN CMD params... 55`:

- **Outbound.** Each driver call builds one frame (play, stop, pause, resume,
  loop, load, gain, fade, sample-rate offset, trigger bank, amplifier power,
  reporting) and writes it to the port. Multi-byte fields go low byte first,
  after a C conversion to 16 bits.
- **Inbound.** `update` drains the port through a byte-level state machine
  (`rxCount`, `rxLen`, `rxMessage[32]`). A delivered frame is dispatched on its
  first payload byte. Three responses change state:
  - a track report updates the 14-entry voice table;
  - a version string fills the 21-byte `version`;
  - system information gives the voice and track counts.
- **Queries.** `isTrackPlaying`, `getPlayingTrack`, `getVersion` and
  `getNumTracks` read what the inbound side has learned.

The project has five layers:

- `protocol.dfy` (`WavProtocol`) holds the wire vocabulary, the C integer
  conversions written out (`ToByte` and `ToWord` as reductions modulo 2^8
  and 2^16, the arithmetic right shift as floor division), and the
  little-endian field lemmas.
- `encoder.dfy` (`WavEncoder`) holds one pure function per outbound frame.
  Each states the frame's layout and the value of each field.
- `receiver.dfy` (`WavReceiver`) is the inbound side as values:
  - `Frame` is the framing step;
  - `Dispatch` and `TrackReport` handle a delivered message;
  - `Step` is one loop iteration of `update`;
  - `Run` is `update` over a whole byte stream. It returns `None` when the
    stream would drive the payload branch past the end of `rxMessage`.
- `receiver_proofs.dfy` (`WavReceiverProofs`) and `roundtrip.dfy`
  (`WavRoundTrip`) hold stream-level properties:
  - frame acceptance, rejection and noise skipping;
  - the replay of a stale message by a stray end marker;
  - the zero-length overrun;
  - the 16-bit wrap of track ids;
  - decoding of report, system-information and version frames;
  - every frame the driver sends is accepted by the driver's own receiver
    without effect.
- `driver.dfy` (`WavTriggerDriver`) is the class itself, as imperative
  Dafny:
  - its fields and arrays are those of the C++ class;
  - the serial port is two fields, `serialIn` (bytes received, not yet
    read) and `serialOut` (every byte written);
  - each method is proved to compute exactly the `WavReceiver` function
    or `WavEncoder` frame it corresponds to.

## Model

| member | source | states |
|---|---|---|
| WavProtocol.Le16OfSplit | lib/WavTrigger/WavTrigger.cpp:314-316 | sending `(uint8_t)x` then `(uint8_t)(x >> 8)` transmits exactly the low 16 bits of any int x, sign included |
| WavProtocol.SplitOfWord | lib/WavTrigger/WavTrigger.cpp:195-197 | splitting a value already reduced to 16 bits into low and high byte and joining them gives back the value |
| WavProtocol.SplitOfLe16 | lib/WavTrigger/WavTrigger.cpp:195-197 | the converse: joining two bytes into a 16-bit value and splitting it again gives back the same two bytes |
| WavProtocol.AsInt16 | lib/WavTrigger/WavTrigger.cpp:179-184 | the 16-bit `int` reading of a 16-bit value is the one int16 value that converts back to it, negative exactly from 0x8000 on |
| WavProtocol.SignedRoundTrip | lib/WavTrigger/WavTrigger.cpp:195 | every value in the int16 range survives the conversion to `uint16_t` and the signed reading back |
| WavEncoder.GetVersionFrame | lib/WavTrigger/WavTrigger.cpp:51-57 | the version request is a well-formed 5-byte frame with command 1 |
| WavEncoder.GetSysInfoFrame | lib/WavTrigger/WavTrigger.cpp:59-65 | the system-information request is a well-formed 5-byte frame with command 2 |
| WavEncoder.MasterGainFrame | lib/WavTrigger/WavTrigger.cpp:187-200 | a well-formed 7-byte frame, command 5; bytes 4-5 carry the gain modulo 2^16, and a gain in int16 range reads back exactly |
| WavEncoder.AmpPowerFrame | lib/WavTrigger/WavTrigger.cpp:203-213 | a well-formed 6-byte frame, command 9; byte 4 is 1 when enable is true and 0 otherwise |
| WavEncoder.ReportingFrame | lib/WavTrigger/WavTrigger.cpp:216-226 | a well-formed 6-byte frame, command 14; byte 4 is 1 when enable is true and 0 otherwise |
| WavEncoder.TrackControlFrame | lib/WavTrigger/WavTrigger.cpp:307-319 | a well-formed 8-byte frame, command 3; byte 4 is the sub-code, bytes 5-6 the track modulo 2^16 |
| WavEncoder.TrackControlExFrame | lib/WavTrigger/WavTrigger.cpp:322-335 | a well-formed 9-byte frame, command 13; sub-code, track modulo 2^16, and byte 7 is 1 when lock is set and 0 otherwise |
| WavEncoder.StopAllFrame | lib/WavTrigger/WavTrigger.cpp:338-347 | a well-formed 5-byte frame with command 4 |
| WavEncoder.ResumeAllSyncFrame | lib/WavTrigger/WavTrigger.cpp:350-359 | a well-formed 5-byte frame with command 11 |
| WavEncoder.TrackGainFrame | lib/WavTrigger/WavTrigger.cpp:362-377 | a well-formed 9-byte frame, command 8; track and gain modulo 2^16, and a gain in int16 range reads back exactly |
| WavEncoder.TrackFadeFrame | lib/WavTrigger/WavTrigger.cpp:380-398 | a well-formed 12-byte frame, command 10; track, gain and time modulo 2^16, and byte 10 is 1 when stopFlag is set and 0 otherwise |
| WavEncoder.SamplerateOffsetFrame | lib/WavTrigger/WavTrigger.cpp:401-414 | a well-formed 7-byte frame, command 12; the offset modulo 2^16, and an offset in int16 range reads back exactly |
| WavEncoder.TriggerBankFrame | lib/WavTrigger/WavTrigger.cpp:417-427 | a well-formed 6-byte frame, command 15; byte 4 is the bank modulo 2^8, so a bank in 0..255 is sent unchanged |
| WavEncoder.Encode | lib/WavTrigger/WavTrigger.cpp:4-16 | every outbound frame is well formed and carries its own command code, which lies in 1..15 and so is never a response code |
| WavEncoder.StartFrames | lib/WavTrigger/WavTrigger.cpp:51-65 | `start` writes exactly `F0 AA 05 01 55 F0 AA 05 02 55` |
| WavReceiver.LenFromLengthByte | lib/WavTrigger/WavTrigger.cpp:108 | rxLen is the length byte minus one in 8 bits: a length byte of 0 gives 255 |
| WavReceiver.Frame | lib/WavTrigger/WavTrigger.cpp:97-123 | a frame is delivered only by an end marker when the count equals the declared length, leaving the receiver untouched for dispatch; otherwise the count advances by one or resets to 0; the length changes only at count 2 with a byte of at most 32; the buffer changes only in the payload branch, at index count - 3 |
| WavReceiver.TrackReport | lib/WavTrigger/WavTrigger.cpp:127-140 | a non-zero flag records track id + 1 (mod 2^16) on the reported voice; a zero flag clears that voice only if it holds that track; voices out of range change nothing; every other voice and field is kept |
| WavReceiver.Dispatch | lib/WavTrigger/WavTrigger.cpp:125-156 | a track report (132) is `TrackReport`; only codes 132, 129 and 130 change anything, each only its own fields; the version is the 20 payload characters plus a 0; the track count is bytes 2-3 little-endian |
| WavReceiver.Step | lib/WavTrigger/WavTrigger.cpp:96-160 | a delivered frame is dispatched and the receiver returns to count 0, length 0; an undelivered byte changes nothing that was decoded and leaves the receiver exactly where `Frame` puts it |
| WavReceiver.Run | lib/WavTrigger/WavTrigger.cpp:95-161 | draining a stream keeps every buffer at its declared size |
| WavReceiver.ReportedTrack | lib/WavTrigger/WavTrigger.cpp:128-129 | a track report's id is stored 1-based: the raw 16-bit id plus one, and the raw id 0xFFFF wraps to 0 |
| WavReceiver.Flushed | lib/WavTrigger/WavTrigger.cpp:69-81 | flush sets both counters to 0 and every voice to 0xFFFF, and keeps the message buffer, the version, the counts and both received-flags |
| WavReceiver.Started | lib/WavTrigger/WavTrigger.cpp:43-49 | start is flush with both received-flags cleared; the version and the counts are kept |
| WavReceiver.TrackPlaying | lib/WavTrigger/WavTrigger.cpp:170-174 | the scan of the voice table finds the track exactly when some voice holds `(uint16_t)trk` |
| WavReceiver.PlayingTrack | lib/WavTrigger/WavTrigger.cpp:180-183 | a voice number in range reads its entry; any other voice number reads 0xFFFF |
| WavReceiver.VersionCopyCount | lib/WavTrigger/WavTrigger.cpp:236-241 | getVersion copies max(0, min(20, len - 1)) characters: none when len is at most 1, fewer than len when len is positive, and all 20 whenever len exceeds 20 |
| WavReceiverProofs.RunAppend | lib/WavTrigger/WavTrigger.cpp:95-161 | feeding a + b is feeding a and then b from wherever a left the driver, an overrun in a included |
| WavReceiverProofs.HeaderAccepted | lib/WavTrigger/WavTrigger.cpp:97-111 | `F0 AA L` with L at most 32 leaves the receiver at count 3 with rxLen = L - 1 (mod 256) and nothing else changed |
| WavReceiverProofs.PayloadStored | lib/WavTrigger/WavTrigger.cpp:112-114 | payload bytes are stored at rxMessage[rxCount - 3] in arrival order, nothing is delivered |
| WavReceiverProofs.FrameAccepted | lib/WavTrigger/WavTrigger.cpp:97-160 | a frame `F0 AA L payload 55` with 4 <= L <= 32 is delivered at its last byte, its payload placed in front of the stale buffer contents, dispatched, and the receiver is hunting again |
| WavReceiverProofs.WellFormedFrameAccepted | lib/WavTrigger/WavTrigger.cpp:97-160 | the same for any well-formed frame |
| WavReceiverProofs.NoiseSkipped | lib/WavTrigger/WavTrigger.cpp:97-123 | in the hunt state, any bytes other than F0 and 55 leave the driver unchanged |
| WavReceiverProofs.WrongSecondMarkerResets | lib/WavTrigger/WavTrigger.cpp:99-104 | F0 followed by anything but AA resets the receiver and delivers nothing |
| WavReceiverProofs.DoubledStartMarkerLosesFrame | lib/WavTrigger/WavTrigger.cpp:97-104 | `F0 F0 AA` leaves the receiver hunting: the byte that failed the second-marker test is not re-examined, so the frame it began is lost |
| WavReceiverProofs.OversizeLengthResets | lib/WavTrigger/WavTrigger.cpp:105-111 | a length byte above 32 resets the receiver and delivers nothing |
| WavReceiverProofs.ShortLengthResets | lib/WavTrigger/WavTrigger.cpp:105-123 | a length byte of 1, 2 or 3 is accepted but the next byte resets the receiver, leaving rxLen = L - 1 |
| WavReceiverProofs.WrongEndMarkerResets | lib/WavTrigger/WavTrigger.cpp:115-120 | a wrong byte where the end marker belongs resets the receiver and delivers nothing, the payload already written |
| WavReceiverProofs.StrayEndMarkerReplays | lib/WavTrigger/WavTrigger.cpp:115-159 | with rxCount = rxLen = 0 (after flush or any dispatch) a lone 55 dispatches the stale rxMessage once more |
| WavReceiverProofs.DispatchIdempotent | lib/WavTrigger/WavTrigger.cpp:125-156 | dispatching the same message twice is the same as dispatching it once, so a replay right after a delivery has no effect of its own |
| WavReceiverProofs.FlushedReportReplays | lib/WavTrigger/WavTrigger.cpp:115-139 | after flush empties the voices, a lone 55 replays the stale track report still in rxMessage and puts its track back on its voice |
| WavReceiverProofs.ZeroLengthOverruns | lib/WavTrigger/WavTrigger.cpp:106-113 | a length byte of 0 gives rxLen 255, and the 33rd following byte would be written past the end of rxMessage |
| WavReceiverProofs.StepKeepsLengthInRange | lib/WavTrigger/WavTrigger.cpp:105-113 | while rxLen is below 32 no byte overruns the buffer, and only a length byte of 0 can raise rxLen to 32 or above |
| WavReceiverProofs.ZeroFreeStreamIsSafe | lib/WavTrigger/WavTrigger.cpp:95-161 | a stream with no 0 bytes, from rxLen below 32, never overruns rxMessage |
| WavReceiverProofs.TrackIdWraps | lib/WavTrigger/WavTrigger.cpp:128-129 | raw track id 0xFFFF is stored as 0, and 0xFFFE as 0xFFFF |
| WavReceiverProofs.StartReportCanLookEmpty | lib/WavTrigger/WavTrigger.cpp:128-137 | a "started" report for raw id 0xFFFE leaves its voice reading as empty |
| WavReceiverProofs.VersionTerminatorPastBuffer | lib/WavTrigger/WavTrigger.cpp:236-242 | for len from 1 to 21, getVersion's terminator index (copied count + 1) equals len, one past a len-byte buffer |
| WavReceiverProofs.PlayingQueriesAgree | lib/WavTrigger/WavTrigger.cpp:165-184 | a track is playing exactly when getPlayingTrack reports it on some voice |
| WavReceiverProofs.FlushedIsSilent | lib/WavTrigger/WavTrigger.cpp:69-81 | after flush every voice reads as empty, the receiver is hunting, and only the empty marker itself counts as playing |
| WavRoundTrip.EncodedCommandIsSilent | lib/WavTrigger/WavTrigger.cpp:125-156 | every frame the driver sends is accepted whole by its own receiver and changes nothing decoded |
| WavRoundTrip.ReportFrame | lib/WavTrigger/WavTrigger.cpp:127-131 | a track-report frame is well formed and carries the raw id little-endian, the voice, and the play flag as 1 or 0 |
| WavRoundTrip.ReportAfterNoise | lib/WavTrigger/WavTrigger.cpp:97-140 | noise, then a report: the reported voice records or clears track raw + 1 (mod 2^16), every other voice is kept, the receiver is hunting |
| WavRoundTrip.SysInfoFrame | lib/WavTrigger/WavTrigger.cpp:150-153 | a system-information frame is well formed and carries the voice count and track count |
| WavRoundTrip.SysInfoRoundTrip | lib/WavTrigger/WavTrigger.cpp:150-155 | decoding a system-information frame recovers both counts exactly and changes nothing else |
| WavRoundTrip.VersionFrame | lib/WavTrigger/WavTrigger.cpp:142-145 | a version frame is well formed and carries the 20 characters |
| WavRoundTrip.VersionRoundTrip | lib/WavTrigger/WavTrigger.cpp:142-148 | decoding a version frame stores the 20 characters plus a terminating 0 and sets versionRcvd |
| WavRoundTrip.StopAllAfterNoise | lib/WavTrigger/WavTrigger.cpp:97-159 | the stream `11 F0 AA 05 04 55` is delivered and changes nothing decoded |
| WavTriggerDriver.WavTrigger.constructor | lib/WavTrigger/WavTrigger.h:52-61 | every field and buffer starts at zero, with the declared capacities |
| WavTriggerDriver.WavTrigger.Send | lib/WavTrigger/WavTrigger.cpp:57 | writing appends the frame to the port's output |
| WavTriggerDriver.WavTrigger.DispatchMessage | lib/WavTrigger/WavTrigger.cpp:125-156 | the decoded state becomes `Dispatch` of the message buffer |
| WavTriggerDriver.WavTrigger.Step | lib/WavTrigger/WavTrigger.cpp:96-160 | the new state is `Step` of the old state and the byte |
| WavTriggerDriver.WavTrigger.Update | lib/WavTrigger/WavTrigger.cpp:84-162 | the input is drained and the new state is `Run` of the old state over the pending bytes |
| WavTriggerDriver.WavTrigger.Flush | lib/WavTrigger/WavTrigger.cpp:69-81 | the new state is `Flushed` of the old: counters 0, every voice 0xFFFF, pending input discarded |
| WavTriggerDriver.WavTrigger.Start | lib/WavTrigger/WavTrigger.cpp:43-66 | flush, both received-flags cleared, and exactly the version and system-information requests written |
| WavTriggerDriver.WavTrigger.IsTrackPlaying | lib/WavTrigger/WavTrigger.cpp:165-177 | after draining, true exactly when some voice holds `(uint16_t)trk` |
| WavTriggerDriver.WavTrigger.MaxNumVoices | lib/WavTrigger/WavTrigger.h:40-42 | the capacity of the voice table, 14, which bounds the voice numbers getPlayingTrack and track reports accept |
| WavTriggerDriver.WavTrigger.GetPlayingTrack | lib/WavTrigger/WavTrigger.cpp:179-184 | the voice's entry read as a 16-bit `int`, or -1 (0xFFFF) outside 0..13, without draining the input; any result other than -1 names a voice in range |
| WavTriggerDriver.WavTrigger.GetVersion | lib/WavTrigger/WavTrigger.cpp:229-244 | after draining, false if no version yet and the buffer is untouched; otherwise the first n = max(0, min(20, len - 1)) characters copied, the next byte left as it was, and a 0 one place further |
| WavTriggerDriver.WavTrigger.GetVersionTerminated | lib/WavTrigger/WavTrigger.cpp:229-244 | the corrected getVersion: the copied characters followed directly by a 0, all within the first len bytes |
| WavTriggerDriver.WavTrigger.GetNumTracks | lib/WavTrigger/WavTrigger.cpp:247-250 | after draining, the track count last reported, read as a 16-bit `int` (negative from 0x8000 on) |
| WavTriggerDriver.WavTrigger.MasterGain | lib/WavTrigger/WavTrigger.cpp:187-200 | writes `MasterGainFrame(gain)` and changes nothing else |
| WavTriggerDriver.WavTrigger.SetAmpPwr | lib/WavTrigger/WavTrigger.cpp:203-213 | writes `AmpPowerFrame(enable)` and changes nothing else |
| WavTriggerDriver.WavTrigger.SetReporting | lib/WavTrigger/WavTrigger.cpp:216-226 | writes `ReportingFrame(enable)` and changes nothing else |
| WavTriggerDriver.WavTrigger.TrackControl | lib/WavTrigger/WavTrigger.cpp:307-319 | writes `TrackControlFrame(trk, code)` and changes nothing else |
| WavTriggerDriver.WavTrigger.TrackControlWithLock | lib/WavTrigger/WavTrigger.cpp:322-335 | writes `TrackControlExFrame(trk, code, lock)` and changes nothing else |
| WavTriggerDriver.WavTrigger.TrackPlaySolo | lib/WavTrigger/WavTrigger.cpp:253-255 | writes the track-control frame with sub-code play-solo |
| WavTriggerDriver.WavTrigger.TrackPlaySoloWithLock | lib/WavTrigger/WavTrigger.cpp:258-260 | writes the extended frame with sub-code play-solo and the lock flag |
| WavTriggerDriver.WavTrigger.TrackPlayPoly | lib/WavTrigger/WavTrigger.cpp:263-265 | writes the track-control frame with sub-code play-poly |
| WavTriggerDriver.WavTrigger.TrackPlayPolyWithLock | lib/WavTrigger/WavTrigger.cpp:268-270 | writes the extended frame with sub-code play-poly and the lock flag |
| WavTriggerDriver.WavTrigger.TrackLoad | lib/WavTrigger/WavTrigger.cpp:273-275 | writes the track-control frame with sub-code load |
| WavTriggerDriver.WavTrigger.TrackLoadWithLock | lib/WavTrigger/WavTrigger.cpp:278-280 | writes the extended frame with sub-code load and the lock flag |
| WavTriggerDriver.WavTrigger.TrackStop | lib/WavTrigger/WavTrigger.cpp:283-285 | writes the track-control frame with sub-code stop |
| WavTriggerDriver.WavTrigger.TrackPause | lib/WavTrigger/WavTrigger.cpp:288-290 | writes the track-control frame with sub-code pause |
| WavTriggerDriver.WavTrigger.TrackResume | lib/WavTrigger/WavTrigger.cpp:293-295 | writes the track-control frame with sub-code resume |
| WavTriggerDriver.WavTrigger.TrackLoop | lib/WavTrigger/WavTrigger.cpp:298-304 | writes the track-control frame with sub-code loop-on when enable is set, loop-off otherwise |
| WavTriggerDriver.WavTrigger.StopAllTracks | lib/WavTrigger/WavTrigger.cpp:338-347 | writes `StopAllFrame()` and changes nothing else |
| WavTriggerDriver.WavTrigger.ResumeAllInSync | lib/WavTrigger/WavTrigger.cpp:350-359 | writes `ResumeAllSyncFrame()` and changes nothing else |
| WavTriggerDriver.WavTrigger.TrackGain | lib/WavTrigger/WavTrigger.cpp:362-377 | writes `TrackGainFrame(trk, gain)` and changes nothing else |
| WavTriggerDriver.WavTrigger.TrackFade | lib/WavTrigger/WavTrigger.cpp:380-398 | writes `TrackFadeFrame(trk, gain, time, stopFlag)` and changes nothing else |
| WavTriggerDriver.WavTrigger.SamplerateOffset | lib/WavTrigger/WavTrigger.cpp:401-414 | writes `SamplerateOffsetFrame(offset)` and changes nothing else |
| WavTriggerDriver.WavTrigger.SetTriggerBank | lib/WavTrigger/WavTrigger.cpp:417-427 | writes `TriggerBankFrame(bank)` and changes nothing else |

## Left out

- The serial port itself is not modelled. `WTSerial.available`, `read` and
  `write` become the `serialIn` and `serialOut` fields. Bytes that arrive
  while the driver is running are whatever `serialIn` holds when a method
  is called.
- `WTSerial.begin(57600)` in `start` is not modelled. Neither is the
  choice between `Serial` and `Serial1`, nor the baud rate.
- The hardware-revision test at the top of `update` is not modelled: the
  model follows a board revision of 4 or later. On revisions 3 and below,
  `update` returns at once.
- Writing past the end of `rxMessage` is undefined behaviour in C++, so it
  is not modelled. It happens after a length byte of 0. Where it can
  happen, `Run` returns `None`. `WavTriggerDriver.WavTrigger.Update` and
  the queries that call it require the pending bytes to be free of it.
- WavTriggerDriver.WavTrigger.GetVersion: requires the caller's buffer to
  hold index max(0, min(20, len - 1)) + 1. The C++ code writes there whatever
  the buffer's size is, and a smaller buffer is overrun.
- The boards that run `update` (revision 4 and later) are MEGA2560 AVR
  parts, where C `int` is 16 bits. Results of type `int` are modelled at
  that width: `GetPlayingTrack` and `GetNumTracks` return the signed
  reading `AsInt16` of the 16-bit value. The width of `int` parameters is
  not modelled: they are unbounded integers. Every parameter the driver
  narrows is reduced modulo 2^8 or 2^16 explicitly, which gives the same
  bytes for every value a 16-bit `int` can hold.
- The C++ constructor leaves the fields uninitialised. The model assumes
  the driver object has static storage, so every field starts at zero.
- The virtual destructor has no counterpart.
- The context files `RPU.h`, `OsHardware.h`, `AudioHandler.h` and
  `Trident2020.h` hold only declarations and callers of the driver, so
  they are not part of this model.

## Findings

| source | as written | input that shows it | evidently intended | confidence | as-written member | corrected member |
|---|---|---|---|---|---|---|
| lib/WavTrigger/WavTrigger.cpp:242 | `getVersion` writes the terminating 0 at `pDst[++i]`, one past the copied characters, and leaves `pDst[i]` unset | `len = 21` with a 21-byte buffer: 20 characters are copied into indices 0..19, then the 0 is written to index 21, outside the buffer, and index 20 keeps its old contents | the 0 at `pDst[i]`, directly after the copied characters and within the first `len` bytes | not executed | WavReceiverProofs.VersionTerminatorPastBuffer, WavTriggerDriver.WavTrigger.GetVersion | WavTriggerDriver.WavTrigger.GetVersionTerminated |
