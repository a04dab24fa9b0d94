/** What the driver's own receiver makes of frames: the frames the driver
    sends are accepted as frames but decode to no event, while response
    frames from the module, even after line noise, decode to exactly one
    table or information update. */
module WavRoundTrip {
  import opened WavProtocol
  import opened WavEncoder
  import opened WavReceiver
  import opened WavReceiverProofs

  /** Every command frame the driver emits is accepted whole by the
      receiver, which ends back in the hunt state with the frame's payload
      in `rxMessage`; since the command codes are not response codes, the
      dispatch changes nothing the driver has learned. */
  lemma EncodedCommandIsSilent(d: Driver, c: Command)
    requires d.Wf() && d.rx.count == 0
    ensures Run(d, Encode(c)) ==
            Some(Driver(Receiver(0, 0, Placed(d.rx.msg, Payload(Encode(c)))), d.dec))
  {
    var f := Encode(c);
    WellFormedFrameAccepted(d, f);
    assert Placed(d.rx.msg, Payload(f))[0] == f[3];
  }

  /** A track report frame as the module sends it: the 0-based track id low
      byte first, the voice, and the playing flag. */
  function ReportFrame(raw: Word, voice: Byte, playing: bool): (f: seq<Byte>)
    ensures WellFormedFrame(f) && |f| == 9 && f[3] == RSP_TRACK_REPORT
    ensures Le16(f[4], f[5]) == raw && f[6] == voice && f[7] == BoolByte(playing)
  {
    SplitOfWord(raw);
    [SOM1, SOM2, 0x09, RSP_TRACK_REPORT, ToByte(raw), HighByte(raw), voice, BoolByte(playing), EOM]
  }

  /** The payload of a report frame as it lands in `rxMessage`. */
  lemma ReportPlaced(msg: seq<Byte>, raw: Word, voice: Byte, playing: bool)
    requires |msg| == MAX_MESSAGE_LEN
    ensures var m := Placed(msg, Payload(ReportFrame(raw, voice, playing)));
            |m| == MAX_MESSAGE_LEN && m[0] == RSP_TRACK_REPORT && m[3] == voice && (m[4] != 0 <==> playing) &&
            ReportedTrack(m) == ToWord(raw + 1)
  {
    var f := ReportFrame(raw, voice, playing);
    var m := Placed(msg, Payload(f));
    assert m[1] == f[4] && m[2] == f[5] && m[3] == f[6] && m[4] == f[7];
    assert Le16(m[1], m[2]) == raw;
  }

  /** Noise, then one track report: the report is delivered, the voice
      it names (when in range) records track raw + 1 (mod 2^16) if it started
      or gives it up if it stopped, every other voice is untouched, and the
      receiver is back in the hunt state. */
  lemma ReportAfterNoise(d: Driver, g: seq<Byte>, raw: Word, voice: Byte, playing: bool)
    requires d.Wf() && d.rx.count == 0
    requires forall i :: 0 <= i < |g| ==> Noise(g[i])
    ensures Run(d, g + ReportFrame(raw, voice, playing)).Some?
    ensures var r := Run(d, g + ReportFrame(raw, voice, playing)).value;
            r.rx.count == 0 && r.rx.len == 0 &&
            (forall v :: 0 <= v < MAX_NUM_VOICES && v != voice ==> r.dec.voices[v] == d.dec.voices[v]) &&
            (voice < MAX_NUM_VOICES && playing ==> r.dec.voices[voice] == ToWord(raw + 1)) &&
            (voice < MAX_NUM_VOICES && !playing ==>
               r.dec.voices[voice] == (if d.dec.voices[voice] == ToWord(raw + 1) then NO_TRACK else d.dec.voices[voice])) &&
            r.dec.version == d.dec.version && r.dec.numTracks == d.dec.numTracks
  {
    var f := ReportFrame(raw, voice, playing);
    var m := Placed(d.rx.msg, Payload(f));
    RunAppend(d, g, f);
    NoiseSkipped(d, g);
    WellFormedFrameAccepted(d, f);
    ReportPlaced(d.rx.msg, raw, voice, playing);
    var t := TrackReport(m, d.dec);
    assert Dispatch(m, d.dec) == t;
    assert Run(d, g + f) == Some(Driver(Receiver(0, 0, m), t));
  }

  /** A system-information frame: voice count, then the track count low
      byte first. */
  function SysInfoFrame(voices: Byte, tracks: Word): (f: seq<Byte>)
    ensures WellFormedFrame(f) && |f| == 8 && f[3] == RSP_SYSTEM_INFO
    ensures f[4] == voices && Le16(f[5], f[6]) == tracks
  {
    SplitOfWord(tracks);
    [SOM1, SOM2, 0x08, RSP_SYSTEM_INFO, voices, ToByte(tracks), HighByte(tracks), EOM]
  }

  /** Decoding a system-information frame recovers both numbers exactly and
      leaves the voice table and version alone. */
  lemma SysInfoRoundTrip(d: Driver, voices: Byte, tracks: Word)
    requires d.Wf() && d.rx.count == 0
    ensures Run(d, SysInfoFrame(voices, tracks)).Some?
    ensures var r := Run(d, SysInfoFrame(voices, tracks)).value;
            r.dec == d.dec.(numVoices := voices, numTracks := tracks, sysinfoRcvd := true) &&
            r.rx.count == 0 && r.rx.len == 0
  {
    var f := SysInfoFrame(voices, tracks);
    WellFormedFrameAccepted(d, f);
    var m := Placed(d.rx.msg, Payload(f));
    assert m[0] == RSP_SYSTEM_INFO && m[1] == voices && Le16(m[2], m[3]) == tracks;
  }

  /** A version frame: the response code and 20 characters. */
  function VersionFrame(text: seq<Byte>): (f: seq<Byte>)
    requires |text| == VERSION_STRING_LEN - 1
    ensures WellFormedFrame(f) && |f| == 25 && f[3] == RSP_VERSION_STRING
    ensures f[4..24] == text
  {
    [SOM1, SOM2, 25, RSP_VERSION_STRING] + text + [EOM]
  }

  /** Decoding a version frame stores the 20 characters and a terminating 0. */
  lemma VersionRoundTrip(d: Driver, text: seq<Byte>)
    requires d.Wf() && d.rx.count == 0 && |text| == VERSION_STRING_LEN - 1
    ensures Run(d, VersionFrame(text)).Some?
    ensures var r := Run(d, VersionFrame(text)).value;
            r.dec.version == text + [0] && r.dec.versionRcvd && r.dec.voices == d.dec.voices
  {
    var f := VersionFrame(text);
    WellFormedFrameAccepted(d, f);
    var m := Placed(d.rx.msg, Payload(f));
    assert m[1..VERSION_STRING_LEN] == text;
  }

  /** The noisy `STOP_ALL`-shaped stream `11 F0 AA 05 04 55`: the leading byte
      is skipped, the five-byte frame is delivered, and dispatching its
      code 4 changes nothing. */
  lemma StopAllAfterNoise(d: Driver)
    requires d.Wf() && d.rx.count == 0
    ensures Run(d, [0x11, 0xF0, 0xAA, 0x05, 0x04, 0x55]) ==
            Some(Driver(Receiver(0, 0, Placed(d.rx.msg, [0x04])), d.dec))
  {
    assert [0x11, 0xF0, 0xAA, 0x05, 0x04, 0x55] == [0x11] + Encode(StopAll);
    RunAppend(d, [0x11], Encode(StopAll));
    NoiseSkipped(d, [0x11]);
    EncodedCommandIsSilent(d, StopAll);
    assert Payload(Encode(StopAll)) == [0x04];
  }
}
