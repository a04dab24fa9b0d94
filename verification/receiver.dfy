/** The inbound side of the WAV Trigger driver as a specification on values:
    the byte-level framing state machine, the dispatch of a completed frame
    on its first payload byte, and the fold of both over a byte stream.
    The imperative driver (class `WavTrigger`) is proved to compute exactly
    these functions. */
module WavReceiver {
  import opened WavProtocol

  datatype Option<T> = None | Some(value: T)

  /** The framing counters and the raw payload buffer:
      `rxCount`, `rxLen` and `rxMessage[MAX_MESSAGE_LEN]`. */
  datatype Receiver = Receiver(count: Byte, len: Byte, msg: seq<Byte>)
  {
    predicate Wf() {
      |msg| == MAX_MESSAGE_LEN
    }
  }

  /** What the driver has learned from the module's responses. */
  datatype Decoded = Decoded(
    voices: seq<Word>,        // voiceTable[MAX_NUM_VOICES]
    version: seq<Byte>,       // version[VERSION_STRING_LEN]
    numTracks: Word,
    numVoices: Byte,
    versionRcvd: bool,
    sysinfoRcvd: bool)
  {
    predicate Wf() {
      |voices| == MAX_NUM_VOICES && |version| == VERSION_STRING_LEN
    }
  }

  /** The whole driver state the inbound side reads and writes. */
  datatype Driver = Driver(rx: Receiver, dec: Decoded)
  {
    predicate Wf() {
      rx.Wf() && dec.Wf()
    }
  }

  /** The framing step's result: the new receiver and `rxMsgReady`. */
  datatype Framed = Framed(rx: Receiver, ready: bool)

  /** `uint8_t` subtraction of one: a length byte of 0 gives 255. */
  function LenFromLengthByte(dat: Byte): (r: Byte)
    ensures dat >= 1 ==> r == dat - 1
    ensures dat == 0 ==> r == 255
  {
    ToByte(dat - 1)
  }

  /** The payload branch would write `rxMessage[rxCount - 3]` past the end of
      the buffer. This is reachable only after a length byte of 0, which
      makes `rxLen` 255 while the buffer holds 32 bytes. */
  predicate Overruns(rx: Receiver) {
    2 < rx.count < rx.len && rx.count - 3 >= |rx.msg|
  }

  /** One received byte through the framing state machine. A frame is
      delivered (`ready`) only by an end marker arriving when the count
      equals the declared length, and then the receiver is left as it was
      for dispatch; any other outcome either advances the count by one or
      puts the receiver back into the hunt for a start marker. */
  function Frame(rx: Receiver, dat: Byte): (r: Framed)
    requires !Overruns(rx)
    ensures |r.rx.msg| == |rx.msg|
    ensures r.ready ==> dat == EOM && rx.count == rx.len && (rx.count == 0 || rx.count >= 3) && r.rx == rx
    ensures !r.ready ==> r.rx.count == 0 || r.rx.count == rx.count + 1
    ensures r.rx.len != rx.len ==> rx.count == 2 && dat <= MAX_MESSAGE_LEN
    ensures r.rx.msg != rx.msg ==> 2 < rx.count < rx.len && r.rx.msg == rx.msg[rx.count - 3 := dat]
  {
    if rx.count == 0 && dat == SOM1 then
      Framed(rx.(count := 1), false)
    else if rx.count == 1 then
      if dat == SOM2 then Framed(rx.(count := 2), false) else Framed(rx.(count := 0), false)
    else if rx.count == 2 then
      if dat <= MAX_MESSAGE_LEN then Framed(rx.(count := 3, len := LenFromLengthByte(dat)), false)
      else Framed(rx.(count := 0), false)
    else if 2 < rx.count < rx.len then
      Framed(rx.(msg := rx.msg[rx.count - 3 := dat], count := rx.count + 1), false)
    else if rx.count == rx.len then
      if dat == EOM then Framed(rx, true) else Framed(rx.(count := 0), false)
    else
      Framed(rx.(count := 0), false)
  }

  /** The track id of a track report: the 16-bit sum
      `(rxMessage[2] << 8) + rxMessage[1] + 1`, so ids are reported 0-based
      and stored 1-based, and the raw value 0xFFFF wraps to 0. */
  function ReportedTrack(msg: seq<Byte>): (t: Word)
    requires |msg| >= 3
    ensures Le16(msg[1], msg[2]) < 0xFFFF ==> t == Le16(msg[1], msg[2]) + 1
    ensures Le16(msg[1], msg[2]) == 0xFFFF ==> t == 0
  {
    ToWord(Le16(msg[1], msg[2]) + 1)
  }

  /** A track report: a non-zero flag records the track on the reported
      voice; a zero flag clears that voice only if it holds that very track;
      a voice number outside the table is ignored. */
  function TrackReport(msg: seq<Byte>, dec: Decoded): (r: Decoded)
    requires |msg| == MAX_MESSAGE_LEN && dec.Wf()
    ensures r.Wf()
    ensures r.version == dec.version && r.numTracks == dec.numTracks && r.numVoices == dec.numVoices
    ensures r.versionRcvd == dec.versionRcvd && r.sysinfoRcvd == dec.sysinfoRcvd
    ensures forall v :: 0 <= v < MAX_NUM_VOICES && v != msg[3] ==> r.voices[v] == dec.voices[v]
    ensures msg[3] >= MAX_NUM_VOICES ==> r.voices == dec.voices
    ensures msg[3] < MAX_NUM_VOICES && msg[4] != 0 ==> r.voices[msg[3]] == ReportedTrack(msg)
    ensures msg[3] < MAX_NUM_VOICES && msg[4] == 0 ==>
              r.voices[msg[3]] == (if dec.voices[msg[3]] == ReportedTrack(msg) then NO_TRACK else dec.voices[msg[3]])
  {
    var track := ReportedTrack(msg);
    var voice := msg[3];
    if voice < MAX_NUM_VOICES then
      if msg[4] == 0 then
        if track == dec.voices[voice] then dec.(voices := dec.voices[voice := NO_TRACK]) else dec
      else
        dec.(voices := dec.voices[voice := track])
    else
      dec
  }

  /** The dispatch of a delivered frame on its first payload byte. Only the
      three handled responses change anything, and each changes only its
      own part of the state. */
  function Dispatch(msg: seq<Byte>, dec: Decoded): (r: Decoded)
    requires |msg| == MAX_MESSAGE_LEN && dec.Wf()
    ensures r.Wf()
    ensures msg[0] != RSP_TRACK_REPORT && msg[0] != RSP_VERSION_STRING && msg[0] != RSP_SYSTEM_INFO ==> r == dec
    ensures msg[0] == RSP_TRACK_REPORT ==> r == TrackReport(msg, dec)
    ensures msg[0] != RSP_TRACK_REPORT ==> r.voices == dec.voices
    ensures msg[0] != RSP_VERSION_STRING ==> r.version == dec.version && r.versionRcvd == dec.versionRcvd
    ensures msg[0] != RSP_SYSTEM_INFO ==>
              r.numTracks == dec.numTracks && r.numVoices == dec.numVoices && r.sysinfoRcvd == dec.sysinfoRcvd
    ensures msg[0] == RSP_VERSION_STRING ==>
              r.versionRcvd && r.version[VERSION_STRING_LEN - 1] == 0 &&
              forall i :: 0 <= i < VERSION_STRING_LEN - 1 ==> r.version[i] == msg[i + 1]
    ensures msg[0] == RSP_SYSTEM_INFO ==>
              r.sysinfoRcvd && r.numVoices == msg[1] && r.numTracks == Le16(msg[2], msg[3])
  {
    if msg[0] == RSP_TRACK_REPORT then
      TrackReport(msg, dec)
    else if msg[0] == RSP_VERSION_STRING then
      dec.(version := msg[1..VERSION_STRING_LEN] + [0], versionRcvd := true)
    else if msg[0] == RSP_SYSTEM_INFO then
      dec.(numVoices := msg[1], numTracks := Le16(msg[2], msg[3]), sysinfoRcvd := true)
    else
      dec
  }

  /** One byte through the loop body of `update`: framing, then, if a frame
      was delivered, its dispatch and the return to the hunt state. */
  function Step(d: Driver, dat: Byte): (r: Driver)
    requires d.Wf() && !Overruns(d.rx)
    ensures r.Wf()
    ensures Frame(d.rx, dat).ready ==>
              r.rx.count == 0 && r.rx.len == 0 && r.rx.msg == d.rx.msg && r.dec == Dispatch(d.rx.msg, d.dec)
    ensures !Frame(d.rx, dat).ready ==> r.dec == d.dec && r.rx == Frame(d.rx, dat).rx
  {
    var f := Frame(d.rx, dat);
    if f.ready then Driver(Receiver(0, 0, f.rx.msg), Dispatch(f.rx.msg, d.dec))
    else Driver(f.rx, d.dec)
  }

  /** `update` over a whole stream of bytes: `None` when some byte would make
      the payload branch write past the end of `rxMessage`. */
  function Run(d: Driver, input: seq<Byte>): (r: Option<Driver>)
    requires d.Wf()
    ensures r.Some? ==> r.value.Wf()
    decreases |input|
  {
    if input == [] then Some(d)
    else if Overruns(d.rx) then None
    else Run(Step(d, input[0]), input[1..])
  }

  /** `flush`: counters to zero and every voice empty; the payload buffer,
      the version and the system information are kept. */
  function Flushed(d: Driver): (r: Driver)
    requires d.Wf()
    ensures r.Wf()
    ensures r.rx.count == 0 && r.rx.len == 0 && r.rx.msg == d.rx.msg
    ensures forall v :: 0 <= v < MAX_NUM_VOICES ==> r.dec.voices[v] == NO_TRACK
    ensures r.dec.version == d.dec.version && r.dec.numTracks == d.dec.numTracks && r.dec.numVoices == d.dec.numVoices
    ensures r.dec.versionRcvd == d.dec.versionRcvd && r.dec.sysinfoRcvd == d.dec.sysinfoRcvd
  {
    Driver(Receiver(0, 0, d.rx.msg), d.dec.(voices := seq(MAX_NUM_VOICES, _ => NO_TRACK)))
  }

  /** `start`: `flush`, and both "received" flags cleared. */
  function Started(d: Driver): (r: Driver)
    requires d.Wf()
    ensures r.Wf()
    ensures r.rx == Flushed(d).rx && r.dec.voices == Flushed(d).dec.voices
    ensures !r.dec.versionRcvd && !r.dec.sysinfoRcvd
    ensures r.dec.version == d.dec.version && r.dec.numTracks == d.dec.numTracks && r.dec.numVoices == d.dec.numVoices
  {
    var f := Flushed(d);
    f.(dec := f.dec.(versionRcvd := false, sysinfoRcvd := false))
  }

  /** `isTrackPlaying` after the drain, as a scan of the voice table from
      the last voice back: true exactly when some voice holds
      `(uint16_t)trk`. */
  function TrackPlaying(voices: seq<Word>, trk: int): (b: bool)
    ensures b <==> exists i :: 0 <= i < |voices| && voices[i] == ToWord(trk)
    decreases |voices|
  {
    if voices == [] then false
    else
      var init := voices[..|voices| - 1];
      assert forall i :: 0 <= i < |init| ==> init[i] == voices[i];
      voices[|voices| - 1] == ToWord(trk) || TrackPlaying(init, trk)
  }

  /** `getPlayingTrack`: the voice's entry, or 0xFFFF outside the table. */
  function PlayingTrack(voices: seq<Word>, voiceNum: int): (t: Word)
    ensures 0 <= voiceNum < |voices| ==> t == voices[voiceNum]
    ensures !(0 <= voiceNum < |voices|) ==> t == NO_TRACK
  {
    if 0 <= voiceNum < |voices| then voices[voiceNum] else NO_TRACK
  }

  /** The number of version characters `getVersion` copies for a caller's
      `len`: max(0, min(20, len - 1)), so none at all when len is at most 1. */
  function VersionCopyCount(len: int): (n: nat)
    ensures n <= VERSION_STRING_LEN - 1
    ensures len >= 1 ==> n < len
    ensures len >= 1 ==> n == VERSION_STRING_LEN - 1 || n == len - 1
    ensures len <= 1 ==> n == 0
  {
    if len - 1 <= 0 then 0
    else if len - 1 < VERSION_STRING_LEN - 1 then len - 1
    else VERSION_STRING_LEN - 1
  }
}
