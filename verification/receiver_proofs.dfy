/** Properties of the inbound framing state machine and of the dispatch of
    delivered frames, stated over whole byte streams. */
module WavReceiverProofs {
  import opened WavProtocol
  import opened WavReceiver

  /** Feeding two pieces of a stream is feeding the first, then the second
      from wherever the first left the driver. */
  lemma {:induction false} RunAppend(d: Driver, a: seq<Byte>, b: seq<Byte>)
    requires d.Wf()
    ensures Run(d, a + b) == (if Run(d, a).None? then None else Run(Run(d, a).value, b))
    decreases |a|
  {
    if a == [] {
      assert a + b == b;
    } else if !Overruns(d.rx) {
      assert (a + b)[1..] == a[1..] + b;
      RunAppend(Step(d, a[0]), a[1..], b);
    }
  }

  /** The three header bytes `F0 AA L` with L at most 32, fed in the hunt
      state, leave the receiver counting payload bytes from 3 with
      `rxLen = L - 1` (mod 256) and nothing else changed. */
  lemma HeaderAccepted(d: Driver, L: Byte)
    requires d.Wf() && d.rx.count == 0 && L <= MAX_MESSAGE_LEN
    ensures Run(d, [SOM1, SOM2, L]) == Some(Driver(Receiver(3, LenFromLengthByte(L), d.rx.msg), d.dec))
  {
    var d1 := Step(d, SOM1);
    assert d1 == Driver(d.rx.(count := 1), d.dec);
    var d2 := Step(d1, SOM2);
    assert d2 == Driver(d.rx.(count := 2), d.dec);
    var d3 := Step(d2, L);
    assert d3 == Driver(Receiver(3, LenFromLengthByte(L), d.rx.msg), d.dec);
    assert [SOM1, SOM2, L][1..] == [SOM2, L];
    assert [SOM2, L][1..] == [L];
    assert [L][1..] == [];
    assert Run(d, [SOM1, SOM2, L]) == Run(d1, [SOM2, L]);
    assert Run(d1, [SOM2, L]) == Run(d2, [L]);
    assert Run(d2, [L]) == Run(d3, []);
  }

  /** Payload placement: while the count is below the declared length, each
      byte is stored at `rxMessage[rxCount - 3]`, in arrival order, and
      nothing is delivered. */
  lemma {:induction false} PayloadStored(d: Driver, p: seq<Byte>)
    requires d.Wf() && 3 <= d.rx.count && d.rx.count + |p| <= d.rx.len
    requires d.rx.count - 3 + |p| <= MAX_MESSAGE_LEN
    ensures Run(d, p) == Some(Driver(
              Receiver(d.rx.count + |p|, d.rx.len,
                       d.rx.msg[..d.rx.count - 3] + p + d.rx.msg[d.rx.count - 3 + |p|..]),
              d.dec))
    decreases |p|
  {
    var k := d.rx.count - 3;
    if p == [] {
      assert d.rx.msg[..k] + p + d.rx.msg[k..] == d.rx.msg;
    } else {
      var d1 := Step(d, p[0]);
      assert d1 == Driver(Receiver(d.rx.count + 1, d.rx.len, d.rx.msg[k := p[0]]), d.dec);
      PayloadStored(d1, p[1..]);
      var m := d.rx.msg[k := p[0]];
      assert m[..k + 1] + p[1..] + m[k + 1 + |p[1..]|..] == d.rx.msg[..k] + p + d.rx.msg[k + |p|..];
    }
  }

  /** The message a frame with payload p leaves in `rxMessage`: p in front,
      the stale bytes of earlier frames behind it. */
  function Placed(msg: seq<Byte>, p: seq<Byte>): seq<Byte>
    requires |p| <= |msg|
  {
    p + msg[|p|..]
  }

  /** Frame acceptance: in the hunt state, `F0 AA L payload 55` with
      4 <= L <= 32 and L - 4 payload bytes is delivered at its
      last byte; the payload lands at `rxMessage[0..L-5]`, the message is
      dispatched, and the receiver is back in the hunt state. With L = 4 the
      payload is empty and the stale `rxMessage[0]` is dispatched again. */
  lemma {:induction false} FrameAccepted(d: Driver, L: Byte, p: seq<Byte>)
    requires d.Wf() && d.rx.count == 0
    requires 4 <= L <= MAX_MESSAGE_LEN && |p| == L - 4
    ensures Run(d, [SOM1, SOM2, L] + p + [EOM]) ==
            Some(Driver(Receiver(0, 0, Placed(d.rx.msg, p)), Dispatch(Placed(d.rx.msg, p), d.dec)))
  {
    var h := [SOM1, SOM2, L];
    assert h + p + [EOM] == h + (p + [EOM]);
    RunAppend(d, h, p + [EOM]);
    HeaderAccepted(d, L);
    var d3 := Driver(Receiver(3, L - 1, d.rx.msg), d.dec);
    RunAppend(d3, p, [EOM]);
    PayloadStored(d3, p);
    assert d.rx.msg[..0] + p + d.rx.msg[|p|..] == Placed(d.rx.msg, p);
    var d4 := Driver(Receiver(L - 1, L - 1, Placed(d.rx.msg, p)), d.dec);
    assert Frame(d4.rx, EOM).ready;
    assert Run(d4, [EOM]) == Some(Step(d4, EOM)) by {
      assert [EOM][1..] == [];
    }
  }

  /** The same, for a frame given as one sequence. */
  lemma WellFormedFrameAccepted(d: Driver, f: seq<Byte>)
    requires d.Wf() && d.rx.count == 0 && WellFormedFrame(f)
    ensures Run(d, f) ==
            Some(Driver(Receiver(0, 0, Placed(d.rx.msg, Payload(f))), Dispatch(Placed(d.rx.msg, Payload(f)), d.dec)))
  {
    assert f == [SOM1, SOM2, f[2]] + Payload(f) + [EOM];
    FrameAccepted(d, f[2], Payload(f));
  }

  /** In the hunt state a byte that is neither the first start marker nor an
      end marker changes nothing. */
  predicate Noise(b: Byte) {
    b != SOM1 && b != EOM
  }

  /** Any amount of noise before a frame is skipped without a trace. */
  lemma {:induction false} NoiseSkipped(d: Driver, g: seq<Byte>)
    requires d.Wf() && d.rx.count == 0
    requires forall i :: 0 <= i < |g| ==> Noise(g[i])
    ensures Run(d, g) == Some(d)
    decreases |g|
  {
    if g != [] {
      assert Noise(g[0]);
      assert Step(d, g[0]) == d;
      NoiseSkipped(d, g[1..]);
    }
  }

  /** A wrong second marker resets the receiver and delivers nothing. */
  lemma WrongSecondMarkerResets(d: Driver, x: Byte)
    requires d.Wf() && d.rx.count == 0 && x != SOM2
    ensures Run(d, [SOM1, x]) == Some(d)
  {
    var d1 := Driver(d.rx.(count := 1), d.dec);
    assert Step(d, SOM1) == d1;
    assert Step(d1, x) == d;
    assert [SOM1, x][1..] == [x];
    assert [x][1..] == [];
    assert Run(d, [SOM1, x]) == Run(d1, [x]);
    assert Run(d1, [x]) == Run(d, []);
  }

  /** The byte that failed the second-marker test is not looked at again as
      a first marker: `F0 F0 AA` leaves the receiver hunting, so the frame
      the second `F0` began is lost. */
  lemma DoubledStartMarkerLosesFrame(d: Driver)
    requires d.Wf() && d.rx.count == 0
    ensures Run(d, [SOM1, SOM1, SOM2]) == Some(d)
  {
    assert [SOM1, SOM1, SOM2] == [SOM1, SOM1] + [SOM2];
    RunAppend(d, [SOM1, SOM1], [SOM2]);
    WrongSecondMarkerResets(d, SOM1);
    assert Noise(SOM2);
    NoiseSkipped(d, [SOM2]);
  }

  /** A length byte above 32 resets the receiver and delivers nothing. */
  lemma OversizeLengthResets(d: Driver, L: Byte)
    requires d.Wf() && d.rx.count == 0 && L > MAX_MESSAGE_LEN
    ensures Run(d, [SOM1, SOM2, L]) == Some(d)
  {
    var d1 := Driver(d.rx.(count := 1), d.dec);
    var d2 := Driver(d.rx.(count := 2), d.dec);
    assert Step(d, SOM1) == d1;
    assert Step(d1, SOM2) == d2;
    assert Step(d2, L) == d;
    assert [SOM1, SOM2, L][1..] == [SOM2, L];
    assert [SOM2, L][1..] == [L];
    assert [L][1..] == [];
    assert Run(d, [SOM1, SOM2, L]) == Run(d1, [SOM2, L]);
    assert Run(d1, [SOM2, L]) == Run(d2, [L]);
    assert Run(d2, [L]) == Run(d, []);
  }

  /** A length byte of 1, 2 or 3 is accepted, but the byte after it resets
      the receiver (the declared frame is shorter than its own header);
      nothing is delivered and `rxLen` keeps the value L - 1. */
  lemma ShortLengthResets(d: Driver, L: Byte, x: Byte)
    requires d.Wf() && d.rx.count == 0 && 1 <= L <= 3
    ensures Run(d, [SOM1, SOM2, L, x]) == Some(Driver(d.rx.(len := L - 1), d.dec))
  {
    assert [SOM1, SOM2, L, x] == [SOM1, SOM2, L] + [x];
    RunAppend(d, [SOM1, SOM2, L], [x]);
    HeaderAccepted(d, L);
    var d3 := Driver(Receiver(3, L - 1, d.rx.msg), d.dec);
    assert Step(d3, x) == Driver(d.rx.(len := L - 1), d.dec);
    assert [x][1..] == [];
  }

  /** A wrong byte where the end marker belongs resets the receiver and
      delivers nothing, although the payload has already been written. */
  lemma {:induction false} WrongEndMarkerResets(d: Driver, L: Byte, p: seq<Byte>, x: Byte)
    requires d.Wf() && d.rx.count == 0
    requires 4 <= L <= MAX_MESSAGE_LEN && |p| == L - 4 && x != EOM
    ensures Run(d, [SOM1, SOM2, L] + p + [x]) == Some(Driver(Receiver(0, L - 1, Placed(d.rx.msg, p)), d.dec))
  {
    var h := [SOM1, SOM2, L];
    assert h + p + [x] == h + (p + [x]);
    RunAppend(d, h, p + [x]);
    HeaderAccepted(d, L);
    var d3 := Driver(Receiver(3, L - 1, d.rx.msg), d.dec);
    RunAppend(d3, p, [x]);
    PayloadStored(d3, p);
    assert d.rx.msg[..0] + p + d.rx.msg[|p|..] == Placed(d.rx.msg, p);
    var d4 := Driver(Receiver(L - 1, L - 1, Placed(d.rx.msg, p)), d.dec);
    assert Step(d4, x) == Driver(Receiver(0, L - 1, Placed(d.rx.msg, p)), d.dec);
    assert [x][1..] == [];
  }

  /** A stray end marker in the hunt state, when `rxLen` is 0 (after `flush`
      or after any dispatched frame), is taken as the end of a frame: the
      stale message in `rxMessage` is dispatched once more. */
  lemma StrayEndMarkerReplays(d: Driver)
    requires d.Wf() && d.rx.count == 0 && d.rx.len == 0
    ensures Run(d, [EOM]) == Some(Driver(d.rx, Dispatch(d.rx.msg, d.dec)))
  {
    assert Frame(d.rx, EOM).ready;
    assert [EOM][1..] == [];
  }

  /** Dispatching the same message twice is dispatching it once, so a
      replay right after a delivery leaves no trace of its own. */
  lemma DispatchIdempotent(msg: seq<Byte>, dec: Decoded)
    requires |msg| == MAX_MESSAGE_LEN && dec.Wf()
    ensures Dispatch(msg, Dispatch(msg, dec)) == Dispatch(msg, dec)
  {
  }

  /** A replay that shows: `flush` empties every voice but keeps the stale
      track report in `rxMessage`, so a lone end marker puts the reported
      track back on its voice although no frame arrived. */
  lemma FlushedReportReplays(d: Driver)
    requires d.Wf()
    requires d.rx.msg[0] == RSP_TRACK_REPORT && d.rx.msg[3] < MAX_NUM_VOICES && d.rx.msg[4] != 0
    ensures PlayingTrack(Flushed(d).dec.voices, d.rx.msg[3]) == NO_TRACK
    ensures Run(Flushed(d), [EOM]).Some?
    ensures PlayingTrack(Run(Flushed(d), [EOM]).value.dec.voices, d.rx.msg[3]) == ReportedTrack(d.rx.msg)
  {
    StrayEndMarkerReplays(Flushed(d));
  }

  /** A length byte of 0 is accepted and makes `rxLen` 255, so the payload
      branch keeps writing; the 33rd byte after the header would be written
      to `rxMessage[32]`, past the end of the buffer. */
  lemma {:induction false} ZeroLengthOverruns(d: Driver, p: seq<Byte>, x: Byte)
    requires d.Wf() && d.rx.count == 0 && |p| == MAX_MESSAGE_LEN
    ensures Run(d, [SOM1, SOM2, 0] + p + [x]) == None
  {
    var h := [SOM1, SOM2, 0];
    assert h + p + [x] == h + (p + [x]);
    RunAppend(d, h, p + [x]);
    HeaderAccepted(d, 0);
    var d3 := Driver(Receiver(3, 255, d.rx.msg), d.dec);
    RunAppend(d3, p, [x]);
    PayloadStored(d3, p);
    var d4 := Run(d3, p).value;
    assert d4.rx.count == 35 && d4.rx.len == 255;
    assert Overruns(d4.rx);
  }

  /** While `rxLen` is below 32 the payload branch can never write past the
      buffer, and a byte keeps `rxLen` below 32 unless it is a length byte
      of 0. */
  lemma StepKeepsLengthInRange(d: Driver, dat: Byte)
    requires d.Wf() && d.rx.len < MAX_MESSAGE_LEN
    ensures !Overruns(d.rx)
    ensures !(d.rx.count == 2 && dat == 0) ==> Step(d, dat).rx.len < MAX_MESSAGE_LEN
  {
  }

  /** A stream without zero bytes, fed to a receiver whose `rxLen` is below
      32 (as after construction, `flush` or any dispatched frame), never
      drives the payload branch past the end of `rxMessage`. */
  lemma {:induction false} ZeroFreeStreamIsSafe(d: Driver, input: seq<Byte>)
    requires d.Wf() && d.rx.len < MAX_MESSAGE_LEN
    requires forall i :: 0 <= i < |input| ==> input[i] != 0
    ensures Run(d, input).Some? && Run(d, input).value.rx.len < MAX_MESSAGE_LEN
    decreases |input|
  {
    if input != [] {
      StepKeepsLengthInRange(d, input[0]);
      ZeroFreeStreamIsSafe(Step(d, input[0]), input[1..]);
    }
  }

  /** The 16-bit track id wraps: a raw id 0xFFFF is stored as track 0, and a
      raw id 0xFFFE is stored as 0xFFFF, the value that means "no track". */
  lemma TrackIdWraps(msg: seq<Byte>)
    requires |msg| >= 3 && msg[2] == 0xFF
    ensures msg[1] == 0xFF ==> ReportedTrack(msg) == 0
    ensures msg[1] == 0xFE ==> ReportedTrack(msg) == NO_TRACK
  {
  }

  /** Consequently a "started" report for raw id 0xFFFE leaves its voice
      reading as empty. */
  lemma StartReportCanLookEmpty(msg: seq<Byte>, dec: Decoded)
    requires |msg| == MAX_MESSAGE_LEN && dec.Wf()
    requires msg[0] == RSP_TRACK_REPORT && msg[1] == 0xFE && msg[2] == 0xFF
    requires msg[3] < MAX_NUM_VOICES && msg[4] != 0
    ensures PlayingTrack(Dispatch(msg, dec).voices, msg[3]) == NO_TRACK
  {
    TrackIdWraps(msg);
  }

  /** `getVersion` as written puts its terminating 0 one place after the
      copied characters. For every `len` from 1 to 21 that is index `len`,
      one past the end of a buffer of `len` bytes; and for `len` = 21, the
      size of the version string itself, index 20 is never written. */
  lemma VersionTerminatorPastBuffer(len: int)
    requires 1 <= len <= VERSION_STRING_LEN
    ensures VersionCopyCount(len) + 1 == len
    ensures len == VERSION_STRING_LEN ==> VersionCopyCount(len) == VERSION_STRING_LEN - 1
  {
  }

  /** The two queries agree: a track is playing exactly when some voice
      number in range reports it. */
  lemma PlayingQueriesAgree(voices: seq<Word>, trk: int)
    ensures TrackPlaying(voices, trk) <==> exists v :: 0 <= v < |voices| && PlayingTrack(voices, v) == ToWord(trk)
  {
    if TrackPlaying(voices, trk) {
      var i :| 0 <= i < |voices| && voices[i] == ToWord(trk);
      assert PlayingTrack(voices, i) == ToWord(trk);
    }
  }

  /** After `flush` (and so after `start`) every voice reads as empty and the
      only "playing" id is the empty marker itself. */
  lemma FlushedIsSilent(d: Driver, trk: int, v: int)
    requires d.Wf()
    ensures PlayingTrack(Flushed(d).dec.voices, v) == NO_TRACK
    ensures TrackPlaying(Flushed(d).dec.voices, trk) <==> ToWord(trk) == NO_TRACK
    ensures Flushed(d).rx.count == 0 && Flushed(d).rx.len == 0
  {
    if ToWord(trk) == NO_TRACK {
      assert Flushed(d).dec.voices[0] == NO_TRACK;
    }
  }
}
