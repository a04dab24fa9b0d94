/** The WAV Trigger serial driver as the firmware has it: one object whose
    methods update its receive counters, payload buffer, voice table,
    version string and system information in place. The serial port is two
    fields: the bytes received and not yet read, and the log of every byte
    written. Each method is proved against the value-level specification in
    module `WavReceiver` and the frame encoders in module `WavEncoder`. */
module WavTriggerDriver {
  import opened WavProtocol
  import Enc = WavEncoder
  import Spec = WavReceiver

  class WavTrigger {
    const voiceTable: array<Word>
    const rxMessage: array<Byte>
    const version: array<Byte>
    var numTracks: Word
    var numVoices: Byte
    var rxCount: Byte
    var rxLen: Byte
    var rxMsgReady: bool
    var versionRcvd: bool
    var sysinfoRcvd: bool

    /** Bytes the serial port has received that the driver has not read. */
    var serialIn: seq<Byte>
    /** Every byte the driver has written to the serial port, in order. */
    var serialOut: seq<Byte>

    /** The number of voices the voice table has room for: the bound on
        the voice numbers that track reports and `getPlayingTrack` accept. */
    static function MaxNumVoices(): (n: nat)
      ensures n == MAX_NUM_VOICES
    {
      MAX_NUM_VOICES
    }

    /** The buffers have their declared capacities and are distinct. */
    ghost predicate Shaped()
      reads this
    {
      voiceTable.Length == MaxNumVoices() && rxMessage.Length == MAX_MESSAGE_LEN &&
      version.Length == VERSION_STRING_LEN && rxMessage != version
    }

    /** Between calls, no delivered frame is pending dispatch. */
    ghost predicate Valid()
      reads this
    {
      Shaped() && !rxMsgReady
    }

    /** The driver state as a value of the specification. */
    ghost function Model(): (d: Spec.Driver)
      reads this, voiceTable, rxMessage, version
      requires Shaped()
      ensures d.Wf()
    {
      Spec.Driver(
        Spec.Receiver(rxCount, rxLen, rxMessage[..]),
        Spec.Decoded(voiceTable[..], version[..], numTracks, numVoices, versionRcvd, sysinfoRcvd))
    }

    /** The driver object is assumed to have static storage, so every field
        starts at zero. */
    constructor ()
      ensures Valid() && fresh(voiceTable) && fresh(rxMessage) && fresh(version)
      ensures Model() == Spec.Driver(
                Spec.Receiver(0, 0, seq(MAX_MESSAGE_LEN, _ => 0)),
                Spec.Decoded(seq(MAX_NUM_VOICES, _ => 0), seq(VERSION_STRING_LEN, _ => 0), 0, 0, false, false))
      ensures serialIn == [] && serialOut == []
    {
      voiceTable := new Word[MAX_NUM_VOICES](_ => 0);
      rxMessage := new Byte[MAX_MESSAGE_LEN](_ => 0);
      version := new Byte[VERSION_STRING_LEN](_ => 0);
      numTracks, numVoices := 0, 0;
      rxCount, rxLen := 0, 0;
      rxMsgReady, versionRcvd, sysinfoRcvd := false, false, false;
      serialIn, serialOut := [], [];
    }

    /** `WTSerial.write`: append a frame to the output log. */
    method Send(frame: seq<Byte>)
      modifies this`serialOut
      ensures serialOut == old(serialOut) + frame
    {
      serialOut := serialOut + frame;
    }

    // ---------------------------------------------------------------
    // Receiving

    /** The dispatch of a delivered frame on `rxMessage[0]`. */
    method DispatchMessage()
      requires Shaped()
      modifies this`numTracks, this`numVoices, this`versionRcvd, this`sysinfoRcvd, voiceTable, version
      ensures Shaped()
      ensures Model().dec == Spec.Dispatch(rxMessage[..], old(Model()).dec)
    {
      if rxMessage[0] == RSP_TRACK_REPORT {
        var track: Word := ToWord((rxMessage[2] as int) * 0x100 + rxMessage[1] + 1);
        var voice := rxMessage[3];
        if voice < MAX_NUM_VOICES {
          if rxMessage[4] == 0 {
            if track == voiceTable[voice] {
              voiceTable[voice] := NO_TRACK;
            }
          } else {
            voiceTable[voice] := track;
          }
        }
      } else if rxMessage[0] == RSP_VERSION_STRING {
        var i := 0;
        while i < VERSION_STRING_LEN - 1
          invariant 0 <= i <= VERSION_STRING_LEN - 1
          invariant forall k :: 0 <= k < i ==> version[k] == rxMessage[k + 1]
          modifies version
        {
          version[i] := rxMessage[i + 1];
          i := i + 1;
        }
        version[VERSION_STRING_LEN - 1] := 0;
        versionRcvd := true;
        assert version[..] == rxMessage[1..VERSION_STRING_LEN] + [0];
      } else if rxMessage[0] == RSP_SYSTEM_INFO {
        numVoices := rxMessage[1];
        numTracks := rxMessage[3];
        numTracks := ToWord((numTracks as int) * 0x100 + rxMessage[2]);
        sysinfoRcvd := true;
      }
    }

    /** One received byte: the body of the receive loop of `update`. */
    method Step(dat: Byte)
      requires Valid() && !Spec.Overruns(Model().rx)
      modifies this, voiceTable, rxMessage, version
      ensures Valid() && Model() == Spec.Step(old(Model()), dat)
      ensures serialIn == old(serialIn) && serialOut == old(serialOut)
    {
      ghost var framed := Spec.Frame(Model().rx, dat);
      if rxCount == 0 && dat == SOM1 {
        rxCount := rxCount + 1;
      } else if rxCount == 1 {
        if dat == SOM2 {
          rxCount := rxCount + 1;
        } else {
          rxCount := 0;
        }
      } else if rxCount == 2 {
        if dat <= MAX_MESSAGE_LEN {
          rxCount := rxCount + 1;
          rxLen := ToByte(dat - 1);
        } else {
          rxCount := 0;
        }
      } else if rxCount > 2 && rxCount < rxLen {
        rxMessage[rxCount - 3] := dat;
        rxCount := rxCount + 1;
      } else if rxCount == rxLen {
        if dat == EOM {
          rxMsgReady := true;
        } else {
          rxCount := 0;
        }
      } else {
        rxCount := 0;
      }
      assert Model().rx == framed.rx && rxMsgReady == framed.ready;

      if rxMsgReady {
        DispatchMessage();
        rxCount := 0;
        rxLen := 0;
        rxMsgReady := false;
      }
    }

    /** `update`: drain every available byte through the receive loop. The
        stream must not drive the payload branch past the end of
        `rxMessage` (see `Spec.Overruns`). */
    method Update()
      requires Valid() && Spec.Run(Model(), serialIn).Some?
      modifies this, voiceTable, rxMessage, version
      ensures Valid() && Spec.Run(old(Model()), old(serialIn)) == Spec.Some(Model())
      ensures serialIn == [] && serialOut == old(serialOut)
    {
      rxMsgReady := false;
      while serialIn != []
        invariant Valid()
        invariant Spec.Run(Model(), serialIn) == Spec.Run(old(Model()), old(serialIn))
        invariant serialOut == old(serialOut)
        decreases |serialIn|
      {
        var dat := serialIn[0];
        serialIn := serialIn[1..];
        Step(dat);
      }
    }

    /** `flush`: reset the receiver, empty every voice, and discard the bytes
        waiting at the serial port. */
    method Flush()
      requires Valid()
      modifies this, voiceTable
      ensures Valid() && Model() == Spec.Flushed(old(Model()))
      ensures serialIn == [] && serialOut == old(serialOut)
    {
      rxCount := 0;
      rxLen := 0;
      rxMsgReady := false;
      var i := 0;
      while i < MAX_NUM_VOICES
        invariant 0 <= i <= MAX_NUM_VOICES
        invariant forall k :: 0 <= k < i ==> voiceTable[k] == NO_TRACK
        modifies voiceTable
      {
        voiceTable[i] := NO_TRACK;
        i := i + 1;
      }
      serialIn := [];
      assert voiceTable[..] == seq(MAX_NUM_VOICES, _ => NO_TRACK);
    }

    /** `start`: forget the version and system information, flush, and ask
        the module for both. */
    method Start()
      requires Valid()
      modifies this, voiceTable
      ensures Valid() && Model() == Spec.Started(old(Model()))
      ensures serialIn == []
      ensures serialOut == old(serialOut) + Enc.GetVersionFrame() + Enc.GetSysInfoFrame()
    {
      versionRcvd := false;
      sysinfoRcvd := false;
      Flush();
      Send(Enc.GetVersionFrame());
      Send(Enc.GetSysInfoFrame());
    }

    // ---------------------------------------------------------------
    // Queries

    /** `isTrackPlaying`: drain the input, then look for `(uint16_t)trk` in
        the voice table. */
    method IsTrackPlaying(trk: int) returns (playing: bool)
      requires Valid() && Spec.Run(Model(), serialIn).Some?
      modifies this, voiceTable, rxMessage, version
      ensures Valid() && Spec.Run(old(Model()), old(serialIn)) == Spec.Some(Model())
      ensures serialIn == [] && serialOut == old(serialOut)
      ensures playing <==> Spec.TrackPlaying(Model().dec.voices, trk)
    {
      Update();
      playing := false;
      var i := 0;
      while i < MAX_NUM_VOICES
        invariant 0 <= i <= MAX_NUM_VOICES
        invariant playing <==> exists j :: 0 <= j < i && voiceTable[j] == ToWord(trk)
      {
        if voiceTable[i] == ToWord(trk) {
          playing := true;
        }
        i := i + 1;
      }
    }

    /** `getPlayingTrack`: a plain read of the voice table; unlike the other
        queries it does not drain the input first. The result is a 16-bit
        `int` (the boards this driver runs on are AVR parts), so the entry
        0xFFFF meaning "no track" comes back as -1. */
    method GetPlayingTrack(voiceNum: int) returns (t: int)
      requires Valid()
      ensures t == AsInt16(Spec.PlayingTrack(Model().dec.voices, voiceNum))
      ensures -0x8000 <= t < 0x8000
      ensures t != -1 ==> 0 <= voiceNum < MaxNumVoices()
    {
      if voiceNum >= MAX_NUM_VOICES || voiceNum < 0 {
        return AsInt16(NO_TRACK);
      }
      return AsInt16(voiceTable[voiceNum]);
    }

    /** `getVersion` as written: after draining the input, copy at most
        min(20, len - 1) characters and write the terminating 0 one place
        further on, at `pDst[i + 1]`; the byte at `pDst[i]` is left as it
        was. The caller's buffer must hold that index. */
    method GetVersion(dst: array<Byte>, len: int) returns (ok: bool)
      requires Valid() && Spec.Run(Model(), serialIn).Some?
      requires dst != version && dst != rxMessage
      requires Spec.Run(Model(), serialIn).value.dec.versionRcvd ==> Spec.VersionCopyCount(len) + 1 < dst.Length
      modifies this, voiceTable, rxMessage, version, dst
      ensures Valid() && Spec.Run(old(Model()), old(serialIn)) == Spec.Some(Model())
      ensures serialIn == [] && serialOut == old(serialOut)
      ensures ok == Model().dec.versionRcvd
      ensures !ok ==> dst[..] == old(dst[..])
      ensures ok ==>
                var n := Spec.VersionCopyCount(len);
                dst[..n] == version[..n] && dst[n] == old(dst[n]) && dst[n + 1] == 0 &&
                dst[n + 2..] == old(dst[n + 2..])
    {
      Update();
      if !versionRcvd {
        return false;
      }
      var i := 0;
      while i < VERSION_STRING_LEN - 1
        invariant 0 <= i <= Spec.VersionCopyCount(len)
        invariant forall k :: 0 <= k < i ==> dst[k] == version[k]
        invariant forall k :: i <= k < dst.Length ==> dst[k] == old(dst[k])
        modifies dst
      {
        if i >= len - 1 {
          break;
        }
        dst[i] := version[i];
        i := i + 1;
      }
      i := i + 1;
      dst[i] := 0;
      return true;
    }

    /** `getVersion` with the terminator where it evidently belongs, at
        `pDst[i]` right after the copied characters: the result is a
        terminated string inside the caller's first `len` bytes. */
    method GetVersionTerminated(dst: array<Byte>, len: int) returns (ok: bool)
      requires Valid() && Spec.Run(Model(), serialIn).Some?
      requires dst != version && dst != rxMessage
      requires Spec.Run(Model(), serialIn).value.dec.versionRcvd ==> 1 <= len <= dst.Length
      modifies this, voiceTable, rxMessage, version, dst
      ensures Valid() && Spec.Run(old(Model()), old(serialIn)) == Spec.Some(Model())
      ensures serialIn == [] && serialOut == old(serialOut)
      ensures ok == Model().dec.versionRcvd
      ensures !ok ==> dst[..] == old(dst[..])
      ensures ok ==>
                var n := Spec.VersionCopyCount(len);
                n < len && dst[..n] == version[..n] && dst[n] == 0 && dst[n + 1..] == old(dst[n + 1..])
    {
      Update();
      if !versionRcvd {
        return false;
      }
      var i := 0;
      while i < VERSION_STRING_LEN - 1
        invariant 0 <= i <= Spec.VersionCopyCount(len)
        invariant forall k :: 0 <= k < i ==> dst[k] == version[k]
        invariant forall k :: i <= k < dst.Length ==> dst[k] == old(dst[k])
        modifies dst
      {
        if i >= len - 1 {
          break;
        }
        dst[i] := version[i];
        i := i + 1;
      }
      dst[i] := 0;
      return true;
    }

    /** `getNumTracks`: drain the input, then report the track count as a
        16-bit `int`; a count of 0x8000 or more comes back negative. */
    method GetNumTracks() returns (n: int)
      requires Valid() && Spec.Run(Model(), serialIn).Some?
      modifies this, voiceTable, rxMessage, version
      ensures Valid() && Spec.Run(old(Model()), old(serialIn)) == Spec.Some(Model())
      ensures serialIn == [] && serialOut == old(serialOut)
      ensures n == AsInt16(Model().dec.numTracks) && ToWord(n) == Model().dec.numTracks
    {
      Update();
      return AsInt16(numTracks);
    }

    // ---------------------------------------------------------------
    // Sending

    /** `masterGain`. */
    method MasterGain(gain: int)
      requires Valid()
      modifies this`serialOut
      ensures Valid() && Model() == old(Model()) && serialIn == old(serialIn)
      ensures serialOut == old(serialOut) + Enc.MasterGainFrame(gain)
    {
      Send(Enc.MasterGainFrame(gain));
    }

    /** `setAmpPwr`. */
    method SetAmpPwr(enable: bool)
      requires Valid()
      modifies this`serialOut
      ensures Valid() && Model() == old(Model()) && serialIn == old(serialIn)
      ensures serialOut == old(serialOut) + Enc.AmpPowerFrame(enable)
    {
      Send(Enc.AmpPowerFrame(enable));
    }

    /** `setReporting`. */
    method SetReporting(enable: bool)
      requires Valid()
      modifies this`serialOut
      ensures Valid() && Model() == old(Model()) && serialIn == old(serialIn)
      ensures serialOut == old(serialOut) + Enc.ReportingFrame(enable)
    {
      Send(Enc.ReportingFrame(enable));
    }

    /** `trackControl(trk, code)`. */
    method TrackControl(trk: int, code: Byte)
      requires Valid()
      modifies this`serialOut
      ensures Valid() && Model() == old(Model()) && serialIn == old(serialIn)
      ensures serialOut == old(serialOut) + Enc.TrackControlFrame(trk, code)
    {
      Send(Enc.TrackControlFrame(trk, code));
    }

    /** `trackControl(trk, code, lock)`. */
    method TrackControlWithLock(trk: int, code: Byte, lock: bool)
      requires Valid()
      modifies this`serialOut
      ensures Valid() && Model() == old(Model()) && serialIn == old(serialIn)
      ensures serialOut == old(serialOut) + Enc.TrackControlExFrame(trk, code, lock)
    {
      Send(Enc.TrackControlExFrame(trk, code, lock));
    }

    /** `trackPlaySolo(trk)`. */
    method TrackPlaySolo(trk: int)
      requires Valid()
      modifies this`serialOut
      ensures Valid() && Model() == old(Model()) && serialIn == old(serialIn)
      ensures serialOut == old(serialOut) + Enc.TrackControlFrame(trk, TRK_PLAY_SOLO)
    {
      TrackControl(trk, TRK_PLAY_SOLO);
    }

    /** `trackPlaySolo(trk, lock)`. */
    method TrackPlaySoloWithLock(trk: int, lock: bool)
      requires Valid()
      modifies this`serialOut
      ensures Valid() && Model() == old(Model()) && serialIn == old(serialIn)
      ensures serialOut == old(serialOut) + Enc.TrackControlExFrame(trk, TRK_PLAY_SOLO, lock)
    {
      TrackControlWithLock(trk, TRK_PLAY_SOLO, lock);
    }

    /** `trackPlayPoly(trk)`. */
    method TrackPlayPoly(trk: int)
      requires Valid()
      modifies this`serialOut
      ensures Valid() && Model() == old(Model()) && serialIn == old(serialIn)
      ensures serialOut == old(serialOut) + Enc.TrackControlFrame(trk, TRK_PLAY_POLY)
    {
      TrackControl(trk, TRK_PLAY_POLY);
    }

    /** `trackPlayPoly(trk, lock)`. */
    method TrackPlayPolyWithLock(trk: int, lock: bool)
      requires Valid()
      modifies this`serialOut
      ensures Valid() && Model() == old(Model()) && serialIn == old(serialIn)
      ensures serialOut == old(serialOut) + Enc.TrackControlExFrame(trk, TRK_PLAY_POLY, lock)
    {
      TrackControlWithLock(trk, TRK_PLAY_POLY, lock);
    }

    /** `trackLoad(trk)`. */
    method TrackLoad(trk: int)
      requires Valid()
      modifies this`serialOut
      ensures Valid() && Model() == old(Model()) && serialIn == old(serialIn)
      ensures serialOut == old(serialOut) + Enc.TrackControlFrame(trk, TRK_LOAD)
    {
      TrackControl(trk, TRK_LOAD);
    }

    /** `trackLoad(trk, lock)`. */
    method TrackLoadWithLock(trk: int, lock: bool)
      requires Valid()
      modifies this`serialOut
      ensures Valid() && Model() == old(Model()) && serialIn == old(serialIn)
      ensures serialOut == old(serialOut) + Enc.TrackControlExFrame(trk, TRK_LOAD, lock)
    {
      TrackControlWithLock(trk, TRK_LOAD, lock);
    }

    /** `trackStop`. */
    method TrackStop(trk: int)
      requires Valid()
      modifies this`serialOut
      ensures Valid() && Model() == old(Model()) && serialIn == old(serialIn)
      ensures serialOut == old(serialOut) + Enc.TrackControlFrame(trk, TRK_STOP)
    {
      TrackControl(trk, TRK_STOP);
    }

    /** `trackPause`. */
    method TrackPause(trk: int)
      requires Valid()
      modifies this`serialOut
      ensures Valid() && Model() == old(Model()) && serialIn == old(serialIn)
      ensures serialOut == old(serialOut) + Enc.TrackControlFrame(trk, TRK_PAUSE)
    {
      TrackControl(trk, TRK_PAUSE);
    }

    /** `trackResume`. */
    method TrackResume(trk: int)
      requires Valid()
      modifies this`serialOut
      ensures Valid() && Model() == old(Model()) && serialIn == old(serialIn)
      ensures serialOut == old(serialOut) + Enc.TrackControlFrame(trk, TRK_RESUME)
    {
      TrackControl(trk, TRK_RESUME);
    }

    /** `trackLoop`: loop on or loop off. */
    method TrackLoop(trk: int, enable: bool)
      requires Valid()
      modifies this`serialOut
      ensures Valid() && Model() == old(Model()) && serialIn == old(serialIn)
      ensures serialOut == old(serialOut) + Enc.TrackControlFrame(trk, if enable then TRK_LOOP_ON else TRK_LOOP_OFF)
    {
      if enable {
        TrackControl(trk, TRK_LOOP_ON);
      } else {
        TrackControl(trk, TRK_LOOP_OFF);
      }
    }

    /** `stopAllTracks`. */
    method StopAllTracks()
      requires Valid()
      modifies this`serialOut
      ensures Valid() && Model() == old(Model()) && serialIn == old(serialIn)
      ensures serialOut == old(serialOut) + Enc.StopAllFrame()
    {
      Send(Enc.StopAllFrame());
    }

    /** `resumeAllInSync`. */
    method ResumeAllInSync()
      requires Valid()
      modifies this`serialOut
      ensures Valid() && Model() == old(Model()) && serialIn == old(serialIn)
      ensures serialOut == old(serialOut) + Enc.ResumeAllSyncFrame()
    {
      Send(Enc.ResumeAllSyncFrame());
    }

    /** `trackGain`. */
    method TrackGain(trk: int, gain: int)
      requires Valid()
      modifies this`serialOut
      ensures Valid() && Model() == old(Model()) && serialIn == old(serialIn)
      ensures serialOut == old(serialOut) + Enc.TrackGainFrame(trk, gain)
    {
      Send(Enc.TrackGainFrame(trk, gain));
    }

    /** `trackFade`. */
    method TrackFade(trk: int, gain: int, time: int, stopFlag: bool)
      requires Valid()
      modifies this`serialOut
      ensures Valid() && Model() == old(Model()) && serialIn == old(serialIn)
      ensures serialOut == old(serialOut) + Enc.TrackFadeFrame(trk, gain, time, stopFlag)
    {
      Send(Enc.TrackFadeFrame(trk, gain, time, stopFlag));
    }

    /** `samplerateOffset`. */
    method SamplerateOffset(offset: int)
      requires Valid()
      modifies this`serialOut
      ensures Valid() && Model() == old(Model()) && serialIn == old(serialIn)
      ensures serialOut == old(serialOut) + Enc.SamplerateOffsetFrame(offset)
    {
      Send(Enc.SamplerateOffsetFrame(offset));
    }

    /** `setTriggerBank`. */
    method SetTriggerBank(bank: int)
      requires Valid()
      modifies this`serialOut
      ensures Valid() && Model() == old(Model()) && serialIn == old(serialIn)
      ensures serialOut == old(serialOut) + Enc.TriggerBankFrame(bank)
    {
      Send(Enc.TriggerBankFrame(bank));
    }
  }
}
