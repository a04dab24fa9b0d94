/** The outbound frame encoders of the WAV Trigger driver. Each builds the
    fixed-layout frame that one driver call writes to the serial port;
    every multi-byte parameter goes low byte first. */
module WavEncoder {
  import opened WavProtocol

  /** `start`, first frame: request the version string. */
  function GetVersionFrame(): (f: seq<Byte>)
    ensures WellFormedFrame(f) && |f| == 5 && f[3] == CMD_GET_VERSION
  {
    [SOM1, SOM2, 0x05, CMD_GET_VERSION, EOM]
  }

  /** `start`, second frame: request the system information. */
  function GetSysInfoFrame(): (f: seq<Byte>)
    ensures WellFormedFrame(f) && |f| == 5 && f[3] == CMD_GET_SYS_INFO
  {
    [SOM1, SOM2, 0x05, CMD_GET_SYS_INFO, EOM]
  }

  /** `masterGain`: the gain is sent as a 16-bit two's-complement value. */
  function MasterGainFrame(gain: int): (f: seq<Byte>)
    ensures WellFormedFrame(f) && |f| == 7 && f[3] == CMD_MASTER_VOLUME
    ensures Le16(f[4], f[5]) == ToWord(gain)
    ensures -0x8000 <= gain < 0x8000 ==> AsInt16(Le16(f[4], f[5])) == gain
  {
    var vol := ToWord(gain);
    SplitOfWord(vol);
    SignedRoundTrip(gain);
    [SOM1, SOM2, 0x07, CMD_MASTER_VOLUME, ToByte(vol), HighByte(vol), EOM]
  }

  /** `setAmpPwr`: one flag byte, 1 for on and 0 for off. */
  function AmpPowerFrame(enable: bool): (f: seq<Byte>)
    ensures WellFormedFrame(f) && |f| == 6 && f[3] == CMD_AMP_POWER
    ensures f[4] == if enable then 1 else 0
  {
    [SOM1, SOM2, 0x06, CMD_AMP_POWER, BoolByte(enable), EOM]
  }

  /** `setReporting`: one flag byte, 1 to turn track reports on. */
  function ReportingFrame(enable: bool): (f: seq<Byte>)
    ensures WellFormedFrame(f) && |f| == 6 && f[3] == CMD_SET_REPORTING
    ensures f[4] == if enable then 1 else 0
  {
    [SOM1, SOM2, 0x06, CMD_SET_REPORTING, BoolByte(enable), EOM]
  }

  /** `trackControl(trk, code)`: the 8-byte form, code then the track. */
  function TrackControlFrame(trk: int, code: Byte): (f: seq<Byte>)
    ensures WellFormedFrame(f) && |f| == 8 && f[3] == CMD_TRACK_CONTROL
    ensures f[4] == code && Le16(f[5], f[6]) == ToWord(trk)
  {
    Le16OfSplit(trk);
    [SOM1, SOM2, 0x08, CMD_TRACK_CONTROL, code, ToByte(trk), HighByte(trk), EOM]
  }

  /** `trackControl(trk, code, lock)`: the 9-byte extended form, which adds
      the voice-lock flag. */
  function TrackControlExFrame(trk: int, code: Byte, lock: bool): (f: seq<Byte>)
    ensures WellFormedFrame(f) && |f| == 9 && f[3] == CMD_TRACK_CONTROL_EX
    ensures f[4] == code && Le16(f[5], f[6]) == ToWord(trk)
    ensures f[7] == if lock then 1 else 0
  {
    Le16OfSplit(trk);
    [SOM1, SOM2, 0x09, CMD_TRACK_CONTROL_EX, code, ToByte(trk), HighByte(trk), BoolByte(lock), EOM]
  }

  /** `stopAllTracks`. */
  function StopAllFrame(): (f: seq<Byte>)
    ensures WellFormedFrame(f) && |f| == 5 && f[3] == CMD_STOP_ALL
  {
    [SOM1, SOM2, 0x05, CMD_STOP_ALL, EOM]
  }

  /** `resumeAllInSync`. */
  function ResumeAllSyncFrame(): (f: seq<Byte>)
    ensures WellFormedFrame(f) && |f| == 5 && f[3] == CMD_RESUME_ALL_SYNC
  {
    [SOM1, SOM2, 0x05, CMD_RESUME_ALL_SYNC, EOM]
  }

  /** `trackGain`: the track, then the gain as a 16-bit two's-complement value. */
  function TrackGainFrame(trk: int, gain: int): (f: seq<Byte>)
    ensures WellFormedFrame(f) && |f| == 9 && f[3] == CMD_TRACK_VOLUME
    ensures Le16(f[4], f[5]) == ToWord(trk) && Le16(f[6], f[7]) == ToWord(gain)
    ensures -0x8000 <= gain < 0x8000 ==> AsInt16(Le16(f[6], f[7])) == gain
  {
    var vol := ToWord(gain);
    Le16OfSplit(trk);
    SplitOfWord(vol);
    SignedRoundTrip(gain);
    [SOM1, SOM2, 0x09, CMD_TRACK_VOLUME, ToByte(trk), HighByte(trk), ToByte(vol), HighByte(vol), EOM]
  }

  /** `trackFade`: track, target gain, fade time, and the stop-at-end flag. */
  function TrackFadeFrame(trk: int, gain: int, time: int, stopFlag: bool): (f: seq<Byte>)
    ensures WellFormedFrame(f) && |f| == 12 && f[3] == CMD_TRACK_FADE
    ensures Le16(f[4], f[5]) == ToWord(trk) && Le16(f[6], f[7]) == ToWord(gain)
    ensures Le16(f[8], f[9]) == ToWord(time)
    ensures f[10] == if stopFlag then 1 else 0
  {
    var vol := ToWord(gain);
    Le16OfSplit(trk);
    SplitOfWord(vol);
    Le16OfSplit(time);
    [SOM1, SOM2, 0x0C, CMD_TRACK_FADE, ToByte(trk), HighByte(trk), ToByte(vol), HighByte(vol),
     ToByte(time), HighByte(time), BoolByte(stopFlag), EOM]
  }

  /** `samplerateOffset`: the offset as a 16-bit two's-complement value. */
  function SamplerateOffsetFrame(offset: int): (f: seq<Byte>)
    ensures WellFormedFrame(f) && |f| == 7 && f[3] == CMD_SAMPLERATE_OFFSET
    ensures Le16(f[4], f[5]) == ToWord(offset)
    ensures -0x8000 <= offset < 0x8000 ==> AsInt16(Le16(f[4], f[5])) == offset
  {
    var off := ToWord(offset);
    SplitOfWord(off);
    SignedRoundTrip(offset);
    [SOM1, SOM2, 0x07, CMD_SAMPLERATE_OFFSET, ToByte(off), HighByte(off), EOM]
  }

  /** `setTriggerBank`: only the low byte of the bank number is sent. */
  function TriggerBankFrame(bank: int): (f: seq<Byte>)
    ensures WellFormedFrame(f) && |f| == 6 && f[3] == CMD_SET_TRIGGER_BANK
    ensures f[4] == ToByte(bank)
    ensures 0 <= bank < 0x100 ==> f[4] == bank
  {
    [SOM1, SOM2, 0x06, CMD_SET_TRIGGER_BANK, ToByte(bank), EOM]
  }

  /** Every request the driver can send, one alternative per frame encoder. */
  datatype Command =
    | GetVersion
    | GetSysInfo
    | MasterGain(gain: int)
    | AmpPower(enable: bool)
    | Reporting(enable: bool)
    | TrackControl(trk: int, code: Byte)
    | TrackControlEx(trk: int, code: Byte, lock: bool)
    | StopAll
    | ResumeAllSync
    | TrackGain(trk: int, gain: int)
    | TrackFade(trk: int, gain: int, time: int, stopFlag: bool)
    | SamplerateOffset(offset: int)
    | TriggerBank(bank: int)

  /** The command byte each request is sent with. */
  function CommandCode(c: Command): Byte {
    match c
    case GetVersion => CMD_GET_VERSION
    case GetSysInfo => CMD_GET_SYS_INFO
    case MasterGain(_) => CMD_MASTER_VOLUME
    case AmpPower(_) => CMD_AMP_POWER
    case Reporting(_) => CMD_SET_REPORTING
    case TrackControl(_, _) => CMD_TRACK_CONTROL
    case TrackControlEx(_, _, _) => CMD_TRACK_CONTROL_EX
    case StopAll => CMD_STOP_ALL
    case ResumeAllSync => CMD_RESUME_ALL_SYNC
    case TrackGain(_, _) => CMD_TRACK_VOLUME
    case TrackFade(_, _, _, _) => CMD_TRACK_FADE
    case SamplerateOffset(_) => CMD_SAMPLERATE_OFFSET
    case TriggerBank(_) => CMD_SET_TRIGGER_BANK
  }

  /** The frame written for a request. Every one is well formed, carries its
      command code in byte 3, and that code is an outbound command (1..15),
      never one of the response codes 129..132. */
  function Encode(c: Command): (f: seq<Byte>)
    ensures WellFormedFrame(f) && f[3] == CommandCode(c)
    ensures 1 <= f[3] <= 15
  {
    match c
    case GetVersion => GetVersionFrame()
    case GetSysInfo => GetSysInfoFrame()
    case MasterGain(gain) => MasterGainFrame(gain)
    case AmpPower(enable) => AmpPowerFrame(enable)
    case Reporting(enable) => ReportingFrame(enable)
    case TrackControl(trk, code) => TrackControlFrame(trk, code)
    case TrackControlEx(trk, code, lock) => TrackControlExFrame(trk, code, lock)
    case StopAll => StopAllFrame()
    case ResumeAllSync => ResumeAllSyncFrame()
    case TrackGain(trk, gain) => TrackGainFrame(trk, gain)
    case TrackFade(trk, gain, time, stopFlag) => TrackFadeFrame(trk, gain, time, stopFlag)
    case SamplerateOffset(offset) => SamplerateOffsetFrame(offset)
    case TriggerBank(bank) => TriggerBankFrame(bank)
  }

  /** `start` writes exactly these ten bytes after resetting the receiver. */
  lemma StartFrames()
    ensures GetVersionFrame() + GetSysInfoFrame() ==
            [0xF0, 0xAA, 0x05, 0x01, 0x55, 0xF0, 0xAA, 0x05, 0x02, 0x55]
  {
  }
}
