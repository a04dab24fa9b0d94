/** Wire vocabulary of the WAV Trigger serial protocol: the byte and word
    types of the driver's fields, the framing markers, the command,
    track-control and response codes, the driver's capacities, and the
    little-endian 16-bit field layout used by every frame. */
module WavProtocol {

  /** An unsigned 8-bit value (`uint8_t`). */
  type Byte = b: int | 0 <= b < 0x100

  /** An unsigned 16-bit value (`uint16_t`). */
  type Word = w: int | 0 <= w < 0x1_0000

  // Frame markers.
  const SOM1: Byte := 0xF0
  const SOM2: Byte := 0xAA
  const EOM: Byte := 0x55

  // Command codes (byte 3 of an outbound frame).
  const CMD_GET_VERSION: Byte := 1
  const CMD_GET_SYS_INFO: Byte := 2
  const CMD_TRACK_CONTROL: Byte := 3
  const CMD_STOP_ALL: Byte := 4
  const CMD_MASTER_VOLUME: Byte := 5
  const CMD_TRACK_VOLUME: Byte := 8
  const CMD_AMP_POWER: Byte := 9
  const CMD_TRACK_FADE: Byte := 10
  const CMD_RESUME_ALL_SYNC: Byte := 11
  const CMD_SAMPLERATE_OFFSET: Byte := 12
  const CMD_TRACK_CONTROL_EX: Byte := 13
  const CMD_SET_REPORTING: Byte := 14
  const CMD_SET_TRIGGER_BANK: Byte := 15

  // Track-control sub-codes.
  const TRK_PLAY_SOLO: Byte := 0
  const TRK_PLAY_POLY: Byte := 1
  const TRK_PAUSE: Byte := 2
  const TRK_RESUME: Byte := 3
  const TRK_STOP: Byte := 4
  const TRK_LOOP_ON: Byte := 5
  const TRK_LOOP_OFF: Byte := 6
  const TRK_LOAD: Byte := 7

  // Response codes (first payload byte of an inbound frame).
  const RSP_VERSION_STRING: Byte := 129
  const RSP_SYSTEM_INFO: Byte := 130
  const RSP_STATUS: Byte := 131
  const RSP_TRACK_REPORT: Byte := 132

  // Capacities of the driver's buffers.
  const MAX_MESSAGE_LEN: nat := 32
  const MAX_NUM_VOICES: nat := 14
  const VERSION_STRING_LEN: nat := 21

  /** The voice-table value meaning "no track on this voice". */
  const NO_TRACK: Word := 0xFFFF

  /** C's conversion of an integer to `uint8_t`: the value modulo 2^8. */
  function ToByte(x: int): Byte {
    x % 0x100
  }

  /** C's conversion of an integer to `uint16_t`: the value modulo 2^16. */
  function ToWord(x: int): Word {
    x % 0x1_0000
  }

  /** `(uint8_t)(x >> 8)`: the second-lowest byte of x (the shift of a
      negative value is arithmetic, i.e. a floor division by 256). */
  function HighByte(x: int): Byte {
    ToByte(x / 0x100)
  }

  /** A C `bool` stored into a byte. */
  function BoolByte(b: bool): Byte {
    if b then 1 else 0
  }

  /** The 16-bit value of two bytes sent low byte first. */
  function Le16(lo: Byte, hi: Byte): Word {
    lo + 0x100 * hi
  }

  /** The signed reading (`int16_t`) of a 16-bit value: the one value in
      the int16 range whose conversion back to `uint16_t` is w. */
  function AsInt16(w: Word): (r: int)
    ensures -0x8000 <= r < 0x8000 && ToWord(r) == w
    ensures r < 0 <==> w >= 0x8000
  {
    if w < 0x8000 then w else w - 0x1_0000
  }

  /** Sending `ToByte(x)` and then `HighByte(x)` transmits exactly the low
      16 bits of x, whatever the width and sign of x. */
  lemma {:induction false} Le16OfSplit(x: int)
    ensures Le16(ToByte(x), HighByte(x)) == ToWord(x)
  {
    var q := x / 0x100;
    var r := x % 0x100;
    var h := q % 0x100;
    var q2 := q / 0x100;
    assert x == 0x100 * q + r;
    assert q == 0x100 * q2 + h;
    assert x == 0x1_0000 * q2 + (0x100 * h + r);
    assert 0 <= 0x100 * h + r < 0x1_0000;
    ModOfDecomposition(x, q2, 0x100 * h + r);
  }

  /** A value already reduced to 16 bits is sent unchanged. */
  lemma SplitOfWord(w: Word)
    ensures Le16(ToByte(w), HighByte(w)) == w
  {
    Le16OfSplit(w);
    assert ToWord(w) == w;
  }

  /** Joining two bytes into a 16-bit value and splitting that value again
      gives back the two bytes. */
  lemma {:induction false} SplitOfLe16(lo: Byte, hi: Byte)
    ensures ToByte(Le16(lo, hi)) == lo && HighByte(Le16(lo, hi)) == hi
  {
    var w := Le16(lo, hi);
    ModOfDecomposition256(w, hi, lo);
    assert w / 0x100 == hi;
  }

  /** A 16-bit two's-complement value survives the round trip through
      `uint16_t`: every `int16_t` value is read back unchanged. */
  lemma SignedRoundTrip(x: int)
    ensures -0x8000 <= x < 0x8000 ==> AsInt16(ToWord(x)) == x
  {
  }

  lemma ModOfDecomposition(x: int, q: int, r: int)
    requires x == 0x1_0000 * q + r && 0 <= r < 0x1_0000
    ensures x % 0x1_0000 == r
  {
  }

  lemma ModOfDecomposition256(x: int, q: int, r: int)
    requires x == 0x100 * q + r && 0 <= r < 0x100
    ensures x % 0x100 == r && x / 0x100 == q
  {
  }

  /** The fixed frame layout: `F0 AA LEN CMD params... 55`, where LEN is the
      length of the whole frame and fits the receiver's 32-byte bound. */
  predicate WellFormedFrame(f: seq<Byte>) {
    5 <= |f| <= MAX_MESSAGE_LEN && f[0] == SOM1 && f[1] == SOM2 && f[2] == |f| && f[|f| - 1] == EOM
  }

  /** The bytes of a frame between its length byte and its end marker. */
  function Payload(f: seq<Byte>): seq<Byte>
    requires WellFormedFrame(f)
  {
    f[3..|f| - 1]
  }
}
