/** Frames of the DDT M0602C serial protocol and their CRC-8/MAXIM check byte. */
module DdtProtocol {
  import opened Common

  type Bytes = seq<bv8>

  const COMMAND: bv8 := 0x64
  const MODE_SWITCH: bv8 := 0xA0
  const CURRENT_LOOP: bv8 := 0x01
  const VELOCITY_LOOP: bv8 := 0x02

  // ----- CRC-8/MAXIM -----------------------------------------------------------------------

  function ShiftBit(c: bv8): bv8 {
    if c & 1 == 1 then (c >> 1) ^ 0x8C else c >> 1
  }

  function Shift(c: bv8, n: nat): bv8
    decreases n
  {
    if n == 0 then c else Shift(ShiftBit(c), n - 1)
  }

  /** The register after one byte. */
  function Feed(r: bv8, byte: bv8): bv8 {
    Shift(r ^ byte, 8)
  }

  /** The register after feeding `data` to a register holding `r`. */
  function CrcFrom(r: bv8, data: Bytes): bv8
    decreases data
  {
    if data == [] then r else CrcFrom(Feed(r, data[0]), data[1..])
  }

  function Crc8(data: Bytes): bv8 {
    CrcFrom(0, data)
  }

  method Crc8Maxim(data: Bytes) returns (crc: bv8)
    ensures crc == Crc8(data)
  {
    crc := 0x00;
    for k := 0 to |data|
      invariant CrcFrom(crc, data[k..]) == Crc8(data)
    {
      ghost var fed := Feed(crc, data[k]);
      assert data[k..][1..] == data[k + 1..];
      assert CrcFrom(fed, data[k + 1..]) == Crc8(data);
      crc := crc ^ data[k];
      for i := 0 to 8
        invariant Shift(crc, 8 - i) == fed
      {
        if crc & 0x01 != 0 {
          crc := (crc >> 1) ^ 0x8C;
        } else {
          crc := crc >> 1;
        }
      }
    }
  }

  lemma {:induction false} CrcAppend(r: bv8, a: Bytes, b: Bytes)
    ensures CrcFrom(r, a + b) == CrcFrom(CrcFrom(r, a), b)
    decreases a
  {
    if a == [] {
      assert a + b == b;
    } else {
      assert (a + b)[1..] == a[1..] + b;
      CrcAppend(Feed(r, a[0]), a[1..], b);
    }
  }

  // ----- the CRC is linear over exclusive or --------------------------------------------------

  lemma {:induction false} ShiftLinear(a: bv8, b: bv8, c: bv8, n: nat)
    requires c == a ^ b
    ensures Shift(c, n) == Shift(a, n) ^ Shift(b, n)
    decreases n
  {
    if n > 0 {
      ShiftBitLinear(a, b);
      ShiftLinear(ShiftBit(a), ShiftBit(b), ShiftBit(c), n - 1);
    }
  }

  lemma ShiftBitLinear(a: bv8, b: bv8)
    ensures ShiftBit(a ^ b) == ShiftBit(a) ^ ShiftBit(b)
  {
  }

  /** A register other than 0 never shifts to 0. */
  lemma {:induction false} ShiftKeepsNonzero(c: bv8, n: nat)
    ensures Shift(c, n) == 0 <==> c == 0
    decreases n
  {
    if n > 0 {
      ShiftKeepsNonzero(ShiftBit(c), n - 1);
    }
  }

  /** A byte empties the register only when it equals it. */
  lemma FeedZero(r: bv8, byte: bv8)
    ensures Feed(r, byte) == 0 <==> r == byte
  {
    ShiftKeepsNonzero(r ^ byte, 8);
    XorZero(r, byte);
  }

  /** The error pattern that turns one message into the other. */
  function Flips(a: Bytes, b: Bytes): (e: Bytes)
    requires |a| == |b|
    ensures |e| == |a|
    decreases a
  {
    if a == [] then [] else [Xor(a[0], b[0])] + Flips(a[1..], b[1..])
  }

  function Xor(x: bv8, y: bv8): bv8 {
    x ^ y
  }

  /** Exclusive or passes through the whole computation. */
  lemma {:induction false} CrcLinear(r: bv8, a: Bytes, s: bv8, b: Bytes)
    requires |a| == |b|
    ensures CrcFrom(Xor(r, s), Flips(a, b)) == Xor(CrcFrom(r, a), CrcFrom(s, b))
    decreases a
  {
    hide Feed, Xor;
    if a != [] {
      FeedLinear(r, a[0], s, b[0]);
      CrcLinear(Feed(r, a[0]), a[1..], Feed(s, b[0]), b[1..]);
      assert Flips(a, b)[1..] == Flips(a[1..], b[1..]);
    }
  }

  lemma FeedLinear(r: bv8, a: bv8, s: bv8, b: bv8)
    ensures Feed(Xor(r, s), Xor(a, b)) == Xor(Feed(r, a), Feed(s, b))
  {
    XorRegroup(r, s, a, b);
    LinearTogether(r ^ a, s ^ b, (r ^ s) ^ (a ^ b));
  }

  lemma LinearTogether(x: bv8, y: bv8, z: bv8)
    requires z == x ^ y
    ensures Shift(z, 8) == Xor(Shift(x, 8), Shift(y, 8))
  {
    hide Shift;
    ShiftLinear(x, y, z, 8);
  }

  lemma XorRegroup(r: bv8, s: bv8, x: bv8, y: bv8)
    ensures (r ^ s) ^ (x ^ y) == (r ^ x) ^ (s ^ y)
  {
  }

  // ----- what the CRC detects -----------------------------------------------------------------

  /** An error goes unnoticed exactly when the CRC of its pattern alone is 0. */
  lemma UnnoticedErrors(a: Bytes, b: Bytes)
    requires |a| == |b|
    ensures Crc8(a) == Crc8(b) <==> Crc8(Flips(a, b)) == 0
  {
    CrcLinear(0, a, 0, b);
    XorZero(Crc8(a), Crc8(b));
  }

  lemma XorZero(x: bv8, y: bv8)
    ensures x ^ y == 0 <==> x == y
  {
  }

  /**
   * A burst: the flipped bits lie in at most 8 consecutive bits of the wire (each byte travels low
   * bit first). They start at bit `j` of byte `k` or later and end before bit `j` of byte `k + 1`;
   * with `j == 0` only byte `k` is hit.
   */
  ghost predicate Burst(e: Bytes, k: nat, j: nat) {
    && k < |e| && j < 8
    && (forall i :: 0 <= i < k || k + 1 < i < |e| ==> e[i] == 0)
    && OnlyFrom(e[k], j)
    && (k + 1 < |e| ==> OnlyBelow(e[k + 1], j))
    && !AllZero(e)
  }

  predicate AllZero(e: Bytes) {
    forall i :: 0 <= i < |e| ==> e[i] == 0
  }

  /** Bits below `j` are clear. */
  predicate OnlyFrom(d: bv8, j: nat)
    requires j < 8
  {
    d & ((1 << j) - 1) == 0
  }

  /** Bits from `j` up are clear. */
  predicate OnlyBelow(d: bv8, j: nat)
    requires j < 8
  {
    d & !((1 << j) - 1) == 0
  }

  /** Every burst of at most 8 bits is noticed, wherever it hits and however long the message. */
  lemma {:induction false} BurstNoticed(e: Bytes, k: nat, j: nat)
    requires Burst(e, k, j)
    ensures Crc8(e) != 0
    decreases e
  {
    hide Feed, OnlyFrom, OnlyBelow;
    var d := Feed(0, e[0]);
    FeedZero(0, e[0]);
    if k > 0 {
      assert forall i :: 0 <= i < |e| - 1 ==> e[1..][i] == e[i + 1];
      assert Burst(e[1..], k - 1, j);
      BurstNoticed(e[1..], k - 1, j);
    } else if |e| > 1 {
      FeedZero(d, e[1]);
      if d == e[1] {
        TwoByteBurst(e[0], e[1], j);
      }
      assert e[1..][1..] == e[2..];
      assert CrcFrom(d, e[1..]) == CrcFrom(Feed(d, e[1]), e[2..]);
      ZerosKeepNonzero(Feed(d, e[1]), e[2..]);
    } else {
      assert e[1..] == [] && CrcFrom(d, e[1..]) == d;
    }
  }

  lemma {:induction false} ZerosKeepNonzero(r: bv8, e: Bytes)
    requires r != 0 && AllZero(e)
    ensures CrcFrom(r, e) != 0
    decreases e
  {
    hide Feed;
    if e != [] {
      FeedZero(r, e[0]);
      ZerosKeepNonzero(Feed(r, e[0]), e[1..]);
    }
  }

  /** The second byte of a short burst never cancels what the first left in the register. */
  lemma TwoByteBurst(x: bv8, y: bv8, j: nat)
    requires j < 8 && OnlyFrom(x, j) && OnlyBelow(y, j)
    requires Feed(0, x) == y
    ensures x == 0 && y == 0
  {
    assert 0 ^ x == x;
    var x2 := ShiftBit(ShiftBit(x));
    var x4 := ShiftBit(ShiftBit(x2));
    var x6 := ShiftBit(ShiftBit(x4));
    assert Shift(x, 8) == Shift(x2, 6) == Shift(x4, 4) == Shift(x6, 2);
  }

  /** Whether the number of one bits is odd. */
  predicate OddBits(c: bv8) {
    (((c & 1 != 0) != (c & 2 != 0)) != ((c & 4 != 0) != (c & 8 != 0)))
    != (((c & 16 != 0) != (c & 32 != 0)) != ((c & 64 != 0) != (c & 128 != 0)))
  }

  predicate OddMessage(e: Bytes) {
    e != [] && (OddBits(e[0]) != OddMessage(e[1..]))
  }

  /** The generator has an even number of terms, so the register carries the message's parity. */
  lemma {:induction false} CrcKeepsParity(r: bv8, data: Bytes)
    ensures OddBits(CrcFrom(r, data)) == (OddBits(r) != OddMessage(data))
    decreases data
  {
    hide Feed, OddBits;
    if data != [] {
      FeedParity(r, data[0]);
      CrcKeepsParity(Feed(r, data[0]), data[1..]);
    }
  }

  lemma FeedParity(r: bv8, a: bv8)
    ensures OddBits(Feed(r, a)) == (OddBits(r) != OddBits(a))
  {
    hide OddBits;
    ParityOfXor(r, a);
    ShiftKeepsParity(r ^ a, 8);
  }

  lemma ParityOfXor(x: bv8, y: bv8)
    ensures OddBits(x ^ y) == (OddBits(x) != OddBits(y))
  {
  }

  lemma {:induction false} ShiftKeepsParity(c: bv8, n: nat)
    ensures OddBits(Shift(c, n)) == OddBits(c)
    decreases n
  {
    if n > 0 {
      ShiftBitKeepsParity(c);
      ShiftKeepsParity(ShiftBit(c), n - 1);
    }
  }

  lemma ShiftBitKeepsParity(c: bv8)
    ensures OddBits(ShiftBit(c)) == OddBits(c)
  {
  }

  /** An odd number of flipped bits is noticed, wherever they are. */
  lemma OddFlipsNoticed(e: Bytes)
    requires OddMessage(e)
    ensures Crc8(e) != 0
  {
    CrcKeepsParity(0, e);
  }

  // ----- whole frames ----------------------------------------------------------------------

  /** A 10-byte frame whose last byte is the CRC of the other nine. */
  ghost predicate Checked(frame: Bytes) {
    |frame| == 10 && Crc8(frame[..9]) == frame[9]
  }

  /** A frame checks exactly when the CRC over all ten bytes, check byte included, is 0. */
  lemma CheckedIsZeroResidue(frame: Bytes)
    requires |frame| == 10
    ensures Checked(frame) <==> Crc8(frame) == 0
  {
    var c, last := Crc8(frame[..9]), [frame[9]];
    assert frame == frame[..9] + last;
    CrcAppend(0, frame[..9], last);
    assert last[1..] == [];
    assert CrcFrom(c, last) == Feed(c, frame[9]);
    FeedZero(c, frame[9]);
  }

  /** A checked frame damaged by a short burst or by an odd number of flips never checks. */
  lemma DamagedFrameRejected(good: Bytes, bad: Bytes, k: nat, j: nat)
    requires Checked(good) && |bad| == 10
    requires Burst(Flips(good, bad), k, j) || OddMessage(Flips(good, bad))
    ensures !Checked(bad)
  {
    CheckedIsZeroResidue(good);
    CheckedIsZeroResidue(bad);
    UnnoticedErrors(good, bad);
    if Burst(Flips(good, bad), k, j) {
      BurstNoticed(Flips(good, bad), k, j);
    } else {
      OddFlipsNoticed(Flips(good, bad));
    }
  }

  // ----- command frames --------------------------------------------------------------------

  function WithCrc(fields: Bytes): Bytes {
    fields + [Crc8(fields)]
  }

  /** The mode switch carries the mode in its last byte and no CRC. */
  function PackModeFrame(id: bv8, mode: bv8): Bytes {
    [id, MODE_SWITCH, 0, 0, 0, 0, 0, 0, 0, mode]
  }

  function PackModeFrameLegacy(id: bv8, mode: bv8): Bytes {
    WithCrc([id, MODE_SWITCH, 0, 0, 0, 0, 0, 0, mode])
  }

  function PackVelocityFrame(id: bv8, rpm: bv16, accelTime: bv8, brake: bool): Bytes {
    WithCrc([id, COMMAND, HighByte(rpm), LowByte(rpm), 0, 0, accelTime, if brake then 0xFF else 0x00, 0])
  }

  function PackCurrentFrame(id: bv8, raw: bv16): Bytes {
    WithCrc([id, COMMAND, HighByte(raw), LowByte(raw), 0, 0, 0, 0, 0])
  }

  predicate IsZeroCommandFrame(frame: Bytes) {
    |frame| == 10 && frame[1] == COMMAND && frame[2] == 0x00 && frame[3] == 0x00
  }

  /** The signed value a command frame carries. */
  function CommandedValue(frame: Bytes): int
    requires |frame| == 10
  {
    FromBits(JoinBytes(frame[2], frame[3]))
  }

  /** Both command frames carry their value in bytes 2 and 3, high byte first. */
  lemma CommandCarriesValue(id: bv8, value: int, accelTime: bv8, brake: bool)
    requires -32768 <= value < 32768
    ensures |PackVelocityFrame(id, ToBits(value), accelTime, brake)| == |PackCurrentFrame(id, ToBits(value))| == 10
    ensures CommandedValue(PackVelocityFrame(id, ToBits(value), accelTime, brake)) == value
    ensures CommandedValue(PackCurrentFrame(id, ToBits(value))) == value
  {
    hide Crc8, ToBits, FromBits;
    BitsRoundTrip(value);
    JoinSplit(ToBits(value));
  }

  /** Both command frames check, and both are stop frames exactly when their value is 0. */
  lemma CommandFrames(id: bv8, value: int, accelTime: bv8, brake: bool)
    requires -32768 <= value < 32768
    ensures Checked(PackVelocityFrame(id, ToBits(value), accelTime, brake))
    ensures Checked(PackCurrentFrame(id, ToBits(value)))
    ensures IsZeroCommandFrame(PackVelocityFrame(id, ToBits(value), accelTime, brake)) <==> value == 0
    ensures IsZeroCommandFrame(PackCurrentFrame(id, ToBits(value))) <==> value == 0
  {
    ZeroBits(value);
    ZeroBytes(ToBits(value));
    WithCrcChecks([id, COMMAND, HighByte(ToBits(value)), LowByte(ToBits(value)), 0, 0, accelTime,
                   if brake then 0xFF else 0x00, 0]);
    WithCrcChecks([id, COMMAND, HighByte(ToBits(value)), LowByte(ToBits(value)), 0, 0, 0, 0, 0]);
  }

  lemma WithCrcChecks(fields: Bytes)
    requires |fields| == 9
    ensures Checked(WithCrc(fields))
  {
    assert WithCrc(fields)[..9] == fields;
  }

  lemma ZeroBytes(w: bv16)
    ensures HighByte(w) == 0 && LowByte(w) == 0 <==> w == 0
  {
  }

  /** A mode switch is never mistaken for a stop frame, in either layout. */
  lemma ModeFramesAreNotCommands(id: bv8, mode: bv8)
    ensures !IsZeroCommandFrame(PackModeFrame(id, mode))
    ensures !IsZeroCommandFrame(PackModeFrameLegacy(id, mode))
  {
  }

  datatype IdleRefresh = NoRefresh | ResendZero

  function DecideIdleRefresh(isFresh: bool, hasCachedFrame: bool, cachedIsZero: bool, throttled: bool): IdleRefresh {
    if isFresh || !hasCachedFrame || !cachedIsZero || throttled then NoRefresh else ResendZero
  }

  // ----- feedback --------------------------------------------------------------------------

  /** A decoded answer; the 16-bit fields are kept as the patterns on the wire. */
  datatype Answer = Answer(mode: bv8, current: bv16, speed: bv16, position: bv16, faultCode: bv8)

  datatype ParseResult = Parsed(answer: Answer) | BadLength | IdMismatch | CrcMismatch

  function ParseFeedbackFrame(id: bv8, frame: Bytes): ParseResult {
    if |frame| != 10 then BadLength
    else if frame[0] != id then IdMismatch
    else if Crc8(frame[..9]) != frame[9] then CrcMismatch
    else Parsed(Answer(frame[1], JoinBytes(frame[2], frame[3]), JoinBytes(frame[4], frame[5]),
                       JoinBytes(frame[6], frame[7]), frame[8]))
  }

  /** The frame a motor puts on the wire for an answer. */
  function AnswerFrame(id: bv8, a: Answer): Bytes {
    WithCrc([id, a.mode, HighByte(a.current), LowByte(a.current), HighByte(a.speed), LowByte(a.speed),
             HighByte(a.position), LowByte(a.position), a.faultCode])
  }

  /** Parsing accepts exactly the frames a motor with this id can send, and loses nothing. */
  lemma ParseInvertsAnswer(id: bv8, frame: Bytes, a: Answer)
    ensures ParseFeedbackFrame(id, frame) == Parsed(a) <==> frame == AnswerFrame(id, a)
  {
    JoinSplit(a.current);
    JoinSplit(a.speed);
    JoinSplit(a.position);
    if frame == AnswerFrame(id, a) {
      assert frame[..9] == [id, a.mode, HighByte(a.current), LowByte(a.current), HighByte(a.speed),
                            LowByte(a.speed), HighByte(a.position), LowByte(a.position), a.faultCode];
    }
    if ParseFeedbackFrame(id, frame) == Parsed(a) {
      SplitJoin(frame[2], frame[3]);
      SplitJoin(frame[4], frame[5]);
      SplitJoin(frame[6], frame[7]);
      var fields := frame[..9];
      assert fields == [id, a.mode, HighByte(a.current), LowByte(a.current), HighByte(a.speed),
                        LowByte(a.speed), HighByte(a.position), LowByte(a.position), a.faultCode];
      assert frame == fields + [frame[9]];
    }
  }

  /** No answer damaged by a burst of at most 8 bits, or by an odd number of flips, is decoded. */
  lemma DamagedAnswerNeverParsed(id: bv8, a: Answer, bad: Bytes, k: nat, j: nat)
    requires |bad| == 10
    requires Burst(Flips(AnswerFrame(id, a), bad), k, j) || OddMessage(Flips(AnswerFrame(id, a), bad))
    ensures !ParseFeedbackFrame(id, bad).Parsed?
  {
    ParseInvertsAnswer(id, AnswerFrame(id, a), a);
    DamagedFrameRejected(AnswerFrame(id, a), bad, k, j);
  }
}
