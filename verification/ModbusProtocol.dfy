/**
 * Modbus RTU framing of the FEETECH servos: the CRC (MODBUS over Serial Line V1.02, sections 2.5.1.2
 * and 6.2.2), the command frame, and the search for an answer among noise and echoes.
 */
module ModbusProtocol {
  import opened Common
  import opened DdtProtocol

  const READ_REGISTERS: bv8 := 0x03
  const WRITE_REGISTER: bv8 := 0x06

  // ----- CRC-16 -------------------------------------------------------------------------------

  predicate Odd(c: bv16) {
    c & 1 == 1
  }

  function Half(c: bv16, carry: bool): bv16 {
    if carry then (c >> 1) ^ 0xA001 else c >> 1
  }

  function ShiftBit16(c: bv16): bv16 {
    Half(c, Odd(c))
  }

  function Shift16(c: bv16, n: nat): bv16
    decreases n
  {
    if n == 0 then c else Shift16(ShiftBit16(c), n - 1)
  }

  function Feed16(r: bv16, byte: bv8): bv16 {
    Shift16(r ^ (byte as bv16), 8)
  }

  function Crc16From(r: bv16, data: Bytes): bv16
    decreases data
  {
    if data == [] then r else Crc16From(Feed16(r, data[0]), data[1..])
  }

  function Crc16(data: Bytes): bv16 {
    Crc16From(0xFFFF, data)
  }

  method CalculateCrc16(data: array<bv8>, length: nat) returns (crc: bv16)
    requires length <= data.Length
    ensures crc == Crc16(data[..length])
  {
    ghost var message := data[..length];
    crc := 0xFFFF;
    for i := 0 to length
      invariant Crc16From(crc, message[i..]) == Crc16(message)
    {
      ghost var fed := Feed16(crc, data[i]);
      assert message[i..][1..] == message[i + 1..] && message[i] == data[i];
      assert Crc16From(fed, message[i + 1..]) == Crc16(message);
      crc := crc ^ (data[i] as bv16);
      for j := 0 to 8
        invariant Shift16(crc, 8 - j) == fed
      {
        if crc & 1 != 0 {
          crc := crc >> 1;
          crc := crc ^ 0xA001;
        } else {
          crc := crc >> 1;
        }
      }
    }
  }

  lemma {:induction false} Crc16Append(r: bv16, a: Bytes, b: Bytes)
    ensures Crc16From(r, a + b) == Crc16From(Crc16From(r, a), b)
    decreases a
  {
    hide Feed16;
    if a == [] {
      assert a + b == b;
    } else {
      assert (a + b)[1..] == a[1..] + b;
      Crc16Append(Feed16(r, a[0]), a[1..], b);
    }
  }

  function Xor16(x: bv16, y: bv16): bv16 {
    x ^ y
  }

  lemma {:induction false} Shift16Linear(a: bv16, b: bv16, c: bv16, n: nat)
    requires c == Xor16(a, b)
    ensures Shift16(c, n) == Xor16(Shift16(a, n), Shift16(b, n))
    decreases n
  {
    hide ShiftBit16, Xor16;
    if n > 0 {
      ShiftBit16Linear(a, b);
      Shift16Linear(ShiftBit16(a), ShiftBit16(b), ShiftBit16(c), n - 1);
    }
  }

  lemma ShiftBit16Linear(a: bv16, b: bv16)
    ensures ShiftBit16(Xor16(a, b)) == Xor16(ShiftBit16(a), ShiftBit16(b))
  {
    hide Odd, Half, Xor16;
    OddOfXor(a, b);
    HalfOfXor(a, b, Odd(a), Odd(b));
  }

  lemma OddOfXor(a: bv16, b: bv16)
    ensures Odd(Xor16(a, b)) <==> Odd(a) != Odd(b)
  {
  }

  lemma HalfOfXor(a: bv16, b: bv16, p: bool, q: bool)
    ensures Half(Xor16(a, b), p != q) == Xor16(Half(a, p), Half(b, q))
  {
    hide Half;
    NoCarry(a, b);
    BothCarry(a, b);
    OneCarry(a, b);
    OneCarry(b, a);
    Xor16Commutes(a, b);
    Xor16Commutes(Half(a, p), Half(b, q));
  }

  lemma NoCarry(a: bv16, b: bv16)
    ensures Half(Xor16(a, b), false) == Xor16(Half(a, false), Half(b, false))
  {
  }

  lemma BothCarry(a: bv16, b: bv16)
    ensures Half(Xor16(a, b), false) == Xor16(Half(a, true), Half(b, true))
  {
  }

  lemma OneCarry(a: bv16, b: bv16)
    ensures Half(Xor16(a, b), true) == Xor16(Half(a, true), Half(b, false))
  {
  }

  lemma Xor16Commutes(x: bv16, y: bv16)
    ensures Xor16(x, y) == Xor16(y, x)
  {
  }

  lemma {:induction false} Shift16KeepsNonzero(c: bv16, n: nat)
    ensures Shift16(c, n) == 0 <==> c == 0
    decreases n
  {
    if n > 0 {
      Shift16KeepsNonzero(ShiftBit16(c), n - 1);
    }
  }

  lemma Feed16Zero(r: bv16, byte: bv8)
    ensures Feed16(r, byte) == 0 <==> r == byte as bv16
  {
    Shift16KeepsNonzero(r ^ (byte as bv16), 8);
    Xor16Zero(r, byte as bv16);
  }

  lemma Xor16Zero(x: bv16, y: bv16)
    ensures x ^ y == 0 <==> x == y
  {
  }

  /** Exclusive or passes through the whole computation. */
  lemma {:induction false} Crc16Linear(r: bv16, a: Bytes, s: bv16, b: Bytes)
    requires |a| == |b|
    ensures Crc16From(Xor16(r, s), Flips(a, b)) == Xor16(Crc16From(r, a), Crc16From(s, b))
    decreases a
  {
    hide Feed16, Xor, Xor16;
    if a != [] {
      Feed16Linear(r, a[0], s, b[0]);
      Crc16Linear(Feed16(r, a[0]), a[1..], Feed16(s, b[0]), b[1..]);
      assert Flips(a, b)[1..] == Flips(a[1..], b[1..]);
    }
  }

  lemma Feed16Linear(r: bv16, a: bv8, s: bv16, b: bv8)
    ensures Feed16(Xor16(r, s), Xor(a, b)) == Xor16(Feed16(r, a), Feed16(s, b))
  {
    Xor16Regroup(r, s, a, b);
    Linear16Together(r ^ (a as bv16), s ^ (b as bv16), (r ^ s) ^ ((a ^ b) as bv16));
  }

  lemma Xor16Regroup(r: bv16, s: bv16, x: bv8, y: bv8)
    ensures (r ^ s) ^ ((x ^ y) as bv16) == (r ^ (x as bv16)) ^ (s ^ (y as bv16))
  {
  }

  lemma Linear16Together(x: bv16, y: bv16, z: bv16)
    requires z == Xor16(x, y)
    ensures Shift16(z, 8) == Xor16(Shift16(x, 8), Shift16(y, 8))
  {
    Shift16Linear(x, y, z, 8);
  }

  /** An error goes unnoticed exactly when the CRC of its pattern, from an empty register, is 0. */
  lemma UnnoticedErrors16(a: Bytes, b: Bytes)
    requires |a| == |b|
    ensures Crc16(a) == Crc16(b) <==> Crc16From(0, Flips(a, b)) == 0
  {
    Crc16Linear(0xFFFF, a, 0xFFFF, b);
    SameCrc(Crc16(a), Crc16(b), Crc16From(0, Flips(a, b)));
  }

  lemma SameCrc(x: bv16, y: bv16, d: bv16)
    requires d == Xor16(x, y)
    ensures x == y <==> d == 0
  {
    Xor16Zero(x, y);
  }

  /**
   * The flipped bits lie in at most 16 consecutive bits of the wire: from bit `j` of byte `k` to
   * before bit `j` of byte `k + 2`, or to the end of the message. With `j == 0` only the bytes `k`
   * and `k + 1` are hit.
   */
  ghost predicate Burst16(e: Bytes, k: nat, j: nat) {
    && k < |e| && j < 8
    && (forall i :: 0 <= i < k || k + 2 < i < |e| ==> e[i] == 0)
    && OnlyFrom(e[k], j)
    && (k + 2 < |e| ==> OnlyBelow(e[k + 2], j))
    && !AllZero(e)
  }

  /** Every burst of at most 16 bits is noticed, wherever it hits and however long the message. */
  lemma {:induction false} Burst16Noticed(e: Bytes, k: nat, j: nat)
    requires Burst16(e, k, j)
    ensures Crc16From(0, e) != 0
    decreases e
  {
    hide Feed16, OnlyFrom, OnlyBelow;
    var r1 := Feed16(0, e[0]);
    assert Crc16From(0, e) == Crc16From(r1, e[1..]);
    if k > 0 {
      Feed16Zero(0, e[0]);
      assert forall i :: 0 <= i < |e| - 1 ==> e[1..][i] == e[i + 1];
      assert Burst16(e[1..], k - 1, j);
      Burst16Noticed(e[1..], k - 1, j);
    } else {
      FirstThree(e, j);
      var y, z := ByteAt(e, 1), ByteAt(e, 2);
      var r2 := Feed16(r1, y);
      Feed16Zero(r2, z);
      Feed16Zero(r1, y);
      assert e[1..] == [] || (e[1..][1..] == e[2..] && Crc16From(r1, e[1..]) == Crc16From(r2, e[2..]));
      if |e| > 2 {
        assert e[2..][1..] == e[3..] && Crc16From(r2, e[2..]) == Crc16From(Feed16(r2, z), e[3..]);
        Zeros16KeepNonzero(Feed16(r2, z), e[3..]);
      }
    }
  }

  /** A byte of a message; past its end the wire is as if no bit was flipped. */
  function ByteAt(e: Bytes, i: nat): bv8 {
    if i < |e| then e[i] else 0
  }

  /** After the three bytes a burst can hit, something is left in the register. */
  lemma FirstThree(e: Bytes, j: nat)
    requires Burst16(e, 0, j)
    ensures Feed16(Feed16(Feed16(0, e[0]), ByteAt(e, 1)), ByteAt(e, 2)) != 0
  {
    hide Feed16;
    var x, y, z := e[0], ByteAt(e, 1), ByteAt(e, 2);
    Feed16Zero(Feed16(Feed16(0, x), y), z);
    assert OnlyBelow(z, j);
    BurstHasBits(e);
    NothingCancels(x, y, z, j);
  }

  lemma BurstHasBits(e: Bytes)
    requires e != [] && forall i :: 2 < i < |e| ==> e[i] == 0
    ensures e[0] == 0 && ByteAt(e, 1) == 0 && ByteAt(e, 2) == 0 ==> AllZero(e)
  {
  }

  /** In particular no damage to two neighbouring bytes goes unnoticed, be they the last ones. */
  lemma TwoBytesNoticed(e: Bytes, k: nat)
    requires k < |e| && forall i :: 0 <= i < |e| && i != k && i != k + 1 ==> e[i] == 0
    requires !AllZero(e)
    ensures Crc16From(0, e) != 0
  {
    assert OnlyFrom(e[k], 0);
    assert k + 2 < |e| ==> OnlyBelow(e[k + 2], 0);
    Burst16Noticed(e, k, 0);
  }

  lemma {:induction false} Zeros16KeepNonzero(r: bv16, e: Bytes)
    requires r != 0 && AllZero(e)
    ensures Crc16From(r, e) != 0
    decreases e
  {
    hide Feed16;
    if e != [] {
      Feed16Zero(r, e[0]);
      Zeros16KeepNonzero(Feed16(r, e[0]), e[1..]);
    }
  }

  /** The end of a short burst never cancels what its beginning left in the register. */
  lemma ThreeByteBurst(x: bv8, y: bv8, z: bv8, j: nat)
    requires j < 8 && OnlyFrom(x, j) && OnlyBelow(z, j)
    requires Feed16(Feed16(0, x), y) == z as bv16
    ensures x == 0 && y == 0 && z == 0
  {
    EightShifts16(0 ^ (x as bv16));
    EightShifts16(Feed16(0, x) ^ (y as bv16));
  }

  lemma NothingCancels(x: bv8, y: bv8, z: bv8, j: nat)
    requires j < 8 && OnlyFrom(x, j) && OnlyBelow(z, j)
    ensures Feed16(Feed16(0, x), y) == z as bv16 ==> x == 0 && y == 0 && z == 0
  {
    hide Feed16, OnlyFrom, OnlyBelow;
    if Feed16(Feed16(0, x), y) == z as bv16 {
      ThreeByteBurst(x, y, z, j);
    }
  }

  lemma EightShifts16(c: bv16)
    ensures Shift16(c, 8) == TwoShifts(TwoShifts(TwoShifts(TwoShifts(c))))
  {
    var c2 := TwoShifts(c);
    var c4 := TwoShifts(c2);
    var c6 := TwoShifts(c4);
    assert Shift16(c, 8) == Shift16(c2, 6) == Shift16(c4, 4) == Shift16(c6, 2);
  }

  function TwoShifts(c: bv16): bv16 {
    ShiftBit16(ShiftBit16(c))
  }

  // ----- frames -------------------------------------------------------------------------------

  function WithCrc16(payload: Bytes): Bytes {
    payload + [LowByte(Crc16(payload)), HighByte(Crc16(payload))]
  }

  predicate VerifyChecksum(data: Bytes) {
    |data| >= 3 && JoinBytes(data[|data| - 1], data[|data| - 2]) == Crc16(data[..|data| - 2])
  }

  /** The check accepts exactly the messages that end in the CRC of what precedes it. */
  lemma VerifiedIsBuilt(data: Bytes)
    requires |data| >= 3
    ensures VerifyChecksum(data) <==> data == WithCrc16(data[..|data| - 2])
  {
    var payload := data[..|data| - 2];
    JoinSplit(Crc16(payload));
    SplitJoin(data[|data| - 1], data[|data| - 2]);
    assert data == payload + [data[|data| - 2], data[|data| - 1]];
  }

  lemma BuiltVerifies(payload: Bytes)
    requires payload != []
    ensures VerifyChecksum(WithCrc16(payload))
  {
    assert WithCrc16(payload)[..|payload|] == payload;
    JoinSplit(Crc16(payload));
  }

  /** A message verifies exactly when the CRC over all of it, check bytes included, is 0. */
  lemma VerifiedIsZeroResidue(data: Bytes)
    requires |data| >= 3
    ensures VerifyChecksum(data) <==> Crc16(data) == 0
  {
    var payload, low, high := data[..|data| - 2], data[|data| - 2], data[|data| - 1];
    var c := Crc16(payload);
    assert data == payload + [low, high];
    Crc16Append(0xFFFF, payload, [low, high]);
    assert [low, high][1..] == [high] && [high][1..] == [];
    assert Crc16From(c, [low, high]) == Crc16From(Feed16(c, low), [high]) == Feed16(Feed16(c, low), high);
    Feed16Zero(Feed16(c, low), high);
    ResidueCore(c, low, high);
  }

  lemma ResidueCore(c: bv16, low: bv8, high: bv8)
    ensures Feed16(c, low) == high as bv16 <==> JoinBytes(high, low) == c
  {
    EightShifts16(c ^ (low as bv16));
  }

  /** A valid message hit by one burst of at most 16 bits, check bytes included, never verifies. */
  lemma DamagedMessageRejected(good: Bytes, bad: Bytes, k: nat, j: nat)
    requires VerifyChecksum(good) && |bad| == |good|
    requires Burst16(Flips(good, bad), k, j)
    ensures !VerifyChecksum(bad)
  {
    VerifiedIsZeroResidue(good);
    VerifiedIsZeroResidue(bad);
    UnnoticedErrors16(good, bad);
    Burst16Noticed(Flips(good, bad), k, j);
  }

  function Command(slave: bv8, func: bv8, address: bv16, value: bv16): Bytes {
    WithCrc16([slave, func, HighByte(address), LowByte(address), HighByte(value), LowByte(value)])
  }

  method CreateModbusCommand(slave: bv8, func: bv8, address: bv16, value: bv16, command: array<bv8>)
    returns (length: nat)
    requires command.Length >= 8
    modifies command
    ensures length == 8 && command[..8] == Command(slave, func, address, value)
    ensures command[8..] == old(command[8..])
    ensures VerifyChecksum(command[..8])
  {
    hide Crc16, VerifyChecksum, HighByte, LowByte;
    command[0] := slave;
    command[1] := func;
    command[2] := HighByte(address);
    command[3] := LowByte(address);
    command[4] := HighByte(value);
    command[5] := LowByte(value);
    var crc := CalculateCrc16(command, 6);
    ghost var payload := command[..6];
    assert payload == [slave, func, HighByte(address), LowByte(address), HighByte(value), LowByte(value)];
    command[6] := LowByte(crc);
    command[7] := HighByte(crc);
    assert command[..8] == payload + [LowByte(crc), HighByte(crc)];
    BuiltVerifies(payload);
    length := 8;
  }

  // ----- servo_checker.py: frames from unbounded integers -----------------------------------------

  function BuildFrame(servoId: int, func: int, address: int, value: int): Bytes {
    WithCrc16([Byte(servoId % 256), Byte(func % 256), Byte(address / 256 % 256), Byte(address % 256),
               Byte(value / 256 % 256), Byte(value % 256)])
  }

  lemma FrameLength(servoId: int, func: int, address: int, value: int)
    ensures |BuildFrame(servoId, func, address, value)| == 8
  {
  }

  /** For arguments in range both programs build the same frame. */
  lemma BuildersAgree(servoId: int, func: int, address: int, value: int)
    requires 0 <= servoId < 256 && 0 <= func < 256 && 0 <= address < 65536 && 0 <= value < 65536
    ensures BuildFrame(servoId, func, address, value)
         == Command(Byte(servoId), Byte(func), Word(address), Word(value))
  {
    hide WithCrc16, HighByte, LowByte, Byte, Value, Word;
    assert servoId % 256 == servoId && func % 256 == func;
    WordBytes(address);
    WordBytes(value);
  }

  lemma WordBytes(n: int)
    requires 0 <= n < 65536
    ensures HighByte(Word(n)) == Byte(n / 256 % 256) && LowByte(Word(n)) == Byte(n % 256)
  {
    hide HighByte, LowByte, JoinBytes, Byte, Value;
    SplitJoin(Byte(n / 256), Byte(n % 256));
    assert n / 256 % 256 == n / 256;
  }

  ghost predicate OccursAt(data: Bytes, frame: Bytes, i: nat) {
    i + |frame| <= |data| && data[i..i + |frame|] == frame
  }

  /** What the search tests at one position. */
  predicate WriteEchoAt(data: Bytes, servoId: int, address: int, value: int, i: nat) {
    && i + 8 <= |data|
    && Value(data[i]) == servoId && data[i + 1] == WRITE_REGISTER
    && VerifyChecksum(data[i..i + 8])
    && Value(data[i + 2]) * 256 + Value(data[i + 3]) == address
    && Value(data[i + 4]) * 256 + Value(data[i + 5]) == value % 65536
  }

  /** The six payload bytes, compared in the integers as the search does. */
  predicate PayloadMatches(c: Bytes, servoId: int, address: int, value: int)
    requires |c| >= 6
  {
    && Value(c[0]) == servoId && c[1] == WRITE_REGISTER
    && Value(c[2]) * 256 + Value(c[3]) == address
    && Value(c[4]) * 256 + Value(c[5]) == value % 65536
  }

  lemma PayloadIsBuilt(c: Bytes, servoId: int, address: int, value: int)
    requires |c| >= 6 && 0 <= servoId < 256 && 0 <= address < 65536
    ensures PayloadMatches(c, servoId, address, value) <==> c[..6] == BuildFrame(servoId, 6, address, value)[..6]
  {
    hide BuildFrame, Byte, Value;
    var low := value % 65536;
    BuiltPayload(servoId, address, value);
    SameByte(c[0], servoId);
    SameByte(WRITE_REGISTER, 6);
    SameWord(c[2], c[3], address);
    SameWord(c[4], c[5], low);
    assert Value(WRITE_REGISTER) == 6 by { WriteRegisterIsSix(); }
    var built := [Byte(servoId), Byte(6), Byte(address / 256), Byte(address % 256), Byte(low / 256), Byte(low % 256)];
    assert c[..6] == built <==> (&& c[0] == built[0] && c[1] == built[1] && c[2] == built[2]
                                 && c[3] == built[3] && c[4] == built[4] && c[5] == built[5]);
  }

  lemma WriteRegisterIsSix()
    ensures Value(WRITE_REGISTER) == 6
  {
  }

  lemma BuiltPayload(servoId: int, address: int, value: int)
    requires 0 <= servoId < 256 && 0 <= address < 65536
    ensures BuildFrame(servoId, 6, address, value)[..6]
         == [Byte(servoId), Byte(6), Byte(address / 256), Byte(address % 256),
             Byte(value % 65536 / 256), Byte(value % 65536 % 256)]
  {
    hide Crc16, HighByte, LowByte, Byte, Value;
    LowWord(value);
    LowWord(address);
  }

  lemma LowWord(n: int)
    ensures n % 65536 / 256 == n / 256 % 256 && n % 65536 % 256 == n % 256
  {
  }

  lemma SameWord(high: bv8, low: bv8, n: int)
    requires 0 <= n < 65536
    ensures Value(high) * 256 + Value(low) == n <==> high == Byte(n / 256) && low == Byte(n % 256)
  {
    hide Byte, Value;
    SameByte(high, n / 256);
    SameByte(low, n % 256);
  }

  /** With the id and the address in range, a position passes exactly when the built frame is there. */
  lemma WriteEchoIsBuiltFrame(data: Bytes, servoId: int, address: int, value: int, i: nat)
    ensures WriteEchoAt(data, servoId, address, value, i)
       <==> 0 <= servoId < 256 && 0 <= address < 65536 && OccursAt(data, BuildFrame(servoId, 6, address, value), i)
  {
    hide Crc16, HighByte, LowByte, VerifyChecksum;
    if i + 8 <= |data| {
      var c := data[i..i + 8];
      assert WriteEchoAt(data, servoId, address, value, i)
        <==> VerifyChecksum(c) && PayloadMatches(c, servoId, address, value);
      VerifiedIsBuilt(c);
      if 0 <= servoId < 256 && 0 <= address < 65536 {
        var frame := BuildFrame(servoId, 6, address, value);
        PayloadIsBuilt(c, servoId, address, value);
        assert frame == WithCrc16(frame[..6]);
      }
    }
  }

  lemma SameByte(b: bv8, n: int)
    requires 0 <= n < 256
    ensures b == Byte(n) <==> Value(b) == n
  {
    assert Value(b) as bv8 == b;
    assert Value(Byte(n)) as bv8 == Byte(n);
  }

  /**
   * The write answer is found exactly when the received bytes contain the frame that was sent, with
   * the id and address in range; noise and echoes around it change nothing.
   */
  method FindWriteFrame(data: Bytes, servoId: int, address: int, value: int) returns (found: Option<Bytes>)
    ensures found.Some? <==> (&& 0 <= servoId < 256 && 0 <= address < 65536
                              && exists i: nat :: OccursAt(data, BuildFrame(servoId, 6, address, value), i))
    ensures found.Some? ==> found.value == BuildFrame(servoId, 6, address, value)
  {
    hide VerifyChecksum, BuildFrame, Value;
    var i: nat := 0;
    while i < |data| - 8 + 1
      invariant forall p: nat :: p < i ==> !WriteEchoAt(data, servoId, address, value, p)
    {
      if Value(data[i]) == servoId && data[i + 1] == WRITE_REGISTER {
        var candidate := data[i..i + 8];
        if VerifyChecksum(candidate) {
          var echoAddress := Value(candidate[2]) * 256 + Value(candidate[3]);
          var echoValue := Value(candidate[4]) * 256 + Value(candidate[5]);
          if echoAddress == address && echoValue == value % 65536 {
            assert WriteEchoAt(data, servoId, address, value, i);
            WriteEchoIsBuiltFrame(data, servoId, address, value, i);
            assert |BuildFrame(servoId, 6, address, value)| == 8 by { FrameLength(servoId, 6, address, value); }
            return Some(candidate);
          }
        }
      }
      i := i + 1;
    }
    forall p: nat ensures !WriteEchoAt(data, servoId, address, value, p) {}
    NoWriteEcho(data, servoId, address, value);
    found := None;
  }

  lemma NoWriteEcho(data: Bytes, servoId: int, address: int, value: int)
    requires forall p: nat :: !WriteEchoAt(data, servoId, address, value, p)
    ensures 0 <= servoId < 256 && 0 <= address < 65536 ==>
              forall i: nat :: !OccursAt(data, BuildFrame(servoId, 6, address, value), i)
  {
    forall i: nat | 0 <= servoId < 256 && 0 <= address < 65536
      ensures !OccursAt(data, BuildFrame(servoId, 6, address, value), i)
    {
      WriteEchoIsBuiltFrame(data, servoId, address, value, i);
    }
  }

  /** The answer a servo sends to a read of one register. */
  function ReadAnswer(servoId: bv8, value: bv16): Bytes {
    WithCrc16([servoId, READ_REGISTERS, 2, HighByte(value), LowByte(value)])
  }

  predicate ReadAnswerAt(data: Bytes, servoId: int, i: nat) {
    && i + 7 <= |data|
    && Value(data[i]) == servoId && data[i + 1] == READ_REGISTERS && data[i + 2] == 2
    && VerifyChecksum(data[i..i + 7])
  }

  /** A position passes exactly when an answer of this servo is there, for some register value. */
  lemma ReadAnswerIsSent(data: Bytes, servoId: int, i: nat)
    ensures ReadAnswerAt(data, servoId, i)
       <==> 0 <= servoId < 256 && exists value: bv16 :: OccursAt(data, ReadAnswer(Byte(servoId), value), i)
  {
    hide Value, Byte, HighByte, LowByte, JoinBytes, Crc16, VerifyChecksum, ReadAnswer, OccursAt;
    if 0 <= servoId < 256 {
      if ReadAnswerAt(data, servoId, i) {
        AcceptedIsSent(data, servoId, i);
      }
      if value: bv16 :| OccursAt(data, ReadAnswer(Byte(servoId), value), i) {
        SentIsAccepted(data, servoId, i, value);
      }
    }
  }

  lemma AcceptedIsSent(data: Bytes, servoId: int, i: nat)
    requires ReadAnswerAt(data, servoId, i) && 0 <= servoId < 256
    ensures OccursAt(data, ReadAnswer(Byte(servoId), JoinBytes(data[i + 3], data[i + 4])), i)
  {
    hide Value, Byte, HighByte, LowByte, JoinBytes, Crc16, VerifyChecksum;
    var c := data[i..i + 7];
    VerifiedIsBuilt(c);
    SameByte(data[i], servoId);
    SplitJoin(c[3], c[4]);
    var value := JoinBytes(c[3], c[4]);
    assert c[..5] == [Byte(servoId), READ_REGISTERS, 2, HighByte(value), LowByte(value)];
  }

  lemma SentIsAccepted(data: Bytes, servoId: int, i: nat, value: bv16)
    requires 0 <= servoId < 256 && OccursAt(data, ReadAnswer(Byte(servoId), value), i)
    ensures ReadAnswerAt(data, servoId, i)
  {
    hide Value, Byte, HighByte, LowByte, JoinBytes, Crc16, VerifyChecksum;
    var payload := [Byte(servoId), READ_REGISTERS, 2, HighByte(value), LowByte(value)];
    BuiltVerifies(payload);
    var c := data[i..i + 7];
    assert |WithCrc16(payload)| == 7 && c == WithCrc16(payload);
    SameByte(data[i], servoId);
    assert c[0] == payload[0] && c[1] == payload[1] && c[2] == payload[2];
  }

  /** The leftmost answer of this servo, if there is one. */
  method FindReadFrame(data: Bytes, servoId: int) returns (found: Option<Bytes>, ghost at: nat)
    ensures found.Some? <==> exists i: nat :: ReadAnswerAt(data, servoId, i)
    ensures found.Some? ==> ReadAnswerAt(data, servoId, at) && found.value == data[at..at + 7]
    ensures found.Some? ==> forall p: nat :: p < at ==> !ReadAnswerAt(data, servoId, p)
  {
    hide VerifyChecksum, Value;
    at := 0;
    var i: nat := 0;
    while i < |data| - 7 + 1
      invariant forall p: nat :: p < i ==> !ReadAnswerAt(data, servoId, p)
    {
      if Value(data[i]) == servoId && data[i + 1] == READ_REGISTERS && data[i + 2] == 2 {
        var candidate := data[i..i + 7];
        if VerifyChecksum(candidate) {
          assert ReadAnswerAt(data, servoId, i);
          return Some(candidate), i;
        }
      }
      i := i + 1;
    }
    found := None;
  }
}
