/** The check bytes and frames of known messages, so that the two CRCs are the ones of that name. */
module KnownFrames {
  import opened DdtProtocol
  import opened ModbusProtocol

  /** "123456789", the message for which the check value of a CRC is given. */
  const DIGITS: Bytes := [0x31, 0x32, 0x33, 0x34, 0x35, 0x36, 0x37, 0x38, 0x39]

  function Eight(c: bv8): bv8 {
    ShiftBit(ShiftBit(ShiftBit(ShiftBit(ShiftBit(ShiftBit(ShiftBit(ShiftBit(c))))))))
  }

  lemma FeedIsEight(r: bv8, byte: bv8)
    ensures Feed(r, byte) == Eight(r ^ byte)
  {
    hide ShiftBit;
  }

  /** One more byte takes the register from `r` to `next`. */
  lemma OneByte(d: Bytes, i: nat, r: bv8, next: bv8)
    requires i < |d| && Crc8(d[..i]) == r && Eight(r ^ d[i]) == next
    ensures Crc8(d[..i + 1]) == next
  {
    hide ShiftBit, Eight;
    assert d[..i + 1] == d[..i] + [d[i]];
    CrcAppend(0, d[..i], [d[i]]);
    assert [d[i]][1..] == [];
    assert CrcFrom(r, [d[i]]) == Feed(r, d[i]);
    FeedIsEight(r, d[i]);
  }

  /** The check value of CRC-8/MAXIM is 0xA1. */
  lemma Crc8OfDigits()
    ensures Crc8(DIGITS) == 0xA1
  {
    hide Crc8;
    var d := DIGITS;
    NothingFed(d);
    OneByte(d, 0, 0x00, 0xE0);
    OneByte(d, 1, 0xE0, 0xEB);
    OneByte(d, 2, 0xEB, 0x95);
    OneByte(d, 3, 0x95, 0xF1);
    OneByte(d, 4, 0xF1, 0xAB);
    OneByte(d, 5, 0xAB, 0xEC);
    OneByte(d, 6, 0xEC, 0x77);
    OneByte(d, 7, 0x77, 0x07);
    OneByte(d, 8, 0x07, 0xA1);
    assert d[..9] == d;
  }

  lemma NothingFed(d: Bytes)
    ensures Crc8(d[..0]) == 0 && Crc16(d[..0]) == 0xFFFF
  {
  }

  /** Motor 1 asked for 100 rpm with acceleration time 10 and without brake, byte for byte. */
  lemma HundredRpmFrame()
    ensures PackVelocityFrame(1, 100, 10, false) == [0x01, 0x64, 0x00, 0x64, 0x00, 0x00, 0x0A, 0x00, 0x00, 0x25]
  {
    hide Crc8;
    var d: Bytes := [0x01, 0x64, 0x00, 0x64, 0x00, 0x00, 0x0A, 0x00, 0x00];
    NothingFed(d);
    OneByte(d, 0, 0x00, 0x5E);
    OneByte(d, 1, 0x5E, 0xC0);
    OneByte(d, 2, 0xC0, 0xCA);
    OneByte(d, 3, 0xCA, 0xB0);
    OneByte(d, 4, 0xB0, 0x32);
    OneByte(d, 5, 0x32, 0x02);
    OneByte(d, 6, 0x02, 0xC2);
    OneByte(d, 7, 0xC2, 0x76);
    OneByte(d, 8, 0x76, 0x25);
    assert d[..9] == d;
  }

  function Eight16(c: bv16): bv16 {
    ShiftBit16(ShiftBit16(ShiftBit16(ShiftBit16(ShiftBit16(ShiftBit16(ShiftBit16(ShiftBit16(c))))))))
  }

  lemma Feed16IsEight(r: bv16, byte: bv8)
    ensures Feed16(r, byte) == Eight16(r ^ (byte as bv16))
  {
    hide ShiftBit16;
  }

  lemma OneByte16(d: Bytes, i: nat, r: bv16, next: bv16)
    requires i < |d| && Crc16(d[..i]) == r && Eight16(r ^ (d[i] as bv16)) == next
    ensures Crc16(d[..i + 1]) == next
  {
    hide ShiftBit16, Eight16, Feed16;
    assert d[..i + 1] == d[..i] + [d[i]];
    Crc16Append(0xFFFF, d[..i], [d[i]]);
    assert [d[i]][1..] == [];
    assert Crc16From(r, [d[i]]) == Feed16(r, d[i]);
    Feed16IsEight(r, d[i]);
  }

  /** The check value of CRC-16/MODBUS is 0x4B37. */
  lemma Crc16OfDigits()
    ensures Crc16(DIGITS) == 0x4B37
  {
    hide Crc16;
    var d := DIGITS;
    NothingFed(d);
    OneByte16(d, 0, 0xFFFF, 0x947E);
    OneByte16(d, 1, 0x947E, 0xF595);
    OneByte16(d, 2, 0xF595, 0x7A75);
    OneByte16(d, 3, 0x7A75, 0x30BA);
    OneByte16(d, 4, 0x30BA, 0xA471);
    OneByte16(d, 5, 0xA471, 0x32E4);
    OneByte16(d, 6, 0x32E4, 0x9D73);
    OneByte16(d, 7, 0x9D73, 0x37DD);
    OneByte16(d, 8, 0x37DD, 0x4B37);
    assert d[..9] == d;
  }

  /** Servo 1 told to put 2048 into register 128, byte for byte: the CRC comes low byte first. */
  lemma WriteRegisterFrame()
    ensures Command(1, 6, 128, 2048) == [0x01, 0x06, 0x00, 0x80, 0x08, 0x00, 0x8F, 0xE2]
  {
    hide Crc16;
    var d: Bytes := [0x01, 0x06, 0x00, 0x80, 0x08, 0x00];
    NothingFed(d);
    OneByte16(d, 0, 0xFFFF, 0x807E);
    OneByte16(d, 1, 0x807E, 0x2280);
    OneByte16(d, 2, 0x2280, 0xA023);
    OneByte16(d, 3, 0xA023, 0x79E0);
    OneByte16(d, 4, 0x79E0, 0x4E79);
    OneByte16(d, 5, 0x4E79, 0xE28F);
    assert d[..6] == d;
  }

  /** Servo 1 asked for register 257. */
  lemma ReadRegisterFrame()
    ensures Command(1, 3, 257, 1) == [0x01, 0x03, 0x01, 0x01, 0x00, 0x01, 0xD4, 0x36]
  {
    hide Crc16;
    var d: Bytes := [0x01, 0x03, 0x01, 0x01, 0x00, 0x01];
    NothingFed(d);
    OneByte16(d, 0, 0xFFFF, 0x807E);
    OneByte16(d, 1, 0x807E, 0x2140);
    OneByte16(d, 2, 0x2140, 0x30E1);
    OneByte16(d, 3, 0x30E1, 0x8831);
    OneByte16(d, 4, 0x8831, 0xD449);
    OneByte16(d, 5, 0xD449, 0x36D4);
    assert d[..6] == d;
  }
}
