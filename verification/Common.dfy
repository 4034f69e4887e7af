/** Small shared vocabulary: optional values and 16-bit machine words. */
module Common {

  datatype Option<+T> = None | Some(value: T)

  /** The unsigned value of a byte. */
  function Value(b: bv8): (n: int)
    ensures 0 <= n < 256
  {
    b as int
  }

  /** The byte with the value `n`. */
  function Byte(n: int): (b: bv8)
    requires 0 <= n < 256
    ensures Value(b) == n
    decreases n
  {
    if n == 0 then 0 else
      var b := Byte(n - 1);
      NextByte(b);
      b + 1
  }

  lemma NextByte(b: bv8)
    ensures Value(b) < 255 ==> Value(b + 1) == Value(b) + 1
  {
  }

  /** The 16-bit pattern of `n`. */
  function Word(n: int): bv16
    requires 0 <= n < 65536
  {
    JoinBytes(Byte(n / 256), Byte(n % 256))
  }

  function Unsigned(w: bv16): (n: int)
    ensures 0 <= n < 65536
  {
    Value(HighByte(w)) * 256 + Value(LowByte(w))
  }

  /** The two's complement pattern of an `int16_t`. */
  function ToBits(v: int): bv16
    requires -32768 <= v < 32768
  {
    Word(if v < 0 then v + 65536 else v)
  }

  /** The `int16_t` a 16-bit pattern stands for. */
  function FromBits(w: bv16): (v: int)
    ensures -32768 <= v < 32768
  {
    if Unsigned(w) < 32768 then Unsigned(w) else Unsigned(w) - 65536
  }

  lemma WordRoundTrip(n: int)
    requires 0 <= n < 65536
    ensures Unsigned(Word(n)) == n
  {
    SplitJoin(Byte(n / 256), Byte(n % 256));
  }

  lemma BitsRoundTrip(v: int)
    requires -32768 <= v < 32768
    ensures FromBits(ToBits(v)) == v
  {
    WordRoundTrip(if v < 0 then v + 65536 else v);
  }

  /** Only the value 0 has the all-zero pattern. */
  lemma ZeroBits(v: int)
    requires -32768 <= v < 32768
    ensures ToBits(v) == 0 <==> v == 0
  {
    BitsRoundTrip(v);
    WordRoundTrip(0);
  }

  function HighByte(w: bv16): bv8 {
    ((w >> 8) & 0xFF) as bv8
  }

  function LowByte(w: bv16): bv8 {
    (w & 0xFF) as bv8
  }

  function JoinBytes(high: bv8, low: bv8): bv16 {
    ((high as bv16) << 8) | (low as bv16)
  }

  lemma JoinSplit(w: bv16)
    ensures JoinBytes(HighByte(w), LowByte(w)) == w
  {
  }

  lemma SplitJoin(high: bv8, low: bv8)
    ensures HighByte(JoinBytes(high, low)) == high
    ensures LowByte(JoinBytes(high, low)) == low
  {
  }

  function Clamp(x: int, lo: int, hi: int): (r: int)
    requires lo <= hi
    ensures lo <= r <= hi
    ensures lo <= x <= hi ==> r == x
  {
    if x < lo then lo else if x > hi then hi else x
  }

  function ClampReal(x: real, lo: real, hi: real): (r: real)
    requires lo <= hi
    ensures lo <= r <= hi
    ensures lo <= x <= hi ==> r == x
  {
    if x < lo then lo else if x > hi then hi else x
  }

  function Abs(x: int): (r: nat) {
    if x < 0 then -x else x
  }

  function AbsReal(x: real): (r: real)
    ensures r >= 0.0
  {
    if x < 0.0 then -x else x
  }

  /** A set of numbers that is not empty has a member to choose. */
  lemma SomeMember(s: set<int>)
    ensures s != {} ==> exists x :: x in s
  {
    if !exists x :: x in s {
      assert s == {};
    }
  }
}
