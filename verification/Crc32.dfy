/**
 The checksum that gpt-utils takes from zlib: the reflected CRC-32 of section 5.3.2 of the UEFI
 Specification, byte by byte. The theorems about the partition tables hold for any checksum; what
 is particular to this one is that the last byte always tells.
 */
module Crc32 {
  import opened Bytes

  const POLYNOMIAL: bv32 := 0xEDB8_8320

  /** One bit of the division. */
  function Shift(c: bv32): (r: bv32) {
    if c & 1 == 1 then POLYNOMIAL ^ (c >> 1) else c >> 1
  }

  /** The table entry of a byte. */
  function Entry(b: bv32): (r: bv32) {
    Shift(Shift(Shift(Shift(Shift(Shift(Shift(Shift(b))))))))
  }

  /** One byte: the table entry of its sum with the low byte of the register, mixed with the rest. */
  function Step(c: bv32, b: bv32): (r: bv32) {
    Mix(Entry(Low(c, b)), c)
  }

  function Low(c: bv32, b: bv32): (r: bv32) {
    (c ^ b) & 0xFF
  }

  function Mix(e: bv32, c: bv32): (r: bv32) {
    e ^ (c >> 8)
  }

  /** The bits of a byte, and what they add up to. */
  function Bits(b: byte): (r: bv8) {
    if b == 0 then 0 else Push(Bits(b / 2), b % 2 == 1)
  }

  function Push(c: bv8, bit: bool): (r: bv8) {
    (c << 1) | if bit then 1 else 0
  }

  function Value(c: bv8): (v: nat) {
    At(c, 0x01, 1) + At(c, 0x02, 2) + At(c, 0x04, 4) + At(c, 0x08, 8)
    + At(c, 0x10, 16) + At(c, 0x20, 32) + At(c, 0x40, 64) + At(c, 0x80, 128)
  }

  function At(c: bv8, mask: bv8, weight: nat): (v: nat) {
    if c & mask == 0 then 0 else weight
  }

  function Wide(b: bv8): (r: bv32) {
    b as bv32
  }

  function Invert(c: bv32): (r: bv32) {
    c ^ 0xFFFF_FFFF
  }

  function Number(c: bv32): (v: u32) {
    c as int
  }

  function Word(v: u32): (c: bv32) {
    v as bv32
  }

  function Register(s: ByteString): (c: bv32) {
    if s == [] then 0xFFFF_FFFF else Step(Register(s[..|s| - 1]), Wide(Bits(s[|s| - 1])))
  }

  function Crc(s: ByteString): (v: u32) {
    Number(Invert(Register(s)))
  }

  /** The second and the last entry of zlib's table, and the checksum of no bytes. */
  lemma KnownValues()
    ensures Entry(1) == 0x7707_3096 && Entry(255) == 0x2D02_EF8D && Crc([]) == 0
  {
  }

  lemma ShiftInjective(a: bv32, b: bv32)
    requires Shift(a) == Shift(b)
    ensures a == b
  {
  }

  lemma EntryInjective(a: bv32, b: bv32)
    requires Entry(a) == Entry(b)
    ensures a == b
  {
    hide Shift;
    var a1, b1 := Shift(a), Shift(b);
    var a2, b2 := Shift(a1), Shift(b1);
    var a3, b3 := Shift(a2), Shift(b2);
    var a4, b4 := Shift(a3), Shift(b3);
    var a5, b5 := Shift(a4), Shift(b4);
    var a6, b6 := Shift(a5), Shift(b5);
    var a7, b7 := Shift(a6), Shift(b6);
    ShiftInjective(a7, b7);
    ShiftInjective(a6, b6);
    ShiftInjective(a5, b5);
    ShiftInjective(a4, b4);
    ShiftInjective(a3, b3);
    ShiftInjective(a2, b2);
    ShiftInjective(a1, b1);
    ShiftInjective(a, b);
  }

  lemma MixInjective(a: bv32, b: bv32, c: bv32)
    requires Mix(a, c) == Mix(b, c)
    ensures a == b
  {
  }

  lemma LowInjective(c: bv32, a: bv8, b: bv8)
    requires Low(c, Wide(a)) == Low(c, Wide(b))
    ensures a == b
  {
  }

  lemma InvertInjective(a: bv32, b: bv32)
    requires Invert(a) == Invert(b)
    ensures a == b
  {
  }

  lemma WordOfNumber(c: bv32)
    ensures Word(Number(c)) == c
  {
  }

  lemma ValueOfPush(c: bv8, bit: bool)
    requires Value(c) < 128
    ensures Value(Push(c, bit)) == 2 * Value(c) + if bit then 1 else 0
  {
  }

  lemma {:induction false} ValueOfBits(a: byte)
    ensures Value(Bits(a)) == a
  {
    hide Value, Push;
    if a == 0 {
      assert Value(0) == 0 by { ValueOfZero(); }
    } else {
      ValueOfBits(a / 2);
      ValueOfPush(Bits(a / 2), a % 2 == 1);
    }
  }

  lemma ValueOfZero()
    ensures Value(0) == 0
  {
  }

  lemma StepInjective(c: bv32, a: bv8, b: bv8)
    requires Step(c, Wide(a)) == Step(c, Wide(b))
    ensures a == b
  {
    hide Entry, Low, Mix, Wide;
    MixInjective(Entry(Low(c, Wide(a))), Entry(Low(c, Wide(b))), c);
    EntryInjective(Low(c, Wide(a)), Low(c, Wide(b)));
    LowInjective(c, a, b);
  }

  /** Two strings that differ in their last byte alone have different checksums. */
  lemma LastByteTells(s: ByteString, a: byte, b: byte)
    requires Crc(s + [a]) == Crc(s + [b])
    ensures a == b
  {
    hide Step, Number, Word, Invert, Bits, Wide, Value;
    assert (s + [a])[..|s|] == s && (s + [b])[..|s|] == s;
    var x, y := Register(s + [a]), Register(s + [b]);
    WordOfNumber(Invert(x));
    WordOfNumber(Invert(y));
    InvertInjective(x, y);
    StepInjective(Register(s), Bits(a), Bits(b));
    ValueOfBits(a);
    ValueOfBits(b);
  }

  /** One more byte, given by its bits. */
  lemma RegisterSnoc(s: ByteString, b: byte, bits: bv8, c: bv32, r: bv32)
    requires Register(s) == c && Value(bits) == b && Step(c, Wide(bits)) == r
    ensures Register(s + [b]) == r
  {
    hide Step, Bits, Wide, Value;
    assert (s + [b])[..|s|] == s;
    ValueOfBits(b);
    ValueInjective(bits, Bits(b));
  }

  lemma ValueInjective(a: bv8, b: bv8)
    requires Value(a) == Value(b)
    ensures a == b
  {
  }

  lemma FirstDigits()
    ensures Step(0xFFFF_FFFF, Wide(0x31)) == 0x7C23_1048 && Value(0x31) == 0x31
    ensures Step(0x7C23_1048, Wide(0x32)) == 0xB0AC_BB32 && Value(0x32) == 0x32
    ensures Step(0xB0AC_BB32, Wide(0x33)) == 0x77B7_9C2D && Value(0x33) == 0x33
    ensures Step(0x77B7_9C2D, Wide(0x34)) == 0x641C_1F5C && Value(0x34) == 0x34
    ensures Step(0x641C_1F5C, Wide(0x35)) == 0x340A_C5E3 && Value(0x35) == 0x35
  {
  }

  lemma LastDigits()
    ensures Step(0x340A_C5E3, Wide(0x36)) == 0xF68D_2C9E && Value(0x36) == 0x36
    ensures Step(0xF68D_2C9E, Wide(0x37)) == 0xAFFC_9660 && Value(0x37) == 0x37
    ensures Step(0xAFFC_9660, Wide(0x38)) == 0x651F_2550 && Value(0x38) == 0x38
    ensures Step(0x651F_2550, Wide(0x39)) == 0x340B_C6D9 && Value(0x39) == 0x39
  {
  }

  lemma InvertedCheck()
    ensures Number(Invert(0x340B_C6D9)) == 0xCBF4_3926
  {
  }

  lemma FiveDigits()
    ensures Register([0x31, 0x32, 0x33, 0x34, 0x35]) == 0x340A_C5E3
  {
    hide Step, Value, Wide;
    FirstDigits();
    RegisterSnoc([], 0x31, 0x31, 0xFFFF_FFFF, 0x7C23_1048);
    assert [] + [0x31] == [0x31];
    RegisterSnoc([0x31], 0x32, 0x32, 0x7C23_1048, 0xB0AC_BB32);
    assert [0x31] + [0x32] == [0x31, 0x32];
    RegisterSnoc([0x31, 0x32], 0x33, 0x33, 0xB0AC_BB32, 0x77B7_9C2D);
    assert [0x31, 0x32] + [0x33] == [0x31, 0x32, 0x33];
    RegisterSnoc([0x31, 0x32, 0x33], 0x34, 0x34, 0x77B7_9C2D, 0x641C_1F5C);
    assert [0x31, 0x32, 0x33] + [0x34] == [0x31, 0x32, 0x33, 0x34];
    RegisterSnoc([0x31, 0x32, 0x33, 0x34], 0x35, 0x35, 0x641C_1F5C, 0x340A_C5E3);
    assert [0x31, 0x32, 0x33, 0x34] + [0x35] == [0x31, 0x32, 0x33, 0x34, 0x35];
  }

  /** The standard check value: the checksum of the digits one to nine. */
  lemma CheckValue()
    ensures Crc([0x31, 0x32, 0x33, 0x34, 0x35, 0x36, 0x37, 0x38, 0x39]) == 0xCBF4_3926
  {
    hide Step, Value, Wide, Number, Invert;
    FiveDigits();
    LastDigits();
    InvertedCheck();
    RegisterSnoc([0x31, 0x32, 0x33, 0x34, 0x35], 0x36, 0x36, 0x340A_C5E3, 0xF68D_2C9E);
    assert [0x31, 0x32, 0x33, 0x34, 0x35] + [0x36] == [0x31, 0x32, 0x33, 0x34, 0x35, 0x36];
    RegisterSnoc([0x31, 0x32, 0x33, 0x34, 0x35, 0x36], 0x37, 0x37, 0xF68D_2C9E, 0xAFFC_9660);
    assert [0x31, 0x32, 0x33, 0x34, 0x35, 0x36] + [0x37] == [0x31, 0x32, 0x33, 0x34, 0x35, 0x36, 0x37];
    RegisterSnoc([0x31, 0x32, 0x33, 0x34, 0x35, 0x36, 0x37], 0x38, 0x38, 0xAFFC_9660, 0x651F_2550);
    assert [0x31, 0x32, 0x33, 0x34, 0x35, 0x36, 0x37] + [0x38] == [0x31, 0x32, 0x33, 0x34, 0x35, 0x36, 0x37, 0x38];
    RegisterSnoc([0x31, 0x32, 0x33, 0x34, 0x35, 0x36, 0x37, 0x38], 0x39, 0x39, 0x651F_2550, 0x340B_C6D9);
    assert [0x31, 0x32, 0x33, 0x34, 0x35, 0x36, 0x37, 0x38] + [0x39] == [0x31, 0x32, 0x33, 0x34, 0x35, 0x36, 0x37, 0x38, 0x39];
  }
}
