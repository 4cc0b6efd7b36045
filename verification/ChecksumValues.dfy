/** The checksum worked out on four bytes, and its value on the message that the standard gives. */
module ChecksumValues {
  import opened Keys
  import opened Checksums

  /** A 32-bit register, most significant byte first. */
  datatype Reg = Reg(b3: bv8, b2: bv8, b1: bv8, b0: bv8)

  function Int(b: bv8): (n: nat)
    ensures n < 256
  {
    b as nat
  }

  /** Four digits of base 256. */
  function Digits(d3: nat, d2: nat, d1: nat, d0: nat): nat {
    ((d3 * 256 + d2) * 256 + d1) * 256 + d0
  }

  function Num(r: Reg): nat {
    Digits(Int(r.b3), Int(r.b2), Int(r.b1), Int(r.b0))
  }

  // ---- Bytes ----

  lemma {:induction false} Halved(a: bv8)
    ensures Int(a >> 1) == Int(a) / 2 && Int(a & 1) == Int(a) % 2
  {
  }

  /** The lowest bit of one byte becomes the highest of the next. */
  lemma {:induction false} Carried(high: bv8, a: bv8)
    ensures Int(((high & 1) << 7) | (a >> 1)) == 128 * (Int(high) % 2) + Int(a) / 2
  {
    Halved(high);
    Halved(a);
    assert (((high & 1) << 7) | (a >> 1)) as nat == 128 * ((high & 1) as nat) + (a >> 1) as nat;
  }

  lemma {:induction false} XorShifted(a: bv8, b: bv8)
    ensures (a ^ b) >> 1 == (a >> 1) ^ (b >> 1)
    ensures Int((a ^ b) & 1) == if Int(a & 1) == Int(b & 1) then 0 else 1
  {
  }

  lemma {:induction false} XorByte(a: bv8, b: bv8)
    ensures Xor(Int(a), Int(b)) == Int(a ^ b)
    decreases Int(a) + Int(b)
  {
    hide Int;
    IsNothing(a, b);
    if Int(a) != 0 || Int(b) != 0 {
      Halved(a);
      Halved(b);
      Halved(a ^ b);
      XorShifted(a, b);
      XorByte(a >> 1, b >> 1);
      XorBits(Int(a), Int(b));
    }
  }

  lemma {:induction false} IsNothing(a: bv8, b: bv8)
    ensures Int(a) == 0 && Int(b) == 0 ==> Int(a ^ b) == 0
  {
  }

  // ---- Registers ----

  function Shifted(r: Reg): Reg {
    Reg(r.b3 >> 1, ((r.b3 & 1) << 7) | (r.b2 >> 1), ((r.b2 & 1) << 7) | (r.b1 >> 1), ((r.b1 & 1) << 7) | (r.b0 >> 1))
  }

  lemma {:induction false} HalvedDigits(d3: nat, d2: nat, d1: nat, d0: nat)
    ensures Digits(d3, d2, d1, d0) % 2 == d0 % 2
    ensures Digits(d3, d2, d1, d0) / 2 ==
            Digits(d3 / 2, 128 * (d3 % 2) + d2 / 2, 128 * (d2 % 2) + d1 / 2, 128 * (d1 % 2) + d0 / 2)
  {
    var h3, h2, h1, h0 := d3 / 2, d2 / 2, d1 / 2, d0 / 2;
    var i3, i2, i1, i0 := d3 % 2, d2 % 2, d1 % 2, d0 % 2;
    var m := ((h3 * 256 + (128 * i3 + h2)) * 256 + (128 * i2 + h1)) * 256 + (128 * i1 + h0);
    assert ((d3 * 256 + d2) * 256 + d1) * 256 + d0 == 2 * m + i0;
  }

  lemma {:induction false} ShiftedParts(r: Reg)
    ensures var s := Shifted(r);
            && Int(s.b3) == Int(r.b3) / 2
            && Int(s.b2) == 128 * (Int(r.b3) % 2) + Int(r.b2) / 2
            && Int(s.b1) == 128 * (Int(r.b2) % 2) + Int(r.b1) / 2
            && Int(s.b0) == 128 * (Int(r.b1) % 2) + Int(r.b0) / 2
  {
    hide Int;
    Halved(r.b3);
    Carried(r.b3, r.b2);
    Carried(r.b2, r.b1);
    Carried(r.b1, r.b0);
  }

  lemma {:induction false} ShiftedIs(r: Reg)
    ensures Num(Shifted(r)) == Num(r) / 2 && Num(r) % 2 == Int(r.b0 & 1)
  {
    hide Int, Shifted, Digits;
    ShiftedParts(r);
    Halved(r.b0);
    HalvedDigits(Int(r.b3), Int(r.b2), Int(r.b1), Int(r.b0));
  }

  function Mixed(r: Reg, s: Reg): Reg {
    Reg(r.b3 ^ s.b3, r.b2 ^ s.b2, r.b1 ^ s.b1, r.b0 ^ s.b0)
  }

  lemma {:induction false} MixedIs(r: Reg, s: Reg)
    ensures Xor(Num(r), Num(s)) == Num(Mixed(r, s))
  {
    hide Xor, Pow2, Int;
    Powers();
    XorByte(r.b3, s.b3);
    XorByte(r.b2, s.b2);
    XorByte(r.b1, s.b1);
    XorByte(r.b0, s.b0);
    var x, y := Int(r.b3) * 256 + Int(r.b2), Int(s.b3) * 256 + Int(s.b2);
    XorHalves(Int(r.b3), Int(s.b3), Int(r.b2), Int(s.b2), 8, 256);
    XorHalves(x, y, Int(r.b1), Int(s.b1), 8, 256);
    XorHalves(x * 256 + Int(r.b1), y * 256 + Int(s.b1), Int(r.b0), Int(s.b0), 8, 256);
  }

  // ---- The division ----

  /** The standard's polynomial, reflected. */
  const GENERATOR: Reg := Reg(0xED, 0xB8, 0x83, 0x20)

  lemma {:induction false} Generator()
    ensures Num(GENERATOR) == POLY
  {
  }

  /** One message bit. */
  function BitFed(r: Reg, bit: bv8): Reg {
    if r.b0 & 1 != bit & 1 then Mixed(GENERATOR, Shifted(r)) else Shifted(r)
  }

  lemma {:induction false} BitFedIs(r: Reg, bit: bv8)
    ensures SerialBit(Num(r), Int(bit & 1)) == Num(BitFed(r, bit))
  {
    hide Xor, Shifted, Mixed, Int, Num;
    ShiftedIs(r);
    Generator();
    MixedIs(GENERATOR, Shifted(r));
    SameBits(r.b0, bit);
  }

  lemma {:induction false} SameBits(a: bv8, b: bv8)
    ensures a & 1 == b & 1 <==> Int(a & 1) == Int(b & 1)
  {
  }

  /** The low bits of `v`, `n` of them. */
  function BitsFed(r: Reg, v: bv8, n: nat): Reg
    decreases n
  {
    if n == 0 then r else BitsFed(BitFed(r, v), v >> 1, n - 1)
  }

  lemma {:induction false} BitsFedIs(r: Reg, v: bv8, n: nat)
    ensures SerialBits(Num(r), Int(v), n) == Num(BitsFed(r, v, n))
    decreases n
  {
    hide BitFed, SerialBit, Int, Num;
    if n > 0 {
      BitFedIs(r, v);
      Halved(v);
      BitsFedIs(BitFed(r, v), v >> 1, n - 1);
    }
  }

  function ByteFed(r: Reg, v: bv8): Reg {
    BitFed(BitFed(BitFed(BitFed(BitFed(BitFed(BitFed(BitFed(
      r, v), v >> 1), v >> 2), v >> 3), v >> 4), v >> 5), v >> 6), v >> 7)
  }

  lemma {:induction false} ByteFedIs(r: Reg, v: bv8)
    ensures SerialBits(Num(r), Int(v), 8) == Num(ByteFed(r, v))
  {
    hide BitFed, Int, Num, SerialBits;
    BitsFedIs(r, v, 8);
    Twice(v);
    var r2 := BitFed(BitFed(r, v), v >> 1);
    assert BitsFed(r, v, 8) == BitsFed(r2, v >> 2, 6);
    var r4 := BitFed(BitFed(r2, v >> 2), v >> 3);
    assert BitsFed(r2, v >> 2, 6) == BitsFed(r4, v >> 4, 4);
    var r6 := BitFed(BitFed(r4, v >> 4), v >> 5);
    assert BitsFed(r4, v >> 4, 4) == BitsFed(r6, v >> 6, 2);
  }

  /** Feeding the first byte of a message takes the register from `r` to `s`. */
  lemma {:induction false} Fed(r: Reg, v: bv8, s: Reg, data: Bytes)
    requires data != [] && data[0] == Int(v) && s == ByteFed(r, v)
    ensures Serial(Num(r), data) == Serial(Num(s), data[1..])
  {
    hide ByteFed, Int, Num, SerialBits;
    ByteFedIs(r, v);
  }

  lemma {:induction false} AllFed(c: nat)
    ensures Serial(c, []) == c
  {
  }

  lemma {:induction false} Twice(v: bv8)
    ensures v >> 1 >> 1 == v >> 2 && v >> 2 >> 1 == v >> 3 && v >> 3 >> 1 == v >> 4 && v >> 4 >> 1 == v >> 5
    ensures v >> 5 >> 1 == v >> 6 && v >> 6 >> 1 == v >> 7
  {
  }

  const ALL_ONES: Reg := Reg(0xFF, 0xFF, 0xFF, 0xFF)

  /** The digits 1 to 9 in ASCII. */
  const DIGITS: Bytes := [49, 50, 51, 52, 53, 54, 55, 56, 57]

  lemma {:induction false} FirstDigits()
    ensures Serial(Num(ALL_ONES), DIGITS) == Serial(Num(Reg(0x34, 0x0A, 0xC5, 0xE3)), DIGITS[5..])
  {
    hide SerialBits, Serial, Num;
    assert DIGITS[0..] == DIGITS;
    Fed(Reg(0xFF, 0xFF, 0xFF, 0xFF), 49, Reg(0x7C, 0x23, 0x10, 0x48), DIGITS[0..]);
    Fed(Reg(0x7C, 0x23, 0x10, 0x48), 50, Reg(0xB0, 0xAC, 0xBB, 0x32), DIGITS[1..]);
    Fed(Reg(0xB0, 0xAC, 0xBB, 0x32), 51, Reg(0x77, 0xB7, 0x9C, 0x2D), DIGITS[2..]);
    Fed(Reg(0x77, 0xB7, 0x9C, 0x2D), 52, Reg(0x64, 0x1C, 0x1F, 0x5C), DIGITS[3..]);
    Fed(Reg(0x64, 0x1C, 0x1F, 0x5C), 53, Reg(0x34, 0x0A, 0xC5, 0xE3), DIGITS[4..]);
  }

  lemma {:induction false} LastDigits()
    ensures Serial(Num(Reg(0x34, 0x0A, 0xC5, 0xE3)), DIGITS[5..]) == Num(Reg(0x34, 0x0B, 0xC6, 0xD9))
  {
    hide SerialBits, Serial, Num;
    Fed(Reg(0x34, 0x0A, 0xC5, 0xE3), 54, Reg(0xF6, 0x8D, 0x2C, 0x9E), DIGITS[5..]);
    Fed(Reg(0xF6, 0x8D, 0x2C, 0x9E), 55, Reg(0xAF, 0xFC, 0x96, 0x60), DIGITS[6..]);
    Fed(Reg(0xAF, 0xFC, 0x96, 0x60), 56, Reg(0x65, 0x1F, 0x25, 0x50), DIGITS[7..]);
    Fed(Reg(0x65, 0x1F, 0x25, 0x50), 57, Reg(0x34, 0x0B, 0xC6, 0xD9), DIGITS[8..]);
    assert DIGITS[9..] == [];
    AllFed(Num(Reg(0x34, 0x0B, 0xC6, 0xD9)));
  }

  /** The check value of the standard: the checksum of the digits 1 to 9. */
  lemma {:induction false} CheckValue()
    ensures Crc([49, 50, 51, 52, 53, 54, 55, 56, 57], 0) == 0xCBF4_3926
  {
    hide Xor, Serial, Num;
    FirstDigits();
    LastDigits();
    XorZero(ONES);
    Inverted();
  }

  lemma {:induction false} Inverted()
    ensures Num(ALL_ONES) == ONES && Xor(Num(Reg(0x34, 0x0B, 0xC6, 0xD9)), ONES) == 0xCBF4_3926
  {
    hide Xor;
    MixedIs(Reg(0x34, 0x0B, 0xC6, 0xD9), ALL_ONES);
  }
}
