/** CRC-32 with the reflected polynomial 0xEDB88320, on numbers read as bit strings. */
module Checksums {
  import opened Keys
  import opened Coding

  const POLY: nat := 0xEDB8_8320
  const ONES: nat := 0xFFFF_FFFF
  const TWO_TO_32: nat := 0x1_0000_0000

  // ---- Exclusive or ----

  function Xor(a: nat, b: nat): nat {
    if a == 0 && b == 0 then 0
    else (if a % 2 == b % 2 then 0 else 1) + 2 * Xor(a / 2, b / 2)
  }

  lemma {:induction false} XorBits(a: nat, b: nat)
    ensures Xor(a, b) % 2 == (if a % 2 == b % 2 then 0 else 1) && Xor(a, b) / 2 == Xor(a / 2, b / 2)
  {
  }

  lemma {:induction false} XorCommutes(a: nat, b: nat)
    ensures Xor(a, b) == Xor(b, a)
  {
    if a != 0 || b != 0 { XorCommutes(a / 2, b / 2); }
  }

  lemma {:induction false} XorAssociates(a: nat, b: nat, c: nat)
    ensures Xor(Xor(a, b), c) == Xor(a, Xor(b, c))
    decreases a + b + c
  {
    if a != 0 || b != 0 || c != 0 {
      XorAssociates(a / 2, b / 2, c / 2);
      XorBits(a, b);
      XorBits(b, c);
      XorBits(Xor(a, b), c);
      XorBits(a, Xor(b, c));
    }
  }

  lemma {:induction false} XorZero(a: nat)
    ensures Xor(a, 0) == a && Xor(0, a) == a && Xor(a, a) == 0
  {
    if a != 0 { XorZero(a / 2); }
  }

  lemma {:induction false} XorIsZero(a: nat, b: nat)
    ensures Xor(a, b) == 0 <==> a == b
  {
    if a != 0 || b != 0 { XorIsZero(a / 2, b / 2); }
  }

  /** Cancelling a common operand. */
  lemma {:induction false} XorCancels(a: nat, b: nat, c: nat)
    ensures Xor(a, c) == Xor(b, c) <==> a == b
    ensures Xor(Xor(a, c), c) == a
  {
    hide Xor;
    XorAssociates(a, c, c);
    XorAssociates(b, c, c);
    XorZero(c);
    XorZero(a);
    XorZero(b);
  }

  lemma {:induction false} XorSwaps(a: nat, b: nat, c: nat, d: nat)
    ensures Xor(Xor(a, b), Xor(c, d)) == Xor(Xor(a, c), Xor(b, d))
  {
    hide Xor;
    XorAssociates(a, b, Xor(c, d));
    XorAssociates(b, c, d);
    XorCommutes(b, c);
    XorAssociates(c, b, d);
    XorAssociates(a, c, Xor(b, d));
  }

  function Pow2(n: nat): (p: nat)
    ensures p > 0
  {
    if n == 0 then 1 else 2 * Pow2(n - 1)
  }

  lemma {:induction false} XorBound(a: nat, b: nat, n: nat)
    requires a < Pow2(n) && b < Pow2(n)
    ensures Xor(a, b) < Pow2(n)
  {
    if n > 0 && (a != 0 || b != 0) { XorBound(a / 2, b / 2, n - 1); }
  }

  lemma {:induction false} Doubled(n: nat, b: nat)
    requires n > 0
    ensures Pow2(n) * b == 2 * (Pow2(n - 1) * b)
  {
  }

  /** Operands without common bits add up. */
  lemma {:induction false} XorAdds(a: nat, b: nat, n: nat)
    requires a < Pow2(n)
    ensures Xor(a, Pow2(n) * b) == a + Pow2(n) * b
  {
    hide Xor;
    if n == 0 {
      XorZero(b);
      assert Pow2(0) * b == b;
    } else {
      XorAdds(a / 2, b, n - 1);
      var p := Pow2(n - 1) * b;
      Doubled(n, b);
      XorBits(a, 2 * p);
      assert (2 * p) % 2 == 0 && (2 * p) / 2 == p;
    }
  }

  // ---- The register ----

  /** One shift of the register. */
  function Step(c: nat): nat {
    if c % 2 == 1 then Xor(POLY, c / 2) else c / 2
  }

  function Steps(c: nat, n: nat): nat
    decreases n
  {
    if n == 0 then c else Steps(Step(c), n - 1)
  }

  lemma {:induction false} StepLinear(a: nat, b: nat)
    ensures Step(Xor(a, b)) == Xor(Step(a), Step(b))
  {
    hide Xor;
    XorBits(a, b);
    var p, q, x := if a % 2 == 1 then POLY else 0, if b % 2 == 1 then POLY else 0, Xor(a, b);
    XorZero(a / 2);
    XorZero(b / 2);
    XorZero(x / 2);
    XorZero(POLY);
    XorZero(0);
    assert Step(a) == Xor(p, a / 2) && Step(b) == Xor(q, b / 2);
    XorSwaps(p, a / 2, q, b / 2);
    assert Step(x) == Xor(Xor(p, q), x / 2);
  }

  lemma {:induction false} StepsLinear(a: nat, b: nat, n: nat)
    ensures Steps(Xor(a, b), n) == Xor(Steps(a, n), Steps(b, n))
    decreases n
  {
    hide Xor, Step;
    if n > 0 {
      StepLinear(a, b);
      StepsLinear(Step(a), Step(b), n - 1);
    }
  }

  /** Zero bits at the low end are just shifted out. */
  lemma {:induction false} StepsShift(v: nat, n: nat)
    ensures Steps(Pow2(n) * v, n) == v
  {
    hide Xor;
    if n > 0 {
      var w := Pow2(n - 1) * v;
      Doubled(n, v);
      assert Step(2 * w) == w;
      StepsShift(v, n - 1);
    }
  }

  lemma {:induction false} StepsAdd(c: nat, m: nat, n: nat)
    ensures Steps(c, m + n) == Steps(Steps(c, m), n)
    decreases m
  {
    hide Step;
    if m > 0 { StepsAdd(Step(c), m - 1, n); }
  }

  lemma {:induction false} Pow2Of32()
    ensures Pow2(31) == 0x8000_0000 && Pow2(32) == TWO_TO_32 && Pow2(8) == 256
  {
    assert Pow2(8) == 256;
    assert Pow2(16) == 0x1_0000;
    assert Pow2(24) == 0x100_0000;
    assert Pow2(31) == 0x8000_0000;
  }

  lemma {:induction false} StepBound(c: nat)
    requires c < TWO_TO_32
    ensures Step(c) < TWO_TO_32
  {
    hide Xor, Pow2;
    Pow2Of32();
    XorBound(POLY, c / 2, 32);
  }

  lemma {:induction false} StepsBound(c: nat, n: nat)
    requires c < TWO_TO_32
    ensures Steps(c, n) < TWO_TO_32
    decreases n
  {
    hide Step;
    if n > 0 {
      StepBound(c);
      StepsBound(Step(c), n - 1);
    }
  }

  /** The polynomial's top bit is set, so a shift of a 32-bit register can be undone. */
  lemma {:induction false} StepInjective(a: nat, b: nat)
    requires a < TWO_TO_32 && b < TWO_TO_32 && Step(a) == Step(b)
    ensures a == b
  {
    hide Xor, Pow2;
    var x := Xor(a, b);
    StepLinear(a, b);
    XorIsZero(Step(a), Step(b));
    Pow2Of32();
    XorBound(a, b, 32);
    XorIsZero(POLY, x / 2);
    XorIsZero(a, b);
  }

  lemma {:induction false} StepsInjective(a: nat, b: nat, n: nat)
    requires a < TWO_TO_32 && b < TWO_TO_32 && Steps(a, n) == Steps(b, n)
    ensures a == b
    decreases n
  {
    hide Step;
    if n > 0 {
      StepBound(a);
      StepBound(b);
      StepsInjective(Step(a), Step(b), n - 1);
      StepInjective(a, b);
    }
  }

  // ---- The reference: one message bit at a time ----

  /** Shifts the register by one message bit: the feedback is the register's low bit against it. */
  function SerialBit(c: nat, bit: nat): nat {
    if c % 2 != bit then Xor(POLY, c / 2) else c / 2
  }

  /** The low `n` bits of `v`, least significant first. */
  function SerialBits(c: nat, v: nat, n: nat): nat
    decreases n
  {
    if n == 0 then c else SerialBits(SerialBit(c, v % 2), v / 2, n - 1)
  }

  function Serial(c: nat, data: Bytes): nat
    decreases |data|
  {
    if data == [] then c else Serial(SerialBits(c, data[0], 8), data[1..])
  }

  /** CRC-32 of a message, continued from a seed. */
  function Crc(data: Bytes, seed: nat): nat {
    Xor(Serial(Xor(seed, ONES), data), ONES)
  }

  /** Mixing a bit in before the shift is the same as comparing it during the shift. */
  lemma {:induction false} StepMixes(c: nat, v: nat)
    ensures Step(Xor(c, v)) == Xor(SerialBit(c, v % 2), v / 2)
  {
    hide Xor;
    XorBits(c, v);
    XorAssociates(POLY, c / 2, v / 2);
  }

  lemma {:induction false} StepsMix(c: nat, v: nat, n: nat)
    requires v < Pow2(n)
    ensures Steps(Xor(c, v), n) == SerialBits(c, v, n)
    decreases n
  {
    hide Xor, Step, SerialBit;
    if n == 0 {
      XorZero(c);
    } else {
      StepMixes(c, v);
      StepsMix(SerialBit(c, v % 2), v / 2, n - 1);
    }
  }

  // ---- The table-driven form ----

  /** Bytes mixed into the register all at once, as one little-endian number. */
  lemma {:induction false} SerialIsSteps(c: nat, data: Bytes)
    ensures Serial(c, data) == Steps(Xor(c, Value(data)), 8 * |data|)
    decreases |data|
  {
    hide Xor, Step, SerialBits, Steps, Pow2;
    if data == [] {
      XorZero(c);
      assert Steps(c, 0) == c by { StepsNone(c); }
    } else {
      var b, v := data[0], Value(data[1..]);
      Pow2Of32();
      StepsMix(c, b, 8);
      SerialIsSteps(SerialBits(c, b, 8), data[1..]);
      StepsShift(v, 8);
      StepsLinear(Xor(c, b), 256 * v, 8);
      XorAssociates(c, b, 256 * v);
      XorAdds(b, v, 8);
      StepsAdd(Xor(c, Value(data)), 8, 8 * (|data| - 1));
    }
  }

  lemma {:induction false} StepsNone(c: nat)
    ensures Steps(c, 0) == c
  {
  }

  /** The table lookup is eight shifts. */
  lemma {:induction false} LookupIsSteps(c: nat, b: byte)
    ensures Xor(Steps(Xor(c, b) % 256, 8), c / 256) == SerialBits(c, b, 8)
  {
    hide Xor, Step, Steps, SerialBits, Pow2;
    Pow2Of32();
    var x := Xor(c, b);
    var hi, lo := x / 256, x % 256;
    StepsMix(c, b, 8);
    XorAdds(lo, hi, 8);
    StepsLinear(lo, 256 * hi, 8);
    StepsShift(hi, 8);
    HighByte(c, b);
  }

  lemma {:induction false} HighByte(c: nat, b: byte)
    ensures Xor(c, b) / 256 == c / 256
  {
    hide Xor, Pow2;
    Pow2Of32();
    var hi, lo := c / 256, c % 256;
    XorAdds(lo, hi, 8);
    XorCommutes(lo, 256 * hi);
    XorAssociates(256 * hi, lo, b);
    XorCommutes(256 * hi, Xor(lo, b));
    XorBound(lo, b, 8);
    XorAdds(Xor(lo, b), hi, 8);
  }

  /** `GetCrcTable`: entry `i` is `i` shifted eight times. */
  method GetCrcTable() returns (table: array<nat>)
    ensures fresh(table) && table.Length == 256
    ensures forall i :: 0 <= i < 256 ==> table[i] == Steps(i, 8)
  {
    hide Xor;
    table := new nat[256];
    for i := 0 to 256
      invariant forall k :: 0 <= k < i ==> table[k] == Steps(k, 8)
    {
      var c: nat := i;
      for j := 0 to 8
        invariant Steps(c, 8 - j) == Steps(i, 8)
      {
        c := if c % 2 == 1 then Xor(POLY, c / 2) else c / 2;
      }
      table[i] := c;
    }
  }

  lemma {:induction false} SerialNone(c: nat)
    ensures Serial(c, []) == c
  {
  }

  lemma {:induction false} SerialNext(c: nat, data: Bytes, i: nat)
    requires i < |data|
    ensures Serial(c, data[i..]) == Serial(SerialBits(c, data[i], 8), data[i + 1..])
  {
    hide SerialBits;
    assert data[i..][1..] == data[i + 1..];
  }

  /** `Crc32`: the table-driven loop computes the bit-serial CRC. */
  method Crc32(data: Bytes, seed: nat) returns (r: nat)
    requires seed < TWO_TO_32
    ensures r == Crc(data, seed)
  {
    hide Xor, Step, SerialBits, Serial;
    var table := GetCrcTable();
    var c := Xor(seed, ONES);
    assert data[0..] == data;
    for i := 0 to |data|
      invariant forall k :: 0 <= k < 256 ==> table[k] == Steps(k, 8)
      invariant Serial(c, data[i..]) == Serial(Xor(seed, ONES), data)
    {
      SerialNext(c, data, i);
      LookupIsSteps(c, data[i]);
      c := Xor(table[Xor(c, data[i]) % 256], c / 256);
    }
    assert data[|data|..] == [];
    SerialNone(c);
    r := Xor(c, ONES);
  }

  lemma {:induction false} CrcBound(data: Bytes, seed: nat)
    requires seed < TWO_TO_32
    ensures Crc(data, seed) < TWO_TO_32
  {
    hide Xor, Pow2, Serial;
    Pow2Of32();
    XorBound(seed, ONES, 32);
    SerialBound(Xor(seed, ONES), data);
    XorBound(Serial(Xor(seed, ONES), data), ONES, 32);
  }

  lemma {:induction false} SerialBound(c: nat, data: Bytes)
    requires c < TWO_TO_32
    ensures Serial(c, data) < TWO_TO_32
    decreases |data|
  {
    hide Xor, Pow2, Steps, SerialBits;
    if data != [] {
      Pow2Of32();
      StepsMix(c, data[0], 8);
      XorBound(c, data[0], 32);
      StepsBound(Xor(c, data[0]), 8);
      SerialBound(SerialBits(c, data[0], 8), data[1..]);
    }
  }

  /** The CRC of a concatenation is the CRC of the second part seeded with that of the first. */
  lemma {:induction false} CrcChains(a: Bytes, b: Bytes, seed: nat)
    ensures Crc(a + b, seed) == Crc(b, Crc(a, seed))
  {
    hide Xor, Serial;
    SerialChains(Xor(seed, ONES), a, b);
    XorCancels(Serial(Xor(seed, ONES), a), 0, ONES);
  }

  lemma {:induction false} SerialChains(c: nat, a: Bytes, b: Bytes)
    ensures Serial(c, a + b) == Serial(Serial(c, a), b)
    decreases |a|
  {
    hide SerialBits;
    if a == [] {
      assert a + b == b;
    } else {
      SerialChains(SerialBits(c, a[0], 8), a[1..], b);
      assert (a + b)[1..] == a[1..] + b;
    }
  }

  lemma {:induction false} SerialInjective(c: nat, d: nat, data: Bytes)
    requires c < TWO_TO_32 && d < TWO_TO_32 && Serial(c, data) == Serial(d, data)
    ensures c == d
    decreases |data|
  {
    hide Xor, Pow2, Steps, SerialBits;
    if data != [] {
      var b := data[0];
      Pow2Of32();
      StepsMix(c, b, 8);
      StepsMix(d, b, 8);
      XorBound(c, b, 32);
      XorBound(d, b, 32);
      StepsBound(Xor(c, b), 8);
      StepsBound(Xor(d, b), 8);
      SerialInjective(SerialBits(c, b, 8), SerialBits(d, b, 8), data[1..]);
      StepsInjective(Xor(c, b), Xor(d, b), 8);
      XorCancels(c, d, b);
    }
  }

  lemma {:induction false} ValueBelow32(b: Bytes)
    requires |b| <= 4
    ensures Value(b) < TWO_TO_32
  {
    hide Value;
    ValueBound(b);
    Pow256To4(|b|);
  }

  lemma {:induction false} Pow256To4(n: nat)
    requires n <= 4
    ensures Pow256(n) <= TWO_TO_32
  {
    assert Pow256(1) == 256;
    assert Pow256(2) == 0x1_0000;
    assert Pow256(3) == 0x100_0000;
    assert Pow256(4) == 0x1_0000_0000;
    assert n == 0 || n == 1 || n == 2 || n == 3 || n == 4;
  }

  lemma {:induction false} ValueInjective(a: Bytes, b: Bytes)
    requires |a| == |b| && Value(a) == Value(b)
    ensures a == b
  {
    ValueRoundTrip(a);
    ValueRoundTrip(b);
  }

  lemma {:induction false} BurstSeparates(c: nat, a: Bytes, b: Bytes)
    requires c < TWO_TO_32 && |a| == |b| <= 4 && Serial(c, a) == Serial(c, b)
    ensures a == b
  {
    hide Xor, Pow2, Steps, Serial, Value;
    SerialIsSteps(c, a);
    SerialIsSteps(c, b);
    ValueBelow32(a);
    ValueBelow32(b);
    Pow2Of32();
    XorBound(c, Value(a), 32);
    XorBound(c, Value(b), 32);
    StepsInjective(Xor(c, Value(a)), Xor(c, Value(b)), 8 * |a|);
    XorCommutes(c, Value(a));
    XorCommutes(c, Value(b));
    XorCancels(Value(a), Value(b), c);
    ValueInjective(a, b);
  }

  /** Messages that differ only within four adjacent bytes have different CRCs. */
  lemma {:induction false} CrcSeparates(pre: Bytes, a: Bytes, b: Bytes, post: Bytes, seed: nat)
    requires |a| == |b| <= 4 && a != b && seed < TWO_TO_32
    ensures Crc(pre + a + post, seed) != Crc(pre + b + post, seed)
  {
    hide Xor, Pow2, Serial;
    Pow2Of32();
    XorBound(seed, ONES, 32);
    var c := Serial(Xor(seed, ONES), pre);
    SerialBound(Xor(seed, ONES), pre);
    SerialChains(Xor(seed, ONES), pre + a, post);
    SerialChains(Xor(seed, ONES), pre, a);
    SerialChains(Xor(seed, ONES), pre + b, post);
    SerialChains(Xor(seed, ONES), pre, b);
    XorCancels(Serial(Serial(c, a), post), Serial(Serial(c, b), post), ONES);
    SerialBound(c, a);
    SerialBound(c, b);
    if Serial(Serial(c, a), post) == Serial(Serial(c, b), post) {
      SerialInjective(Serial(c, a), Serial(c, b), post);
      BurstSeparates(c, a, b);
    }
  }

  // ---- The standard ----

  /** The polynomial of clause 3.2.9 of IEEE 802.3 has the exponents 0, 1, 2, 4, 5, 7, 8, 10, 11, 12, 16,
      22, 23 and 26 below 32; the one in use is its reflection, in which x^e is bit 31 - e. */
  lemma {:induction false} PolyIsStandard()
    ensures POLY == Pow2(31 - 0) + Pow2(31 - 1) + Pow2(31 - 2) + Pow2(31 - 4) + Pow2(31 - 5) + Pow2(31 - 7)
                    + Pow2(31 - 8) + Pow2(31 - 10) + Pow2(31 - 11) + Pow2(31 - 12) + Pow2(31 - 16) + Pow2(31 - 22)
                    + Pow2(31 - 23) + Pow2(31 - 26)
  {
    hide Pow2;
    Powers();
  }

  lemma {:induction false} Powers()
    ensures Pow2(1) == 2 && Pow2(2) == 4 && Pow2(4) == 16 && Pow2(16) == 0x1_0000
    ensures Pow2(5) == 32 && Pow2(8) == 0x100 && Pow2(9) == 0x200 && Pow2(15) == 0x8000 && Pow2(19) == 0x8_0000
    ensures Pow2(20) == 0x10_0000 && Pow2(21) == 0x20_0000 && Pow2(23) == 0x80_0000 && Pow2(24) == 0x100_0000
    ensures Pow2(26) == 0x400_0000 && Pow2(27) == 0x800_0000 && Pow2(29) == 0x2000_0000 && Pow2(30) == 0x4000_0000
    ensures Pow2(31) == 0x8000_0000
  {
    assert Pow2(2) == 4;
    assert Pow2(4) == 16;
    assert Pow2(5) == 32;
    assert Pow2(8) == 0x100;
    assert Pow2(11) == 0x800;
    assert Pow2(13) == 0x2000;
    assert Pow2(15) == 0x8000;
    assert Pow2(17) == 0x2_0000;
    assert Pow2(19) == 0x8_0000;
    assert Pow2(21) == 0x20_0000;
    assert Pow2(23) == 0x80_0000;
    assert Pow2(25) == 0x200_0000;
    assert Pow2(27) == 0x800_0000;
    assert Pow2(29) == 0x2000_0000;
    assert Pow2(31) == 0x8000_0000;
  }

  lemma {:induction false} XorCons(u: nat, w: nat, i: nat, j: nat)
    requires i < 2 && j < 2
    ensures Xor(2 * u + i, 2 * w + j) == 2 * Xor(u, w) + (if i == j then 0 else 1)
  {
    XorBits(2 * u + i, 2 * w + j);
  }

  lemma {:induction false} TimesTwice(a: nat, p: nat)
    ensures a * (2 * p) == 2 * (a * p)
  {
  }

  lemma {:induction false} XorHalves(a: nat, b: nat, x: nat, y: nat, n: nat, p: nat)
    requires p == Pow2(n) && x < p && y < p
    ensures Xor(a * p + x, b * p + y) == Xor(a, b) * p + Xor(x, y)
    decreases n
  {
    hide Xor;
    if n > 0 {
      var q := Pow2(n - 1);
      XorHalves(a, b, x / 2, y / 2, n - 1, q);
      TimesTwice(a, q);
      TimesTwice(b, q);
      TimesTwice(Xor(a, b), q);
      var u, w, c := a * q, b * q, Xor(a, b) * q;
      XorCons(u + x / 2, w + y / 2, x % 2, y % 2);
      XorCons(x / 2, y / 2, x % 2, y % 2);
      assert a * p + x == 2 * (u + x / 2) + x % 2 && b * p + y == 2 * (w + y / 2) + y % 2;
    } else {
      XorZero(0);
    }
  }
}
