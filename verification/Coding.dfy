/** Fixed-width little-endian integers, and byte strings behind a 32-bit length. */
module Coding {
  import opened Keys
  import opened Entries

  function Pow256(n: nat): (p: nat)
    ensures p > 0
  {
    if n == 0 then 1 else 256 * Pow256(n - 1)
  }

  lemma {:induction false} Widths()
    ensures Pow256(4) == 0x1_0000_0000 && Pow256(8) == 0x1_0000_0000_0000_0000
  {
    assert Pow256(2) == 0x1_0000;
    assert Pow256(6) == 0x1_0000_0000_0000;
  }

  /** The low `n` bytes of `v`, least significant first.  Larger values lose their high bytes. */
  function Fixed(v: nat, n: nat): (b: Bytes)
    ensures |b| == n
  {
    if n == 0 then [] else [v % 256] + Fixed(v / 256, n - 1)
  }

  function Value(b: Bytes): nat {
    if b == [] then 0 else b[0] + 256 * Value(b[1..])
  }

  lemma {:induction false} ValueBound(b: Bytes)
    ensures Value(b) < Pow256(|b|)
  {
    if b != [] { ValueBound(b[1..]); }
  }

  /** Decoding gives back the value modulo the width, so exactly the values that fit survive. */
  lemma {:induction false} FixedRoundTrip(v: nat, n: nat)
    ensures v < Pow256(n) ==> Value(Fixed(v, n)) == v
    ensures v >= Pow256(n) ==> Value(Fixed(v, n)) != v
  {
    ValueBound(Fixed(v, n));
    if n > 0 {
      FixedRoundTrip(v / 256, n - 1);
      assert Fixed(v, n)[1..] == Fixed(v / 256, n - 1);
    }
  }

  /** Every byte string is the encoding of its value. */
  lemma {:induction false} ValueRoundTrip(b: Bytes)
    ensures Fixed(Value(b), |b|) == b
  {
    if b != [] {
      ValueRoundTrip(b[1..]);
    }
  }

  /** `EncodeFixed64`: byte `i` is the value shifted right by 8 * i bits. */
  method EncodeFixed64(value: nat) returns (buffer: Bytes)
    ensures buffer == Fixed(value, 8)
  {
    hide Fixed;
    buffer := [];
    var rest := value;
    for i := 0 to 8
      invariant buffer + Fixed(rest, 8 - i) == Fixed(value, 8)
    {
      FixedStep(buffer, rest, 8 - i);
      buffer := buffer + [rest % 256];
      rest := rest / 256;
    }
    FixedStep(buffer, rest, 0);
  }

  /** The next byte to write. */
  lemma {:induction false} FixedStep(buffer: Bytes, rest: nat, n: nat)
    ensures if n == 0 then Fixed(rest, n) == [] && buffer + [] == buffer
            else buffer + [rest % 256] + Fixed(rest / 256, n - 1) == buffer + Fixed(rest, n)
  {
  }

  /** `DecodeFixed64`: the bytes shifted into place and combined. */
  method DecodeFixed64(b: Bytes) returns (result: nat)
    requires |b| == 8
    ensures result == Value(b)
  {
    result := 0;
    var shift: nat := 1;
    for i := 0 to 8
      invariant shift == Pow256(i) && result == Value(b[..i])
    {
      ValueAppend(b[..i], b[i]);
      assert b[..i + 1] == b[..i] + [b[i]];
      result := result + b[i] * shift;
      shift := 256 * shift;
    }
    assert b[..8] == b;
  }

  lemma {:induction false} ValueAppend(b: Bytes, x: byte)
    ensures Value(b + [x]) == Value(b) + x * Pow256(|b|)
  {
    if b == [] {
      assert Value([x][1..]) == 0;
    } else {
      ValueAppend(b[1..], x);
      assert (b + [x])[1..] == b[1..] + [x];
      var p, q := Pow256(|b| - 1), Value(b[1..]);
      assert 256 * (q + x * p) == 256 * q + x * (256 * p);
    }
  }

  // ---- Reading from the front of an input ----

  function TakeFixed(n: nat, b: Bytes): Option<(nat, Bytes)> {
    if |b| < n then None else Some((Value(b[..n]), b[n..]))
  }

  function Sized(s: Bytes): Bytes { Fixed(|s|, 4) + s }

  function TakeSized(b: Bytes): Option<(Bytes, Bytes)> {
    if |b| < 4 then None
    else
      var len := Value(b[..4]);
      if |b| - 4 < len then None else Some((b[4..4 + len], b[4 + len..]))
  }

  lemma {:induction false} TakeFixedRoundTrip(v: nat, n: nat, r: Bytes)
    requires v < Pow256(n)
    ensures TakeFixed(n, Fixed(v, n) + r) == Some((v, r))
  {
    FixedRoundTrip(v, n);
    assert (Fixed(v, n) + r)[..n] == Fixed(v, n) && (Fixed(v, n) + r)[n..] == r;
  }

  lemma {:induction false} TakeSizedRoundTrip(s: Bytes, r: Bytes)
    requires |s| < Pow256(4)
    ensures TakeSized(Sized(s) + r) == Some((s, r))
  {
    hide Fixed, Value, Pow256;
    FixedRoundTrip(|s|, 4);
    var b := Sized(s) + r;
    assert b[..4] == Fixed(|s|, 4) && b[4..4 + |s|] == s && b[4 + |s|..] == r;
  }

  /** What is taken is exactly what encodes to the bytes taken. */
  lemma {:induction false} TakeFixedExact(n: nat, b: Bytes)
    requires TakeFixed(n, b).Some?
    ensures var (v, r) := TakeFixed(n, b).value; v < Pow256(n) && b == Fixed(v, n) + r
  {
    ValueRoundTrip(b[..n]);
    ValueBound(b[..n]);
  }

  lemma {:induction false} TakeSizedExact(b: Bytes)
    requires TakeSized(b).Some?
    ensures var (s, r) := TakeSized(b).value; |s| < Pow256(4) && b == Sized(s) + r
  {
    hide Fixed, Value, Pow256;
    ValueRoundTrip(b[..4]);
    ValueBound(b[..4]);
    var (s, r) := TakeSized(b).value;
    assert b == b[..4] + s + r;
  }

  /** Byte `i` is the value shifted right by 8 * i bits, cut to eight bits. */
  lemma {:induction false} FixedByte(v: nat, n: nat, i: nat)
    requires i < n
    ensures Fixed(v, n)[i] == v / Pow256(i) % 256
    decreases n
  {
    if i > 0 {
      FixedByte(v / 256, n - 1, i - 1);
      DivTwice(v, Pow256(i - 1));
    }
  }

  lemma {:induction false} DivTwice(v: nat, p: nat)
    requires p > 0
    ensures v / 256 / p == v / (256 * p)
  {
    var q, r := v / (256 * p), v % (256 * p);
    assert v == q * (256 * p) + r;
    var a, b := v / 256, v % 256;
    assert v == 256 * a + b;
    assert a == q * p + r / 256 by { assert v == 256 * (q * p) + r; }
    Quotient(a, p, q, r / 256);
  }

  lemma {:induction false} Quotient(a: nat, p: nat, q: nat, r: nat)
    requires p > 0 && a == q * p + r && r < p
    ensures a / p == q
  {
    var d := a / p;
    assert a == d * p + a % p;
    assert d < q ==> (d + 1) * p <= q * p;
    assert q < d ==> (q + 1) * p <= d * p;
  }
}
