/** User keys: byte strings under the unsigned `memcmp` order of `Slice::compare`. */
module Keys {

  type byte = x: int | 0 <= x < 256
  type Bytes = seq<byte>
  type Key = Bytes

  /** A byte string read as the fraction 0.(a0+1)(a1+1)... in base 257.  The order of
      these fractions is the lexicographic order of the strings; see `Less`. */
  ghost function Rank(a: Bytes): (r: real)
    ensures 0.0 <= r < 1.0
    ensures a == [] <==> r == 0.0
  {
    if a == [] then 0.0 else (a[0] as real + 1.0 + Rank(a[1..])) / 257.0
  }

  /** Strict lexicographic order: bytes compare unsigned, a proper prefix comes first.
      The contract places it on the real line, so it is a strict total order. */
  predicate Less(a: Bytes, b: Bytes): (r: bool)
    ensures r <==> Rank(a) < Rank(b)
    ensures Rank(a) == Rank(b) ==> a == b
    decreases |a|
  {
    if b == [] then false
    else if a == [] then true
    else if a[0] != b[0] then a[0] < b[0]
    else
      var r := Less(a[1..], b[1..]);
      assert Rank(a) == Rank(b) ==> a == b by {
        assert a == [a[0]] + a[1..] && b == [b[0]] + b[1..];
      }
      r
  }

  predicate AtMost(a: Bytes, b: Bytes) {
    !Less(b, a)
  }

  /** Said byte by byte: the first `n` bytes agree, and then the shorter string ends or its byte is the
      smaller one. */
  predicate FirstDifference(a: Bytes, b: Bytes, n: nat) {
    && n <= |a| && n < |b| && a[..n] == b[..n]
    && (n == |a| || a[n] < b[n])
  }

  lemma {:induction false} LessIff(a: Bytes, b: Bytes)
    ensures Less(a, b) <==> exists n: nat :: FirstDifference(a, b, n)
    decreases |a|
  {
    if n: nat :| FirstDifference(a, b, n) { LessAt(a, b, n); }
    if Less(a, b) {
      var n := DifferenceOf(a, b);
      assert FirstDifference(a, b, n);
    }
  }

  lemma {:induction false} LessAt(a: Bytes, b: Bytes, n: nat)
    requires FirstDifference(a, b, n)
    ensures Less(a, b)
    decreases n
  {
    if n > 0 {
      assert a[0] == a[..n][0] == b[..n][0] == b[0];
      assert a[1..][..n - 1] == a[..n][1..] && b[1..][..n - 1] == b[..n][1..];
      LessAt(a[1..], b[1..], n - 1);
    }
  }

  lemma {:induction false} DifferenceOf(a: Bytes, b: Bytes) returns (n: nat)
    requires Less(a, b)
    ensures FirstDifference(a, b, n)
    decreases |a|
  {
    if a == [] || a[0] != b[0] {
      n := 0;
    } else {
      var m := DifferenceOf(a[1..], b[1..]);
      n := m + 1;
      assert a[..n] == [a[0]] + a[1..][..m] && b[..n] == [b[0]] + b[1..][..m];
    }
  }
}
