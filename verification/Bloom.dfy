/** The Bloom filter of a table.  The hash is any function. */
module Bloom {
  import opened Keys
  import opened Checksums

  // ---- Bits ----

  predicate BitOn(b: nat, i: nat)
    decreases i
  {
    if i == 0 then b % 2 == 1 else BitOn(b / 2, i - 1)
  }

  /** `b | (1 << i)`. */
  function SetBit(b: nat, i: nat): nat
    decreases i
  {
    if i == 0 then (if b % 2 == 1 then b else b + 1) else b % 2 + 2 * SetBit(b / 2, i - 1)
  }

  lemma {:induction false} SetBitSets(b: nat, i: nat, j: nat)
    ensures BitOn(SetBit(b, i), j) <==> i == j || BitOn(b, j)
    decreases i
  {
    if i > 0 && j > 0 { SetBitSets(b / 2, i - 1, j - 1); }
  }

  lemma {:induction false} SetBitBound(b: nat, i: nat, n: nat)
    requires b < Pow2(n) && i < n
    ensures SetBit(b, i) < Pow2(n)
    decreases i
  {
    var p := Pow2(n - 1);
    assert Pow2(n) == 2 * p;
    if i > 0 {
      SetBitBound(b / 2, i - 1, n - 1);
      assert SetBit(b, i) == b % 2 + 2 * SetBit(b / 2, i - 1);
    }
  }

  predicate BitAt(f: Bytes, p: nat)
    requires p < 8 * |f|
  {
    BitOn(f[p / 8], p % 8)
  }

  function WithBit(f: Bytes, p: nat): (r: Bytes)
    requires p < 8 * |f|
    ensures |r| == |f|
  {
    Pow2Of32();
    SetBitBound(f[p / 8], p % 8, 8);
    f[p / 8 := SetBit(f[p / 8], p % 8)]
  }

  lemma {:induction false} WithBitSets(f: Bytes, p: nat, q: nat)
    requires p < 8 * |f| && q < 8 * |f|
    ensures BitAt(WithBit(f, p), q) <==> p == q || BitAt(f, q)
  {
    hide SetBit, BitOn;
    SetBitSets(f[p / 8], p % 8, q % 8);
  }

  // ---- Probes ----

  /** The rotation that spaces the probes of a key. */
  function Delta(h: nat): nat { h / 0x2_0000 + (h % 0x2_0000) * 0x8000 }

  /** The value of `h` at probe `j`, on 32 bits. */
  function Probed(h: nat, delta: nat, j: nat): nat {
    if j == 0 then h else (Probed(h, delta, j - 1) + delta) % TWO_TO_32
  }

  function Position(hash: Bytes -> nat, key: Bytes, bits: nat, j: nat): (p: nat)
    requires bits > 0
    ensures p < bits
  {
    var h := hash(key) % TWO_TO_32;
    Probed(h, Delta(h), j) % bits
  }

  function FilterBytes(keys: nat, bitsPerKey: nat): nat {
    var bits := if keys * bitsPerKey < 64 then 64 else keys * bitsPerKey;
    (bits + 7) / 8
  }

  /** About ln 2 probes per bit per key, between 1 and 30. */
  function Probes(bitsPerKey: nat): (k: nat)
    ensures 1 <= k <= 30
  {
    var k := bitsPerKey * 69 / 100;
    if k < 1 then 1 else if k > 30 then 30 else k
  }

  /** `p` is a position of one of the first `n` keys. */
  ghost predicate Marked(hash: Bytes -> nat, keys: seq<Bytes>, n: nat, bits: nat, k: nat, p: nat)
    requires n <= |keys| && bits > 0
  {
    exists i, j :: 0 <= i < n && 0 <= j < k && Position(hash, keys[i], bits, j) == p
  }

  /** Every position of `key` is one that the keys marked. */
  ghost predicate Covered(hash: Bytes -> nat, keys: seq<Bytes>, bits: nat, k: nat, key: Bytes)
    requires bits > 0
  {
    forall j :: 0 <= j < k ==> Marked(hash, keys, |keys|, bits, k, Position(hash, key, bits, j))
  }

  /** `filter` is a bit array with exactly the positions of the keys set, and the probe count. */
  ghost predicate IsFilter(hash: Bytes -> nat, keys: seq<Bytes>, filter: Bytes) {
    && |filter| >= 2 && 1 <= filter[|filter| - 1] <= 30
    && var bits, k := 8 * (|filter| - 1), filter[|filter| - 1];
       forall p :: 0 <= p < bits ==> (BitAt(filter, p) <==> Marked(hash, keys, |keys|, bits, k, p))
  }

  // ---- Building and asking ----

  method CreateFilter(hash: Bytes -> nat, keys: seq<Bytes>, bitsPerKey: nat) returns (filter: Bytes)
    ensures IsFilter(hash, keys, filter)
    ensures |filter| == FilterBytes(|keys|, bitsPerKey) + 1 && filter[|filter| - 1] == Probes(bitsPerKey)
  {
    hide SetBit, BitOn, Position, WithBit;
    var bytes := FilterBytes(|keys|, bitsPerKey);
    var bits, k := bytes * 8, Probes(bitsPerKey);
    var bitmap: Bytes := seq(bytes, _ => 0);
    ZeroBits(bitmap);
    for i := 0 to |keys|
      invariant |bitmap| == bytes
      invariant forall p :: 0 <= p < bits ==> (BitAt(bitmap, p) <==> Marked(hash, keys, i, bits, k, p))
    {
      bitmap := MarkKey(hash, keys, i, bits, k, bitmap);
    }
    filter := bitmap + [k];
    forall p | 0 <= p < bits ensures BitAt(filter, p) <==> BitAt(bitmap, p) { assert filter[p / 8] == bitmap[p / 8]; }
  }

  lemma {:induction false} ZeroBits(f: Bytes)
    requires forall i :: 0 <= i < |f| ==> f[i] == 0
    ensures forall p :: 0 <= p < 8 * |f| ==> !BitAt(f, p)
  {
    forall p | 0 <= p < 8 * |f| ensures !BitAt(f, p) { NoBits(p % 8); }
  }

  lemma {:induction false} NoBits(i: nat)
    ensures !BitOn(0, i)
  {
    if i > 0 { NoBits(i - 1); }
  }

  /** Sets the bits of one key. */
  method MarkKey(hash: Bytes -> nat, keys: seq<Bytes>, i: nat, bits: nat, k: nat, bitmap: Bytes) returns (r: Bytes)
    requires i < |keys| && bits == 8 * |bitmap| > 0
    requires forall p :: 0 <= p < bits ==> (BitAt(bitmap, p) <==> Marked(hash, keys, i, bits, k, p))
    ensures |r| == |bitmap|
    ensures forall p :: 0 <= p < bits ==> (BitAt(r, p) <==> Marked(hash, keys, i + 1, bits, k, p))
  {
    hide SetBit, BitOn, WithBit;
    r := bitmap;
    var h := hash(keys[i]) % TWO_TO_32;
    ghost var h0 := h;
    var delta := Delta(h);
    for j := 0 to k
      invariant |r| == |bitmap| && h == Probed(h0, delta, j)
      invariant forall p :: 0 <= p < bits ==>
                  (BitAt(r, p) <==> BitAt(bitmap, p) || exists m :: 0 <= m < j && Position(hash, keys[i], bits, m) == p)
    {
      var position := h % bits;
      assert position == Position(hash, keys[i], bits, j);
      forall p | 0 <= p < bits ensures BitAt(WithBit(r, position), p) <==> position == p || BitAt(r, p) {
        WithBitSets(r, position, p);
      }
      r := WithBit(r, position);
      h := (h + delta) % TWO_TO_32;
    }
    MarkedNext(hash, keys, i, bits, k);
  }

  lemma {:induction false} MarkedNext(hash: Bytes -> nat, keys: seq<Bytes>, i: nat, bits: nat, k: nat)
    requires i < |keys| && bits > 0
    ensures forall p :: Marked(hash, keys, i + 1, bits, k, p) <==>
              Marked(hash, keys, i, bits, k, p) || exists m :: 0 <= m < k && Position(hash, keys[i], bits, m) == p
  {
    hide Position;
    forall p | Marked(hash, keys, i + 1, bits, k, p) && !Marked(hash, keys, i, bits, k, p)
      ensures exists m :: 0 <= m < k && Position(hash, keys[i], bits, m) == p
    {
      var n, j :| 0 <= n < i + 1 && 0 <= j < k && Position(hash, keys[n], bits, j) == p;
      assert n == i;
    }
    forall p | Marked(hash, keys, i, bits, k, p) ensures Marked(hash, keys, i + 1, bits, k, p) {
      var n, j :| 0 <= n < i && 0 <= j < k && Position(hash, keys[n], bits, j) == p;
    }
  }

  /** `KeyMayMatch` on a built filter: true exactly when every position of the key is marked. */
  method KeyMayMatch(hash: Bytes -> nat, key: Bytes, filter: Bytes, ghost keys: seq<Bytes>) returns (r: bool)
    ensures |filter| < 2 || filter[|filter| - 1] > 30 ==> r
    ensures IsFilter(hash, keys, filter) ==> (r <==> Covered(hash, keys, 8 * (|filter| - 1), filter[|filter| - 1], key))
  {
    hide BitOn, Marked, Delta;
    if |filter| < 2 { return true; }
    var bits, k := (|filter| - 1) * 8, filter[|filter| - 1];
    if k > 30 { return true; }
    var h := hash(key) % TWO_TO_32;
    ghost var h0 := h;
    var delta := Delta(h);
    for j := 0 to k
      invariant h == Probed(h0, delta, j)
      invariant IsFilter(hash, keys, filter) ==>
                  forall m :: 0 <= m < j ==> Marked(hash, keys, |keys|, bits, k, Position(hash, key, bits, m))
    {
      var position := h % bits;
      assert position == Position(hash, key, bits, j);
      ghost var marked := Marked(hash, keys, |keys|, bits, k, position);
      if !BitAt(filter, position) {
        assert IsFilter(hash, keys, filter) ==> !marked;
        return false;
      }
      assert IsFilter(hash, keys, filter) ==> marked;
      h := (h + delta) % TWO_TO_32;
    }
    return true;
  }

  /** No key of the build set is rejected. */
  lemma {:induction false} NoFalseNegatives(hash: Bytes -> nat, keys: seq<Bytes>, bits: nat, k: nat, key: Bytes)
    requires key in keys && bits > 0
    ensures Covered(hash, keys, bits, k, key)
  {
    hide Position;
    var i :| 0 <= i < |keys| && keys[i] == key;
    forall j | 0 <= j < k ensures Marked(hash, keys, |keys|, bits, k, Position(hash, key, bits, j)) {
      assert Position(hash, keys[i], bits, j) == Position(hash, key, bits, j);
    }
  }

  // ---- Where the probes fall ----

  /** The spacing of the probes is the hash rotated right by 17 bits. */
  lemma {:induction false} DeltaRotates(h: nat)
    requires h < TWO_TO_32
    ensures Delta(h) < TWO_TO_32 && Delta(h) % 0x8000 == h / 0x2_0000 && Delta(h) / 0x8000 == h % 0x2_0000
  {
  }

  /** Probe `j` of a key falls on its hash plus `j` times that spacing, on 32 bits, modulo the bits. */
  lemma {:induction false} PositionIs(hash: Bytes -> nat, key: Bytes, bits: nat, j: nat)
    requires bits > 0
    ensures var h := hash(key) % TWO_TO_32; Position(hash, key, bits, j) == (h + j * Delta(h)) % TWO_TO_32 % bits
  {
    hide Delta;
    var h := hash(key) % TWO_TO_32;
    ProbedIs(h, Delta(h), j);
  }

  lemma {:induction false} ProbedIs(h: nat, delta: nat, j: nat)
    requires h < TWO_TO_32
    ensures Probed(h, delta, j) == (h + j * delta) % TWO_TO_32
    decreases j
  {
    if j > 0 {
      ProbedIs(h, delta, j - 1);
      var x := h + (j - 1) * delta;
      assert h + j * delta == x + delta;
      ModAdd(x, delta);
    }
  }

  lemma {:induction false} ModAdd(x: nat, y: nat)
    ensures (x % TWO_TO_32 + y) % TWO_TO_32 == (x + y) % TWO_TO_32
  {
  }

  /** The number of probes: 0.69 per bit, rounded down, but at least 1 and at most 30. */
  lemma {:induction false} ProbesAre(bitsPerKey: nat)
    ensures var k := Probes(bitsPerKey);
            if bitsPerKey <= 2 then k == 1
            else if bitsPerKey >= 44 then k == 30
            else 100 * k <= 69 * bitsPerKey < 100 * (k + 1)
  {
  }

  /** The bit array: whole bytes for at least 64 bits and at least the bits asked for, and no more. */
  lemma {:induction false} FilterBytesAre(keys: nat, bitsPerKey: nat)
    ensures var n := FilterBytes(keys, bitsPerKey);
            n >= 8 && 8 * n >= keys * bitsPerKey && (n > 8 ==> 8 * (n - 1) < keys * bitsPerKey)
  {
  }
}
