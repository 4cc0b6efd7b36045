/** Table blocks: entries one after another, then the offsets of some of them as restart points. */
module Blocks {
  import opened Keys
  import opened Entries
  import opened Coding
  import opened Merging
  import opened BlockSearch

  function EntryBytes(e: Entry): Bytes {
    Sized(e.key) + (Fixed(e.seqno, 8) + ([e.kind] + Sized(e.value)))
  }

  function Body(es: seq<Entry>): Bytes {
    if es == [] then [] else EntryBytes(es[0]) + Body(es[1..])
  }

  /** Where entry `i` starts; `|es|` stands for the end. */
  function Offset(es: seq<Entry>, i: nat): nat
    requires i <= |es|
  {
    |Body(es[..i])|
  }

  function Words(rs: seq<nat>): (b: Bytes)
    ensures |b| == 4 * |rs|
  {
    if rs == [] then [] else Words(rs[..|rs| - 1]) + Fixed(rs[|rs| - 1], 4)
  }

  /** Restart points: the indices of some entries, the first entry among them. */
  ghost predicate Points(es: seq<Entry>, idx: seq<nat>) {
    && idx != [] && idx[0] == 0
    && (forall j :: 0 <= j < |idx| ==> idx[j] <= |es| && (es != [] ==> idx[j] < |es|))
    && forall j, k :: 0 <= j < k < |idx| ==> idx[j] < idx[k]
  }

  ghost function Offsets(es: seq<Entry>, idx: seq<nat>): (rs: seq<nat>)
    requires forall j :: 0 <= j < |idx| ==> idx[j] <= |es|
    ensures |rs| == |idx| && forall j :: 0 <= j < |idx| ==> rs[j] == Offset(es, idx[j])
  {
    seq(|idx|, j requires 0 <= j < |idx| => Offset(es, idx[j]))
  }

  /** `data` is the block of `es` with restart points `idx`. */
  ghost predicate IsBlock(data: Bytes, es: seq<Entry>, idx: seq<nat>) {
    Points(es, idx) && data == Body(es) + Words(Offsets(es, idx)) + Fixed(|idx|, 4)
  }

  /** Field widths: sequence numbers fit 64 bits, and the block its 32-bit offsets. */
  ghost predicate Fits(data: Bytes, es: seq<Entry>) {
    |data| < Pow256(4) && forall e :: e in es ==> e.seqno < Pow256(8)
  }

  // ---- Layout ----

  lemma {:induction false} EntrySize(e: Entry)
    ensures |EntryBytes(e)| == 17 + |e.key| + |e.value|
  {
    hide Fixed;
  }

  lemma {:induction false} BodyEmpty(es: seq<Entry>)
    ensures Body(es) == [] <==> es == []
  {
    hide EntryBytes;
    if es != [] { EntrySize(es[0]); }
  }

  lemma {:induction false} BodyConcat(a: seq<Entry>, b: seq<Entry>)
    ensures Body(a + b) == Body(a) + Body(b)
  {
    hide EntryBytes;
    if a == [] {
      assert a + b == b;
    } else {
      BodyConcat(a[1..], b);
      assert (a + b)[1..] == a[1..] + b;
    }
  }

  lemma {:induction false} BodyOne(e: Entry)
    ensures Body([e]) == EntryBytes(e)
  {
    hide EntryBytes;
    assert Body([e][1..]) == [];
  }

  /** The body around entry `i`. */
  lemma {:induction false} BodySplit(es: seq<Entry>, i: nat)
    requires i < |es|
    ensures Body(es) == Body(es[..i]) + EntryBytes(es[i]) + Body(es[i + 1..])
    ensures Offset(es, i + 1) == Offset(es, i) + |EntryBytes(es[i])|
  {
    hide EntryBytes, Body;
    assert es == es[..i] + ([es[i]] + es[i + 1..]) && es[..i + 1] == es[..i] + [es[i]];
    BodyConcat(es[..i], [es[i]] + es[i + 1..]);
    BodyConcat([es[i]], es[i + 1..]);
    BodyConcat(es[..i], [es[i]]);
    BodyOne(es[i]);
  }

  lemma {:induction false} OffsetsGrow(es: seq<Entry>, i: nat, j: nat)
    requires i <= j <= |es|
    ensures Offset(es, i) + 17 * (j - i) <= Offset(es, j)
    decreases j - i
  {
    hide EntryBytes, Body;
    if i < j {
      BodySplit(es, i);
      EntrySize(es[i]);
      OffsetsGrow(es, i + 1, j);
    }
  }

  lemma {:induction false} OffsetEnds(es: seq<Entry>)
    ensures Offset(es, 0) == 0 && Offset(es, |es|) == |Body(es)|
  {
    assert es[..|es|] == es;
  }

  lemma {:induction false} WordAt(rs: seq<nat>, j: nat)
    requires j < |rs|
    ensures Words(rs)[4 * j..4 * j + 4] == Fixed(rs[j], 4)
  {
    hide Fixed;
    if j < |rs| - 1 {
      WordAt(rs[..|rs| - 1], j);
    }
  }

  /** The fields of entry `i` where the iterator looks for them. */
  ghost predicate FieldsAt(data: Bytes, o: nat, e: Entry) {
    var k, v := |e.key|, |e.value|;
    && o + 17 + k + v <= |data|
    && data[o..o + 4] == Fixed(k, 4) && data[o + 4..o + 4 + k] == e.key
    && data[o + 4 + k..o + 12 + k] == Fixed(e.seqno, 8) && data[o + 12 + k] == e.kind
    && data[o + 13 + k..o + 17 + k] == Fixed(v, 4) && data[o + 17 + k..o + 17 + k + v] == e.value
  }

  lemma {:induction false} FieldsIn(pre: Bytes, e: Entry, post: Bytes)
    ensures FieldsAt(pre + EntryBytes(e) + post, |pre|, e)
  {
    hide Fixed, EntryBytes;
    var m, data := EntryBytes(e), pre + EntryBytes(e) + post;
    var o, k, v := |pre|, |e.key|, |e.value|;
    EntryParts(e);
    assert data[o..o + |m|] == m;
    Within(data, o, |m|, 0, 4);
    Within(data, o, |m|, 4, 4 + k);
    Within(data, o, |m|, 4 + k, 12 + k);
    Within(data, o, |m|, 13 + k, 17 + k);
    Within(data, o, |m|, 17 + k, 17 + k + v);
    assert data[o + 12 + k] == m[12 + k];
  }

  lemma {:induction false} EntryParts(e: Entry)
    ensures var m, k, v := EntryBytes(e), |e.key|, |e.value|;
            && |m| == 17 + k + v && m[0..4] == Fixed(k, 4) && m[4..4 + k] == e.key
            && m[4 + k..12 + k] == Fixed(e.seqno, 8) && m[12 + k] == e.kind
            && m[13 + k..17 + k] == Fixed(v, 4) && m[17 + k..17 + k + v] == e.value
  {
    hide Fixed;
    var m, k, v := EntryBytes(e), |e.key|, |e.value|;
    var a, b, c := Fixed(k, 4), Fixed(e.seqno, 8), Fixed(v, 4);
    var d, f := b + [e.kind] + c + e.value, a + e.key + b + [e.kind];
    assert m == [] + a + (e.key + d) == a + e.key + d == a + e.key + b + ([e.kind] + c + e.value);
    assert m == f + c + e.value == f + c + e.value + [];
    PartAt([], a, e.key + d);
    PartAt(a, e.key, d);
    PartAt(a + e.key, b, [e.kind] + c + e.value);
    PartAt(f, c, e.value);
    PartAt(f + c, e.value, []);
  }

  lemma {:induction false} PartAt(pre: Bytes, part: Bytes, post: Bytes)
    ensures (pre + part + post)[|pre|..|pre| + |part|] == part
  {
  }

  lemma {:induction false} Within(data: Bytes, o: nat, n: nat, a: nat, b: nat)
    requires a <= b <= n && o + n <= |data|
    ensures data[o..o + n][a..b] == data[o + a..o + b]
  {
    var x, y := data[o..o + n][a..b], data[o + a..o + b];
    assert |x| == |y| && forall i :: 0 <= i < |x| ==> x[i] == data[o + a + i] == y[i];
  }

  /** Entry `i` of a block, its size, and its restart table. */
  lemma {:induction false} BlockEntry(data: Bytes, es: seq<Entry>, idx: seq<nat>, i: nat)
    requires IsBlock(data, es, idx) && i < |es|
    ensures FieldsAt(data, Offset(es, i), es[i])
    ensures Offset(es, i + 1) == Offset(es, i) + 17 + |es[i].key| + |es[i].value| <= |Body(es)|
  {
    hide Fixed, EntryBytes, Body, Words;
    BodySplit(es, i);
    var post := Body(es[i + 1..]) + (Words(Offsets(es, idx)) + Fixed(|idx|, 4));
    assert data == Body(es[..i]) + EntryBytes(es[i]) + post;
    FieldsIn(Body(es[..i]), es[i], post);
    EntrySize(es[i]);
    OffsetsGrow(es, i + 1, |es|);
    OffsetEnds(es);
  }

  lemma {:induction false} BlockRestart(data: Bytes, es: seq<Entry>, idx: seq<nat>, j: nat)
    requires IsBlock(data, es, idx) && j < |idx| && Fits(data, es)
    ensures var ro := |Body(es)|;
            ro + 4 * j + 4 <= |data| && Value(data[ro + 4 * j..ro + 4 * j + 4]) == Offset(es, idx[j])
  {
    hide Fixed, Body, Words, Value, Pow256;
    var ro, rs := |Body(es)|, Offsets(es, idx);
    assert data[ro + 4 * j..ro + 4 * j + 4] == Words(rs)[4 * j..4 * j + 4];
    WordAt(rs, j);
    OffsetsGrow(es, idx[j], |es|);
    OffsetEnds(es);
    FixedRoundTrip(rs[j], 4);
  }

  /** The trailer tells where the restart table starts. */
  lemma {:induction false} BlockTrailer(data: Bytes, es: seq<Entry>, idx: seq<nat>)
    requires IsBlock(data, es, idx) && Fits(data, es)
    ensures |data| == |Body(es)| + 4 * |idx| + 4 && Value(data[|data| - 4..]) == |idx|
  {
    hide Fixed, Body, Words, Value, Pow256;
    assert data[|data| - 4..] == Fixed(|idx|, 4);
    FixedRoundTrip(|idx|, 4);
  }

  // ---- Building ----

  class BlockBuilder {
    const interval: nat
    var buffer: Bytes
    var restarts: seq<nat>
    var counter: nat
    ghost var es: seq<Entry>
    ghost var idx: seq<nat>

    /** `buffer` holds the entries added so far and `restarts` the offsets of every `interval`-th. */
    ghost predicate Open()
      reads this
    {
      && Points(es, idx) && Spaced(|es|, idx, interval, counter)
      && (|idx|, counter) == Restarts(|es|, interval)
      && buffer == Body(es) && restarts == Offsets(es, idx)
    }

    constructor (interval: nat)
      requires interval >= 1
      ensures Open() && es == [] && this.interval == interval
    {
      this.interval := interval;
      buffer, restarts, counter := [], [0], 0;
      es, idx := [], [0];
    }

    method Reset()
      requires interval >= 1
      modifies this
      ensures Open() && es == []
    {
      buffer, restarts, counter := [], [0], 0;
      es, idx := [], [0];
    }

    method Add(e: Entry)
      requires Open()
      modifies this
      ensures Open() && es == old(es) + [e]
    {
      hide Body, Fixed, Points, Spaced, EntryBytes, Offset;
      OffsetEnds(es);
      PointsGrow(es, e, idx, interval, counter);
      if counter >= interval {
        OffsetsPush(es, idx);
        restarts := restarts + [|buffer|];
        idx := idx + [|es|];
        counter := 0;
      }
      OffsetsStay(es, e, idx);
      BodyConcat(es, [e]);
      BodyOne(e);
      buffer := Appended(buffer, e);
      es := es + [e];
      counter := counter + 1;
    }

    predicate Empty()
      reads this
    {
      buffer == []
    }

    function CurrentSizeEstimate(): (n: nat)
      reads this
      ensures Open() ==> n == BlockSize(es, interval)
    {
      |buffer| + |restarts| * 4 + 4
    }

    /** The restart offsets, then their number. */
    method Finish() returns (data: Bytes)
      requires Open()
      modifies this`buffer
      ensures IsBlock(data, es, idx) && |data| == old(CurrentSizeEstimate()) == BlockSize(es, interval)
    {
      hide Body, Fixed, Restarts;
      for i := 0 to |restarts|
        invariant buffer == Body(es) + Words(restarts[..i])
      {
        assert restarts[..i + 1][..i] == restarts[..i];
        buffer := buffer + Fixed(restarts[i], 4);
      }
      assert restarts[..|restarts|] == restarts;
      buffer := buffer + Fixed(|restarts|, 4);
      data := buffer;
    }
  }

  /** How many restart points a block of `n` entries has, and how many entries follow the last. */
  function Restarts(n: nat, interval: nat): (nat, nat) {
    if n == 0 then (1, 0)
    else
      var (points, counter) := Restarts(n - 1, interval);
      if counter >= interval then (points + 1, 1) else (points, counter + 1)
  }

  /** The size of a finished block. */
  function BlockSize(es: seq<Entry>, interval: nat): nat {
    |Body(es)| + 4 * Restarts(|es|, interval).0 + 4
  }

  /** Restart points are `interval` entries apart, and `counter` entries have come since the last. */
  ghost predicate Spaced(n: nat, idx: seq<nat>, interval: nat, counter: nat) {
    && interval >= 1 && idx != [] && (forall j :: 0 <= j < |idx| - 1 ==> idx[j + 1] == idx[j] + interval)
    && counter == n - idx[|idx| - 1] <= interval && (n > 0 ==> counter >= 1)
  }

  /** One more entry, with a new restart point when the interval is full. */
  lemma {:induction false} PointsGrow(es: seq<Entry>, e: Entry, idx: seq<nat>, interval: nat, counter: nat)
    requires Points(es, idx) && Spaced(|es|, idx, interval, counter)
    ensures forall j :: 0 <= j < |idx| ==> idx[j] <= |es|
    ensures counter < interval ==> Points(es + [e], idx) && Spaced(|es| + 1, idx, interval, counter + 1)
    ensures counter >= interval ==> Points(es + [e], idx + [|es|]) && Spaced(|es| + 1, idx + [|es|], interval, 1)
  {
  }

  lemma {:induction false} OffsetsPush(es: seq<Entry>, idx: seq<nat>)
    requires forall j :: 0 <= j < |idx| ==> idx[j] <= |es|
    ensures Offsets(es, idx + [|es|]) == Offsets(es, idx) + [Offset(es, |es|)]
  {
    hide Body;
  }

  /** The fields of an entry at the end of a buffer. */
  method Appended(buffer: Bytes, e: Entry) returns (r: Bytes)
    ensures r == buffer + EntryBytes(e)
  {
    hide Fixed;
    r := buffer + Fixed(|e.key|, 4);
    r := r + e.key;
    r := r + Fixed(e.seqno, 8);
    r := r + [e.kind];
    r := r + Fixed(|e.value|, 4);
    r := r + e.value;
  }

  lemma {:induction false} OffsetsStay(es: seq<Entry>, e: Entry, idx: seq<nat>)
    requires forall j :: 0 <= j < |idx| ==> idx[j] <= |es|
    ensures Offsets(es + [e], idx) == Offsets(es, idx)
  {
    hide Body;
    forall j | 0 <= j < |idx| ensures Offset(es + [e], idx[j]) == Offset(es, idx[j]) {
      assert (es + [e])[..idx[j]] == es[..idx[j]];
    }
  }

  // ---- Reading ----

  /** `ParseEntryAt`: the entry at `o` and where it ends; `None` at the end of the entries and for an
      entry that would reach into the restart table. */
  function ParseAt(data: Bytes, ro: nat, o: nat): Option<(Entry, nat)>
    requires ro <= |data|
  {
    if o >= ro || o + 17 > ro then None
    else
      var klen := Value(data[o..o + 4]);
      if o + 17 + klen > ro then None
      else
        var vlen := Value(data[o + 13 + klen..o + 17 + klen]);
        if o + 17 + klen + vlen > ro then None
        else
          var key, value := data[o + 4..o + 4 + klen], data[o + 17 + klen..o + 17 + klen + vlen];
          Some((Entry(key, Value(data[o + 4 + klen..o + 12 + klen]), data[o + 12 + klen], value), o + 17 + klen + vlen))
  }

  lemma {:induction false} DecodeFields(data: Bytes, o: nat, es: seq<Entry>, i: nat)
    requires Fits(data, es) && i < |es| && FieldsAt(data, o, es[i])
    ensures var e := es[i];
            var k, v := |e.key|, |e.value|;
            && Value(data[o..o + 4]) == k && Value(data[o + 4 + k..o + 12 + k]) == e.seqno
            && Value(data[o + 13 + k..o + 17 + k]) == v
  {
    hide Value, Fixed, Pow256;
    FixedRoundTrip(|es[i].key|, 4);
    FixedRoundTrip(|es[i].value|, 4);
    FixedRoundTrip(es[i].seqno, 8);
  }

  /** Parsing at the offset of entry `i` gives that entry and the offset of the next. */
  lemma {:induction false} BlockParse(data: Bytes, es: seq<Entry>, idx: seq<nat>, i: nat)
    requires IsBlock(data, es, idx) && Fits(data, es) && i <= |es|
    ensures |Body(es)| <= |data|
    ensures ParseAt(data, |Body(es)|, Offset(es, i)) == if i < |es| then Some((es[i], Offset(es, i + 1))) else None
  {
    hide Value, Fixed, Pow256, Body, Words, Points;
    OffsetEnds(es);
    if i < |es| {
      BlockEntry(data, es, idx, i);
      DecodeFields(data, Offset(es, i), es, i);
    }
  }

  class Iter {
    const data: Bytes
    const restartsOffset: nat
    const numRestarts: nat
    ghost const es: seq<Entry>
    ghost const idx: seq<nat>
    var current: nat
    var nextOffset: nat
    var entry: Entry
    var corrupt: bool

    /** The iterator runs over the block of `es`. */
    ghost predicate Over()
    {
      IsBlock(data, es, idx) && Fits(data, es) && restartsOffset == |Body(es)| && numRestarts == |idx|
    }

    /** It stands on entry `i`; position `|es|` is the invalid one. */
    ghost predicate At(i: nat)
      reads this
    {
      && Over() && i <= |es| && current == Offset(es, i)
      && (i < |es| ==> entry == es[i] && nextOffset == Offset(es, i + 1))
    }

    /** `Block` finds the restart table from the end of its data. */
    constructor (data: Bytes, ghost es: seq<Entry>, ghost idx: seq<nat>)
      ensures this.data == data && this.es == es && this.idx == idx && restartsOffset <= |data| && !Valid()
      ensures IsBlock(data, es, idx) && Fits(data, es) ==> At(|es|)
    {
      hide Body, Value, Fixed, Words, Points;
      if IsBlock(data, es, idx) && Fits(data, es) { BlockTrailer(data, es, idx); }
      OffsetEnds(es);
      var n, offset := 0, 0;
      if |data| >= 4 {
        n := Value(data[|data| - 4..]);
        if n <= (|data| - 4) / 4 { offset := |data| - (1 + n) * 4; } else { n := 0; }
      }
      this.data, numRestarts, restartsOffset := data, n, offset;
      current, nextOffset, corrupt := offset, 0, false;
      entry := Entry([], 0, VALUE, []);
      this.es, this.idx := es, idx;
    }

    predicate Valid()
      reads this
    {
      current < restartsOffset
    }

    method GetRestartOffset(j: nat) returns (o: nat)
      requires Over() && j < numRestarts
      ensures o == Offset(es, idx[j])
    {
      hide Body, Value, Fixed, Words, Points;
      BlockRestart(data, es, idx, j);
      o := Value(data[restartsOffset + 4 * j..restartsOffset + 4 * j + 4]);
    }

    method ParseEntryAt(offset: nat)
      requires restartsOffset <= |data|
      modifies this
      ensures match ParseAt(data, restartsOffset, offset)
              case None => !Valid() && nextOffset == old(nextOffset)
                  && corrupt == (old(corrupt) || offset < restartsOffset)
              case Some((e, n)) => current == offset && entry == e && nextOffset == n && corrupt == old(corrupt)
      ensures current <= restartsOffset
    {
      hide Value;
      if offset >= restartsOffset {
        current := restartsOffset;
        return;
      }
      if offset + 17 > restartsOffset {
        corrupt, current := true, restartsOffset;
        return;
      }
      var klen := Value(data[offset..offset + 4]);
      if offset + 17 + klen > restartsOffset {
        corrupt, current := true, restartsOffset;
        return;
      }
      var key := data[offset + 4..offset + 4 + klen];
      var seqno := Value(data[offset + 4 + klen..offset + 12 + klen]);
      var kind := data[offset + 12 + klen];
      entry := Entry(key, seqno, kind, entry.value);
      var vlen := Value(data[offset + 13 + klen..offset + 17 + klen]);
      if offset + 17 + klen + vlen > restartsOffset {
        corrupt, current := true, restartsOffset;
        return;
      }
      entry := entry.(value := data[offset + 17 + klen..offset + 17 + klen + vlen]);
      current := offset;
      nextOffset := offset + 17 + klen + vlen;
    }

    /** Moves to entry `i` of the block, or past the last. */
    method Land(offset: nat, ghost i: nat)
      requires Over() && i <= |es| && offset == Offset(es, i)
      modifies this
      ensures At(i) && (i == |es| ==> nextOffset == old(nextOffset)) && corrupt == old(corrupt)
    {
      hide IsBlock, Fits, Body, ParseAt;
      OffsetEnds(es);
      BlockParse(data, es, idx, i);
      if i < |es| { OffsetsGrow(es, i, |es|); }
      ParseEntryAt(offset);
    }

    method SeekToFirst()
      requires restartsOffset <= |data|
      modifies this
      ensures Over() ==> At(0)
    {
      hide IsBlock, Fits, Body, ParseAt;
      OffsetEnds(es);
      if numRestarts == 0 {
        if Over() { HasRestart(data, es, idx); }
        current := restartsOffset;
        return;
      }
      if Over() { BlockParse(data, es, idx, 0); OffsetsGrow(es, 0, |es|); }
      ParseEntryAt(0);
    }

    method Next(ghost i: nat)
      requires At(i) && Valid()
      modifies this
      ensures At(i + 1)
    {
      hide IsBlock, Fits, Body;
      OffsetEnds(es);
      Land(nextOffset, i + 1);
    }

    /** Lands on the last entry.  A built block has a restart point, so there is a place to start. */
    method SeekToLast()
      requires Over()
      modifies this
      ensures At(if es == [] then 0 else |es| - 1)
    {
      hide Body, Words, Fits;
      OffsetEnds(es);
      var offset := GetRestartOffset(numRestarts - 1);
      ghost var i := idx[numRestarts - 1];
      while true
        invariant i <= |es| && (es != [] ==> i < |es|) && offset == Offset(es, i)
        decreases |es| - i
      {
        Land(offset, i);
        if i + 1 < |es| { OffsetsGrow(es, i + 1, |es|); }
        if nextOffset >= restartsOffset { break; }
        offset, i := nextOffset, i + 1;
      }
    }
  
    /** The key at a restart point, read straight from the bytes. */
    method RestartKey(offset: nat, ghost i: nat) returns (key: Key)
      requires Over() && i <= |es| && (es != [] ==> i < |es|) && offset == Offset(es, i)
      ensures es != [] ==> key == es[i].key
    {
      hide Body, Value, Fixed, Words, Points;
      OffsetEnds(es);
      if es == [] {
        EmptyBlock(data, es, idx);
      } else {
        BlockEntry(data, es, idx, i);
        DecodeFields(data, offset, es, i);
      }
      var klen := Value(data[offset..offset + 4]);
      key := data[offset + 4..offset + 4 + klen];
    }

    /** Lands on the first entry whose key is at or after the target: binary search over the restart
        points, then a scan. */
    method Seek(target: Key)
      requires Over() && KeysUp(es)
      modifies this
      ensures At(LowerBound(es, target))
    {
      hide Less, Body, Words, Fits, LowerBound;
      OffsetEnds(es);
      var left, right, targetRestart := 0, numRestarts - 1, 0;
      while left <= right
        invariant 0 <= left <= right + 1 <= numRestarts && 0 <= targetRestart < numRestarts
        invariant targetRestart == 0 || (es != [] && Less(es[idx[targetRestart]].key, target))
      {
        var mid := left + (right - left) / 2;
        var offset := GetRestartOffset(mid);
        var key := RestartKey(offset, idx[mid]);
        if Less(key, target) {
          targetRestart := mid;
          left := mid + 1;
        } else {
          right := mid - 1;
        }
      }
      var offset := GetRestartOffset(targetRestart);
      ghost var i := idx[targetRestart];
      BelowRestart(es, i, target);
      while offset < restartsOffset
        invariant i <= |es| && offset == Offset(es, i)
        invariant forall j :: 0 <= j < i ==> Less(es[j].key, target)
        decreases |es| - i
      {
        Land(offset, i);
        if i < |es| { OffsetsGrow(es, i, |es|); }
        if !Less(entry.key, target) {
          LowerBoundIs(es, target, i);
          return;
        }
        offset, i := nextOffset, i + 1;
      }
      if i < |es| { OffsetsGrow(es, i, |es|); }
      LowerBoundIs(es, target, i);
      current := restartsOffset;
    }

    /** Lands on the entry before the current one; before the first the iterator becomes invalid. */
    method Prev(ghost i: nat)
      requires At(i) && Valid()
      modifies this
      ensures At(if i == 0 then |es| else i - 1)
    {
      hide Less, Body, Words, Fits;
      OffsetEnds(es);
      var original := current;
      var left, right, targetRestart := 0, numRestarts - 1, 0;
      while left <= right
        invariant 0 <= left <= right + 1 <= numRestarts && 0 <= targetRestart < numRestarts
        invariant targetRestart == 0 || Offset(es, idx[targetRestart]) < original
      {
        var mid := left + (right - left) / 2;
        var o := GetRestartOffset(mid);
        if o < original {
          targetRestart := mid;
          left := mid + 1;
        } else {
          right := mid - 1;
        }
      }
      var offset := GetRestartOffset(targetRestart);
      ghost var k := idx[targetRestart];
      if offset >= original {
        OffsetsGrow(es, 0, i);
        current := restartsOffset;
        return;
      }
      OffsetOrder(es, k, i);
      while true
        invariant k < i && offset == Offset(es, k)
        decreases i - k
      {
        Land(offset, k);
        OffsetsGrow(es, k + 1, i);
        if nextOffset >= original { break; }
        offset, k := nextOffset, k + 1;
      }
    }
  }

  /** Inside the entries an offset is below the restart table. */
  lemma {:induction false} InsideIff(es: seq<Entry>, i: nat)
    requires i <= |es|
    ensures Offset(es, i) < |Body(es)| <==> i < |es|
  {
    hide Body;
    OffsetsGrow(es, i, |es|);
    OffsetEnds(es);
  }

  lemma {:induction false} BelowRestart(es: seq<Entry>, i: nat, target: Key)
    requires KeysUp(es) && i <= |es| && (i == 0 || (i < |es| && Less(es[i].key, target)))
    ensures forall j :: 0 <= j < i ==> Less(es[j].key, target)
  {
    hide Less;
  }

  lemma {:induction false} LowerBoundIs(es: seq<Entry>, target: Key, i: nat)
    requires i <= |es| && (forall j :: 0 <= j < i ==> Less(es[j].key, target))
             && (i < |es| ==> !Less(es[i].key, target))
    ensures LowerBound(es, target) == i
  {
    hide Less;
  }

  lemma {:induction false} OffsetOrder(es: seq<Entry>, k: nat, i: nat)
    requires k <= |es| && i <= |es| && Offset(es, k) < Offset(es, i)
    ensures k < i
  {
    hide Body;
    if i <= k { OffsetsGrow(es, i, k); }
  }

  /** In an empty block the only restart point is the restart table itself, which reads as length 0. */
  lemma {:induction false} EmptyBlock(data: Bytes, es: seq<Entry>, idx: seq<nat>)
    requires IsBlock(data, es, idx) && es == []
    ensures |data| >= 8 && Value(data[0..4]) == 0
  {
    hide Fixed, Value;
    var rs := Offsets(es, idx);
    WordAt(rs, 0);
    assert Body(es) == [];
    assert data[0..4] == Words(rs)[0..4];
    FixedRoundTrip(0, 4);
  }

  lemma {:induction false} HasRestart(data: Bytes, es: seq<Entry>, idx: seq<nat>)
    requires IsBlock(data, es, idx)
    ensures |idx| >= 1 && |Body(es)| <= |data|
  {
  }
}
