/** Picking a compaction and running it: merge, drop superseded versions and base-level
    tombstones, split into files. */
module Compactions {
  import opened Keys
  import opened Entries
  import opened Versions
  import opened Edits
  import opened Merging

  /** `flushedBytes(es)` is what the builder has written to its file after adding `es`, and
      `fileBytes(es)` the size of the finished file, whatever the table format makes of them.
      `tableFits(es)` says that the table of `es` stays within the limits of its reader, and
      `editFits(e)` the same of the manifest record of `e`. */
  datatype Options = Options(
    maxLevel0Files: int, maxFileSize: nat,
    flushedBytes: seq<Entry> -> nat, fileBytes: seq<Entry> -> nat,
    tableFits: seq<Entry> -> bool, editFits: Edit -> bool)

  /** All of `inputs0` comes from `level`, all of `inputs1` from `level + 1`. */
  datatype Compaction = Compaction(level: nat, inputs0: seq<File>, inputs1: seq<File>)

  // ---- Picking ----

  function LevelBytes(fs: seq<File>): nat {
    if fs == [] then 0 else LevelBytes(fs[..|fs| - 1]) + fs[|fs| - 1].size
  }

  /** 1 MB for level 1, four times as much for each next level. */
  function Limit(level: nat): nat
    requires 1 <= level
  {
    if level == 1 then 0x10_0000 else 4 * Limit(level - 1)
  }

  predicate Overlaps(f: File, lo: Key, hi: Key) {
    !(Less(f.largest, lo) || Less(hi, f.smallest))
  }

  function Overlapping(fs: seq<File>, lo: Key, hi: Key): (r: seq<File>)
    ensures forall f :: f in r <==> f in fs && Overlaps(f, lo, hi)
  {
    if fs == [] then []
    else
      var r := Overlapping(fs[..|fs| - 1], lo, hi);
      var f := fs[|fs| - 1];
      assert forall g :: g in fs <==> g in fs[..|fs| - 1] || g == f;
      if Overlaps(f, lo, hi) then r + [f] else r
  }

  function Lowest(fs: seq<File>): Key
    requires fs != []
  {
    var f := fs[|fs| - 1];
    if |fs| == 1 then f.smallest
    else
      var lo := Lowest(fs[..|fs| - 1]);
      if Less(f.smallest, lo) then f.smallest else lo
  }

  function Highest(fs: seq<File>): Key
    requires fs != []
  {
    var f := fs[|fs| - 1];
    if |fs| == 1 then f.largest
    else
      var hi := Highest(fs[..|fs| - 1]);
      if Less(hi, f.largest) then f.largest else hi
  }

  /** The hull is the least range around all of the files. */
  lemma {:induction false} HullBounds(fs: seq<File>)
    requires fs != []
    ensures (forall f :: f in fs ==> AtMost(Lowest(fs), f.smallest)) && exists f :: f in fs && Lowest(fs) == f.smallest
    ensures (forall f :: f in fs ==> AtMost(f.largest, Highest(fs))) && exists f :: f in fs && Highest(fs) == f.largest
  {
    hide Less;
    var n := |fs| - 1;
    assert fs == fs[..n] + [fs[n]];
    assert forall f :: f in fs <==> f in fs[..n] || f == fs[n];
    if n == 0 {
      assert fs[0] in fs;
    } else {
      HullBounds(fs[..n]);
      var f :| f in fs[..n] && Lowest(fs[..n]) == f.smallest;
      var g :| g in fs[..n] && Highest(fs[..n]) == g.largest;
      assert f in fs && g in fs && fs[n] in fs;
    }
  }

  function WithOverlap(v: Version, level: nat, inputs0: seq<File>): Compaction
    requires level < NUM_LEVELS - 1 && inputs0 != []
  {
    Compaction(level, inputs0, Overlapping(v[level + 1], Lowest(inputs0), Highest(inputs0)))
  }

  function PickedFrom(v: Version, level: nat): Option<Compaction>
    requires 1 <= level < NUM_LEVELS
    decreases NUM_LEVELS - level
  {
    if level == NUM_LEVELS - 1 then None
    else if LevelBytes(v[level]) > Limit(level) && v[level] != [] then Some(WithOverlap(v, level, [v[level][0]]))
    else PickedFrom(v, level + 1)
  }

  /** The compaction a version asks for. */
  function Picked(opts: Options, v: Version): Option<Compaction> {
    if |v[0]| >= opts.maxLevel0Files then
      if v[0] == [] then None else Some(WithOverlap(v, 0, v[0]))
    else PickedFrom(v, 1)
  }

  /** What every picked compaction guarantees: either all of level 0 or the first file of a level,
      with exactly the files of the next level that overlap its hull. */
  ghost predicate WellPicked(v: Version, c: Compaction) {
    && c.level < NUM_LEVELS - 1
    && c.inputs0 != []
    && (if c.level == 0 then c.inputs0 == v[0] else v[c.level] != [] && c.inputs0 == [v[c.level][0]])
    && c == WithOverlap(v, c.level, c.inputs0)
  }

  lemma {:induction false} PickedFromWell(v: Version, level: nat)
    requires 1 <= level < NUM_LEVELS
    ensures PickedFrom(v, level).Some? ==> WellPicked(v, PickedFrom(v, level).value)
    decreases NUM_LEVELS - level
  {
    if level < NUM_LEVELS - 1 {
      PickedFromWell(v, level + 1);
    }
  }

  lemma {:induction false} PickedIsWell(opts: Options, v: Version)
    ensures Picked(opts, v).Some? ==> WellPicked(v, Picked(opts, v).value)
  {
    PickedFromWell(v, 1);
  }

  // ---- When a compaction is due ----

  /** The sizes of the files of a level, added up from the front. */
  function SizeSum(fs: seq<File>): nat {
    if fs == [] then 0 else fs[0].size + SizeSum(fs[1..])
  }

  lemma {:induction false} SizeSumNext(fs: seq<File>, f: File)
    ensures SizeSum(fs + [f]) == SizeSum(fs) + f.size
  {
    if fs == [] {
      assert SizeSum([f][1..]) == 0 && [] + [f] == [f];
    } else {
      SizeSumNext(fs[1..], f);
      assert (fs + [f])[1..] == fs[1..] + [f];
    }
  }

  lemma {:induction false} LevelBytesIsSum(fs: seq<File>)
    ensures LevelBytes(fs) == SizeSum(fs)
  {
    if fs != [] {
      LevelBytesIsSum(fs[..|fs| - 1]);
      SizeSumNext(fs[..|fs| - 1], fs[|fs| - 1]);
      assert fs == fs[..|fs| - 1] + [fs[|fs| - 1]];
    }
  }

  /** Level `l` is larger than it may be: more than 1 MB, 4 MB, 16 MB, 64 MB or 256 MB. */
  predicate Over(v: Version, l: nat)
    requires 1 <= l <= 5
  {
    SizeSum(v[l]) > [1048576, 4194304, 16777216, 67108864, 268435456][l - 1]
  }

  lemma {:induction false} OverIs(v: Version, l: nat)
    requires 1 <= l <= 5
    ensures Over(v, l) <==> LevelBytes(v[l]) > Limit(l) && v[l] != []
  {
    LevelBytesIsSum(v[l]);
    assert Limit(1) == 1048576 && Limit(2) == 4194304 && Limit(3) == 16777216;
    assert Limit(4) == 67108864 && Limit(5) == 268435456;
  }

  /** Which files of the next level come in: those neither below all inputs nor above all of them. */
  predicate Meets(f: File, inputs: seq<File>) {
    && (exists g :: g in inputs && !Less(f.largest, g.smallest))
    && exists g :: g in inputs && !Less(g.largest, f.smallest)
  }

  lemma {:induction false} OverlapsIs(f: File, inputs: seq<File>)
    requires inputs != []
    ensures Overlaps(f, Lowest(inputs), Highest(inputs)) <==> Meets(f, inputs)
  {
    hide Less, Lowest, Highest;
    HullBounds(inputs);
  }

  /** What is due: with too many files on level 0 all of that level, otherwise the first file of the
      least level that is over its size, otherwise nothing; and with it the files it meets. */
  ghost predicate Due(opts: Options, v: Version, r: Option<Compaction>) {
    && (|v[0]| >= opts.maxLevel0Files ==>
          if v[0] == [] then r.None? else r.Some? && r.value.level == 0 && r.value.inputs0 == v[0])
    && (|v[0]| < opts.maxLevel0Files ==>
          if r.None? then forall l :: 1 <= l <= 5 ==> !Over(v, l)
          else
            && 1 <= r.value.level <= 5 && Over(v, r.value.level)
            && (forall l :: 1 <= l < r.value.level ==> !Over(v, l))
            && v[r.value.level] != [] && r.value.inputs0 == [v[r.value.level][0]])
    && (r.Some? ==> forall f :: f in r.value.inputs1 <==> f in v[r.value.level + 1] && Meets(f, r.value.inputs0))
  }

  lemma {:induction false} DueFrom(v: Version, level: nat)
    requires 1 <= level <= 6
    ensures var r := PickedFrom(v, level);
            if r.None? then forall l :: level <= l <= 5 ==> !Over(v, l)
            else
              && level <= r.value.level <= 5 && Over(v, r.value.level)
              && (forall l :: level <= l < r.value.level ==> !Over(v, l))
              && v[r.value.level] != [] && r.value == WithOverlap(v, r.value.level, [v[r.value.level][0]])
    decreases 6 - level
  {
    hide Over, LevelBytes, Limit, Overlapping, Lowest, Highest, Less;
    if level < 6 {
      OverIs(v, level);
      DueFrom(v, level + 1);
    }
  }

  /** What is picked is what is due, and nothing else is. */
  lemma {:induction false} PickedIsDue(opts: Options, v: Version)
    ensures Due(opts, v, Picked(opts, v))
  {
    hide Over, LevelBytes, Limit, Lowest, Highest, Less, Meets, PickedFrom;
    var r := Picked(opts, v);
    DueFrom(v, 1);
    if r.Some? {
      forall f ensures f in r.value.inputs1 <==> f in v[r.value.level + 1] && Meets(f, r.value.inputs0) {
        OverlapsIs(f, r.value.inputs0);
      }
    }
  }

  /** `PickCompaction`. */
  method PickCompaction(opts: Options, v: Version) returns (r: Option<Compaction>)
    ensures r == Picked(opts, v) && Due(opts, v, r)
  {
    hide Due;
    PickedIsDue(opts, v);
    if |v[0]| >= opts.maxLevel0Files {
      if v[0] == [] { return None; }
      var inputs1 := CollectOverlap(v[0], v[1]);
      return Some(Compaction(0, v[0], inputs1));
    }
    for level := 1 to NUM_LEVELS - 1
      invariant PickedFrom(v, level) == PickedFrom(v, 1)
    {
      var total := 0;
      for i := 0 to |v[level]|
        invariant total == LevelBytes(v[level][..i])
      {
        total := total + v[level][i].size;
        assert v[level][..i + 1][..i] == v[level][..i];
      }
      assert v[level][..|v[level]|] == v[level];
      if total > Limit(level) && v[level] != [] {
        var inputs1 := CollectOverlap([v[level][0]], v[level + 1]);
        return Some(Compaction(level, [v[level][0]], inputs1));
      }
    }
    return None;
  }

  /** The hull of the inputs and the files of the next level that overlap it. */
  method CollectOverlap(inputs0: seq<File>, next: seq<File>) returns (inputs1: seq<File>)
    requires inputs0 != []
    ensures inputs1 == Overlapping(next, Lowest(inputs0), Highest(inputs0))
  {
    var lo, hi := Hull(inputs0);
    inputs1 := [];
    for i := 0 to |next|
      invariant inputs1 == Overlapping(next[..i], lo, hi)
    {
      var f := next[i];
      if !(Less(f.largest, lo) || Less(hi, f.smallest)) { inputs1 := inputs1 + [f]; }
      assert next[..i + 1][..i] == next[..i];
    }
    assert next[..|next|] == next;
  }

  lemma {:induction false} HullOne(f: File)
    ensures Lowest([f]) == f.smallest && Highest([f]) == f.largest
  {
    hide Less;
  }

  lemma {:induction false} HullNext(fs: seq<File>, f: File)
    requires fs != []
    ensures Lowest(fs + [f]) == if Less(f.smallest, Lowest(fs)) then f.smallest else Lowest(fs)
    ensures Highest(fs + [f]) == if Less(Highest(fs), f.largest) then f.largest else Highest(fs)
  {
    hide Less;
    assert (fs + [f])[..|fs|] == fs;
  }

  method Hull(inputs0: seq<File>) returns (lo: Key, hi: Key)
    requires inputs0 != []
    ensures lo == Lowest(inputs0) && hi == Highest(inputs0)
  {
    hide Less, AtMost, Lowest, Highest;
    lo, hi := inputs0[0].smallest, inputs0[0].largest;
    HullOne(inputs0[0]);
    for i := 0 to |inputs0|
      invariant i == 0 ==> lo == inputs0[0].smallest && hi == inputs0[0].largest
      invariant i > 0 ==> lo == Lowest(inputs0[..i]) && hi == Highest(inputs0[..i])
    {
      var f := inputs0[i];
      if i > 0 { HullNext(inputs0[..i], f); } else { assert inputs0[..1] == [f]; }
      assert inputs0[..i + 1] == inputs0[..i] + [f];
      if Less(f.smallest, lo) { lo := f.smallest; }
      if Less(hi, f.largest) { hi := f.largest; }
    }
    assert inputs0[..|inputs0|] == inputs0;
  }

  /** No file deeper than the output level has the key in its range. */
  ghost predicate IsBase(v: Version, level: nat, k: Key) {
    forall l, i :: level + 2 <= l < NUM_LEVELS && 0 <= i < |v[l]| ==> !InRange(v[l][i], k)
  }

  /** `IsBaseLevelForKey`. */
  method IsBaseLevelForKey(v: Version, level: nat, k: Key) returns (r: bool)
    ensures r <==> IsBase(v, level, k)
  {
    if level + 2 >= NUM_LEVELS { return true; }
    for l := level + 2 to NUM_LEVELS
      invariant forall m, i :: level + 2 <= m < l && 0 <= i < |v[m]| ==> !InRange(v[m][i], k)
    {
      for j := 0 to |v[l]|
        invariant forall i :: 0 <= i < j ==> !InRange(v[l][i], k)
      {
        if AtMost(v[l][j].smallest, k) && AtMost(k, v[l][j].largest) { return false; }
      }
    }
    return true;
  }

  // ---- Running ----

  /** The entries that are written out, given the previous key: a repeated key is superseded, and a
      tombstone at its base level is dropped. */
  ghost function Survive(v: Version, level: nat, last: Option<Key>, m: seq<Entry>): seq<Entry>
    decreases m
  {
    if m == [] then []
    else
      var rest := Survive(v, level, Some(m[0].key), m[1..]);
      if last == Some(m[0].key) || (m[0].kind == DELETION && IsBase(v, level, m[0].key)) then rest
      else [m[0]] + rest
  }

  function MakeFile(opts: Options, es: seq<Entry>, number: nat): File
    requires es != []
  {
    File(number, opts.fileBytes(es), es[0].key, es[|es| - 1].key, Some(es))
  }

  /** Cutting the output into files: a file is finished once its flushed bytes reach the limit. */
  ghost function Split(opts: Options, open: seq<Entry>, es: seq<Entry>, next: nat): seq<File>
    decreases es
  {
    if es == [] then
      if open == [] then [] else [MakeFile(opts, open, next)]
    else
      var open' := open + [es[0]];
      if opts.flushedBytes(open') >= opts.maxFileSize then
        [MakeFile(opts, open', next)] + Split(opts, [], es[1..], next + 1)
      else
        Split(opts, open', es[1..], next)
  }

  function FileChildren(fs: seq<File>): (r: seq<Child>)
    ensures |r| == |fs| && forall i :: 0 <= i < |fs| ==> r[i] == Child(Content(fs[i]), 0)
  {
    seq(|fs|, i requires 0 <= i < |fs| => Child(Content(fs[i]), 0))
  }

  ghost function MergedInputs(c: Compaction): seq<Entry> {
    Merged(FileChildren(c.inputs0 + c.inputs1))
  }

  ghost function Outputs(opts: Options, v: Version, c: Compaction, next: nat): seq<File> {
    Split(opts, [], Survive(v, c.level, None, MergedInputs(c)), next)
  }

  /** `DoCompaction` up to the edit: the files it writes and the next free file number. */
  method DoCompaction(opts: Options, v: Version, c: Compaction, next: nat) returns (outputs: seq<File>, next': nat)
    ensures outputs == Outputs(opts, v, c, next)
    ensures next' == next + |outputs|
  {
    hide Merged, Pick, Less, IsBase;
    var it := new MergingIterator(FileChildren(c.inputs0 + c.inputs1));
    it.SeekToFirst();
    assert AllAtFirst(FileChildren(c.inputs0 + c.inputs1)) == FileChildren(c.inputs0 + c.inputs1);
    var last: Option<Key> := None;
    var builder: seq<Entry> := [];
    outputs, next' := [], next;
    while it.Valid()
      invariant fresh(it) && it.Consistent()
      invariant next' == next + |outputs|
      invariant outputs + Split(opts, builder, Survive(v, c.level, last, it.Remaining()), next') ==
                Outputs(opts, v, c, next)
      decreases |it.Remaining()|
    {
      var e := it.Current();
      ghost var before := it.Remaining();
      if last != Some(e.key) {
        var base := false;
        if e.kind == DELETION { base := IsBaseLevelForKey(v, c.level, e.key); }
        if !base {
          ghost var rest := Survive(v, c.level, Some(e.key), before[1..]);
          assert Survive(v, c.level, last, before) == [e] + rest;
          builder, outputs, next' := Emit(opts, builder, e, outputs, next', rest);
        }
        last := Some(e.key);
      }
      it.Next();
    }
    if builder != [] {
      outputs := outputs + [MakeFile(opts, builder, next')];
      next' := next' + 1;
    }
  }

  /** Adding one entry to the open output file, finishing the file when it is full. */
  method Emit(opts: Options, builder: seq<Entry>, e: Entry, outputs: seq<File>, next: nat, ghost rest: seq<Entry>)
    returns (builder': seq<Entry>, outputs': seq<File>, next': nat)
    ensures outputs' + Split(opts, builder', rest, next') == outputs + Split(opts, builder, [e] + rest, next)
    ensures next' - |outputs'| == next - |outputs|
  {
    builder', outputs', next' := builder + [e], outputs, next;
    assert ([e] + rest)[1..] == rest;
    if opts.flushedBytes(builder') >= opts.maxFileSize {
      outputs' := outputs + [MakeFile(opts, builder', next)];
      next' := next + 1;
      builder' := [];
    }
  }
}
