/** Without new writes, repeated compaction comes to rest. */
module CompactionTermination {
  import opened Keys
  import opened Entries
  import opened Recency
  import opened Versions
  import opened Edits
  import opened Merging
  import opened Compactions
  import opened CompactionCorrect

  /** Number of stored entries. */
  function Count(fs: seq<File>): nat {
    if fs == [] then 0 else Count(fs[..|fs| - 1]) + |Content(fs[|fs| - 1])|
  }

  /** Every entry weighs the number of levels below it. */
  function Weight(v: Version): nat {
    6 * Count(v[0]) + 5 * Count(v[1]) + 4 * Count(v[2]) + 3 * Count(v[3]) + 2 * Count(v[4]) + Count(v[5])
  }

  lemma {:induction false} CountConcat(a: seq<File>, b: seq<File>)
    ensures Count(a + b) == Count(a) + Count(b)
  {
    if b == [] {
      assert a + b == a;
    } else {
      var n := |b| - 1;
      assert (a + b)[..|a| + n] == a + b[..n];
      CountConcat(a, b[..n]);
    }
  }

  lemma {:induction false} CountIsFlatten(fs: seq<File>)
    ensures Count(fs) == |Flatten(fs)|
    decreases |fs|
  {
    if fs != [] {
      CountIsFlatten(fs[1..]);
      assert fs == [fs[0]] + fs[1..];
      CountConcat([fs[0]], fs[1..]);
      assert [fs[0]][..0] == [];
    }
  }

  lemma {:induction false} CountInsert(l: nat, f: File, fs: seq<File>)
    ensures Count(Insert(l, f, fs)) == |Content(f)| + Count(fs)
  {
    hide Less;
    CountConcat([f], fs);
    assert [f][..0] == [];
    if fs != [] && !Precedes(l, f, fs[0]) {
      CountInsert(l, f, fs[1..]);
      CountConcat([fs[0]], Insert(l, f, fs[1..]));
      CountConcat([fs[0]], fs[1..]);
      assert fs == [fs[0]] + fs[1..] && [fs[0]][..0] == [];
    }
  }

  lemma {:induction false} CountSort(l: nat, fs: seq<File>)
    ensures Count(SortFiles(l, fs)) == Count(fs)
  {
    if fs != [] {
      CountSort(l, fs[1..]);
      CountInsert(l, fs[0], SortFiles(l, fs[1..]));
      CountConcat([fs[0]], fs[1..]);
      assert fs == [fs[0]] + fs[1..] && [fs[0]][..0] == [];
    }
  }

  /** The files that overlap the hull and the files that stay make up the level. */
  lemma {:induction false} CountOverlapping(fs: seq<File>, l: nat, deleted: set<(nat, nat)>, lo: Key, hi: Key)
    requires forall f :: f in fs ==> (Overlaps(f, lo, hi) <==> (l, f.number) in deleted)
    ensures Count(Retained(fs, l, deleted)) + Count(Overlapping(fs, lo, hi)) == Count(fs)
  {
    hide Overlaps;
    if fs != [] {
      var n := |fs| - 1;
      CountOverlapping(fs[..n], l, deleted, lo, hi);
      var r, o := Retained(fs[..n], l, deleted), Overlapping(fs[..n], lo, hi);
      assert (r + [fs[n]])[..|r|] == r && (o + [fs[n]])[..|o|] == o;
      assert fs[n] in fs;
    }
  }

  lemma {:induction false} CountDrops(fs: seq<File>, l: nat, deleted: set<(nat, nat)>)
    ensures Count(Retained(fs, l, deleted)) <= Count(fs)
    ensures forall f :: f in fs && (l, f.number) in deleted ==>
            Count(Retained(fs, l, deleted)) + |Content(f)| <= Count(fs)
  {
    if fs != [] {
      var n := |fs| - 1;
      CountDrops(fs[..n], l, deleted);
      var r := Retained(fs[..n], l, deleted);
      assert (r + [fs[n]])[..|r|] == r;
      forall f | f in fs && (l, f.number) in deleted
        ensures Count(Retained(fs, l, deleted)) + |Content(f)| <= Count(fs)
      {
        if f != fs[n] { assert f in fs[..n]; }
      }
    }
  }

  lemma {:induction false} SurviveShrinks(v: Version, level: nat, last: Option<Key>, m: seq<Entry>)
    ensures |Survive(v, level, last, m)| <= |m|
    decreases m
  {
    hide IsBase;
    if m != [] {
      SurviveShrinks(v, level, Some(m[0].key), m[1..]);
    }
  }

  lemma {:induction false} MergedLength(cs: seq<Child>)
    ensures |Merged(cs)| == Left(cs)
    decreases Left(cs)
  {
    hide Pick, Smaller;
    var m := Pick(cs);
    MergedStep(cs, m);
    if m >= 0 {
      LeftAdvanced(cs, m);
      MergedLength(cs[m := cs[m].Advanced()]);
    } else {
      NoneLeft(cs);
    }
  }

  lemma {:induction false} NoneLeft(cs: seq<Child>)
    requires forall i :: 0 <= i < |cs| ==> !cs[i].Valid()
    ensures Left(cs) == 0
  {
    if cs != [] {
      NoneLeft(cs[1..]);
    }
  }

  lemma {:induction false} LeftIsCount(fs: seq<File>)
    ensures Left(FileChildren(fs)) == Count(fs)
    decreases |fs|
  {
    if fs != [] {
      LeftIsCount(fs[1..]);
      assert FileChildren(fs)[1..] == FileChildren(fs[1..]);
      assert fs == [fs[0]] + fs[1..] && [fs[0]][..0] == [];
      CountConcat([fs[0]], fs[1..]);
      assert FileChildren(fs)[0].Rest() == Content(fs[0]);
    }
  }

  lemma {:induction false} OutputsShrink(opts: Options, v: Version, c: Compaction, next: nat)
    ensures Count(Outputs(opts, v, c, next)) <= Count(c.inputs0) + Count(c.inputs1)
  {
    hide Survive, Split, Flatten, Count, Merged, Left;
    var m := MergedInputs(c);
    var es := Survive(v, c.level, None, m);
    SurviveShrinks(v, c.level, None, m);
    MergedLength(FileChildren(c.inputs0 + c.inputs1));
    LeftIsCount(c.inputs0 + c.inputs1);
    CountConcat(c.inputs0, c.inputs1);
    SplitParts(opts, [], es, next);
    assert [] + es == es;
    CountIsFlatten(Outputs(opts, v, c, next));
  }

  /** How the input level and the output level change. */
  lemma {:induction false} InputCount(opts: Options, v: Version, c: Compaction, next: nat)
    requires ValidVersion(v) && WellPicked(v, c)
    ensures Count(Compacted(opts, v, c, next)[c.level]) + Count(c.inputs0) <= Count(v[c.level])
  {
    hide Less, Outputs, Flatten, ValidVersion, Retained, SortFiles, AddedAt, WithOverlap, Count;
    var e, l := CompactionEdit(c, Outputs(opts, v, c, next)), c.level;
    AddedNone(e.added, l);
    var kept := Retained(v[l], l, e.deleted);
    assert kept + [] == kept;
    CountSort(l, kept);
    CountDrops(v[l], l, e.deleted);
    if l == 0 {
      NoneRetained(v[0], 0, e.deleted);
      CountEmpty();
    } else {
      CountOne(v[l][0]);
      assert v[l][0] in v[l];
    }
  }

  lemma {:induction false} NoneRetained(fs: seq<File>, l: nat, deleted: set<(nat, nat)>)
    requires forall f: File :: f in fs ==> (l, f.number) in deleted
    ensures Retained(fs, l, deleted) == []
  {
    if fs != [] {
      NoneRetained(fs[..|fs| - 1], l, deleted);
      assert fs[|fs| - 1] in fs;
    }
  }

  lemma {:induction false} CountEmpty()
    ensures Count([]) == 0
  {
  }

  lemma {:induction false} CountOne(f: File)
    ensures Count([f]) == |Content(f)|
  {
    assert [f][..0] == [];
  }

  lemma {:induction false} OutputCount(opts: Options, v: Version, c: Compaction, next: nat)
    requires ValidVersion(v) && WellPicked(v, c)
    ensures Count(Compacted(opts, v, c, next)[c.level + 1]) + Count(c.inputs1) ==
            Count(v[c.level + 1]) + Count(Outputs(opts, v, c, next))
  {
    hide Less, Outputs, Flatten, ValidVersion, Retained, SortFiles, Count, Lowest, Highest, Overlapping;
    var l, outs := c.level + 1, Outputs(opts, v, c, next);
    OutputLevelIs(opts, v, c, next);
    CountSort(l, Untouched(v, c) + outs);
    CountConcat(Untouched(v, c), outs);
    UntouchedFiles(v, c);
    CountOverlapping(v[l], l, CompactionEdit(c, []).deleted, Lowest(c.inputs0), Highest(c.inputs0));
  }

  /** Every picked compaction makes the version lighter, or empties level 0 of empty files. */
  lemma {:induction false} CompactionLightens(opts: Options, v: Version, c: Compaction, next: nat)
    requires ValidVersion(v) && WellPicked(v, c)
    ensures var v' := Compacted(opts, v, c, next);
            Weight(v') < Weight(v) || (Weight(v') == Weight(v) && |v'[0]| < |v[0]|)
  {
    hide Less, Outputs, Flatten, ValidVersion, Compacted, Count, WithOverlap;
    var v', l := Compacted(opts, v, c, next), c.level;
    InputCount(opts, v, c, next);
    OutputCount(opts, v, c, next);
    OutputsShrink(opts, v, c, next);
    SameElsewhere(opts, v, c, next);
    if l > 0 {
      FirstNotEmpty(v, l);
      CountOne(v[l][0]);
    } else {
      Level0After(opts, v, c, next);
    }
  }

  lemma {:induction false} FirstNotEmpty(v: Version, l: nat)
    requires ValidVersion(v) && 1 <= l < NUM_LEVELS && v[l] != []
    ensures Content(v[l][0]) != []
  {
    hide ValidFile, Disjoint;
    assert ValidLevel(v[l]) && v[l][0] in v[l];
  }

  /** Compacting as long as something is picked, under whatever lies above the version. */
  ghost function Settle(above: Stack, opts: Options, v: Version, next: nat, h: seq<Entry>): (r: Version)
    requires ValidVersion(v) && NumbersBelow(v, next) && Represents(above + StackOf(v), h)
    ensures Picked(opts, r).None?
    ensures ValidVersion(r) && Represents(above + StackOf(r), h)
    decreases Weight(v), |v[0]|
  {
    if Picked(opts, v).None? then v
    else
      var c := Picked(opts, v).value;
      PickedIsWell(opts, v);
      SettleStep(above, opts, v, c, next, h);
      Settle(above, opts, Compacted(opts, v, c, next), next + |Outputs(opts, v, c, next)|, h)
  }

  lemma {:induction false} SettleStep(above: Stack, opts: Options, v: Version, c: Compaction, next: nat, h: seq<Entry>)
    requires ValidVersion(v) && NumbersBelow(v, next) && WellPicked(v, c) && Represents(above + StackOf(v), h)
    ensures var v' := Compacted(opts, v, c, next);
            && ValidVersion(v') && NumbersBelow(v', next + |Outputs(opts, v, c, next)|)
            && Represents(above + StackOf(v'), h)
            && (Weight(v') < Weight(v) || (Weight(v') == Weight(v) && |v'[0]| < |v[0]|))
  {
    hide ValidVersion, NumbersBelow, Represents, Compacted, Outputs, StackOf, Flatten, WellPicked, Agree, Weight;
    CompactionKeepsMeaning(above, opts, v, c, next, h);
    CompactionKeepsValid(opts, v, c, next);
    CompactionLightens(opts, v, c, next);
  }
}
