/** A picked compaction leaves a valid version with the same meaning. */
module CompactionCorrect {
  import opened Keys
  import opened Entries
  import opened Recency
  import opened Versions
  import opened Edits
  import opened Merging
  import opened CompactionMeaning
  import opened Compactions

  // ---- What survives ----

  /** Entries with equal key and sequence number are equal. */
  ghost predicate Agree(m: seq<Entry>) {
    forall e, f :: e in m && f in m && e.key == f.key && e.seqno == f.seqno ==> e == f
  }

  ghost predicate AtOrAfter(last: Option<Key>, m: seq<Entry>) {
    last.Some? ==> forall e :: e in m ==> AtMost(last.value, e.key)
  }

  lemma {:induction false} AscendingTail(m: seq<Entry>)
    requires m != [] && Ascending(m)
    ensures Ascending(m[1..]) && AtOrAfter(Some(m[0].key), m[1..])
    ensures forall e :: e in m[1..] && e.key == m[0].key ==> e.seqno <= m[0].seqno
  {
    hide Less;
    forall e | e in m[1..] ensures AtMost(m[0].key, e.key) && (e.key == m[0].key ==> e.seqno <= m[0].seqno) {
      var i :| 0 <= i < |m[1..]| && m[1..][i] == e;
      assert !Smaller(m[i + 1], m[0]);
    }
  }

  /** Exactly the newest entry of each key is written, unless it is a tombstone at its base level. */
  lemma {:induction false} SurviveMember(v: Version, level: nat, last: Option<Key>, m: seq<Entry>, e: Entry)
    requires Ascending(m) && Agree(m) && AtOrAfter(last, m)
    ensures e in Survive(v, level, last, m) <==>
            && e in m && NewestIn(m, e) && last != Some(e.key)
            && !(e.kind == DELETION && IsBase(v, level, e.key))
    decreases m
  {
    hide Less, IsBase;
    if m != [] {
      var x, rest := m[0], m[1..];
      AscendingTail(m);
      SurviveMember(v, level, Some(x.key), rest, e);
      assert forall f :: f in m <==> f == x || f in rest;
      if e.key == x.key {
        assert NewestIn(m, e) && e in m <==> e == x;
      } else if e in rest {
        assert last != Some(e.key);
        assert NewestIn(m, e) <==> NewestIn(rest, e);
      }
    }
  }

  ghost predicate KeysIncrease(es: seq<Entry>) {
    forall i, j :: 0 <= i < j < |es| ==> Less(es[i].key, es[j].key)
  }

  lemma {:induction false} SurviveIncreases(v: Version, level: nat, last: Option<Key>, m: seq<Entry>)
    requires Ascending(m) && Agree(m) && AtOrAfter(last, m)
    ensures KeysIncrease(Survive(v, level, last, m))
    decreases m
  {
    hide Less, IsBase;
    if m != [] {
      AscendingTail(m);
      SurviveIncreases(v, level, Some(m[0].key), m[1..]);
      forall e | e in Survive(v, level, Some(m[0].key), m[1..]) ensures Less(m[0].key, e.key) {
        SurviveMember(v, level, Some(m[0].key), m[1..], e);
      }
    }
  }

  // ---- How it is cut into files ----

  ghost predicate WellMade(f: File) {
    f.reader.Some? && Content(f) != [] && f.smallest == Content(f)[0].key
        && f.largest == Content(f)[|Content(f)| - 1].key
  }

  /** Cutting loses nothing, and the files are numbered from `next` on. */
  lemma {:induction false} SplitParts(opts: Options, open: seq<Entry>, es: seq<Entry>, next: nat)
    ensures var fs := Split(opts, open, es, next);
            && Flatten(fs) == open + es
            && forall i :: 0 <= i < |fs| ==> WellMade(fs[i]) && fs[i].number == next + i
    decreases es
  {
    if es != [] {
      var open' := open + [es[0]];
      assert open' + es[1..] == open + es;
      var fs := Split(opts, open, es, next);
      if opts.flushedBytes(open') >= opts.maxFileSize {
        SplitParts(opts, [], es[1..], next + 1);
        assert fs[1..] == Split(opts, [], es[1..], next + 1);
        assert [] + es[1..] == es[1..];
      } else {
        SplitParts(opts, open', es[1..], next);
      }
    } else if open != [] {
      var f := MakeFile(opts, open, next);
      assert Flatten([f]) == Content(f) + Flatten([f][1..]);
    }
  }

  /** Every file records the size of the table of its entries, and their first and last key. */
  lemma {:induction false} SplitSized(opts: Options, open: seq<Entry>, es: seq<Entry>, next: nat)
    ensures forall f :: f in Split(opts, open, es, next) ==> WellMade(f) && f.size == opts.fileBytes(Content(f))
    decreases es
  {
    if es != [] {
      var open' := open + [es[0]];
      if opts.flushedBytes(open') >= opts.maxFileSize {
        SplitSized(opts, [], es[1..], next + 1);
      } else {
        SplitSized(opts, open', es[1..], next);
      }
    }
  }

  lemma {:induction false} OutputsSized(opts: Options, v: Version, c: Compaction, next: nat)
    ensures forall f :: f in Outputs(opts, v, c, next) ==> WellMade(f) && f.size == opts.fileBytes(Content(f))
  {
    hide Split, Survive, MergedInputs, WellMade;
    SplitSized(opts, [], Survive(v, c.level, None, MergedInputs(c)), next);
  }

  /** The open file has not reached the limit at any point. */
  ghost predicate StillOpen(opts: Options, open: seq<Entry>) {
    forall n :: 0 < n <= |open| ==> opts.flushedBytes(open[..n]) < opts.maxFileSize
  }

  /** Every file but the last has reached the limit, and none had reached it before its last entry. */
  ghost predicate CutAtLimit(opts: Options, fs: seq<File>) {
    && (forall i :: 0 <= i < |fs| - 1 ==> opts.flushedBytes(Content(fs[i])) >= opts.maxFileSize)
    && forall i, n :: 0 <= i < |fs| && 0 < n < |Content(fs[i])| ==>
         opts.flushedBytes(Content(fs[i])[..n]) < opts.maxFileSize
  }

  lemma {:induction false} SplitCuts(opts: Options, open: seq<Entry>, es: seq<Entry>, next: nat)
    requires StillOpen(opts, open)
    ensures CutAtLimit(opts, Split(opts, open, es, next))
    decreases es
  {
    if es != [] {
      var open' := open + [es[0]];
      assert forall n :: 0 < n <= |open| ==> open'[..n] == open[..n];
      assert open'[..|open'|] == open';
      if opts.flushedBytes(open') >= opts.maxFileSize {
        SplitCuts(opts, [], es[1..], next + 1);
      } else {
        SplitCuts(opts, open', es[1..], next);
      }
    }
  }

  /** Where the outputs of a compaction end. */
  lemma {:induction false} OutputsCut(opts: Options, v: Version, c: Compaction, next: nat)
    ensures CutAtLimit(opts, Outputs(opts, v, c, next))
  {
    hide Split, Survive, MergedInputs;
    SplitCuts(opts, [], Survive(v, c.level, None, MergedInputs(c)), next);
  }

  lemma {:induction false} IncreaseConcat(a: seq<Entry>, b: seq<Entry>)
    requires KeysIncrease(a + b)
    ensures KeysIncrease(a) && KeysIncrease(b)
    ensures forall e, f :: e in a && f in b ==> Less(e.key, f.key)
  {
    hide Less;
    assert forall i :: 0 <= i < |a| ==> a[i] == (a + b)[i];
    assert forall i :: 0 <= i < |b| ==> b[i] == (a + b)[|a| + i];
  }

  /** Files cut from strictly increasing keys have sorted contents within their ranges. */
  lemma {:induction false} PartsWithin(fs: seq<File>, f: File)
    requires f in fs && WellMade(f) && KeysIncrease(Flatten(fs))
    ensures Sorted(Content(f)) && AtMost(f.smallest, f.largest)
    ensures forall e :: e in Content(f) ==> InRange(f, e.key)
  {
    hide Less;
    IncreaseConcat(Content(fs[0]), Flatten(fs[1..]));
    if f == fs[0] {
      WithinEnds(f);
    } else {
      PartsWithin(fs[1..], f);
    }
  }

  lemma {:induction false} FirstPart(fs: seq<File>, g: File)
    requires fs != [] && WellMade(fs[0]) && KeysIncrease(Flatten(fs))
    requires g in fs[1..] && WellMade(g)
    ensures Less(fs[0].largest, g.smallest)
  {
    hide Less;
    IncreaseConcat(Content(fs[0]), Flatten(fs[1..]));
    assert Content(g)[0] in Flatten(fs[1..]);
  }

  /** And the ranges are disjoint and ascending. */
  lemma {:induction false} PartsDisjoint(fs: seq<File>)
    requires forall f :: f in fs ==> WellMade(f)
    requires KeysIncrease(Flatten(fs))
    ensures Disjoint(fs)
  {
    hide Less, WellMade;
    forall f | f in fs ensures AtMost(f.smallest, f.largest) { PartsWithin(fs, f); }
    if fs != [] {
      IncreaseConcat(Content(fs[0]), Flatten(fs[1..]));
      PartsDisjoint(fs[1..]);
      forall g | g in fs[1..] ensures Less(fs[0].largest, g.smallest) { FirstPart(fs, g); }
      DisjointCons(fs);
    }
  }

  lemma {:induction false} DisjointCons(fs: seq<File>)
    requires fs != [] && Disjoint(fs[1..]) && AtMost(fs[0].smallest, fs[0].largest)
    requires forall g :: g in fs[1..] ==> Less(fs[0].largest, g.smallest)
    ensures Disjoint(fs)
  {
    hide Less;
    assert forall i :: 0 < i < |fs| ==> fs[i] == fs[1..][i - 1];
  }

  lemma {:induction false} WithinEnds(f: File)
    requires WellMade(f) && KeysIncrease(Content(f))
    ensures Sorted(Content(f)) && AtMost(f.smallest, f.largest)
    ensures forall e :: e in Content(f) ==> InRange(f, e.key)
  {
    hide Less;
    var es := Content(f);
    forall i | 0 <= i < |es| ensures InRange(f, es[i].key) {
      assert i > 0 ==> Less(es[0].key, es[i].key);
      assert i < |es| - 1 ==> Less(es[i].key, es[|es| - 1].key);
    }
    assert InRange(f, es[0].key);
  }

  // ---- The version after the edit ----

  function CompactionEdit(c: Compaction, outputs: seq<File>): Edit {
    EMPTY_EDIT.(
      deleted := (set f | f in c.inputs0 :: (c.level, f.number)) + (set f | f in c.inputs1 :: (c.level + 1, f.number)),
      added := AllAt(c.level + 1, outputs))
  }

  lemma {:induction false} LevelInOrder(v: Version, l: nat)
    requires ValidVersion(v) && l < NUM_LEVELS
    ensures InOrder(l, v[l]) && RangesOk(v[l]) && DistinctNumbers(v[l])
    ensures forall f :: f in v[l] ==> ValidFile(f)
  {
    hide Less;
    if l > 0 {
      assert ValidLevel(v[l]);
    }
  }

  lemma {:induction false} OtherLevels(v: Version, c: Compaction, outputs: seq<File>, l: nat)
    requires ValidVersion(v)
    requires l < NUM_LEVELS && l != c.level && l != c.level + 1
    ensures Apply(v, CompactionEdit(c, outputs))[l] == v[l]
  {
    var e := CompactionEdit(c, outputs);
    LevelInOrder(v, l);
    RetainedAll(v[l], l, e.deleted);
    AddedNone(e.added, l);
    assert v[l] + [] == v[l];
    SortFixed(l, v[l]);
  }

  lemma {:induction false} InputLevel(v: Version, c: Compaction, outputs: seq<File>)
    requires ValidVersion(v) && WellPicked(v, c)
    ensures var fs := Apply(v, CompactionEdit(c, outputs))[c.level];
            InOrder(c.level, fs) && forall f :: f in fs <==> f in v[c.level] && f !in c.inputs0
  {
    hide Less;
    var e, l := CompactionEdit(c, outputs), c.level;
    LevelInOrder(v, l);
    var kept := Retained(v[l], l, e.deleted);
    RetainedInOrder(v[l], l, e.deleted);
    AddedNone(e.added, l);
    assert kept + [] == kept;
    SortFixed(l, kept);
    forall f | f in v[l] ensures (l, f.number) in e.deleted <==> f in c.inputs0 {
      if g :| g in c.inputs0 && g.number == f.number { assert g in v[l]; }
    }
  }

  /** The files of the output level that the compaction does not touch. */
  ghost function Untouched(v: Version, c: Compaction): seq<File>
    requires c.level < NUM_LEVELS - 1
  {
    Retained(v[c.level + 1], c.level + 1, CompactionEdit(c, []).deleted)
  }

  lemma {:induction false} UntouchedFiles(v: Version, c: Compaction)
    requires ValidVersion(v) && WellPicked(v, c)
    ensures forall f :: f in Untouched(v, c) <==> f in v[c.level + 1] && f !in c.inputs1
    ensures InOrder(c.level + 1, Untouched(v, c))
  {
    hide Less;
    var e, l := CompactionEdit(c, []), c.level + 1;
    LevelInOrder(v, l);
    RetainedInOrder(v[l], l, e.deleted);
    forall f | f in v[l] ensures (l, f.number) in e.deleted <==> f in c.inputs1 {
      if g :| g in c.inputs1 && g.number == f.number { assert g in v[l]; }
    }
  }

  lemma {:induction false} Apart(fs: seq<File>, f: File, g: File)
    requires Disjoint(fs) && f in fs && g in fs && f != g
    ensures Less(f.largest, g.smallest) || Less(g.largest, f.smallest)
  {
    hide Less;
    var i :| 0 <= i < |fs| && fs[i] == f;
    var j :| 0 <= j < |fs| && fs[j] == g;
  }

  /** The hull of the inputs misses every untouched file: all inputs lie on one side of it. */
  lemma {:induction false} OneSide(v: Version, c: Compaction, g: File)
    requires ValidVersion(v) && WellPicked(v, c)
    requires g in v[c.level + 1] && g !in c.inputs1
    ensures || (forall f :: f in c.inputs0 + c.inputs1 ==> Less(f.largest, g.smallest))
            || (forall f :: f in c.inputs0 + c.inputs1 ==> Less(g.largest, f.smallest))
  {
    hide Less, ValidFile, Overlapping, Lowest, Highest;
    var next := v[c.level + 1];
    assert ValidLevel(next);
    var lo, hi := Lowest(c.inputs0), Highest(c.inputs0);
    HullBounds(c.inputs0);
    assert c.inputs1 == Overlapping(next, lo, hi);
    assert !Overlaps(g, lo, hi);
    forall f | f in c.inputs1
      ensures if Less(hi, g.smallest) then Less(f.largest, g.smallest) else Less(g.largest, f.smallest)
    {
      assert Overlaps(f, lo, hi);
      Apart(next, f, g);
      LevelInOrder(v, c.level + 1);
    }
    forall f | f in c.inputs0
      ensures if Less(hi, g.smallest) then Less(f.largest, g.smallest) else Less(g.largest, f.smallest)
    {
      assert AtMost(lo, f.smallest) && AtMost(f.largest, hi);
    }
    assert forall f :: f in c.inputs0 + c.inputs1 <==> f in c.inputs0 || f in c.inputs1;
  }

  ghost function Inputs(c: Compaction): seq<File> {
    c.inputs0 + c.inputs1
  }

  lemma {:induction false} InputsValid(v: Version, c: Compaction, f: File)
    requires ValidVersion(v) && WellPicked(v, c) && f in Inputs(c)
    ensures ValidFile(f) && (f in v[c.level] || f in v[c.level + 1])
  {
    hide Less, ValidFile;
    LevelInOrder(v, c.level);
    LevelInOrder(v, c.level + 1);
  }

  /** The merged inputs: sorted, and exactly the entries of the input files. */
  lemma {:induction false} MergedInputsAre(v: Version, c: Compaction)
    requires ValidVersion(v) && WellPicked(v, c)
    ensures Ascending(MergedInputs(c))
    ensures forall e :: e in MergedInputs(c) <==> e in Flatten(Inputs(c))
  {
    hide Less, Ascending, ValidVersion, WellPicked, Flatten, Merged;
    var cs := FileChildren(Inputs(c));
    forall i | 0 <= i < |cs| ensures Sorted(cs[i].entries) { InputsValid(v, c, Inputs(c)[i]); }
    MergedAscends(cs);
    forall e ensures e in MergedInputs(c) <==> e in Flatten(Inputs(c)) {
      MergedMember(cs, e);
      if i :| 0 <= i < |cs| && e in cs[i].Rest() { assert e in Content(Inputs(c)[i]); }
      if f :| f in Inputs(c) && e in Content(f) {
        var i :| 0 <= i < |Inputs(c)| && Inputs(c)[i] == f;
        assert e in cs[i].Rest();
      }
    }
  }

  /** What the output files hold. */
  lemma {:induction false} OutputsHold(opts: Options, v: Version, c: Compaction, next: nat)
    requires ValidVersion(v) && WellPicked(v, c) && Agree(Flatten(Inputs(c)))
    ensures var ins, outs := Flatten(Inputs(c)), Outputs(opts, v, c, next);
            && (forall e :: e in Flatten(outs) <==>
                  e in ins && NewestIn(ins, e) && !(e.kind == DELETION && IsBase(v, c.level, e.key)))
            && KeysIncrease(Flatten(outs))
            && forall i :: 0 <= i < |outs| ==> WellMade(outs[i]) && outs[i].number == next + i
  {
    hide Less, Ascending, ValidVersion, WellPicked, Flatten, MergedInputs, Split, Survive, IsBase, WellMade,
         KeysIncrease;
    MergedInputsAre(v, c);
    var m := MergedInputs(c);
    var es := Survive(v, c.level, None, m);
    assert Agree(m);
    SplitParts(opts, [], es, next);
    assert [] + es == es;
    SurviveIncreases(v, c.level, None, m);
    forall e ensures e in es <==>
                     && e in Flatten(Inputs(c)) && NewestIn(Flatten(Inputs(c)), e)
                     && !(e.kind == DELETION && IsBase(v, c.level, e.key))
    {
      SurviveMember(v, c.level, None, m, e);
      assert NewestIn(m, e) <==> NewestIn(Flatten(Inputs(c)), e);
    }
  }

  lemma {:induction false} OutputFileValid(opts: Options, v: Version, c: Compaction, next: nat, f: File)
    requires ValidVersion(v) && WellPicked(v, c) && Agree(Flatten(Inputs(c)))
    requires f in Outputs(opts, v, c, next)
    ensures ValidFile(f) && Content(f) != []
  {
    hide Less, ValidVersion, WellPicked, Flatten, Outputs, IsBase, KeysIncrease, Sorted;
    var outs := Outputs(opts, v, c, next);
    OutputsHold(opts, v, c, next);
    PartsWithin(outs, f);
    forall e | e in Content(f) ensures e.kind == VALUE || e.kind == DELETION {
      assert e in Flatten(outs);
      var g :| g in Inputs(c) && e in Content(g);
      InputsValid(v, c, g);
    }
  }

  lemma {:induction false} OutputsValid(opts: Options, v: Version, c: Compaction, next: nat)
    requires ValidVersion(v) && WellPicked(v, c) && Agree(Flatten(Inputs(c)))
    ensures ValidLevel(Outputs(opts, v, c, next))
  {
    hide Less, ValidVersion, WellPicked, Flatten, Outputs, IsBase, KeysIncrease, Disjoint, ValidFile, WellMade;
    var outs := Outputs(opts, v, c, next);
    OutputsHold(opts, v, c, next);
    PartsDisjoint(outs);
    forall f | f in outs ensures ValidFile(f) && Content(f) != [] { OutputFileValid(opts, v, c, next, f); }
  }

  lemma {:induction false} OutputsNumbered(opts: Options, v: Version, c: Compaction, next: nat)
    ensures var outs := Outputs(opts, v, c, next);
            forall f :: f in outs ==> next <= f.number < next + |outs|
  {
    hide Split, Survive, MergedInputs, WellMade, Flatten;
    SplitParts(opts, [], Survive(v, c.level, None, MergedInputs(c)), next);
  }

  /** Untouched and output files can be put in order. */
  lemma {:induction false} OutputLevelComparable(opts: Options, v: Version, c: Compaction, next: nat)
    requires ValidVersion(v) && WellPicked(v, c) && Agree(Flatten(Inputs(c)))
    ensures Comparable(c.level + 1, Untouched(v, c) + Outputs(opts, v, c, next))
  {
    hide Less, ValidFile, Flatten, Outputs, WithOverlap, Untouched, ValidVersion;
    var outs, l, rest := Outputs(opts, v, c, next), c.level + 1, Untouched(v, c);
    OutputsValid(opts, v, c, next);
    UntouchedFiles(v, c);
    LevelInOrder(v, l);
    var list := rest + outs;
    forall f: File | f in list ensures AtMost(f.smallest, f.largest) {
      if i :| 0 <= i < |outs| && outs[i] == f { }
    }
    forall i, j | 0 <= i < j < |list| ensures Above(l, list[i], list[j]) || Above(l, list[j], list[i]) {
      if i < |rest| <= j {
        assert rest[i] in rest;
        OutputApart(opts, v, c, next, rest[i], outs[j - |rest|]);
      } else if i >= |rest| {
        assert Less(outs[i - |rest|].largest, outs[j - |rest|].smallest);
      }
    }
  }

  /** The version after the compaction. */
  ghost function Compacted(opts: Options, v: Version, c: Compaction, next: nat): Version {
    Apply(v, CompactionEdit(c, Outputs(opts, v, c, next)))
  }

  lemma {:induction false} OutputLevelIs(opts: Options, v: Version, c: Compaction, next: nat)
    requires c.level < NUM_LEVELS - 1
    ensures Compacted(opts, v, c, next)[c.level + 1] ==
            SortFiles(c.level + 1, Untouched(v, c) + Outputs(opts, v, c, next))
  {
    hide Outputs, SortFiles, Retained, AddedAt;
    AddedAll(c.level + 1, Outputs(opts, v, c, next));
  }

  lemma {:induction false} OutputLevelFiles(opts: Options, v: Version, c: Compaction, next: nat, f: File)
    requires ValidVersion(v) && NumbersBelow(v, next) && WellPicked(v, c) && Agree(Flatten(Inputs(c)))
    requires f in Untouched(v, c) + Outputs(opts, v, c, next)
    ensures ValidFile(f) && Content(f) != []
    ensures f in Outputs(opts, v, c, next) <==> f.number >= next
  {
    hide Less, ValidFile, Flatten, Outputs, WithOverlap, Untouched;
    OutputsNumbered(opts, v, c, next);
    UntouchedFiles(v, c);
    if f in Untouched(v, c) {
      assert ValidLevel(v[c.level + 1]);
    } else {
      OutputFileValid(opts, v, c, next, f);
    }
  }

  lemma {:induction false} OutputNumbersDistinct(opts: Options, v: Version, c: Compaction, next: nat)
    requires ValidVersion(v) && NumbersBelow(v, next) && WellPicked(v, c) && Agree(Flatten(Inputs(c)))
    ensures DistinctNumbers(Untouched(v, c) + Outputs(opts, v, c, next))
  {
    hide Less, ValidFile, Flatten, Outputs, WithOverlap, Untouched, ValidVersion, NumbersBelow, Agree;
    OutputsValid(opts, v, c, next);
    UntouchedFiles(v, c);
    LevelInOrder(v, c.level + 1);
    var list := Untouched(v, c) + Outputs(opts, v, c, next);
    forall f: File, g: File | f in list && g in list && f.number == g.number ensures f == g {
      OutputLevelFiles(opts, v, c, next, f);
      OutputLevelFiles(opts, v, c, next, g);
    }
  }

  lemma {:induction false} OutputLevel(opts: Options, v: Version, c: Compaction, next: nat, fs: seq<File>)
    requires ValidVersion(v) && NumbersBelow(v, next) && WellPicked(v, c) && Agree(Flatten(Inputs(c)))
    requires fs == Compacted(opts, v, c, next)[c.level + 1]
    ensures ValidLevel(fs)
    ensures forall f :: f in fs <==> f in Untouched(v, c) || f in Outputs(opts, v, c, next)
  {
    var l := c.level + 1;
    assert l < NUM_LEVELS;
    hide Less, ValidFile, Flatten, Outputs, SortFiles, WellPicked, Untouched, ValidVersion, Compacted, NumbersBelow,
         Agree;
    OutputLevelIs(opts, v, c, next);
    OutputLevelComparable(opts, v, c, next);
    var list := Untouched(v, c) + Outputs(opts, v, c, next);
    forall f | f in fs ensures ValidFile(f) && Content(f) != [] { OutputLevelFiles(opts, v, c, next, f); }
    SortInOrder(l, list);
    OutputNumbersDistinct(opts, v, c, next);
    SortedLevel(l, fs);
  }

  lemma {:induction false} SortedLevel(l: nat, fs: seq<File>)
    requires l > 0 && InOrder(l, fs) && DistinctNumbers(fs)
    requires forall f :: f in fs ==> ValidFile(f) && Content(f) != []
    ensures ValidLevel(fs)
  {
    hide Less;
    forall i | 0 <= i < |fs| ensures AtMost(fs[i].smallest, fs[i].largest) { assert fs[i] in fs; }
  }

  /** An output file lies on one side of every untouched file. */
  lemma {:induction false} OutputApart(opts: Options, v: Version, c: Compaction, next: nat, g: File, f: File)
    requires ValidVersion(v) && WellPicked(v, c) && Agree(Flatten(Inputs(c)))
    requires g in v[c.level + 1] && g !in c.inputs1
    requires f in Outputs(opts, v, c, next)
    ensures Less(f.largest, g.smallest) || Less(g.largest, f.smallest)
  {
    hide Less, Flatten, Outputs, WellPicked, ValidVersion, ValidFile, WellMade, Content, Inputs;
    OneSide(v, c, g);
    var a, b := OutputEnds(opts, v, c, next, f);
    assert forall x :: x in Inputs(c) <==> x in c.inputs0 + c.inputs1 by { InputsAre(c); }
  }

  lemma {:induction false} InputsAre(c: Compaction)
    ensures Inputs(c) == c.inputs0 + c.inputs1
  {
  }

  /** Every entry of an output comes from an input file. */
  lemma {:induction false} OutputSource(opts: Options, v: Version, c: Compaction, next: nat, f: File, e: Entry)
    returns (a: File)
    requires ValidVersion(v) && WellPicked(v, c) && Agree(Flatten(Inputs(c)))
    requires f in Outputs(opts, v, c, next) && e in Content(f)
    ensures a in Inputs(c) && InRange(a, e.key)
  {
    hide Less, Flatten, Outputs, WellPicked, ValidVersion, IsBase, KeysIncrease, Inputs, NewestIn, Agree, Sorted,
         WellMade, Content, InRange;
    OutputsHold(opts, v, c, next);
    assert e in Flatten(Outputs(opts, v, c, next));
    a :| a in Inputs(c) && e in Content(a);
    InputsValid(v, c, a);
  }

  lemma {:induction false} OutputMade(opts: Options, v: Version, c: Compaction, next: nat, f: File)
    requires f in Outputs(opts, v, c, next)
    ensures WellMade(f)
  {
    hide Less, Flatten, WellMade, Split, Survive;
    SplitParts(opts, [], Survive(v, c.level, None, MergedInputs(c)), next);
  }

  /** The ends of an output file lie within input files. */
  lemma {:induction false} OutputEnds(opts: Options, v: Version, c: Compaction, next: nat, f: File)
    returns (a: File, b: File)
    requires ValidVersion(v) && WellPicked(v, c) && Agree(Flatten(Inputs(c)))
    requires f in Outputs(opts, v, c, next)
    ensures a in Inputs(c) && b in Inputs(c) && InRange(a, f.smallest) && InRange(b, f.largest)
  {
    hide Less, Flatten, Outputs, WellPicked, ValidVersion, Inputs, Agree, Content, InRange;
    OutputMade(opts, v, c, next, f);
    a := OutputSource(opts, v, c, next, f, Content(f)[0]);
    b := OutputSource(opts, v, c, next, f, Content(f)[|Content(f)| - 1]);
  }

  lemma {:induction false} NumbersAfter(opts: Options, v: Version, c: Compaction, next: nat)
    requires NumbersBelow(v, next)
    ensures NumbersBelow(Compacted(opts, v, c, next), next + |Outputs(opts, v, c, next)|)
  {
    hide Outputs, SortFiles, Retained, AddedAt;
    var outs := Outputs(opts, v, c, next);
    var e := CompactionEdit(c, outs);
    var v' := Compacted(opts, v, c, next);
    OutputsNumbered(opts, v, c, next);
    forall l, i | 0 <= l < NUM_LEVELS && 0 <= i < |v'[l]| ensures v'[l][i].number < next + |outs| {
      var f := v'[l][i];
      assert v'[l] == SortFiles(l, Retained(v[l], l, e.deleted) + AddedAt(e.added, l));
      assert f in v'[l];
    }
  }

  lemma {:induction false} DeepLevelAfter(opts: Options, v: Version, c: Compaction, next: nat, l: nat)
    requires ValidVersion(v) && NumbersBelow(v, next) && WellPicked(v, c) && Agree(Flatten(Inputs(c)))
    requires 1 <= l < NUM_LEVELS
    ensures ValidLevel(Compacted(opts, v, c, next)[l])
  {
    assert ValidLevel(v[l]);
    hide Less, Flatten, Outputs, ValidFile, Apply, ValidLevel, WellPicked, Agree, InOrder, NumbersBelow, ValidVersion;
    var outs := Outputs(opts, v, c, next);
    if l == c.level {
      InputLevel(v, c, outs);
      SubLevel(v[l], Compacted(opts, v, c, next)[l], l);
    } else if l == c.level + 1 {
      OutputLevel(opts, v, c, next, Compacted(opts, v, c, next)[l]);
    } else {
      OtherLevels(v, c, outs, l);
    }
  }

  lemma {:induction false} Level0After(opts: Options, v: Version, c: Compaction, next: nat)
    requires ValidVersion(v) && WellPicked(v, c)
    ensures Compacted(opts, v, c, next)[0] == if c.level == 0 then [] else v[0]
  {
    hide Less, Flatten, Outputs, ValidVersion, Apply, Overlapping, Lowest, Highest;
    var outs, fs := Outputs(opts, v, c, next), Compacted(opts, v, c, next)[0];
    if c.level == 0 {
      InputLevel(v, c, outs);
      AllPicked(v, c);
      if fs != [] { SomeMember(fs); }
    } else {
      OtherLevels(v, c, outs, 0);
    }
  }

  /** A compaction of level 0 takes all of its files. */
  lemma {:induction false} AllPicked(v: Version, c: Compaction)
    requires WellPicked(v, c) && c.level == 0
    ensures forall f :: f in v[0] ==> f in c.inputs0
  {
    hide Less, Overlapping, Lowest, Highest;
  }

  lemma {:induction false} SomeMember(fs: seq<File>)
    requires fs != []
    ensures exists f :: f in fs
  {
    assert fs[0] in fs;
  }

  /** Every picked compaction leaves a valid version. */
  lemma {:induction false} CompactionKeepsValid(opts: Options, v: Version, c: Compaction, next: nat)
    requires ValidVersion(v) && NumbersBelow(v, next) && WellPicked(v, c) && Agree(Flatten(Inputs(c)))
    ensures ValidVersion(Compacted(opts, v, c, next))
    ensures NumbersBelow(Compacted(opts, v, c, next), next + |Outputs(opts, v, c, next)|)
  {
    hide Less, Flatten, Outputs, ValidFile, Compacted, ValidLevel, WellPicked, Agree, Disjoint;
    NumbersAfter(opts, v, c, next);
    Level0After(opts, v, c, next);
    forall l | 1 <= l < NUM_LEVELS ensures ValidLevel(Compacted(opts, v, c, next)[l]) {
      DeepLevelAfter(opts, v, c, next, l);
    }
  }

  lemma {:induction false} SubLevel(fs: seq<File>, fs': seq<File>, l: nat)
    requires l > 0 && ValidLevel(fs) && InOrder(l, fs') && forall f :: f in fs' ==> f in fs
    ensures ValidLevel(fs')
  {
    hide Less, ValidFile;
    forall i | 0 <= i < |fs'| ensures AtMost(fs'[i].smallest, fs'[i].largest) {
      assert fs'[i] in fs;
    }
  }

  // ---- The meaning of the version after the edit ----

  /** An entry of the inputs shares its key with no untouched file of the output level. */
  lemma {:induction false} UntouchedKeys(v: Version, c: Compaction, e: Entry, f: Entry)
    requires ValidVersion(v) && WellPicked(v, c)
    requires e in Flatten(Inputs(c)) && f in Flatten(Untouched(v, c))
    ensures e.key != f.key
  {
    hide Less, WithOverlap, Sorted, Flatten, Untouched;
    var a :| a in Inputs(c) && e in Content(a);
    var b :| b in Untouched(v, c) && f in Content(b);
    UntouchedFiles(v, c);
    OneSide(v, c, b);
    InputsValid(v, c, a);
    LevelInOrder(v, c.level + 1);
  }

  /** An entry of an input of level 1 or deeper shares its key with no file of that level that stays. */
  lemma {:induction false} KeptKeys(v: Version, c: Compaction, e: Entry, g: File, f: Entry)
    requires ValidVersion(v) && WellPicked(v, c)
    requires c.level > 0 && g in v[c.level] && g !in c.inputs0
    requires e in Flatten(c.inputs0) && f in Content(g)
    ensures e.key != f.key
  {
    hide Less, WithOverlap, Sorted, Flatten;
    var a :| a in c.inputs0 && e in Content(a);
    assert a in v[c.level];
    Apart(v[c.level], a, g);
    LevelInOrder(v, c.level);
  }

  /** The sources of a version above level `l`; for level 0 the compaction takes every file. */
  ghost function Upper(v: Version, l: nat): Stack
    requires l < NUM_LEVELS
  {
    StackOf(v)[..if l == 0 then 0 else |v[0]| + l - 1]
  }

  ghost function Middle(v: Version, l: nat): Stack
    requires l < NUM_LEVELS
  {
    StackOf(v)[if l == 0 then 0 else |v[0]| + l - 1..|v[0]| + l]
  }

  ghost function Lower(v: Version, l: nat): Stack
    requires l < NUM_LEVELS - 1
  {
    StackOf(v)[|v[0]| + l + 1..]
  }

  ghost function KeptSources(v: Version, l: nat): Stack
    requires l < NUM_LEVELS
  {
    if l == 0 then [] else [Flatten(v[l])]
  }

  /** The compaction as a rearrangement of sources, under whatever lies above the version. */
  ghost function PlanOf(above: Stack, opts: Options, v: Version, c: Compaction, next: nat): Plan
    requires c.level < NUM_LEVELS - 1
  {
    var l, v' := c.level, Compacted(opts, v, c, next);
    Plan(
      above + Upper(v, l), Middle(v, l), Flatten(v[l + 1]), Lower(v, l),
      Flatten(Inputs(c)), Flatten(Outputs(opts, v, c, next)),
      KeptSources(v', l), Flatten(Untouched(v, c)), Flatten(v'[l + 1]))
  }

  lemma {:induction false} Carve(v: Version, l: nat)
    requires l < NUM_LEVELS - 1
    ensures StackOf(v) == Upper(v, l) + Middle(v, l) + [Flatten(v[l + 1])] + Lower(v, l)
  {
    hide Flatten;
    assert StackOf(v)[|v[0]| + (l + 1) - 1] == Flatten(v[l + 1]);
  }

  /** Stacks of versions that differ in levels `l` and `l + 1` only. */
  lemma {:induction false} StackAfter(v: Version, v': Version, l: nat)
    requires l < NUM_LEVELS - 1
    requires forall i :: 0 <= i < NUM_LEVELS && i != l && i != l + 1 ==> v'[i] == v[i]
    requires l == 0 ==> v'[0] == []
    ensures StackOf(v') == Upper(v, l) + KeptSources(v', l) + [Flatten(v'[l + 1])] + Lower(v, l)
  {
    hide Flatten;
    var st, n' := StackOf(v), |v'[0]|;
    var r := Upper(v, l) + KeptSources(v', l) + [Flatten(v'[l + 1])] + Lower(v, l);
    assert |r| == n' + 6;
    forall i | 0 <= i < |r| ensures r[i] == StackOf(v')[i] {
      if i >= n' {
        var m := i - n' + 1;
        assert StackOf(v')[n' + m - 1] == Flatten(v'[m]);
        if m != l && m != l + 1 { assert st[|v[0]| + m - 1] == Flatten(v[m]); }
      } else {
        assert st[i] == Content(v[0][i]);
      }
    }
  }

  lemma {:induction false} SameElsewhere(opts: Options, v: Version, c: Compaction, next: nat)
    requires ValidVersion(v) && WellPicked(v, c)
    ensures forall i :: 0 <= i < NUM_LEVELS && i != c.level && i != c.level + 1 ==>
            Compacted(opts, v, c, next)[i] == v[i]
  {
    hide Outputs, Apply, ValidVersion, WellPicked;
    forall i | 0 <= i < NUM_LEVELS && i != c.level && i != c.level + 1 ensures Compacted(opts, v, c, next)[i] == v[i] {
      OtherLevels(v, c, Outputs(opts, v, c, next), i);
    }
  }

  lemma {:induction false} AfterStack(opts: Options, v: Version, c: Compaction, next: nat)
    requires c.level < NUM_LEVELS - 1
    requires ValidVersion(v) && WellPicked(v, c)
    ensures var l, v' := c.level, Compacted(opts, v, c, next);
            StackOf(v') == Upper(v, l) + KeptSources(v', l) + [Flatten(v'[l + 1])] + Lower(v, l)
  {
    hide Flatten, Compacted, ValidVersion, WellPicked, Upper, Lower, KeptSources, StackOf;
    var v' := Compacted(opts, v, c, next);
    Level0After(opts, v, c, next);
    SameElsewhere(opts, v, c, next);
    StackAfter(v, v', c.level);
  }

  lemma {:induction false} PlanStacks(above: Stack, opts: Options, v: Version, c: Compaction, next: nat)
    requires c.level < NUM_LEVELS - 1
    requires ValidVersion(v) && WellPicked(v, c)
    ensures PlanOf(above, opts, v, c, next).Old() == above + StackOf(v)
    ensures PlanOf(above, opts, v, c, next).New() == above + StackOf(Compacted(opts, v, c, next))
  {
    assert c.level < NUM_LEVELS - 1;
    AfterStack(opts, v, c, next);
    Carve(v, c.level);
    hide Flatten, Outputs, Untouched, Compacted, Inputs, ValidVersion, StackOf, Upper, Middle, Lower, KeptSources,
         WellPicked;
    var p := PlanOf(above, opts, v, c, next);
    Regroup(above, Upper(v, c.level), p.mid, [p.low], p.deep);
    Regroup(above, Upper(v, c.level), p.kept, [p.low2], p.deep);
  }

  lemma {:induction false} Regroup<T>(a: seq<T>, b: seq<T>, c: seq<T>, d: seq<T>, e: seq<T>)
    ensures a + b + c + d + e == a + (b + c + d + e)
  {
  }

  lemma {:induction false} HoldsMiddle(v: Version, l: nat, e: Entry)
    requires l < NUM_LEVELS
    ensures Holds(Middle(v, l), e) <==> e in Flatten(v[l])
    ensures l > 0 ==> Middle(v, l) == [Flatten(v[l])]
  {
    hide Flatten;
    var st := StackOf(v);
    if l > 0 {
      assert st[|v[0]| + l - 1] == Flatten(v[l]);
      assert Middle(v, l) == [Flatten(v[l])];
      assert Holds([Flatten(v[l])], e) <==> e in [Flatten(v[l])][0];
    } else {
      if i :| 0 <= i < |Middle(v, 0)| && e in Middle(v, 0)[i] { assert v[0][i] in v[0]; }
      if f :| f in v[0] && e in Content(f) {
        var i :| 0 <= i < |v[0]| && v[0][i] == f;
        assert Middle(v, 0)[i] == st[i] == Content(f);
      }
    }
  }

  lemma {:induction false} HoldsKept(v: Version, l: nat, e: Entry)
    requires l < NUM_LEVELS && (l == 0 ==> v[0] == [])
    ensures Holds(KeptSources(v, l), e) <==> e in Flatten(v[l])
  {
    if l > 0 {
      assert KeptSources(v, l)[0] == Flatten(v[l]);
    }
  }

  /** A key at its base level occurs in no deeper level. */
  lemma {:induction false} BaseMeansAbsent(v: Version, l: nat, k: Key)
    requires ValidVersion(v) && l < NUM_LEVELS - 1 && IsBase(v, l, k)
    ensures !HasKey(Lower(v, l), k)
  {
    hide Flatten, Less, Sorted;
    forall e | Holds(Lower(v, l), e) ensures e.key != k {
      var i :| 0 <= i < |Lower(v, l)| && e in Lower(v, l)[i];
      DeeperSource(v, l, i);
      var m := l + 2 + i;
      var f :| f in v[m] && e in Content(f);
      assert ValidLevel(v[m]) && ValidFile(f);
      var j :| 0 <= j < |v[m]| && v[m][j] == f;
    }
  }

  lemma {:induction false} DeeperSource(v: Version, l: nat, i: nat)
    requires l < NUM_LEVELS - 1 && i < |Lower(v, l)|
    ensures l + 2 + i < NUM_LEVELS && Lower(v, l)[i] == Flatten(v[l + 2 + i])
  {
    hide Flatten;
    assert StackOf(v)[|v[0]| + (l + 2 + i) - 1] == Flatten(v[l + 2 + i]);
  }

  lemma {:induction false} PlanSurvivors(opts: Options, v: Version, c: Compaction, next: nat)
    requires ValidVersion(v) && WellPicked(v, c) && Agree(Flatten(Inputs(c)))
    ensures Survivors(Flatten(Inputs(c)), Flatten(Outputs(opts, v, c, next)), Lower(v, c.level))
  {
    assert c.level < NUM_LEVELS - 1;
    hide Flatten, Less, Outputs, IsBase, WellPicked, ValidVersion, Lower, WellMade, KeysIncrease, HasKey, NewestIn;
    OutputsHold(opts, v, c, next);
    forall e: Entry | e.kind == DELETION && IsBase(v, c.level, e.key) ensures !HasKey(Lower(v, c.level), e.key) {
      BaseMeansAbsent(v, c.level, e.key);
    }
  }

  /** An input entry of the input level shares its key with nothing that stays there. */
  lemma {:induction false} MidInputKeys(opts: Options, v: Version, c: Compaction, next: nat, e: Entry)
    requires ValidVersion(v) && WellPicked(v, c)
    requires e in Flatten(c.inputs0)
    ensures !HasKey(KeptSources(Compacted(opts, v, c, next), c.level), e.key)
  {
    hide Flatten, Less, Outputs, Apply, WithOverlap, ValidVersion, KeptSources;
    var v', l := Compacted(opts, v, c, next), c.level;
    Level0After(opts, v, c, next);
    InputLevel(v, c, Outputs(opts, v, c, next));
    if f :| Holds(KeptSources(v', l), f) && f.key == e.key {
      HoldsKept(v', l, f);
      var g :| g in v'[l] && f in Content(g);
      KeptKeys(v, c, e, g, f);
    }
  }

  /** How the entries of the input level and its new content relate to the plan's sources. */
  lemma {:induction false} PlanMiddle(opts: Options, v: Version, c: Compaction, next: nat, e: Entry)
    requires c.level < NUM_LEVELS - 1
    requires ValidVersion(v) && WellPicked(v, c)
    ensures Holds(Middle(v, c.level), e) <==> e in Flatten(v[c.level])
    ensures Holds(KeptSources(Compacted(opts, v, c, next), c.level), e) <==>
            e in Flatten(Compacted(opts, v, c, next)[c.level])
    ensures e in Flatten(v[c.level]) ==> e in Flatten(Compacted(opts, v, c, next)[c.level]) || e in Flatten(c.inputs0)
  {
    hide Flatten, Less, Outputs, Apply, WellPicked, ValidVersion, KeptSources, Middle, Holds;
    var v', l := Compacted(opts, v, c, next), c.level;
    Level0After(opts, v, c, next);
    InputLevel(v, c, Outputs(opts, v, c, next));
    HoldsMiddle(v, l, e);
    HoldsKept(v', l, e);
    if f :| f in v[l] && e in Content(f) { assert f in v'[l] || f in c.inputs0; }
  }

  lemma {:induction false} InputFlatten(v: Version, c: Compaction, e: Entry)
    requires c.level < NUM_LEVELS - 1
    requires WellPicked(v, c)
    ensures e in Flatten(Inputs(c)) <==> e in Flatten(c.inputs0) || e in Flatten(c.inputs1)
    ensures e in Flatten(c.inputs0) ==> e in Flatten(v[c.level])
    ensures e in Flatten(c.inputs1) ==> e in Flatten(v[c.level + 1])
  {
    hide Flatten, Less, Lowest, Highest;
  }

  lemma {:induction false} PlanInputs(opts: Options, v: Version, c: Compaction, next: nat, e: Entry)
    requires c.level < NUM_LEVELS - 1
    requires ValidVersion(v) && WellPicked(v, c)
    ensures var p := PlanOf([], opts, v, c, next);
            && (e in p.ins ==> e in p.low || (Holds(p.mid, e) && !HasKey(p.kept, e.key)))
            && (Holds(p.mid, e) ==> Holds(p.kept, e) || (e in p.ins && !HasKey(p.kept, e.key)))
  {
    hide Flatten, Less, Outputs, Compacted, WellPicked, ValidVersion, KeptSources, Upper, Lower, Middle, Untouched,
         HasKey, Holds, Inputs;
    PlanMiddle(opts, v, c, next, e);
    InputFlatten(v, c, e);
    if e in Flatten(c.inputs0) { MidInputKeys(opts, v, c, next, e); }
  }

  lemma {:induction false} PlanOutputs(opts: Options, v: Version, c: Compaction, next: nat, e: Entry)
    requires c.level < NUM_LEVELS - 1
    requires ValidVersion(v) && NumbersBelow(v, next) && WellPicked(v, c) && Agree(Flatten(Inputs(c)))
    ensures var p := PlanOf([], opts, v, c, next);
            && (e in p.low ==> e in p.ins || e in p.rest)
            && (e in p.rest ==> e in p.low)
            && (e in p.low2 <==> e in p.rest || e in p.outs)
  {
    hide Flatten, Less, Outputs, Compacted, WellPicked, ValidVersion, KeptSources, Upper, Lower, Middle, Untouched,
         NumbersBelow, Inputs, Agree;
    UntouchedFlatten(v, c, e);
    InputFlatten(v, c, e);
    OutputFlatten(opts, v, c, next, e);
  }

  lemma {:induction false} UntouchedFlatten(v: Version, c: Compaction, e: Entry)
    requires c.level < NUM_LEVELS - 1
    requires ValidVersion(v) && WellPicked(v, c)
    ensures e in Flatten(v[c.level + 1]) ==> e in Flatten(c.inputs1) || e in Flatten(Untouched(v, c))
    ensures e in Flatten(Untouched(v, c)) ==> e in Flatten(v[c.level + 1])
  {
    hide Flatten, Less, WellPicked, ValidVersion, Untouched, InOrder, Content;
    UntouchedFiles(v, c);
    if f :| f in v[c.level + 1] && e in Content(f) { assert f in c.inputs1 || f in Untouched(v, c); }
  }

  lemma {:induction false} OutputFlatten(opts: Options, v: Version, c: Compaction, next: nat, e: Entry)
    requires c.level < NUM_LEVELS - 1
    requires ValidVersion(v) && NumbersBelow(v, next) && WellPicked(v, c) && Agree(Flatten(Inputs(c)))
    ensures e in Flatten(Compacted(opts, v, c, next)[c.level + 1]) <==>
            e in Flatten(Untouched(v, c)) || e in Flatten(Outputs(opts, v, c, next))
  {
    hide Flatten, Less, Outputs, Compacted, WellPicked, ValidVersion, Untouched, NumbersBelow, ValidLevel, Inputs,
         Agree, Content;
    var fs := Compacted(opts, v, c, next)[c.level + 1];
    OutputLevel(opts, v, c, next, fs);
    if f :| f in fs && e in Content(f) { assert f in Untouched(v, c) || f in Outputs(opts, v, c, next); }
  }

  lemma {:induction false} PlanShape(opts: Options, v: Version, c: Compaction, next: nat)
    requires c.level < NUM_LEVELS - 1
    requires ValidVersion(v) && WellPicked(v, c)
    ensures var p := PlanOf([], opts, v, c, next);
            p.kept == [] || (|p.mid| == 1 && |p.kept| == 1 && forall e :: e in p.kept[0] ==> e in p.mid[0])
  {
    hide Flatten, Less, Outputs, Apply, ValidVersion, Upper, Lower, Middle, Untouched, WithOverlap;
    if c.level > 0 {
      var l := c.level;
      InputLevel(v, c, Outputs(opts, v, c, next));
      forall e | e in Flatten(Compacted(opts, v, c, next)[l]) ensures e in Flatten(v[l]) {
        var f :| f in Compacted(opts, v, c, next)[l] && e in Content(f);
        assert f in v[l];
      }
      HoldsMiddle(v, l, Entry([], 0, 0, []));
    }
  }

  lemma {:induction false} PlanRestKeys(opts: Options, v: Version, c: Compaction, next: nat, e: Entry)
    requires c.level < NUM_LEVELS - 1
    requires ValidVersion(v) && WellPicked(v, c)
    ensures var p := PlanOf([], opts, v, c, next);
            e in p.ins ==> NoKey(p.rest, e.key)
  {
    hide Flatten, Less, Outputs, Compacted, WithOverlap, ValidVersion, KeptSources, Upper, Lower, Middle, Untouched;
    if e in Flatten(Inputs(c)) {
      forall f | f in Flatten(Untouched(v, c)) ensures f.key != e.key { UntouchedKeys(v, c, e, f); }
    }
  }

  lemma {:induction false} PlanMoves(opts: Options, v: Version, c: Compaction, next: nat, p: Plan)
    requires c.level < NUM_LEVELS - 1
    requires ValidVersion(v) && NumbersBelow(v, next) && WellPicked(v, c) && Agree(Flatten(Inputs(c)))
    requires p == PlanOf([], opts, v, c, next)
    ensures forall e :: e in p.ins ==> e in p.low || (Holds(p.mid, e) && !HasKey(p.kept, e.key))
    ensures forall e :: Holds(p.mid, e) ==> Holds(p.kept, e) || (e in p.ins && !HasKey(p.kept, e.key))
    ensures forall e :: e in p.ins ==> NoKey(p.rest, e.key)
  {
    hide *;
    forall e ensures e in p.ins ==> e in p.low || (Holds(p.mid, e) && !HasKey(p.kept, e.key)) {
      PlanInputs(opts, v, c, next, e);
    }
    forall e ensures Holds(p.mid, e) ==> Holds(p.kept, e) || (e in p.ins && !HasKey(p.kept, e.key)) {
      PlanInputs(opts, v, c, next, e);
    }
    forall e ensures e in p.ins ==> NoKey(p.rest, e.key) { PlanRestKeys(opts, v, c, next, e); }
  }

  lemma {:induction false} PlanArrives(opts: Options, v: Version, c: Compaction, next: nat, p: Plan)
    requires c.level < NUM_LEVELS - 1
    requires ValidVersion(v) && NumbersBelow(v, next) && WellPicked(v, c) && Agree(Flatten(Inputs(c)))
    requires p == PlanOf([], opts, v, c, next)
    ensures forall e :: e in p.low ==> e in p.ins || e in p.rest
    ensures forall e :: e in p.rest ==> e in p.low
    ensures forall e :: e in p.low2 <==> e in p.rest || e in p.outs
  {
    hide *;
    forall e
      ensures (e in p.low ==> e in p.ins || e in p.rest) && (e in p.rest ==> e in p.low)
              && (e in p.low2 <==> e in p.rest || e in p.outs)
    {
      PlanOutputs(opts, v, c, next, e);
    }
  }

  lemma {:induction false} PlanSurvives(opts: Options, v: Version, c: Compaction, next: nat, p: Plan)
    requires c.level < NUM_LEVELS - 1
    requires ValidVersion(v) && WellPicked(v, c) && Agree(Flatten(Inputs(c)))
    requires p == PlanOf([], opts, v, c, next)
    ensures Survivors(p.ins, p.outs, p.deep)
  {
    hide Flatten, Outputs, ValidVersion, Survivors, Lower, Agree, Compacted, Upper, Middle, KeptSources, Untouched,
         WithOverlap;
    PlanSurvivors(opts, v, c, next);
  }

  lemma {:induction false} PlanSoundAlone(opts: Options, v: Version, c: Compaction, next: nat, p: Plan)
    requires c.level < NUM_LEVELS - 1 && ValidVersion(v) && NumbersBelow(v, next) && WellPicked(v, c)
             && Agree(Flatten(Inputs(c)))
    requires p == PlanOf([], opts, v, c, next)
    ensures p.Sound()
  {
    hide PlanOf, Flatten, WellPicked, ValidVersion, NumbersBelow, HasKey, Survivors, NoKey, Holds, Agree, Inputs;
    PlanSurvives(opts, v, c, next, p);
    PlanShape(opts, v, c, next);
    PlanMoves(opts, v, c, next, p);
    PlanArrives(opts, v, c, next, p);
  }

  lemma {:induction false} PlanSound(above: Stack, opts: Options, v: Version, c: Compaction, next: nat)
    requires c.level < NUM_LEVELS - 1
    requires ValidVersion(v) && NumbersBelow(v, next) && WellPicked(v, c) && Agree(Flatten(Inputs(c)))
    ensures PlanOf(above, opts, v, c, next).Sound()
  {
    hide Flatten, Outputs, ValidVersion, NumbersBelow, HasKey, Survivors, NoKey, Holds, Upper, Middle, Lower,
         KeptSources, Compacted, Untouched, WithOverlap, Agree;
    PlanSoundAlone(opts, v, c, next, PlanOf([], opts, v, c, next));
  }

  /** Compaction preserves meaning: the version after any picked compaction, under the same newer
      sources, represents the same history. */
  lemma {:induction false} CompactionKeepsMeaning(above: Stack, opts: Options, v: Version, c: Compaction, next: nat,
      h: seq<Entry>)
    requires ValidVersion(v) && NumbersBelow(v, next) && WellPicked(v, c)
    requires Represents(above + StackOf(v), h)
    ensures Represents(above + StackOf(Compacted(opts, v, c, next)), h)
    ensures Agree(Flatten(Inputs(c)))
  {
    assert c.level < NUM_LEVELS - 1;
    InputsAgree(above, v, c, h);
    hide Flatten, Less, Outputs, Compacted, WellPicked, ValidVersion, StackOf, PlanOf, Represents;
    PlanSound(above, opts, v, c, next);
    PlanStacks(above, opts, v, c, next);
    PlanOf(above, opts, v, c, next).KeepsMeaning(h);
  }

  lemma {:induction false} LevelHeld(above: Stack, v: Version, l: nat, e: Entry)
    requires l < NUM_LEVELS && e in Flatten(v[l])
    ensures Holds(above + StackOf(v), e)
  {
    hide Flatten, StackOf;
    HoldsMiddle(v, l, e);
    var i :| 0 <= i < |Middle(v, l)| && e in Middle(v, l)[i];
    var j := i + if l == 0 then 0 else |v[0]| + l - 1;
    assert (above + StackOf(v))[|above| + j] == StackOf(v)[j] == Middle(v, l)[i];
  }

  lemma {:induction false} InputsAgree(above: Stack, v: Version, c: Compaction, h: seq<Entry>)
    requires WellPicked(v, c) && Genuine(above + StackOf(v), h)
    ensures Agree(Flatten(Inputs(c)))
  {
    hide Flatten, Lowest, Highest, Overlapping, StackOf, Holds;
    forall e | e in Flatten(Inputs(c)) ensures 1 <= e.seqno <= |h| && h[e.seqno - 1] == e {
      var f :| f in Inputs(c) && e in Content(f);
      if f in c.inputs0 {
        assert f in v[c.level];
        LevelHeld(above, v, c.level, e);
      } else {
        assert f in v[c.level + 1];
        LevelHeld(above, v, c.level + 1, e);
      }
    }
  }

  // ---- Tombstones ----

  /** The delete that is the newest input entry of its key is written out exactly when some file below
      the output level has the key in its range; otherwise nothing of the key is. */
  lemma {:induction false} TombstoneKept(opts: Options, v: Version, c: Compaction, next: nat, e: Entry)
    requires ValidVersion(v) && WellPicked(v, c) && Agree(Flatten(Inputs(c)))
    requires e in Flatten(Inputs(c)) && NewestIn(Flatten(Inputs(c)), e) && e.kind == DELETION
    ensures (exists l, f :: c.level + 2 <= l < NUM_LEVELS && f in v[l]
                            && AtMost(f.smallest, e.key) && AtMost(e.key, f.largest))
            <==> e in Flatten(Outputs(opts, v, c, next))
    ensures e !in Flatten(Outputs(opts, v, c, next)) ==>
              forall x :: x in Flatten(Outputs(opts, v, c, next)) ==> x.key != e.key
  {
    hide Less, Flatten, Outputs, ValidVersion, WellPicked;
    OutputsHold(opts, v, c, next);
    var ins := Flatten(Inputs(c));
    assert IsBase(v, c.level, e.key) <==>
           !exists l, f :: c.level + 2 <= l < NUM_LEVELS && f in v[l] && InRange(f, e.key) by {
      BaseIff(v, c.level, e.key);
    }
    forall x | x in Flatten(Outputs(opts, v, c, next)) && x.key == e.key ensures x == e {
      assert x in ins && NewestIn(ins, x);
    }
  }

  lemma {:induction false} BaseIff(v: Version, level: nat, k: Key)
    ensures IsBase(v, level, k) <==> !exists l, f :: level + 2 <= l < NUM_LEVELS && f in v[l] && InRange(f, k)
  {
    hide Less;
    if !IsBase(v, level, k) {
      var l, i :| level + 2 <= l < NUM_LEVELS && 0 <= i < |v[l]| && InRange(v[l][i], k);
      assert v[l][i] in v[l];
    }
    if l, f :| level + 2 <= l < NUM_LEVELS && f in v[l] && InRange(f, k) {
      var i :| 0 <= i < |v[l]| && v[l][i] == f;
    }
  }
}
