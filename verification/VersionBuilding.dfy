/** The loops over files and levels that `LogAndApply`, `WriteSnapshot` and `Recover` are made of. */
module VersionBuilding {
  import opened Entries
  import opened Versions
  import opened Edits
  import opened Manifest

  method RetainLevels(v: Version, deleted: set<(nat, nat)>) returns (v': Version)
    ensures forall l :: 0 <= l < NUM_LEVELS ==> v'[l] == Retained(v[l], l, deleted)
  {
    hide Retained;
    v' := v;
    for level := 0 to NUM_LEVELS
      invariant forall l :: 0 <= l < NUM_LEVELS ==> v'[l] == if l < level then Retained(v[l], l, deleted) else v[l]
    {
      var retained := Retain(v[level], level, deleted);
      v' := v'[level := retained];
    }
  }

  method Retain(fs: seq<File>, level: nat, deleted: set<(nat, nat)>) returns (retained: seq<File>)
    ensures retained == Retained(fs, level, deleted)
  {
    retained := [];
    for i := 0 to |fs|
      invariant retained == Retained(fs[..i], level, deleted)
    {
      assert fs[..i + 1][..i] == fs[..i];
      if (level, fs[i].number) !in deleted { retained := retained + [fs[i]]; }
    }
    assert fs[..|fs|] == fs;
  }

  method AddFiles(v: Version, bound: nat, added: seq<(nat, File)>) returns (v': Version, maxFile: nat)
    ensures forall l :: 0 <= l < NUM_LEVELS ==> v'[l] == v[l] + AddedAt(added, l)
    ensures maxFile == MaxNumber(bound, added)
  {
    hide AddedAt, MaxNumber;
    v', maxFile := v, bound;
    AddedNothing(bound);
    for i := 0 to |added|
      invariant forall l :: 0 <= l < NUM_LEVELS ==> v'[l] == v[l] + AddedAt(added[..i], l)
      invariant maxFile == MaxNumber(bound, added[..i])
    {
      AddedNext(bound, added[..i], added[i]);
      assert added[..i + 1] == added[..i] + [added[i]];
      var (level, file) := added[i];
      if level < NUM_LEVELS { v' := v'[level := v'[level] + [file]]; }
      if file.number >= maxFile { maxFile := file.number + 1; }
    }
    assert added[..|added|] == added;
  }

  lemma {:induction false} AddedNothing(bound: nat)
    ensures MaxNumber(bound, []) == bound && forall l :: AddedAt([], l) == []
  {
  }

  lemma {:induction false} AddedNext(bound: nat, added: seq<(nat, File)>, a: (nat, File))
    ensures MaxNumber(bound, added + [a]) == Max(MaxNumber(bound, added), a.1.number + 1)
    ensures forall l :: AddedAt(added + [a], l) == if a.0 == l then AddedAt(added, l) + [a.1] else AddedAt(added, l)
  {
    assert (added + [a])[..|added|] == added;
  }

  method SortAll(raw: Version) returns (v: Version)
    ensures v == SortLevels(raw)
  {
    hide SortFiles;
    v := raw;
    for level := 0 to NUM_LEVELS
      invariant forall l :: 0 <= l < NUM_LEVELS ==> v[l] == if l < level then SortFiles(l, raw[l]) else raw[l]
    {
      v := v[level := SortFiles(level, raw[level])];
    }
  }

  /** `LogAndApply` builds the new version: retained files, new files, each level sorted. */
  method BuildVersion(v: Version, e: Edit) returns (v': Version)
    ensures v' == Apply(v, e)
  {
    hide Retained, AddedAt, SortFiles, MaxNumber;
    var retained := RetainLevels(v, e.deleted);
    var all, _ := AddFiles(retained, 0, e.added);
    v' := SortAll(all);
  }

  /** `WriteSnapshot`: every file of every level, and the counters. */
  method BuildSnapshot(vs: VersionSet) returns (e: Edit)
    ensures e == Snapshot(vs)
  {
    hide AllAt;
    var added := [];
    for level := 0 to NUM_LEVELS
      invariant added == AllFiles(vs.current, level)
    {
      var files := LevelFiles(level, vs.current[level]);
      added := added + files;
    }
    e := Edit(Some(COMPARATOR), Some(vs.logNumber), Some(vs.nextFile), Some(vs.lastSeq), {}, added);
  }

  method LevelFiles(level: nat, fs: seq<File>) returns (added: seq<(nat, File)>)
    ensures added == AllAt(level, fs)
  {
    added := [];
    for i := 0 to |fs|
      invariant added == AllAt(level, fs)[..i]
    {
      added := added + [(level, fs[i])];
    }
  }
}
