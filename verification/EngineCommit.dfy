/** Writing to the manifest: what the disk denotes after an edit or a snapshot is logged. */
module EngineCommit {
  import opened Keys
  import opened Entries
  import opened Versions
  import opened Edits
  import opened CompactionCorrect
  import opened Manifest
  import opened Engine
  import opened EngineInvariant

  ghost predicate NoReaders(fs: seq<File>) {
    forall f :: f in fs ==> f == Erase(f)
  }

  lemma {:induction false} NoReadersErased(fs: seq<File>)
    requires NoReaders(fs)
    ensures EraseAll(fs) == fs
  {
    forall i | 0 <= i < |fs| ensures EraseAll(fs)[i] == fs[i] { assert fs[i] in fs; }
  }

  /** A manifest of erased edits replays to files without readers. */
  lemma {:induction false} ReplayNoReaders(records: seq<Edit>, l: nat)
    requires forall e :: e in records ==> e == EraseEdit(e)
    requires l < NUM_LEVELS
    ensures NoReaders(ReplayAll(records).raw[l])
  {
    if records != [] {
      var n := |records| - 1;
      var e := records[n];
      ReplayNoReaders(records[..n], l);
      assert e == EraseEdit(e);
      forall f | f in AddedAt(e.added, l) ensures f == Erase(f) {
        var i :| 0 <= i < |e.added| && e.added[i] == (l, f);
        assert EraseAdded(e.added)[i] == e.added[i];
      }
    }
  }

  /** Erasing undoes opening. */
  lemma {:induction false} ReloadedErased(d: Disk)
    requires forall e :: e in d.records ==> e == EraseEdit(e)
    ensures EraseVersion(Reloaded(d).current) == SortLevels(ReplayAll(d.records).raw)
  {
    var raw := ReplayAll(d.records).raw;
    var v, w := Reloaded(d).current, SortLevels(raw);
    hide ReplayAll, SortFiles;
    forall l | 0 <= l < NUM_LEVELS ensures EraseAll(v[l]) == w[l] {
      ReplayNoReaders(d.records, l);
      assert NoReaders(w[l]);
      NoReadersErased(w[l]);
      assert v[l] == OpenLevel(w[l], d.tables);
      assert EraseAll(OpenLevel(w[l], d.tables)) == EraseAll(w[l]);
    }
  }

  ghost predicate Opened(v: Version, tables: map<nat, seq<Entry>>) {
    forall l, f :: 0 <= l < NUM_LEVELS && f in v[l] ==> f.number in tables && f.reader == Some(tables[f.number])
  }

  /** Opening undoes erasing. */
  lemma {:induction false} OpenErased(v: Version, tables: map<nat, seq<Entry>>)
    requires Opened(v, tables)
    ensures OpenVersion(EraseVersion(v), tables) == v
  {
    forall l | 0 <= l < NUM_LEVELS ensures OpenLevel(EraseAll(v[l]), tables) == v[l] {
      forall i | 0 <= i < |v[l]| ensures OpenFile(Erase(v[l][i]), tables) == v[l][i] { assert v[l][i] in v[l]; }
    }
  }

  lemma {:induction false} ReloadedOpened(d: Disk)
    requires ValidVersion(Reloaded(d).current)
    ensures Opened(Reloaded(d).current, d.tables)
  {
    hide Recovered, Less, Sorted;
    var v := Reloaded(d).current;
    forall l, f | 0 <= l < NUM_LEVELS && f in v[l]
      ensures f.number in d.tables && f.reader == Some(d.tables[f.number])
    {
      LevelInOrder(v, l);
      assert ValidFile(f);
      var i :| 0 <= i < |v[l]| && v[l][i] == f;
      assert f == OpenFile(Recovered(d.records).current[l][i], d.tables);
    }
  }

  lemma {:induction false} ValidIsOrdered(v: Version)
    requires ValidVersion(v)
    ensures Ordered(v)
  {
    hide ValidVersion, InOrder, RangesOk, DistinctNumbers;
    forall l | 0 <= l < NUM_LEVELS ensures InOrder(l, v[l]) && RangesOk(v[l]) { LevelInOrder(v, l); }
  }

  /** The version set a process would start with after an edit is logged. */
  ghost function LoggedVersionSet(s: State, edit: Edit): VersionSet
  {
    VersionSet(Apply(s.vs.current, edit), s.vs.nextFile, s.vs.lastSeq,
               if edit.logNumber.Some? then edit.logNumber.value else s.vs.logNumber, false)
  }

  function Logged(d: Disk, edit: Edit): Disk {
    d.(records := d.records + [EraseEdit(edit)])
  }

  lemma {:induction false} LoggedVersion(s: State, edit: Edit)
    requires SoundDisk(s.disk) && Matches(s.vs, s.disk) && Ready(s, edit)
    ensures Reloaded(Logged(s.disk, edit)).current == Apply(s.vs.current, edit)
  {
    var d, v := s.disk, s.vs.current;
    assert GoodVersion(Apply(v, edit), s.vs.nextFile);
    hide Apply, ReplayAll, SortFiles, DistinctFiles, NumbersBelow;
    ValidIsOrdered(Apply(v, edit));
    ReloadedErased(d);
    ReplayStepAgrees(d.records, v, edit);
    AppliedOpened(s, edit);
    OpenErased(Apply(v, edit), d.tables);
  }

  lemma {:induction false} AppliedOpened(s: State, edit: Edit)
    requires SoundDisk(s.disk) && Matches(s.vs, s.disk) && Ready(s, edit)
    ensures Opened(Apply(s.vs.current, edit), s.disk.tables)
  {
    hide SortFiles, Retained, AddedAt, Reloaded, ReplayAll, DistinctFiles, NumbersBelow, ValidLog;
    var d, v := s.disk, s.vs.current;
    ReloadedOpened(d);
    var w := Apply(v, edit);
    forall l, f | 0 <= l < NUM_LEVELS && f in w[l]
      ensures f.number in d.tables && f.reader == Some(d.tables[f.number])
    {
      assert f in Retained(v[l], l, edit.deleted) + AddedAt(edit.added, l);
      assert f in v[l] || (l, f) in edit.added;
    }
  }

  lemma {:induction false} LoggedNumbers(s: State, edit: Edit)
    requires SoundDisk(s.disk) && Matches(s.vs, s.disk) && Ready(s, edit)
    ensures var r, w := Reloaded(Logged(s.disk, edit)), LoggedVersionSet(s, edit);
            r.nextFile == w.nextFile && r.lastSeq == w.lastSeq && r.logNumber == w.logNumber
    ensures ReplayAll(Logged(s.disk, edit).records).maxFile > 0
  {
    hide Apply, SortFiles, SortLevels, OpenVersion, GoodVersion, MaxNumber, EraseAdded;
    var d, e := s.disk, EraseEdit(edit);
    var records' := Logged(d, edit).records;
    assert records'[..|d.records|] == d.records && records'[|records'| - 1] == e;
    var r := ReplayAll(d.records);
    assert ReplayAll(records') == ReplayStep(r, e);
    forall a | a in e.added ensures a.1.number < edit.nextFile.value {
      var i :| 0 <= i < |e.added| && e.added[i] == a;
      assert edit.added[i] in edit.added;
    }
  }

  /** Logging a ready edit makes the disk denote the version that memory installs. */
  lemma {:induction false} LoggedDisk(s: State, edit: Edit)
    requires SoundDisk(s.disk) && Matches(s.vs, s.disk) && Ready(s, edit)
    ensures Reloaded(Logged(s.disk, edit)) == LoggedVersionSet(s, edit)
    ensures SoundDisk(Logged(s.disk, edit))
  {
    assert s.vs.logNumber < s.vs.nextFile;
    hide Apply, ReplayAll, GoodVersion, Reloaded, EraseEdit, ValidLog;
    LoggedVersion(s, edit);
    LoggedNumbers(s, edit);
    LoggedErased(s.disk, edit);
    LoggedClosed(Logged(s.disk, edit));
  }

  lemma {:induction false} LoggedErased(d: Disk, edit: Edit)
    requires forall e :: e in d.records ==> e == EraseEdit(e)
    ensures forall e :: e in Logged(d, edit).records ==> e == EraseEdit(e)
  {
    assert EraseEdit(EraseEdit(edit)) == EraseEdit(edit);
  }

  lemma {:induction false} LoggedClosed(d: Disk)
    ensures !Reloaded(d).open
  {
  }

  // ---- Creating the manifest ----

  function Restarted(d: Disk, vs: VersionSet): Disk {
    d.(records := [EraseEdit(Snapshot(Switched(vs)))])
  }

  /** A fresh manifest denotes the same version; it also records the numbers handed out so far. */
  lemma {:induction false} RestartedDisk(d: Disk, vs: VersionSet)
    requires SoundDisk(d) && Matches(vs, d)
    ensures Reloaded(Restarted(d, vs)) == Switched(vs).(open := false)
    ensures SoundDisk(Restarted(d, vs))
  {
    hide ReplayAll, GoodVersion, Reloaded, EraseEdit, ValidLog, Snapshot;
    GoodVersionGrows(vs.current, Reloaded(d).nextFile, vs.nextFile);
    RestartedParts(d, vs);
    LoggedErased(d.(records := []), Snapshot(Switched(vs)));
    assert [] + [EraseEdit(Snapshot(Switched(vs)))] == [EraseEdit(Snapshot(Switched(vs)))];
    LoggedClosed(Restarted(d, vs));
    GoodVersionGrows(vs.current, Reloaded(d).nextFile, vs.nextFile + 1);
  }

  lemma {:induction false} GoodVersionGrows(v: Version, bound: nat, bound': nat)
    requires GoodVersion(v, bound) && bound <= bound'
    ensures GoodVersion(v, bound')
  {
    hide ValidVersion, DistinctFiles;
  }

  lemma {:induction false} RestartedParts(d: Disk, vs: VersionSet)
    requires SoundDisk(d) && Matches(vs, d) && GoodVersion(vs.current, vs.nextFile)
    ensures var r := Reloaded(Restarted(d, vs));
            r.current == vs.current && r.nextFile == vs.nextFile + 1 && r.lastSeq == vs.lastSeq
                && r.logNumber == vs.logNumber
    ensures ReplayAll(Restarted(d, vs).records).maxFile > 0
  {
    hide ReplayAll, Reloaded, EraseEdit, Snapshot, ValidVersion, DistinctFiles, NumbersBelow, Opened;
    ReloadedOpened(d);
    RestartedVersion(d, vs);
    RestartedNumbers(d, vs);
  }

  lemma {:induction false} RestartedVersion(d: Disk, vs: VersionSet)
    requires ValidVersion(vs.current) && Opened(vs.current, d.tables)
    ensures Reloaded(Restarted(d, vs)).current == vs.current
  {
    hide ReplayAll, SortFiles, ValidVersion, Snapshot;
    ValidIsOrdered(vs.current);
    SnapshotAgrees(Switched(vs));
    OpenErased(vs.current, d.tables);
  }

  lemma {:induction false} RestartedNumbers(d: Disk, vs: VersionSet)
    requires NumbersBelow(vs.current, vs.nextFile)
    ensures var r := Reloaded(Restarted(d, vs));
            r.nextFile == vs.nextFile + 1 && r.lastSeq == vs.lastSeq && r.logNumber == vs.logNumber
    ensures ReplayAll(Restarted(d, vs).records).maxFile > 0
  {
    hide SortFiles, SortLevels, OpenVersion, MaxNumber, AllFiles, NumbersBelow;
    var e := EraseEdit(Snapshot(Switched(vs)));
    assert [e][..0] == [];
    assert ReplayAll([]) == Replay(EMPTY_VERSION, 0, 0, 0);
    assert ReplayAll([e]) == ReplayStep(ReplayAll([]), e);
    forall a | a in e.added ensures a.1.number < vs.nextFile + 1 {
      var i :| 0 <= i < |e.added| && e.added[i] == a;
      SnapshotNumbers(vs.current, NUM_LEVELS, vs.nextFile, AllFiles(vs.current, NUM_LEVELS)[i]);
    }
  }
}
