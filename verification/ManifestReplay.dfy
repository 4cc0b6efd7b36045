/** Replaying a manifest gives what logging it left in memory, for every sequence of edits. */
module ManifestReplay {
  import opened Keys
  import opened Versions
  import opened Edits
  import opened Manifest

  /** Replaying `records` agrees with `vs`: the same files per level (without readers), the same log
      number and last sequence number, and a next file number above every live table. */
  ghost predicate Agrees(records: seq<Edit>, vs: VersionSet) {
    var r := ReplayAll(records);
    && SortLevels(r.raw) == EraseVersion(vs.current)
    && r.logNumber == vs.logNumber && r.maxSeq == vs.lastSeq
    && r.maxFile <= vs.nextFile && NumbersBelow(vs.current, r.maxFile)
  }

  /** Between two edits file numbers and sequence numbers are handed out. */
  ghost predicate Later(vs: VersionSet, vs': VersionSet) {
    vs'.current == vs.current && vs'.logNumber == vs.logNumber && vs'.nextFile >= vs.nextFile
        && vs'.lastSeq >= vs.lastSeq
  }

  /** An edit as the engine makes them: numbers do not go back, files are numbered already, and the
      new version is in order. */
  ghost predicate Proper(vs: VersionSet, e: Edit) {
    && (e.nextFile.Some? ==> e.nextFile.value <= vs.nextFile)
    && (e.lastSeq.Some? ==> e.lastSeq.value >= vs.lastSeq)
    && (e.logNumber.Some? ==> e.logNumber.value >= vs.logNumber)
    && (forall a :: a in e.added ==> a.1.number < vs.nextFile)
    && Ordered(Apply(vs.current, e))
  }

  function AfterEdit(vs: VersionSet, e: Edit): VersionSet { Installed(vs, WithDefaults(vs, e)) }

  function RecordFor(vs: VersionSet, e: Edit): Edit { EraseEdit(WithDefaults(vs, e)) }

  lemma {:induction false} ErasedNumbers(added: seq<(nat, File)>, bound: nat)
    requires forall a :: a in added ==> a.1.number < bound
    ensures forall a :: a in EraseAdded(added) ==> a.1.number < bound
  {
    forall a | a in EraseAdded(added) ensures a.1.number < bound {
      var i :| 0 <= i < |added| && EraseAdded(added)[i] == a;
      assert added[i] in added;
    }
  }

  /** A manifest that starts with a snapshot of `vs` agrees with it. */
  lemma {:induction false} SnapshotReplays(vs: VersionSet)
    requires Ordered(vs.current) && NumbersBelow(vs.current, vs.nextFile)
    ensures Agrees([EraseEdit(Snapshot(vs))], vs)
  {
    hide SortFiles, AddedAt, Ordered, MaxNumber, RawApply, AllFiles, SortLevels, NumbersBelow;
    SnapshotAgrees(vs);
    var e := EraseEdit(Snapshot(vs));
    assert [e][..0] == [];
    assert ReplayAll([e]) == ReplayStep(ReplayAll([]), e);
    forall a | a in AllFiles(vs.current, NUM_LEVELS) ensures a.1.number < vs.nextFile {
      SnapshotNumbers(vs.current, NUM_LEVELS, vs.nextFile, a);
    }
    ErasedNumbers(AllFiles(vs.current, NUM_LEVELS), vs.nextFile);
  }

  lemma {:induction false} AppliedNumbers(v: Version, e: Edit, bound: nat)
    requires NumbersBelow(v, bound) && forall a :: a in e.added ==> a.1.number < bound
    ensures NumbersBelow(Apply(v, e), bound)
  {
    hide Less;
    var v' := Apply(v, e);
    forall l, i | 0 <= l < NUM_LEVELS && 0 <= i < |v'[l]| ensures v'[l][i].number < bound {
      var f := v'[l][i];
      assert f in Retained(v[l], l, e.deleted) + AddedAt(e.added, l);
      if f in v[l] {
        var j :| 0 <= j < |v[l]| && v[l][j] == f;
      } else {
        assert (l, f) in e.added;
      }
    }
  }

  /** One more edit. */
  lemma {:induction false} EditReplays(records: seq<Edit>, p: VersionSet, vs: VersionSet, e: Edit)
    requires Agrees(records, p) && Later(p, vs) && Proper(vs, e)
    ensures Agrees(records + [RecordFor(vs, e)], AfterEdit(vs, e))
  {
    hide SortFiles, AddedAt, Ordered, MaxNumber, RawApply, SortLevels, ReplayAll, Apply, NumbersBelow;
    var d := WithDefaults(vs, e);
    AppliedSame(vs.current, e, d);
    ReplayStepAgrees(records, vs.current, d);
    ReplayLast(records, EraseEdit(d));
    var r, r' := ReplayAll(records), ReplayAll(records + [EraseEdit(d)]);
    var bound := Max(r.maxFile, d.nextFile.value);
    MaxNumberErased(bound, e.added, vs.nextFile);
    BelowGrows(vs.current, r.maxFile, r'.maxFile);
    AppliedNumbers(vs.current, d, r'.maxFile);
  }

  lemma {:induction false} MaxNumberErased(bound: nat, added: seq<(nat, File)>, limit: nat)
    requires bound <= limit && forall a :: a in added ==> a.1.number < limit
    ensures MaxNumber(bound, EraseAdded(added)) == MaxNumber(bound, added) <= limit
  {
    if added != [] {
      var n := |added| - 1;
      MaxNumberErased(bound, added[..n], limit);
      assert EraseAdded(added)[..n] == EraseAdded(added[..n]);
      assert added[n] in added;
    }
  }

  lemma {:induction false} AppliedSame(v: Version, e: Edit, d: Edit)
    requires e.deleted == d.deleted && e.added == d.added
    ensures Apply(v, e) == Apply(v, d)
  {
  }

  lemma {:induction false} ReplayLast(records: seq<Edit>, e: Edit)
    ensures ReplayAll(records + [e]) == ReplayStep(ReplayAll(records), e)
  {
    assert (records + [e])[..|records|] == records;
  }

  lemma {:induction false} BelowGrows(v: Version, bound: nat, bound': nat)
    requires NumbersBelow(v, bound) && bound <= bound'
    ensures NumbersBelow(v, bound')
  {
  }

  /** A life of a version set from the creation of its manifest: `before[i]` is the state when edit
      `i` is logged. */
  ghost predicate IsLife(start: VersionSet, before: seq<VersionSet>, edits: seq<Edit>) {
    && |before| == |edits| && Ordered(start.current) && NumbersBelow(start.current, start.nextFile)
    && forall i :: 0 <= i < |edits| ==>
         Later(Prior(start, before, edits, i), before[i]) && Proper(before[i], edits[i])
  }

  /** The state right after edit `i - 1`. */
  function Prior(start: VersionSet, before: seq<VersionSet>, edits: seq<Edit>, i: nat): VersionSet
    requires i <= |edits| == |before|
  {
    if i == 0 then start else AfterEdit(before[i - 1], edits[i - 1])
  }

  /** The records such a life leaves in the manifest. */
  function Records(start: VersionSet, before: seq<VersionSet>, edits: seq<Edit>): seq<Edit>
    requires |before| == |edits|
  {
    if edits == [] then [EraseEdit(Snapshot(start))]
    else
      var n := |edits| - 1;
      Records(start, before[..n], edits[..n]) + [RecordFor(before[n], edits[n])]
  }

  /** After any number of edits, replaying the manifest agrees with the version set in memory. */
  lemma {:induction false} ReplayAgrees(start: VersionSet, before: seq<VersionSet>, edits: seq<Edit>)
    requires IsLife(start, before, edits)
    ensures Agrees(Records(start, before, edits), Prior(start, before, edits, |edits|))
  {
    hide Agrees, Ordered, NumbersBelow, Later, Proper, AfterEdit, RecordFor;
    if edits == [] {
      SnapshotReplays(start);
    } else {
      var n := |edits| - 1;
      assert forall i :: 0 <= i <= n ==> Prior(start, before[..n], edits[..n], i) == Prior(start, before, edits, i);
      forall i | 0 <= i < n
        ensures Later(Prior(start, before[..n], edits[..n], i), before[..n][i]) && Proper(before[..n][i], edits[..n][i])
      {
        assert before[..n][i] == before[i] && edits[..n][i] == edits[i];
      }
      ReplayAgrees(start, before[..n], edits[..n]);
      EditReplays(Records(start, before[..n], edits[..n]), Prior(start, before, edits, n), before[n], edits[n]);
    }
  }
}
