/** The version set and its manifest: logging an edit, and rebuilding the version from the log. */
module Manifest {
  import opened Entries
  import opened Keys
  import opened Versions
  import opened Edits

  /** The byte string "byte_comparator". */
  const COMPARATOR: Bytes := [98, 121, 116, 101, 95, 99, 111, 109, 112, 97, 114, 97, 116, 111, 114]

  /** `open` tells whether this process has created its own manifest file yet. */
  datatype VersionSet = VersionSet(current: Version, nextFile: nat, lastSeq: nat, logNumber: nat, open: bool)

  const EMPTY_VERSION: Version := [[], [], [], [], [], [], []]

  // ---- Erasing readers: what the encoded form keeps of a file ----

  function Erase(f: File): File { f.(reader := None) }

  function EraseAll(fs: seq<File>): (r: seq<File>)
    ensures |r| == |fs| && forall i :: 0 <= i < |fs| ==> r[i] == Erase(fs[i])
  {
    seq(|fs|, i requires 0 <= i < |fs| => Erase(fs[i]))
  }

  function EraseVersion(v: Version): (r: Version)
    ensures forall l :: 0 <= l < NUM_LEVELS ==> r[l] == EraseAll(v[l])
  {
    seq(NUM_LEVELS, l requires 0 <= l < NUM_LEVELS => EraseAll(v[l]))
  }

  function EraseAdded(added: seq<(nat, File)>): (r: seq<(nat, File)>)
    ensures |r| == |added| && forall i :: 0 <= i < |added| ==> r[i] == (added[i].0, Erase(added[i].1))
  {
    seq(|added|, i requires 0 <= i < |added| => (added[i].0, Erase(added[i].1)))
  }

  function EraseEdit(e: Edit): Edit { e.(added := EraseAdded(e.added)) }

  lemma {:induction false} EraseRetained(fs: seq<File>, l: nat, deleted: set<(nat, nat)>)
    ensures EraseAll(Retained(fs, l, deleted)) == Retained(EraseAll(fs), l, deleted)
  {
    if fs != [] {
      var n := |fs| - 1;
      EraseRetained(fs[..n], l, deleted);
      assert EraseAll(fs)[..n] == EraseAll(fs[..n]);
    }
  }

  lemma {:induction false} EraseAddedAt(added: seq<(nat, File)>, l: nat)
    ensures EraseAll(AddedAt(added, l)) == AddedAt(EraseAdded(added), l)
  {
    if added != [] {
      var n := |added| - 1;
      EraseAddedAt(added[..n], l);
      assert EraseAdded(added)[..n] == EraseAdded(added[..n]);
    }
  }

  lemma {:induction false} EraseInsert(l: nat, f: File, fs: seq<File>)
    ensures EraseAll(Insert(l, f, fs)) == Insert(l, Erase(f), EraseAll(fs))
  {
    hide Less;
    if fs == [] || Precedes(l, f, fs[0]) {
      assert EraseAll([f] + fs) == [Erase(f)] + EraseAll(fs);
    } else {
      EraseInsert(l, f, fs[1..]);
      assert EraseAll(fs)[1..] == EraseAll(fs[1..]);
      assert !Precedes(l, Erase(f), EraseAll(fs)[0]);
    }
  }

  /** Sorting looks at numbers and keys only. */
  lemma {:induction false} EraseSort(l: nat, fs: seq<File>)
    ensures EraseAll(SortFiles(l, fs)) == SortFiles(l, EraseAll(fs))
  {
    if fs != [] {
      EraseSort(l, fs[1..]);
      EraseInsert(l, fs[0], SortFiles(l, fs[1..]));
      assert EraseAll(fs)[1..] == EraseAll(fs[1..]);
    }
  }

  /** Applying an erased edit to an erased version. */
  lemma {:induction false} EraseApply(v: Version, e: Edit, l: nat)
    requires l < NUM_LEVELS
    ensures EraseAll(Apply(v, e)[l]) ==
            SortFiles(l, Retained(EraseAll(v[l]), l, e.deleted) + AddedAt(EraseEdit(e).added, l))
  {
    hide SortFiles, Retained, AddedAt;
    EraseSort(l, Retained(v[l], l, e.deleted) + AddedAt(e.added, l));
    EraseRetained(v[l], l, e.deleted);
    EraseAddedAt(e.added, l);
    var a, b := Retained(v[l], l, e.deleted), AddedAt(e.added, l);
    assert EraseAll(a + b) == EraseAll(a) + EraseAll(b);
  }

  // ---- Logging an edit ----

  function WithDefaults(vs: VersionSet, e: Edit): Edit {
    e.(nextFile := if e.nextFile.Some? then e.nextFile else Some(vs.nextFile),
       lastSeq := if e.lastSeq.Some? then e.lastSeq else Some(vs.lastSeq))
  }

  function AllFiles(v: Version, levels: nat): seq<(nat, File)>
    requires levels <= NUM_LEVELS
  {
    if levels == 0 then [] else AllFiles(v, levels - 1) + AllAt(levels - 1, v[levels - 1])
  }

  /** `WriteSnapshot`. */
  function Snapshot(vs: VersionSet): Edit {
    Edit(Some(COMPARATOR), Some(vs.logNumber), Some(vs.nextFile), Some(vs.lastSeq), {},
         AllFiles(vs.current, NUM_LEVELS))
  }

  /** Creating the manifest: a file number for it, and a snapshot as its first record. */
  function Switched(vs: VersionSet): VersionSet { vs.(nextFile := vs.nextFile + 1, open := true) }

  /** The state `LogAndApply` installs once the edit (with defaults) is logged. */
  function Installed(vs: VersionSet, e: Edit): VersionSet
    requires e.lastSeq.Some?
  {
    vs.(current := Apply(vs.current, e),
        logNumber := if e.logNumber.Some? then e.logNumber.value else vs.logNumber,
        lastSeq := e.lastSeq.value)
  }

  // ---- Replaying a manifest ----

  /** The loop state of `VersionSet::Recover`; the levels are not sorted until the end. */
  datatype Replay = Replay(raw: Version, maxFile: nat, maxSeq: nat, logNumber: nat)

  function Max(a: nat, b: nat): nat { if a < b then b else a }

  function MaxNumber(bound: nat, added: seq<(nat, File)>): (r: nat)
    ensures bound <= r && forall a :: a in added ==> a.1.number < r
    ensures (forall a :: a in added ==> a.1.number < bound) ==> r == bound
    ensures r == bound || exists a :: a in added && a.1.number + 1 == r
  {
    if added == [] then bound
    else
      assert forall a :: a in added <==> a in added[..|added| - 1] || a == added[|added| - 1];
      Max(MaxNumber(bound, added[..|added| - 1]), added[|added| - 1].1.number + 1)
  }

  function RawApply(raw: Version, e: Edit): (r: Version)
    ensures forall l :: 0 <= l < NUM_LEVELS ==> r[l] == Retained(raw[l], l, e.deleted) + AddedAt(e.added, l)
  {
    seq(NUM_LEVELS, l requires 0 <= l < NUM_LEVELS => Retained(raw[l], l, e.deleted) + AddedAt(e.added, l))
  }

  function ReplayStep(r: Replay, e: Edit): Replay {
    Replay(
      RawApply(r.raw, e),
      MaxNumber(if e.nextFile.Some? then Max(r.maxFile, e.nextFile.value) else r.maxFile, e.added),
      if e.lastSeq.Some? then Max(r.maxSeq, e.lastSeq.value) else r.maxSeq,
      if e.logNumber.Some? then e.logNumber.value else r.logNumber)
  }

  function ReplayAll(records: seq<Edit>): Replay {
    if records == [] then Replay(EMPTY_VERSION, 0, 0, 0)
    else ReplayStep(ReplayAll(records[..|records| - 1]), records[|records| - 1])
  }

  function SortLevels(raw: Version): (r: Version)
    ensures forall l :: 0 <= l < NUM_LEVELS ==> r[l] == SortFiles(l, raw[l])
  {
    seq(NUM_LEVELS, l requires 0 <= l < NUM_LEVELS => SortFiles(l, raw[l]))
  }

  /** `VersionSet::Recover` before readers are opened. */
  function Recovered(records: seq<Edit>): VersionSet {
    var r := ReplayAll(records);
    VersionSet(SortLevels(r.raw), if r.maxFile > 0 then r.maxFile else 2, r.maxSeq, r.logNumber, false)
  }

  // ---- The counters of any manifest ----

  ghost predicate NamesFile(e: Edit, n: nat) {
    e.nextFile == Some(n) || exists a :: a in e.added && a.1.number + 1 == n
  }

  /** `n` is the largest next file number that the records call for. */
  ghost predicate LargestFile(records: seq<Edit>, n: nat) {
    && (forall e, m: nat :: e in records && NamesFile(e, m) ==> m <= n)
    && (n == 0 || exists e :: e in records && NamesFile(e, n))
  }

  ghost predicate LargestSeq(records: seq<Edit>, n: nat) {
    && (forall e :: e in records && e.lastSeq.Some? ==> e.lastSeq.value <= n)
    && (n == 0 || exists e :: e in records && e.lastSeq == Some(n))
  }

  ghost predicate LastLog(records: seq<Edit>, n: nat) {
    || (n == 0 && forall e :: e in records ==> e.logNumber.None?)
    || exists i :: 0 <= i < |records| && records[i].logNumber == Some(n)
                   && forall j :: i < j < |records| ==> records[j].logNumber.None?
  }

  lemma {:induction false} LargestFileNext(records: seq<Edit>, n: nat, e: Edit)
    requires LargestFile(records, n)
    ensures LargestFile(records + [e], MaxNumber(if e.nextFile.Some? then Max(n, e.nextFile.value) else n, e.added))
  {
    var bound := if e.nextFile.Some? then Max(n, e.nextFile.value) else n;
    var r := MaxNumber(bound, e.added);
    assert r == n || NamesFile(e, r);
    assert forall x :: x in records + [e] <==> x in records || x == e;
  }

  lemma {:induction false} LastLogNext(records: seq<Edit>, n: nat, e: Edit)
    requires LastLog(records, n)
    ensures LastLog(records + [e], if e.logNumber.Some? then e.logNumber.value else n)
  {
    var after := records + [e];
    assert forall x :: x in after <==> x in records || x == e;
    assert after[|records|] == e;
    if e.logNumber.None? && exists x :: x in records && x.logNumber.Some? {
      var i :| 0 <= i < |records| && records[i].logNumber == Some(n)
               && forall j :: i < j < |records| ==> records[j].logNumber.None?;
      assert after[i].logNumber == Some(n);
    }
  }

  lemma {:induction false} ReplayCounters(records: seq<Edit>)
    ensures var r := ReplayAll(records);
            LargestFile(records, r.maxFile) && LargestSeq(records, r.maxSeq) && LastLog(records, r.logNumber)
  {
    if records != [] {
      var n := |records| - 1;
      var r := ReplayAll(records[..n]);
      ReplayCounters(records[..n]);
      LargestFileNext(records[..n], r.maxFile, records[n]);
      LastLogNext(records[..n], r.logNumber, records[n]);
      assert records == records[..n] + [records[n]];
      assert forall x :: x in records <==> x in records[..n] || x == records[n];
    }
  }

  /** Whatever a manifest holds, recovery starts from the largest sequence number in it, from the last
      log number, and from the largest file number it calls for, or from 2 if it calls for none. */
  lemma {:induction false} RecoveredCounters(records: seq<Edit>)
    ensures var r := Recovered(records);
            && LargestSeq(records, r.lastSeq) && LastLog(records, r.logNumber)
            && (LargestFile(records, r.nextFile) || (r.nextFile == 2 && LargestFile(records, 0)))
            && r.nextFile > 0
  {
    ReplayCounters(records);
  }

  // ---- Replay agrees with apply ----

  lemma {:induction false} CountRetained(fs: seq<File>, l: nat, deleted: set<(nat, nat)>, f: File)
    ensures multiset(Retained(fs, l, deleted))[f] == if (l, f.number) in deleted then 0 else multiset(fs)[f]
  {
    if fs != [] {
      var n := |fs| - 1;
      CountRetained(fs[..n], l, deleted, f);
      assert fs == fs[..n] + [fs[n]];
    }
  }

  lemma {:induction false} RetainedPermuted(a: seq<File>, b: seq<File>, l: nat, deleted: set<(nat, nat)>)
    requires multiset(a) == multiset(b)
    ensures multiset(Retained(a, l, deleted)) == multiset(Retained(b, l, deleted))
  {
    hide Retained;
    var x, y := multiset(Retained(a, l, deleted)), multiset(Retained(b, l, deleted));
    forall f ensures x[f] == y[f] {
      CountRetained(a, l, deleted, f);
      CountRetained(b, l, deleted, f);
    }
  }

  lemma {:induction false} CountTwice<T>(s: seq<T>, i: nat, j: nat)
    requires i < j < |s| && s[i] == s[j]
    ensures multiset(s)[s[i]] >= 2
  {
    assert s == s[..i] + [s[i]] + s[i + 1..j] + [s[j]] + s[j + 1..];
  }

  lemma {:induction false} CountOnce<T>(s: seq<T>, x: T)
    requires forall i, j :: 0 <= i < j < |s| ==> s[i] != s[j]
    ensures multiset(s)[x] <= 1
  {
    if i :| 0 <= i < |s| && s[i] == x {
      assert s == s[..i] + [x] + s[i + 1..];
      assert x !in s[..i] && x !in s[i + 1..];
      assert multiset(s[..i])[x] == 0 && multiset(s[i + 1..])[x] == 0;
    } else {
      assert x !in s;
    }
  }

  /** Whatever order the files come in, sorting them gives the one valid order. */
  lemma {:induction false} SortPermuted(l: nat, a: seq<File>, b: seq<File>)
    requires multiset(a) == multiset(b) && InOrder(l, b) && RangesOk(b)
    ensures SortFiles(l, a) == b
  {
    hide SortFiles, Less;
    InOrderIsStrict(l, b);
    forall f ensures f in a <==> f in b { assert f in a <==> f in multiset(a); assert f in b <==> f in multiset(b); }
    forall i, j | 0 <= i < j < |a| ensures Above(l, a[i], a[j]) || Above(l, a[j], a[i]) {
      if a[i] == a[j] {
        CountTwice(a, i, j);
        assert forall x, y :: 0 <= x < y < |b| ==> b[x] != b[y];
        CountOnce(b, a[i]);
      }
      var x :| 0 <= x < |b| && b[x] == a[i];
      var y :| 0 <= y < |b| && b[y] == a[j];
    }
    SortInOrder(l, a);
    InOrderIsStrict(l, SortFiles(l, a));
    OrderUnique(l, SortFiles(l, a), b);
  }

  ghost predicate Ordered(v: Version) {
    forall l :: 0 <= l < NUM_LEVELS ==> InOrder(l, v[l]) && RangesOk(v[l])
  }

  /** One more record, one more apply. */
  lemma {:induction false} ReplayStepAgrees(records: seq<Edit>, v: Version, e: Edit)
    requires SortLevels(ReplayAll(records).raw) == EraseVersion(v)
    requires Ordered(Apply(v, e))
    ensures SortLevels(ReplayAll(records + [EraseEdit(e)]).raw) == EraseVersion(Apply(v, e))
  {
    var r := ReplayAll(records);
    assert (records + [EraseEdit(e)])[..|records|] == records;
    var raw' := ReplayAll(records + [EraseEdit(e)]).raw;
    assert raw' == ReplayStep(r, EraseEdit(e)).raw;
    hide SortFiles, Retained, AddedAt, Apply, ReplayAll, Ordered;
    forall l | 0 <= l < NUM_LEVELS ensures SortFiles(l, raw'[l]) == EraseAll(Apply(v, e)[l]) {
      LevelAgrees(r.raw[l], v, e, l);
    }
  }

  lemma {:induction false} LevelAgrees(raw: seq<File>, v: Version, e: Edit, l: nat)
    requires l < NUM_LEVELS && SortFiles(l, raw) == EraseAll(v[l])
    requires Ordered(Apply(v, e))
    ensures SortFiles(l, Retained(raw, l, e.deleted) + AddedAt(EraseEdit(e).added, l)) == EraseAll(Apply(v, e)[l])
  {
    var fs := Apply(v, e)[l];
    assert InOrder(l, fs) && RangesOk(fs);
    hide SortFiles, Retained, AddedAt, Apply, Less, Ordered;
    EraseApply(v, e, l);
    RetainedPermuted(raw, EraseAll(v[l]), l, e.deleted);
    ErasedInOrder(l, fs);
    SortPermuted(l, Retained(raw, l, e.deleted) + AddedAt(EraseEdit(e).added, l), EraseAll(fs));
  }

  lemma {:induction false} ErasedInOrder(l: nat, fs: seq<File>)
    requires InOrder(l, fs) && RangesOk(fs)
    ensures InOrder(l, EraseAll(fs)) && RangesOk(EraseAll(fs))
  {
    hide Less;
  }

  lemma {:induction false} SnapshotNumbers(v: Version, levels: nat, bound: nat, a: (nat, File))
    requires levels <= NUM_LEVELS && NumbersBelow(v, bound) && a in AllFiles(v, levels)
    ensures a.1.number < bound
  {
    if levels > 0 && a !in AllFiles(v, levels - 1) {
      assert a in AllAt(levels - 1, v[levels - 1]);
    } else if levels > 0 {
      SnapshotNumbers(v, levels - 1, bound, a);
    }
  }

  lemma {:induction false} SnapshotLevels(v: Version, levels: nat, l: nat)
    requires l < NUM_LEVELS && levels <= NUM_LEVELS
    ensures AddedAt(EraseAdded(AllFiles(v, levels)), l) == if l < levels then EraseAll(v[l]) else []
  {
    hide AddedAt, EraseAdded, AllAt, EraseAll;
    if levels > 0 {
      SnapshotLevels(v, levels - 1, l);
      AddedBoth(AllFiles(v, levels - 1), AllAt(levels - 1, v[levels - 1]), l);
      LevelAdded(levels - 1, v[levels - 1], l);
    } else {
      LevelAdded(0, [], l);
      NoneAt();
    }
  }

  lemma {:induction false} NoneAt()
    ensures AllAt(0, []) == [] && EraseAll([]) == []
  {
  }

  lemma {:induction false} AddedBoth(a: seq<(nat, File)>, b: seq<(nat, File)>, l: nat)
    ensures AddedAt(EraseAdded(a + b), l) == AddedAt(EraseAdded(a), l) + AddedAt(EraseAdded(b), l)
  {
    hide AddedAt, EraseAdded;
    ErasedConcat(a, b);
    AddedConcat(EraseAdded(a), EraseAdded(b), l);
  }

  lemma {:induction false} LevelAdded(k: nat, fs: seq<File>, l: nat)
    ensures AddedAt(EraseAdded(AllAt(k, fs)), l) == if l == k then EraseAll(fs) else []
  {
    hide AddedAt;
    ErasedLevel(k, fs);
    if l == k { AddedAll(l, EraseAll(fs)); } else { AddedNone(AllAt(k, EraseAll(fs)), l); }
  }

  lemma {:induction false} ErasedConcat(a: seq<(nat, File)>, b: seq<(nat, File)>)
    ensures EraseAdded(a + b) == EraseAdded(a) + EraseAdded(b)
  {
  }

  lemma {:induction false} ErasedLevel(l: nat, fs: seq<File>)
    ensures EraseAdded(AllAt(l, fs)) == AllAt(l, EraseAll(fs))
  {
  }

  lemma {:induction false} AddedLast(a: seq<(nat, File)>, x: (nat, File), l: nat)
    ensures AddedAt(a + [x], l) == if x.0 == l then AddedAt(a, l) + [x.1] else AddedAt(a, l)
  {
    assert (a + [x])[..|a|] == a;
  }

  lemma {:induction false} AddedConcat(a: seq<(nat, File)>, b: seq<(nat, File)>, l: nat)
    ensures AddedAt(a + b, l) == AddedAt(a, l) + AddedAt(b, l)
  {
    if b == [] {
      assert a + b == a;
    } else {
      var n := |b| - 1;
      AddedConcat(a, b[..n], l);
      AddedStep(a, b[..n], b[n], l);
      assert a + b == a + b[..n] + [b[n]] && b == b[..n] + [b[n]];
    }
  }

  lemma {:induction false} AddedStep(a: seq<(nat, File)>, b: seq<(nat, File)>, x: (nat, File), l: nat)
    requires AddedAt(a + b, l) == AddedAt(a, l) + AddedAt(b, l)
    ensures AddedAt(a + b + [x], l) == AddedAt(a, l) + AddedAt(b + [x], l)
  {
    hide AddedAt;
    AddedLast(a + b, x, l);
    AddedLast(b, x, l);
  }

  /** A manifest that holds just a snapshot replays to the version it was taken of. */
  lemma {:induction false} SnapshotAgrees(vs: VersionSet)
    requires Ordered(vs.current)
    ensures SortLevels(ReplayAll([EraseEdit(Snapshot(vs))]).raw) == EraseVersion(vs.current)
  {
    var e := EraseEdit(Snapshot(vs));
    assert [e][..0] == [];
    assert ReplayAll([]) == Replay(EMPTY_VERSION, 0, 0, 0);
    var raw := ReplayAll([e]).raw;
    assert raw == RawApply(EMPTY_VERSION, e);
    hide ReplayAll, SortFiles, AddedAt, Less;
    forall l | 0 <= l < NUM_LEVELS ensures SortFiles(l, raw[l]) == EraseAll(vs.current[l]) {
      assert Retained(EMPTY_VERSION[l], l, e.deleted) == [];
      SnapshotLevels(vs.current, NUM_LEVELS, l);
      assert [] + EraseAll(vs.current[l]) == EraseAll(vs.current[l]);
      ErasedInOrder(l, vs.current[l]);
      SortFixed(l, EraseAll(vs.current[l]));
    }
  }
}
