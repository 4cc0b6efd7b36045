/** Version edits and how a version is rebuilt from one. */
module Edits {
  import opened Keys
  import opened Entries
  import opened Versions

  /** `deleted` holds (level, file number) pairs, `added` (level, file) pairs in push order. */
  datatype Edit = Edit(
    comparator: Option<Bytes>, logNumber: Option<nat>, nextFile: Option<nat>, lastSeq: Option<nat>,
    deleted: set<(nat, nat)>, added: seq<(nat, File)>)

  const EMPTY_EDIT := Edit(None, None, None, None, {}, [])

  function Retained(fs: seq<File>, level: nat, deleted: set<(nat, nat)>): (r: seq<File>)
    ensures forall f :: f in r <==> f in fs && (level, f.number) !in deleted
  {
    if fs == [] then []
    else
      var r := Retained(fs[..|fs| - 1], level, deleted);
      var f := fs[|fs| - 1];
      assert forall g :: g in fs <==> g in fs[..|fs| - 1] || g == f;
      if (level, f.number) in deleted then r else r + [f]
  }

  function AddedAt(added: seq<(nat, File)>, level: nat): (r: seq<File>)
    ensures forall f :: f in r <==> (level, f) in added
  {
    if added == [] then []
    else
      var r := AddedAt(added[..|added| - 1], level);
      var a := added[|added| - 1];
      assert forall g :: g in added <==> g in added[..|added| - 1] || g == a;
      if a.0 == level then r + [a.1] else r
  }

  /** The comparators given to `std::sort`: level 0 by number descending, others by smallest key. */
  predicate Precedes(level: nat, a: File, b: File) {
    if level == 0 then a.number > b.number else Less(a.smallest, b.smallest)
  }

  function Insert(level: nat, f: File, fs: seq<File>): (r: seq<File>)
    ensures multiset(r) == multiset(fs) + multiset{f}
    ensures forall g :: g in r <==> g in fs || g == f
  {
    if fs == [] || Precedes(level, f, fs[0]) then
      [f] + fs
    else
      assert fs == [fs[0]] + fs[1..];
      [fs[0]] + Insert(level, f, fs[1..])
  }

  function SortFiles(level: nat, fs: seq<File>): (r: seq<File>)
    ensures multiset(r) == multiset(fs)
    ensures forall g :: g in r <==> g in fs
  {
    if fs == [] then []
    else
      assert fs == [fs[0]] + fs[1..];
      assert forall g :: g in fs <==> g in fs[1..] || g == fs[0];
      Insert(level, fs[0], SortFiles(level, fs[1..]))
  }

  /** The version after an edit: filter, append, sort, level by level. */
  function Apply(v: Version, e: Edit): (r: Version)
    ensures forall l :: 0 <= l < NUM_LEVELS ==> r[l] == SortFiles(l, Retained(v[l], l, e.deleted) + AddedAt(e.added, l))
  {
    seq(NUM_LEVELS, l requires 0 <= l < NUM_LEVELS => SortFiles(l, Retained(v[l], l, e.deleted) + AddedAt(e.added, l)))
  }

  // ---- What the sort achieves ----

  /** How neighbours must lie in a valid level: numbers descend, or ranges follow each other. */
  ghost predicate Above(level: nat, a: File, b: File) {
    if level == 0 then a.number > b.number else Less(a.largest, b.smallest)
  }

  ghost predicate InOrder(level: nat, fs: seq<File>) {
    forall i, j :: 0 <= i < j < |fs| ==> Above(level, fs[i], fs[j])
  }

  /** Any two files could be put in order. */
  ghost predicate Comparable(level: nat, fs: seq<File>) {
    && (forall f :: f in fs ==> AtMost(f.smallest, f.largest))
    && forall i, j :: 0 <= i < j < |fs| ==> Above(level, fs[i], fs[j]) || Above(level, fs[j], fs[i])
  }

  lemma {:induction false} InsertInOrder(level: nat, f: File, fs: seq<File>)
    requires InOrder(level, fs) && AtMost(f.smallest, f.largest)
    requires forall g :: g in fs ==> AtMost(g.smallest, g.largest) && (Above(level, f, g) || Above(level, g, f))
    ensures InOrder(level, Insert(level, f, fs))
  {
    var r := Insert(level, f, fs);
    if fs == [] {
    } else if Precedes(level, f, fs[0]) {
      assert Above(level, f, fs[0]);
      forall g | g in fs ensures Above(level, f, g) {
        assert g == fs[0] || Above(level, fs[0], g);
      }
    } else {
      InsertInOrder(level, f, fs[1..]);
      forall g | g in r[1..] ensures Above(level, fs[0], g) {
        assert g in fs[1..] || g == f;
      }
    }
  }

  lemma {:induction false} SortInOrder(level: nat, fs: seq<File>)
    requires Comparable(level, fs)
    ensures InOrder(level, SortFiles(level, fs))
  {
    if fs != [] {
      SortInOrder(level, fs[1..]);
      forall g | g in SortFiles(level, fs[1..]) ensures Above(level, fs[0], g) || Above(level, g, fs[0]) {
        var i :| 0 <= i < |fs[1..]| && fs[1..][i] == g;
        assert fs[i + 1] == g;
      }
      InsertInOrder(level, fs[0], SortFiles(level, fs[1..]));
    }
  }

  ghost predicate StrictlySorted(level: nat, fs: seq<File>) {
    forall i, j :: 0 <= i < j < |fs| ==> Precedes(level, fs[i], fs[j])
  }

  lemma {:induction false} SameFirst(level: nat, a: seq<File>, b: seq<File>)
    requires a != [] && multiset(a) == multiset(b)
    requires StrictlySorted(level, a) && StrictlySorted(level, b)
    ensures b != [] && a[0] == b[0]
  {
    hide Less;
    assert a[0] in multiset(b);
    var i :| 0 <= i < |b| && b[i] == a[0];
    assert b[0] in multiset(a);
    var j :| 0 <= j < |a| && a[j] == b[0];
  }

  /** Files in strict order are determined by their multiset, so the result does not depend on the
      sorting algorithm. */
  lemma {:induction false} OrderUnique(level: nat, a: seq<File>, b: seq<File>)
    requires multiset(a) == multiset(b)
    requires StrictlySorted(level, a) && StrictlySorted(level, b)
    ensures a == b
  {
    hide Precedes;
    if a == [] {
      assert |multiset(b)| == |b|;
    } else {
      SameFirst(level, a, b);
      assert a == [a[0]] + a[1..] && b == [b[0]] + b[1..];
      assert multiset(a[1..]) == multiset(a) - multiset{a[0]} == multiset(b[1..]);
      OrderUnique(level, a[1..], b[1..]);
    }
  }

  // ---- What an edit leaves alone ----

  lemma {:induction false} RetainedAll(fs: seq<File>, level: nat, deleted: set<(nat, nat)>)
    requires forall f :: f in fs ==> (level, f.number) !in deleted
    ensures Retained(fs, level, deleted) == fs
  {
    if fs != [] {
      RetainedAll(fs[..|fs| - 1], level, deleted);
      assert fs == fs[..|fs| - 1] + [fs[|fs| - 1]];
    }
  }

  lemma {:induction false} RetainedInOrder(fs: seq<File>, level: nat, deleted: set<(nat, nat)>)
    requires InOrder(level, fs)
    ensures InOrder(level, Retained(fs, level, deleted))
  {
    hide Above;
    if fs != [] {
      var n := |fs| - 1;
      RetainedInOrder(fs[..n], level, deleted);
      forall g | g in Retained(fs[..n], level, deleted) ensures Above(level, g, fs[n]) {
        var i :| 0 <= i < n && fs[i] == g;
      }
    }
  }

  lemma {:induction false} AddedNone(added: seq<(nat, File)>, level: nat)
    requires forall a :: a in added ==> a.0 != level
    ensures AddedAt(added, level) == []
  {
    if added != [] {
      AddedNone(added[..|added| - 1], level);
    }
  }

  function AllAt(level: nat, fs: seq<File>): (added: seq<(nat, File)>)
    ensures |added| == |fs| && forall i :: 0 <= i < |fs| ==> added[i] == (level, fs[i])
  {
    seq(|fs|, i requires 0 <= i < |fs| => (level, fs[i]))
  }

  lemma {:induction false} AddedAll(level: nat, fs: seq<File>)
    ensures AddedAt(AllAt(level, fs), level) == fs
  {
    if fs != [] {
      var n := |fs| - 1;
      AddedAll(level, fs[..n]);
      assert AllAt(level, fs)[..n] == AllAt(level, fs[..n]);
      assert fs == fs[..n] + [fs[n]];
    }
  }

  ghost predicate RangesOk(fs: seq<File>) {
    forall f :: f in fs ==> AtMost(f.smallest, f.largest)
  }

  lemma {:induction false} InOrderIsStrict(level: nat, fs: seq<File>)
    requires InOrder(level, fs) && RangesOk(fs)
    ensures StrictlySorted(level, fs)
  {
    hide Less;
    forall i, j | 0 <= i < j < |fs| ensures Precedes(level, fs[i], fs[j]) {
      assert Above(level, fs[i], fs[j]);
      assert fs[i] in fs && fs[j] in fs;
    }
  }

  /** Sorting files that are already in order changes nothing. */
  lemma {:induction false} SortFixed(level: nat, fs: seq<File>)
    requires InOrder(level, fs) && RangesOk(fs)
    ensures SortFiles(level, fs) == fs
  {
    hide Less, SortFiles;
    forall i, j | 0 <= i < j < |fs| ensures Above(level, fs[i], fs[j]) || Above(level, fs[j], fs[i]) {}
    SortInOrder(level, fs);
    InOrderIsStrict(level, fs);
    InOrderIsStrict(level, SortFiles(level, fs));
    OrderUnique(level, fs, SortFiles(level, fs));
  }
}
