/** A version: the table files of levels 0..6, and the lookup through them. */
module Versions {
  import opened Keys
  import opened Entries
  import opened Recency
  import opened BlockSearch

  const NUM_LEVELS: nat := 7

  /** File metadata with its reader; the reader serves the entries of the table file.  A decoded
      edit has no reader yet. */
  datatype File = File(number: nat, size: nat, smallest: Key, largest: Key, reader: Option<seq<Entry>>)

  type Version = v: seq<seq<File>> | |v| == NUM_LEVELS witness seq(NUM_LEVELS, _ => [])

  function Content(f: File): seq<Entry> {
    if f.reader.Some? then f.reader.value else []
  }

  predicate InRange(f: File, k: Key) {
    AtMost(f.smallest, k) && AtMost(k, f.largest)
  }

  ghost predicate ValidFile(f: File) {
    && f.reader.Some? && Sorted(Content(f)) && AtMost(f.smallest, f.largest)
    && forall e :: e in Content(f) ==> InRange(f, e.key) && (e.kind == VALUE || e.kind == DELETION)
  }

  /** Level 0: newest file first, key ranges may overlap. */
  ghost predicate ValidLevel0(fs: seq<File>) {
    && (forall f :: f in fs ==> ValidFile(f))
    && forall i, j :: 0 <= i < j < |fs| ==> fs[i].number > fs[j].number
  }

  /** Sorted by key, with pairwise disjoint ranges. */
  ghost predicate Disjoint(fs: seq<File>) {
    && (forall i :: 0 <= i < |fs| ==> AtMost(fs[i].smallest, fs[i].largest))
    && forall i, j :: 0 <= i < j < |fs| ==> Less(fs[i].largest, fs[j].smallest)
  }

  ghost predicate DistinctNumbers(fs: seq<File>) {
    forall f, g :: f in fs && g in fs && f.number == g.number ==> f == g
  }

  /** Levels 1..6: disjoint key ranges, no empty file. */
  ghost predicate ValidLevel(fs: seq<File>) {
    (forall f :: f in fs ==> ValidFile(f) && Content(f) != []) && Disjoint(fs) && DistinctNumbers(fs)
  }

  ghost predicate NumbersBelow(v: Version, bound: nat) {
    forall l, i :: 0 <= l < NUM_LEVELS && 0 <= i < |v[l]| ==> v[l][i].number < bound
  }

  ghost predicate ValidVersion(v: Version) {
    ValidLevel0(v[0]) && forall l :: 1 <= l < NUM_LEVELS ==> ValidLevel(v[l])
  }

  /** All entries of a level. */
  ghost function Flatten(fs: seq<File>): (r: Source)
    ensures forall e :: e in r <==> exists f :: f in fs && e in Content(f)
  {
    if fs == [] then []
    else
      assert forall f :: f in fs <==> f == fs[0] || f in fs[1..];
      Content(fs[0]) + Flatten(fs[1..])
  }

  /** The sources of a version, newest first: each level 0 file, then each deeper level. */
  ghost function StackOf(v: Version): (st: Stack)
    ensures |st| == |v[0]| + 6
    ensures forall i :: 0 <= i < |v[0]| ==> st[i] == Content(v[0][i])
    ensures forall l :: 1 <= l < NUM_LEVELS ==> st[|v[0]| + l - 1] == Flatten(v[l])
  {
    seq(|v[0]|, i requires 0 <= i < |v[0]| => Content(v[0][i])) +
    seq(6, l requires 0 <= l < 6 => Flatten(v[l + 1]))
  }

  lemma {:induction false} StackHolds(v: Version, x: Entry)
    ensures Holds(StackOf(v), x) <==> exists m, f :: 0 <= m < NUM_LEVELS && f in v[m] && x in Content(f)
  {
    hide Flatten;
    var st := StackOf(v);
    if i :| 0 <= i < |st| && x in st[i] {
      if i < |v[0]| { assert v[0][i] in v[0]; } else { assert x in Flatten(v[i - |v[0]| + 1]); }
    }
    if m, f :| 0 <= m < NUM_LEVELS && f in v[m] && x in Content(f) {
      if m == 0 {
        var i :| 0 <= i < |v[0]| && v[0][i] == f;
        assert x in st[i];
      } else {
        assert x in Flatten(v[m]);
        assert x in st[|v[0]| + m - 1];
      }
    }
  }

  lemma {:induction false} SortedConcat(a: Source, b: Source)
    requires Sorted(a) && Sorted(b) && forall x, y :: x in a && y in b ==> Before(x, y)
    ensures Sorted(a + b)
  {
    hide Before;
  }

  /** Everything in the first file of a level is before everything in the others. */
  lemma {:induction false} FirstFileBefore(fs: seq<File>, x: Entry, y: Entry)
    requires ValidLevel(fs) && fs != [] && x in Content(fs[0]) && y in Flatten(fs[1..])
    ensures Before(x, y)
  {
    hide Less, Sorted, Flatten;
    var f :| f in fs[1..] && y in Content(f);
    var i :| 0 <= i < |fs[1..]| && fs[1..][i] == f;
    assert fs[i + 1] == f && fs[0] in fs && f in fs;
    assert InRange(fs[0], x.key) && InRange(f, y.key);
  }

  lemma {:induction false} FlattenSorted(fs: seq<File>)
    requires ValidLevel(fs)
    ensures Sorted(Flatten(fs))
  {
    hide Before, Sorted;
    if fs != [] {
      FlattenSorted(fs[1..]);
      assert fs[0] in fs;
      forall x, y | x in Content(fs[0]) && y in Flatten(fs[1..]) ensures Before(x, y) { FirstFileBefore(fs, x, y); }
      SortedConcat(Content(fs[0]), Flatten(fs[1..]));
    } else {
      NoneSorted();
    }
  }

  lemma {:induction false} NoneSorted()
    ensures Sorted([])
  {
  }

  lemma {:induction false} StackSorted(v: Version)
    requires ValidVersion(v)
    ensures AllSorted(StackOf(v))
  {
    forall i | 0 <= i < |StackOf(v)| ensures Sorted(StackOf(v)[i]) {
      if i >= |v[0]| {
        FlattenSorted(v[i - |v[0]| + 1]);
      } else {
        assert v[0][i] in v[0];
      }
    }
  }

  /** When no file but number `c` can hold `k`, the level answers as that file does. */
  lemma {:induction false} VisibleInLevel(fs: seq<File>, k: Key, s: nat, c: int)
    requires forall i :: 0 <= i < |fs| && i != c ==> Visible(Content(fs[i]), k, s).None?
    ensures Visible(Flatten(fs), k, s) == if 0 <= c < |fs| then Visible(Content(fs[c]), k, s) else None
  {
    if fs != [] {
      VisibleConcat(Content(fs[0]), Flatten(fs[1..]), k, s);
      VisibleInLevel(fs[1..], k, s, c - 1);
    }
  }

  // ---- Reading one block of a file ----

  /** The file as a lookup of `k` sees it: its reader searches one block only. */
  function Narrowed(cut: Cutter, f: File, k: Key): File {
    f.(reader := Some(BlockFor(cut(Content(f)), k)))
  }

  function NarrowedLevel(cut: Cutter, fs: seq<File>, k: Key): (r: seq<File>)
    ensures |r| == |fs| && forall i :: 0 <= i < |fs| ==> r[i] == Narrowed(cut, fs[i], k)
  {
    seq(|fs|, i requires 0 <= i < |fs| => Narrowed(cut, fs[i], k))
  }

  function NarrowedVersion(cut: Cutter, v: Version, k: Key): (r: Version)
    ensures forall l :: 0 <= l < NUM_LEVELS ==> r[l] == NarrowedLevel(cut, v[l], k)
  {
    seq(NUM_LEVELS, l requires 0 <= l < NUM_LEVELS => NarrowedLevel(cut, v[l], k))
  }

  /** What one file answers. */
  function FileHit(cut: Cutter, f: File, k: Key, s: nat): Option<Entry> {
    Visible(Content(Narrowed(cut, f, k)), k, s)
  }

  /** What the files of a level answer together. */
  ghost function LevelHit(cut: Cutter, fs: seq<File>, k: Key, s: nat): Option<Entry> {
    Visible(Flatten(NarrowedLevel(cut, fs, k)), k, s)
  }

  lemma {:induction false} NarrowedHolds(cut: Cutter, f: File, k: Key, e: Entry)
    requires e in Content(Narrowed(cut, f, k))
    ensures e in Content(f)
  {
    hide Concat, BlockNumber;
    var blocks := cut(Content(f));
    var b := BlockNumber(blocks, k);
    var i :| 0 <= i < |blocks[b]| && blocks[b][i] == e;
    EntryAt(blocks, b, i);
  }

  lemma {:induction false} OutOfRange(cut: Cutter, f: File, k: Key, s: nat)
    requires ValidFile(f) && !InRange(f, k)
    ensures FileHit(cut, f, k, s).None?
  {
    hide Visible, Less, Sorted, Narrowed;
    forall e | e in Content(Narrowed(cut, f, k)) ensures e.key != k { NarrowedHolds(cut, f, k, e); }
  }

  /** No version of the key in these files is newer than `s`. */
  ghost predicate CurrentLevel(fs: seq<File>, k: Key, s: nat) {
    forall f, e :: f in fs && e in Content(f) && e.key == k ==> e.seqno <= s
  }

  ghost predicate Current(v: Version, k: Key, s: nat) {
    forall l :: 0 <= l < NUM_LEVELS ==> CurrentLevel(v[l], k, s)
  }

  /** A current read gets from one block what the whole file holds. */
  lemma {:induction false} CurrentFile(cut: Cutter, fs: seq<File>, i: nat, k: Key, s: nat)
    requires i < |fs| && ValidFile(fs[i]) && CurrentLevel(fs, k, s)
    ensures FileHit(cut, fs[i], k, s) == Visible(Content(fs[i]), k, s)
  {
    hide Visible, Less, Concat, Sorted, BlockNumber;
    assert fs[i] in fs;
    CurrentReadsAgree(cut(Content(fs[i])), k, s);
  }

  lemma {:induction false} CurrentFiles(cut: Cutter, fs: seq<File>, k: Key, s: nat)
    requires (forall f :: f in fs ==> ValidFile(f)) && CurrentLevel(fs, k, s)
    ensures Visible(Flatten(NarrowedLevel(cut, fs, k)), k, s) == Visible(Flatten(fs), k, s)
  {
    hide Visible, ValidFile, Narrowed;
    var ns := NarrowedLevel(cut, fs, k);
    if fs != [] {
      CurrentFile(cut, fs, 0, k, s);
      CurrentFiles(cut, fs[1..], k, s);
      assert ns[1..] == NarrowedLevel(cut, fs[1..], k);
      VisibleConcat(Content(fs[0]), Flatten(fs[1..]), k, s);
      VisibleConcat(Content(ns[0]), Flatten(ns[1..]), k, s);
    }
  }

  /** Hence a current read gets what the whole tables hold. */
  lemma {:induction false} CurrentVersion(cut: Cutter, v: Version, k: Key, s: nat)
    requires ValidVersion(v) && Current(v, k, s)
    ensures FirstHit(StackOf(NarrowedVersion(cut, v, k)), k, s) == FirstHit(StackOf(v), k, s)
  {
    hide Visible, ValidFile, Narrowed, Flatten, FirstHit, CurrentLevel, Disjoint, DistinctNumbers;
    var n := NarrowedVersion(cut, v, k);
    var st, st' := StackOf(v), StackOf(n);
    assert |n[0]| == |v[0]|;
    forall i | 0 <= i < |st| ensures Visible(st'[i], k, s) == Visible(st[i], k, s) {
      if i < |v[0]| {
        assert v[0][i] in v[0];
        CurrentFile(cut, v[0], i, k, s);
      } else {
        var l := i - |v[0]| + 1;
        assert st[|v[0]| + l - 1] == Flatten(v[l]) && st'[|n[0]| + l - 1] == Flatten(n[l]);
        CurrentFiles(cut, v[l], k, s);
      }
    }
    FirstHitSame(st', st, k, s);
  }

  /** `Version::Get`: level 0 newest to oldest, then one binary search per deeper level. */
  method Get(cut: Cutter, v: Version, k: Key, s: nat) returns (r: Answer)
    requires ValidVersion(v)
    ensures r == FirstHit(StackOf(NarrowedVersion(cut, v, k)), k, s)
    ensures Current(v, k, s) ==> r == FirstHit(StackOf(v), k, s)
  {
    hide FileHit, LevelHit, ValidFile, FirstHit, StackOf, CurrentLevel, Disjoint, DistinctNumbers, NarrowedVersion;
    if Current(v, k, s) { CurrentVersion(cut, v, k, s); }
    var hit, i := SearchLevel0(cut, v[0], k, s);
    if hit.Some? {
      Level0Hit(cut, v, k, s, i);
      return AnswerOf(hit.value);
    }
    var level;
    hit, level := SearchDeeper(cut, v, k, s);
    DeeperHit(cut, v, k, s, level);
    return if hit.Some? then AnswerOf(hit.value) else Missing;
  }

  lemma {:induction false} Level0Hit(cut: Cutter, v: Version, k: Key, s: nat, i: nat)
    requires i < |v[0]| && (forall j :: 0 <= j < i ==> FileHit(cut, v[0][j], k, s).None?)
    requires FileHit(cut, v[0][i], k, s).Some?
    ensures FirstHit(StackOf(NarrowedVersion(cut, v, k)), k, s) == AnswerOf(FileHit(cut, v[0][i], k, s).value)
  {
    hide Visible, Flatten, Narrowed, FirstHit;
    FirstHitIs(StackOf(NarrowedVersion(cut, v, k)), k, s, i);
  }

  lemma {:induction false} DeeperHit(cut: Cutter, v: Version, k: Key, s: nat, level: nat)
    requires forall j :: 0 <= j < |v[0]| ==> FileHit(cut, v[0][j], k, s).None?
    requires 1 <= level <= NUM_LEVELS && forall l :: 1 <= l < level ==> LevelHit(cut, v[l], k, s).None?
    requires level < NUM_LEVELS ==> LevelHit(cut, v[level], k, s).Some?
    ensures FirstHit(StackOf(NarrowedVersion(cut, v, k)), k, s) ==
            if level < NUM_LEVELS then AnswerOf(LevelHit(cut, v[level], k, s).value) else Missing
  {
    hide Visible, Flatten, Narrowed, FirstHit;
    var n := NarrowedVersion(cut, v, k);
    var st := StackOf(n);
    forall i | 0 <= i < |v[0]| + level - 1 ensures Visible(st[i], k, s).None? {
      if i < |v[0]| {
        assert FileHit(cut, v[0][i], k, s).None?;
      } else {
        var l := i - |v[0]| + 1;
        assert st[|n[0]| + l - 1] == Flatten(n[l]) && LevelHit(cut, v[l], k, s).None?;
      }
    }
    if level < NUM_LEVELS { assert st[|n[0]| + level - 1] == Flatten(n[level]); }
    FirstHitIs(st, k, s, |v[0]| + level - 1);
  }

  method SearchLevel0(cut: Cutter, fs: seq<File>, k: Key, s: nat) returns (hit: Option<Entry>, i: nat)
    requires ValidLevel0(fs)
    ensures i <= |fs| && forall j :: 0 <= j < i ==> FileHit(cut, fs[j], k, s).None?
    ensures if i < |fs| then hit.Some? && hit == FileHit(cut, fs[i], k, s) else hit.None?
  {
    hide FileHit, ValidFile;
    i := 0;
    hit := None;
    while i < |fs|
      invariant i <= |fs|
      invariant forall j :: 0 <= j < i ==> FileHit(cut, fs[j], k, s).None?
      invariant hit.None?
    {
      hit := SearchFile(cut, fs[i], k, s);
      if hit.Some? {
        return;
      }
      i := i + 1;
    }
  }

  method SearchDeeper(cut: Cutter, v: Version, k: Key, s: nat) returns (hit: Option<Entry>, level: nat)
    requires forall l :: 1 <= l < NUM_LEVELS ==> ValidLevel(v[l])
    ensures 1 <= level <= NUM_LEVELS
    ensures forall l :: 1 <= l < level ==> LevelHit(cut, v[l], k, s).None?
    ensures if level < NUM_LEVELS then hit.Some? && hit == LevelHit(cut, v[level], k, s) else hit.None?
  {
    hide LevelHit, ValidLevel;
    level := 1;
    hit := None;
    while level < NUM_LEVELS
      invariant 1 <= level <= NUM_LEVELS
      invariant forall l :: 1 <= l < level ==> LevelHit(cut, v[l], k, s).None?
      invariant hit.None?
    {
      hit := SearchLevel(cut, v[level], k, s);
      if hit.Some? {
        return;
      }
      level := level + 1;
    }
  }

  /** One level 0 file: a key outside the file's range is not looked up. */
  method SearchFile(cut: Cutter, f: File, k: Key, s: nat) returns (hit: Option<Entry>)
    requires ValidFile(f)
    ensures hit == FileHit(cut, f, k, s)
  {
    hide Visible, ValidFile;
    if Less(k, f.smallest) || Less(f.largest, k) {
      OutOfRange(cut, f, k, s);
      return None;
    }
    hit := Visible(BlockFor(cut(Content(f)), k), k, s);
  }

  /** One deeper level: only the file whose range has the key is looked up. */
  method SearchLevel(cut: Cutter, fs: seq<File>, k: Key, s: nat) returns (hit: Option<Entry>)
    requires ValidLevel(fs)
    ensures hit == LevelHit(cut, fs, k, s)
  {
    hide Visible, ValidFile, Flatten;
    var candidate := FindFile(fs, k);
    ghost var ns := NarrowedLevel(cut, fs, k);
    forall i | 0 <= i < |fs| && i != candidate ensures Visible(Content(ns[i]), k, s).None? {
      assert fs[i] in fs;
      OutOfRange(cut, fs[i], k, s);
    }
    VisibleInLevel(ns, k, s, candidate);
    hit := if candidate >= 0 then Visible(BlockFor(cut(Content(fs[candidate])), k), k, s) else None;
  }

  /** The binary search of `Version::Get` within one level. */
  method FindFile(fs: seq<File>, k: Key) returns (candidate: int)
    requires Disjoint(fs)
    ensures -1 <= candidate < |fs|
    ensures forall i :: 0 <= i < |fs| ==> (InRange(fs[i], k) <==> i == candidate)
  {
    var left, right := 0, |fs| - 1;
    candidate := -1;
    while left <= right
      invariant 0 <= left <= right + 1 <= |fs|
      invariant forall i :: 0 <= i < left ==> Less(fs[i].largest, k)
      invariant forall i :: right < i < |fs| ==> Less(k, fs[i].smallest)
    {
      var mid := left + (right - left) / 2;
      if Less(fs[mid].largest, k) {
        left := mid + 1;
      } else if Less(k, fs[mid].smallest) {
        right := mid - 1;
      } else {
        candidate := mid;
        return;
      }
    }
  }
}
