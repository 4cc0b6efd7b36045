/** A stack of sources searched from newest to oldest (active memtable, immutable memtable,
    level 0 tables, levels 1..6), and what it means for one to represent a history of writes. */
module Recency {
  import opened Keys
  import opened Entries
  import opened History

  type Source = seq<Entry>
  type Stack = seq<Source>

  ghost predicate Holds(st: Stack, e: Entry) {
    exists i :: 0 <= i < |st| && e in st[i]
  }

  ghost predicate HasKey(st: Stack, k: Key) {
    exists e :: Holds(st, e) && e.key == k
  }

  /** Every stored entry is one of the writes, so equal sequence numbers mean equal entries. */
  ghost predicate Genuine(st: Stack, h: seq<Entry>) {
    forall e :: Holds(st, e) ==> 1 <= e.seqno <= |h| && h[e.seqno - 1] == e
  }

  /** Of the keys it has, `above` holds nothing older than `below` holds, unless `below` merely
      repeats an entry of `above` (a log replayed twice). */
  ghost predicate NotOlder(above: Source, below: Source) {
    forall e: Entry, f: Entry ::
      e in above && f in below && e.key == f.key ==> e.seqno >= f.seqno || f in above
  }

  /** Going down the stack the newest sequence number of a key never increases. */
  ghost predicate NewestFirst(st: Stack) {
    forall i, j :: 0 <= i < j < |st| ==> NotOlder(st[i], st[j])
  }

  /** The last write to `k` is stored, or it is a delete and nothing of `k` is stored. */
  ghost predicate CoversKey(st: Stack, h: seq<Entry>, k: Key) {
    Newest(h, k).Some? ==>
      var e := Newest(h, k).value;
      Holds(st, e) || (e.kind == DELETION && !HasKey(st, k))
  }

  ghost predicate Covers(st: Stack, h: seq<Entry>) {
    forall k :: CoversKey(st, h, k)
  }

  ghost predicate Represents(st: Stack, h: seq<Entry>) {
    ValidHistory(h) && Genuine(st, h) && NewestFirst(st) && Covers(st, h)
  }

  ghost predicate AllSorted(st: Stack) {
    forall i :: 0 <= i < |st| ==> Sorted(st[i])
  }

  /** The answer of the first source that has a visible entry of `k`. */
  function FirstHit(st: Stack, k: Key, s: nat): Answer {
    if st == [] then Missing
    else match Visible(st[0], k, s)
      case Some(e) => AnswerOf(e)
      case None => FirstHit(st[1..], k, s)
  }

  /** What the caller sees: a tombstone reads as "not found". */
  function Outcome(a: Answer): Answer {
    if a.Deleted? then Missing else a
  }

  /** `FirstHit` stops at some source `i` and skips only sources without a visible entry. */
  lemma {:induction false} FirstHitAt(st: Stack, k: Key, s: nat) returns (i: nat)
    ensures i <= |st|
    ensures forall j :: 0 <= j < i ==> Visible(st[j], k, s).None?
    ensures i < |st| ==> Visible(st[i], k, s).Some? && FirstHit(st, k, s) == AnswerOf(Visible(st[i], k, s).value)
    ensures i == |st| ==> FirstHit(st, k, s) == Missing
  {
    if st == [] || Visible(st[0], k, s).Some? {
      i := 0;
    } else {
      var i' := FirstHitAt(st[1..], k, s);
      i := i' + 1;
      assert forall j :: 0 < j < i ==> st[j] == st[1..][j - 1];
    }
  }

  /** Stacks that answer alike do so under whatever lies above them. */
  lemma {:induction false} FirstHitUnder(above: Stack, a: Stack, b: Stack, k: Key, s: nat)
    requires FirstHit(a, k, s) == FirstHit(b, k, s)
    ensures FirstHit(above + a, k, s) == FirstHit(above + b, k, s)
  {
    hide Visible;
    if above == [] {
      assert above + a == a && above + b == b;
    } else {
      FirstHitUnder(above[1..], a, b, k, s);
      assert (above + a)[1..] == above[1..] + a && (above + b)[1..] == above[1..] + b;
    }
  }

  lemma {:induction false} FirstHitSame(a: Stack, b: Stack, k: Key, s: nat)
    requires |a| == |b| && forall i :: 0 <= i < |a| ==> Visible(a[i], k, s) == Visible(b[i], k, s)
    ensures FirstHit(a, k, s) == FirstHit(b, k, s)
  {
    hide Visible;
    if a != [] {
      FirstHitSame(a[1..], b[1..], k, s);
    }
  }

  lemma {:induction false} FirstHitIs(st: Stack, k: Key, s: nat, i: nat)
    requires i <= |st|
    requires forall j :: 0 <= j < i ==> Visible(st[j], k, s).None?
    ensures i < |st| && Visible(st[i], k, s).Some? ==> FirstHit(st, k, s) == AnswerOf(Visible(st[i], k, s).value)
    ensures i == |st| ==> FirstHit(st, k, s) == Missing
  {
    if i > 0 {
      FirstHitIs(st[1..], k, s, i - 1);
    }
  }

  /** The source where the search stops holds the last write to the key. */
  lemma {:induction false} HitIsLastWrite(st: Stack, h: seq<Entry>, k: Key, s: nat, i: nat)
    requires Represents(st, h) && AllSorted(st) && s >= |h|
    requires i < |st| && Visible(st[i], k, s).Some?
    requires forall j :: 0 <= j < i ==> Visible(st[j], k, s).None?
    ensures Newest(h, k) == Visible(st[i], k, s)
  {
    hide Visible, Newest, Sorted;
    var e := Visible(st[i], k, s).value;
    assert Holds(st, e) && h[e.seqno - 1] == e;
    assert CoversKey(st, h, k);
    var n := Newest(h, k).value;
    assert Holds(st, n);
    var j :| 0 <= j < |st| && n in st[j];
    assert n.seqno <= s;
    assert i <= j;
    assert n in st[i] || e.seqno >= n.seqno by {
      if i < j { assert NotOlder(st[i], st[j]); }
    }
    if n in st[i] { VisibleIsNewest(st[i], k, s, n); }
  }

  /** When nothing is hit, the last write to the key is a delete or there is none. */
  lemma {:induction false} NoHitIsDeleted(st: Stack, h: seq<Entry>, k: Key, s: nat)
    requires Represents(st, h) && s >= |h|
    requires forall j :: 0 <= j < |st| ==> Visible(st[j], k, s).None?
    ensures Newest(h, k).Some? ==> Newest(h, k).value.kind == DELETION
  {
    assert CoversKey(st, h, k);
  }

  /** The first hit in a stack that represents `h` is the last write to the key. */
  lemma {:induction false} ReadsLastWrite(st: Stack, h: seq<Entry>, k: Key, s: nat)
    requires Represents(st, h) && AllSorted(st)
    requires s >= |h|
    ensures Outcome(FirstHit(st, k, s)) == Expected(h, k)
  {
    MapHoldsNewest(h, k);
    var i := FirstHitAt(st, k, s);
    if i < |st| {
      HitIsLastWrite(st, h, k, s, i);
    } else {
      NoHitIsDeleted(st, h, k, s);
    }
  }

  ghost predicate SameUpTo(a: Source, b: Source, s: nat) {
    forall e: Entry {:trigger e in a} {:trigger e in b} :: e.seqno <= s ==> (e in a <==> e in b)
  }

  /** A lookup at sequence number `s` does not see entries added later with larger numbers. */
  lemma {:induction false} VisibleIgnoresNewer(a: Source, b: Source, k: Key, s: nat)
    requires Sorted(a) && Sorted(b) && SameUpTo(a, b, s)
    ensures Visible(a, k, s) == Visible(b, k, s)
  {
    var x, y := Visible(a, k, s), Visible(b, k, s);
    if x.Some? { VisibleIsNewest(b, k, s, x.value); }
    if y.Some? { VisibleIsNewest(a, k, s, y.value); }
  }

  // ---- How the protocol's steps act on a stack ----

  ghost predicate SameMembers(a: Source, b: Source) {
    forall e: Entry {:trigger e in a} {:trigger e in b} :: e in a <==> e in b
  }

  /** Only the members of the sources matter. */
  lemma {:induction false} RepresentsMembers(st: Stack, st': Stack, h: seq<Entry>)
    requires Represents(st, h) && |st| == |st'|
    requires forall i :: 0 <= i < |st| ==> SameMembers(st[i], st'[i])
    ensures Represents(st', h)
  {
    forall e ensures Holds(st, e) <==> Holds(st', e) {
      if i :| 0 <= i < |st| && e in st[i] { assert SameMembers(st[i], st'[i]); }
      if i :| 0 <= i < |st| && e in st'[i] { assert SameMembers(st[i], st'[i]); }
    }
    forall i, j | 0 <= i < j < |st'| ensures NotOlder(st'[i], st'[j]) {
      assert NotOlder(st[i], st[j]) && SameMembers(st[i], st'[i]) && SameMembers(st[j], st'[j]);
    }
    forall k ensures CoversKey(st', h, k) { assert CoversKey(st, h, k); }
  }

  /** What a stack holds once `e` has joined its top source. */
  lemma {:induction false} HoldsWrite(top: Source, rest: Stack, top': Source, e: Entry, x: Entry)
    requires SameMembers(top', top + [e])
    ensures Holds([top'] + rest, x) <==> Holds([top] + rest, x) || x == e
  {
    var st, st' := [top] + rest, [top'] + rest;
    assert x in top + [e] <==> x in top || x == e;
    assert st[0] == top && st'[0] == top' && forall i :: 1 <= i < |st| ==> st[i] == st'[i];
    assert x == e ==> x in st'[0];
    if i :| 0 <= i < |st| && x in st[i] { assert x in st'[i]; }
    if i :| 0 <= i < |st'| && x in st'[i] { assert i == 0 || x in st[i]; }
  }

  /** A write newer than everything keeps the order. */
  lemma {:induction false} OrderWrite(top: Source, rest: Stack, top': Source, h: seq<Entry>, e: Entry)
    requires NewestFirst([top] + rest) && Genuine([top] + rest, h) && e.seqno > |h|
    requires SameMembers(top', top + [e])
    ensures NewestFirst([top'] + rest)
  {
    var st, st' := [top] + rest, [top'] + rest;
    forall i, j | 0 <= i < j < |st'| ensures NotOlder(st'[i], st'[j]) {
      assert NotOlder(st[i], st[j]) && st'[j] == st[j];
      if i == 0 {
        forall x: Entry, y: Entry | x in top' && y in st[j] && x.key == y.key ensures x.seqno >= y.seqno || y in top' {
          assert Holds(st, y);
          assert x in top + [e] && (y in top ==> y in top + [e]);
        }
      }
    }
  }

  /** A new write lands in the top source. */
  lemma {:induction false} RepresentsWrite(top: Source, rest: Stack, top': Source, h: seq<Entry>, e: Entry)
    requires Represents([top] + rest, h)
    requires ValidHistory(h + [e])
    requires SameMembers(top', top + [e])
    ensures Represents([top'] + rest, h + [e])
  {
    hide Holds, NotOlder, SameMembers;
    var st, st', h' := [top] + rest, [top'] + rest, h + [e];
    assert h'[|h|] == e && h'[..|h'| - 1] == h;
    forall x ensures Holds(st', x) <==> Holds(st, x) || x == e { HoldsWrite(top, rest, top', e, x); }
    OrderWrite(top, rest, top', h, e);
    forall k ensures CoversKey(st', h', k) { assert CoversKey(st, h, k); }
  }

  /** Inserting a source that is empty, or repeats the members of the source below it. */
  lemma {:induction false} RepresentsInsert(above: Stack, dup: Source, below: Stack, h: seq<Entry>)
    requires dup == [] || (below != [] && SameMembers(dup, below[0]))
    requires Represents(above + below, h)
    ensures Represents(above + [dup] + below, h)
  {
    var a, st, st' := |above|, above + below, above + [dup] + below;
    HoldsDuplicate(above, dup, below);
    forall i, j | 0 <= i < j < |st'| ensures NotOlder(st'[i], st'[j]) {
      var i0, j0 := if i <= a then i else i - 1, if j <= a then j else j - 1;
      if i0 < j0 && j0 < |st| { assert NotOlder(st[i0], st[j0]); }
    }
    forall k ensures CoversKey(st', h, k) { assert CoversKey(st, h, k); }
  }

  /** Removing such a source. */
  lemma {:induction false} RepresentsRemove(above: Stack, dup: Source, below: Stack, h: seq<Entry>)
    requires dup == [] || (below != [] && SameMembers(dup, below[0]))
    requires Represents(above + [dup] + below, h)
    ensures Represents(above + below, h)
  {
    var a, st, st' := |above|, above + below, above + [dup] + below;
    HoldsDuplicate(above, dup, below);
    forall i, j | 0 <= i < j < |st| ensures NotOlder(st[i], st[j]) {
      assert NotOlder(st'[if i < a then i else i + 1], st'[if j < a then j else j + 1]);
    }
    forall k ensures CoversKey(st, h, k) { assert CoversKey(st', h, k); }
  }

  lemma {:induction false} HoldsDuplicate(above: Stack, dup: Source, below: Stack)
    requires dup == [] || (below != [] && SameMembers(dup, below[0]))
    ensures forall e :: Holds(above + below, e) <==> Holds(above + [dup] + below, e)
  {
    var a, st, st' := |above|, above + below, above + [dup] + below;
    forall e ensures Holds(st, e) <==> Holds(st', e) {
      if i :| 0 <= i < |st| && e in st[i] { assert e in st'[if i < a then i else i + 1]; }
      if i :| 0 <= i < |st'| && e in st'[i] {
        if i == a { assert e in dup; assert e in st[a]; } else { assert e in st[if i < a then i else i - 1]; }
      }
    }
  }
}
