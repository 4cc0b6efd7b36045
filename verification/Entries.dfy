/** Internal entries and the order everything is sorted by. */
module Entries {
  import opened Keys

  datatype Option<+T> = None | Some(value: T)

  const DELETION: byte := 0
  const VALUE: byte := 1

  /** The largest sequence number, 2^56 - 1. */
  const MAX_SEQNO: nat := 0x00FF_FFFF_FFFF_FFFF

  /** One version of a user key. */
  datatype Entry = Entry(key: Key, seqno: nat, kind: byte, value: Bytes)

  /** `CompareInternalKey(a, b) < 0`: user key ascending, then sequence number descending. */
  predicate Before(a: Entry, b: Entry) {
    Less(a.key, b.key) || (a.key == b.key && a.seqno > b.seqno)
  }

  predicate Sorted(es: seq<Entry>) {
    forall i, j :: 0 <= i < j < |es| ==> Before(es[i], es[j])
  }

  /** What a lookup in one source says about a key. */
  datatype Answer = Found(value: Bytes) | Deleted | Missing

  function AnswerOf(e: Entry): Answer {
    if e.kind == VALUE then Found(e.value) else if e.kind == DELETION then Deleted else Missing
  }

  /** The first entry of `k` in source order whose sequence number is at most `s`. */
  function Visible(es: seq<Entry>, k: Key, s: nat): (r: Option<Entry>)
    ensures r.Some? ==> r.value in es && r.value.key == k && r.value.seqno <= s
    ensures r.None? ==> forall e :: e in es && e.key == k ==> e.seqno > s
  {
    if es == [] then None
    else if es[0].key == k && es[0].seqno <= s then Some(es[0])
    else Visible(es[1..], k, s)
  }

  /** In a sorted source the first visible entry is the newest visible one. */
  lemma {:induction false} VisibleIsNewest(es: seq<Entry>, k: Key, s: nat, e: Entry)
    requires Sorted(es)
    requires e in es && e.key == k && e.seqno <= s
    ensures Visible(es, k, s).Some? && Visible(es, k, s).value.seqno >= e.seqno
  {
    if es[0].key == k && es[0].seqno <= s {
      assert es[0] == e || e in es[1..];
    } else {
      assert e in es[1..];
      VisibleIsNewest(es[1..], k, s, e);
    }
  }

  lemma {:induction false} NothingVisible(k: Key, s: nat)
    ensures Visible([], k, s).None?
  {
  }

  lemma {:induction false} VisibleConcat(a: seq<Entry>, b: seq<Entry>, k: Key, s: nat)
    ensures Visible(a + b, k, s) == if Visible(a, k, s).Some? then Visible(a, k, s) else Visible(b, k, s)
  {
    if a == [] {
      assert a + b == b;
    } else {
      assert (a + b)[1..] == a[1..] + b;
      VisibleConcat(a[1..], b, k, s);
    }
  }

  /** A sorted source with one more entry, put where the order wants it. */
  function AddSorted(es: seq<Entry>, e: Entry): (r: seq<Entry>)
    ensures forall x :: x in r <==> x in es || x == e
  {
    if es == [] || Before(e, es[0]) then [e] + es
    else
      assert forall x :: x in es <==> x == es[0] || x in es[1..];
      [es[0]] + AddSorted(es[1..], e)
  }

  lemma {:induction false} Trichotomy(a: Entry, b: Entry)
    requires a.key != b.key || a.seqno != b.seqno
    ensures Before(a, b) || Before(b, a)
  {
    hide Less;
    if a.key != b.key { assert Less(a.key, b.key) || Less(b.key, a.key); }
  }

  /** Adding an entry keeps a source sorted. */
  lemma {:induction false} AddSortedKeeps(es: seq<Entry>, e: Entry)
    requires Sorted(es) && forall x :: x in es ==> x.key != e.key || x.seqno != e.seqno
    ensures Sorted(AddSorted(es, e)) && |AddSorted(es, e)| == |es| + 1
  {
    hide Less;
    if es != [] && !Before(e, es[0]) {
      AddSortedKeeps(es[1..], e);
      Trichotomy(es[0], e);
      forall x | x in AddSorted(es[1..], e) ensures Before(es[0], x) {
        if x in es[1..] { var i :| 0 <= i < |es[1..]| && es[1..][i] == x; assert es[i + 1] == x; }
      }
    } else if es != [] {
      forall x | x in es ensures Before(e, x) { assert x == es[0] || Before(es[0], x); }
    }
  }
}
