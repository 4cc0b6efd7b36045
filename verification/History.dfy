/** The reference the engine is measured against: the list of applied writes, and the plain map
    it denotes.  Write number i (from 0) carries sequence number i + 1. */
module History {
  import opened Keys
  import opened Entries

  predicate ValidHistory(h: seq<Entry>) {
    forall i :: 0 <= i < |h| ==> h[i].seqno == i + 1 && (h[i].kind == VALUE || h[i].kind == DELETION)
  }

  /** The map after all writes: a put binds its key, a delete unbinds it. */
  function MapOf(h: seq<Entry>): map<Key, Bytes> {
    if h == [] then map[]
    else
      var e := h[|h| - 1];
      var m := MapOf(h[..|h| - 1]);
      if e.kind == VALUE then m[e.key := e.value] else m - {e.key}
  }

  /** What a read of `k` must return: the bound value or "not found". */
  function Expected(h: seq<Entry>, k: Key): Answer {
    if k in MapOf(h) then Found(MapOf(h)[k]) else Missing
  }

  /** The last write to `k`. */
  function Newest(h: seq<Entry>, k: Key): (r: Option<Entry>)
    ensures r.None? ==> forall e :: e in h ==> e.key != k
    ensures r.Some? ==> r.value in h && r.value.key == k
    ensures ValidHistory(h) ==>
              (r.Some? ==> forall e :: e in h && e.key == k ==> e.seqno <= r.value.seqno)
  {
    if h == [] then None
    else
      var e := h[|h| - 1];
      assert h == h[..|h| - 1] + [e];
      if e.key == k then Some(e) else Newest(h[..|h| - 1], k)
  }

  /** The map holds exactly the values of the last writes that are puts. */
  lemma {:induction false} MapHoldsNewest(h: seq<Entry>, k: Key)
    requires ValidHistory(h)
    ensures Expected(h, k) ==
            match Newest(h, k)
            case None => Missing
            case Some(e) => if e.kind == VALUE then Found(e.value) else Missing
  {
    if h != [] {
      MapHoldsNewest(h[..|h| - 1], k);
    }
  }

  /** A write decides what is read of its key until the key is written again. */
  lemma {:induction false} ExpectedLast(h: seq<Entry>, e: Entry, later: seq<Entry>)
    requires forall x :: x in later ==> x.key != e.key
    ensures Expected(h + [e] + later, e.key) == if e.kind == VALUE then Found(e.value) else Missing
  {
    var all := h + [e] + later;
    if later == [] {
      assert all[..|all| - 1] == h;
    } else {
      assert all[..|all| - 1] == h + [e] + later[..|later| - 1];
      ExpectedLast(h, e, later[..|later| - 1]);
    }
  }
}
