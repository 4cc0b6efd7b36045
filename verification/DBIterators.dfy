/** The user-facing iterator: a cursor over the live keys at one sequence number. */
module DBIterators {
  import opened Keys
  import opened Entries
  import opened History
  import opened Recency
  import opened Merging

  type Pair = (Key, Bytes)

  /** What remains after the leading entries of `k`. */
  function SkipKey(m: seq<Entry>, k: Key): (r: seq<Entry>)
    ensures |r| <= |m| && m[|m| - |r|..] == r
    ensures r != [] ==> r[0].key != k
    ensures forall i :: 0 <= i < |m| - |r| ==> m[i].key == k
  {
    if m == [] || m[0].key != k then m
    else
      var r := SkipKey(m[1..], k);
      assert forall i :: 0 < i < |m| - |r| ==> m[i] == m[1..][i - 1];
      r
  }

  /** The live pairs of a merged run at sequence number `s`: of each key the first entry numbered at
      most `s` decides, and a tombstone hides the key. */
  function Live(m: seq<Entry>, s: nat): seq<Pair>
    decreases |m|
  {
    if m == [] then []
    else if m[0].seqno > s then Live(m[1..], s)
    else if m[0].kind == VALUE then [(m[0].key, m[0].value)] + Live(SkipKey(m[1..], m[0].key), s)
    else if m[0].kind == DELETION then Live(SkipKey(m[1..], m[0].key), s)
    else Live(m[1..], s)
  }

  ghost predicate StrictlyUp(ps: seq<Pair>) {
    forall i, j :: 0 <= i < j < |ps| ==> Less(ps[i].0, ps[j].0)
  }

  lemma {:induction false} TailAscends(m: seq<Entry>)
    requires Ascending(m) && m != []
    ensures Ascending(m[1..]) && forall e :: e in m ==> AtMost(m[0].key, e.key)
  {
    hide Less;
    forall e | e in m ensures AtMost(m[0].key, e.key) {
      var i :| 0 <= i < |m| && m[i] == e;
      assert i > 0 ==> !Smaller(m[i], m[0]);
    }
  }

  /** What follows the entries of the first key has larger keys only. */
  lemma {:induction false} SkipIsAbove(m: seq<Entry>, k: Key)
    requires Ascending(m) && forall e :: e in m ==> AtMost(k, e.key)
    ensures Ascending(SkipKey(m, k)) && forall e :: e in SkipKey(m, k) ==> Less(k, e.key)
  {
    hide Less, Ascending;
    if m != [] {
      TailAscends(m);
      if m[0].key == k {
        SkipIsAbove(m[1..], k);
      } else {
        assert m[0] in m;
      }
    }
  }

  lemma {:induction false} UpCons(p: Pair, ps: seq<Pair>)
    requires StrictlyUp(ps) && forall q :: q in ps ==> Less(p.0, q.0)
    ensures StrictlyUp([p] + ps)
  {
    hide Less;
  }

  /** The live keys are strictly ascending. */
  lemma {:induction false} LiveAscends(m: seq<Entry>, s: nat)
    requires Ascending(m)
    ensures StrictlyUp(Live(m, s))
    decreases |m|
  {
    hide Less, Ascending, SkipKey;
    if m != [] {
      TailAscends(m);
      LiveAscends(m[1..], s);
      var r := SkipKey(m[1..], m[0].key);
      SkipIsAbove(m[1..], m[0].key);
      LiveAscends(r, s);
      LiveAbove(r, s, m[0].key);
      UpCons((m[0].key, m[0].value), Live(r, s));
    }
  }

  lemma {:induction false} LiveAbove(m: seq<Entry>, s: nat, k: Key)
    requires forall e :: e in m ==> Less(k, e.key)
    ensures forall p :: p in Live(m, s) ==> Less(k, p.0)
    decreases |m|
  {
    hide Less;
    if m != [] {
      assert m[0] in m;
      if m[0].seqno <= s && (m[0].kind == VALUE || m[0].kind == DELETION) {
        LiveAbove(SkipKey(m[1..], m[0].key), s, k);
      } else {
        LiveAbove(m[1..], s, k);
      }
    }
  }

  /** The entries visible at `s` have kinds the engine writes. */
  ghost predicate WellKinded(m: seq<Entry>, s: nat) {
    forall e :: e in m && e.seqno <= s ==> e.kind == VALUE || e.kind == DELETION
  }

  ghost predicate IsLive(m: seq<Entry>, s: nat, p: Pair) {
    var e := Visible(m, p.0, s);
    e.Some? && e.value.kind == VALUE && e.value.value == p.1
  }

  lemma {:induction false} SkipVisible(m: seq<Entry>, k: Key, k': Key, s: nat)
    requires k != k'
    ensures Visible(SkipKey(m, k), k', s) == Visible(m, k', s)
  {
    if m != [] && m[0].key == k {
      SkipVisible(m[1..], k, k', s);
    }
  }

  /** A pair is live exactly when the newest visible entry of its key is a put of its value. */
  lemma {:induction false} LiveMember(m: seq<Entry>, s: nat, p: Pair)
    requires Ascending(m) && WellKinded(m, s)
    ensures p in Live(m, s) <==> IsLive(m, s, p)
    decreases |m|
  {
    hide Less, Ascending, SkipKey;
    if m != [] {
      TailAscends(m);
      assert m[0] in m;
      if m[0].seqno > s {
        LiveMember(m[1..], s, p);
      } else {
        var r := SkipKey(m[1..], m[0].key);
        SkipIsAbove(m[1..], m[0].key);
        LiveMember(r, s, p);
        LiveAbove(r, s, m[0].key);
        if p.0 != m[0].key { SkipVisible(m[1..], m[0].key, p.0, s); }
      }
    }
  }

  lemma {:induction false} SameStrictlyUp(ps: seq<Pair>, qs: seq<Pair>)
    requires StrictlyUp(ps) && StrictlyUp(qs) && forall p :: p in ps <==> p in qs
    ensures ps == qs
  {
    hide Less;
    assert qs != [] ==> qs[0] in qs;
    if ps != [] {
      assert ps[0] in qs;
      assert qs[0] in ps;
      assert ps[0] == qs[0];
      assert ps == [ps[0]] + ps[1..] && qs == [qs[0]] + qs[1..];
      forall p ensures p in ps[1..] <==> p in qs[1..] {
        assert p in ps <==> p == ps[0] || p in ps[1..];
        assert p in qs <==> p == qs[0] || p in qs[1..];
      }
      SameStrictlyUp(ps[1..], qs[1..]);
    }
  }

  /** No two entries visible at `s` share a key and a sequence number. */
  ghost predicate Unambiguous(m: seq<Entry>, s: nat) {
    forall e: Entry, f: Entry :: e in m && f in m && e.key == f.key && e.seqno == f.seqno <= s ==> e == f
  }

  /** In a merged run the first visible entry of a key is its newest visible one. */
  lemma {:induction false} MergedVisible(m: seq<Entry>, k: Key, s: nat, e: Entry)
    requires Ascending(m) && e in m && e.key == k && e.seqno <= s
    ensures Visible(m, k, s).Some? && Visible(m, k, s).value.seqno >= e.seqno
  {
    hide Less, Ascending;
    TailAscends(m);
    if m[0].key == k && m[0].seqno <= s {
      FirstIsNewest(m, e);
    } else {
      assert m == [m[0]] + m[1..];
      MergedVisible(m[1..], k, s, e);
    }
  }

  lemma {:induction false} FirstIsNewest(m: seq<Entry>, e: Entry)
    requires Ascending(m) && e in m && e.key == m[0].key
    ensures m[0].seqno >= e.seqno
  {
    hide Less;
    var i :| 0 <= i < |m| && m[i] == e;
    assert i > 0 ==> !Smaller(m[i], m[0]);
  }

  /** Entries numbered above `s` do not change what is live at `s`. */
  lemma {:induction false} LiveIgnoresNewer(m: seq<Entry>, m': seq<Entry>, s: nat)
    requires Ascending(m) && WellKinded(m, s) && Unambiguous(m, s)
    requires Ascending(m') && SameUpTo(m, m', s)
    ensures Live(m, s) == Live(m', s)
  {
    hide Less, Ascending, Live;
    LiveAscends(m, s);
    LiveAscends(m', s);
    forall p ensures p in Live(m, s) <==> p in Live(m', s) {
      LiveMember(m, s, p);
      LiveMember(m', s, p);
      SameVisible(m, m', p.0, s);
    }
    SameStrictlyUp(Live(m, s), Live(m', s));
  }

  lemma {:induction false} SameVisible(m: seq<Entry>, m': seq<Entry>, k: Key, s: nat)
    requires Ascending(m) && Ascending(m') && Unambiguous(m, s)
    requires forall e: Entry :: e.key == k && e.seqno <= s ==> (e in m <==> e in m')
    ensures Visible(m, k, s) == Visible(m', k, s)
  {
    hide Less, Ascending, Visible;
    var x, y := Visible(m, k, s), Visible(m', k, s);
    if x.Some? { MergedVisible(m', k, s, x.value); }
    if y.Some? { MergedVisible(m, k, s, y.value); }
  }

  // ---- The map that reads see ----

  /** Iterators over the sources of a read, each at its first entry. */
  function Children(st: Stack): (cs: seq<Child>)
    ensures |cs| == |st| && forall i :: 0 <= i < |st| ==> cs[i] == Child(st[i], 0)
  {
    seq(|st|, i requires 0 <= i < |st| => Child(st[i], 0))
  }

  lemma {:induction false} MergedHolds(st: Stack, e: Entry)
    ensures e in Merged(Children(st)) <==> Holds(st, e)
  {
    hide Merged;
    var cs := Children(st);
    MergedMember(cs, e);
    assert forall i :: 0 <= i < |st| ==> cs[i].Rest() == st[i];
  }

  /** What the merged sources of a represented history are like. */
  lemma {:induction false} MergedShape(st: Stack, h: seq<Entry>, s: nat)
    requires ValidHistory(h) && Genuine(st, h) && AllSorted(st)
    ensures var m := Merged(Children(st)); Ascending(m) && WellKinded(m, s) && Unambiguous(m, s)
  {
    hide Less, Merged, Ascending, Sorted;
    MergedAscends(Children(st));
    forall e | e in Merged(Children(st)) ensures Holds(st, e) { MergedHolds(st, e); }
  }

  /** The live pairs of sources that represent a history are the bindings of the map that the
      history denotes, in strictly ascending key order: the same map that reads see. */
  lemma {:induction false} LiveIsMap(st: Stack, h: seq<Entry>, s: nat)
    requires Represents(st, h) && AllSorted(st) && s >= |h|
    ensures StrictlyUp(Live(Merged(Children(st)), s))
    ensures forall p: Pair :: p in Live(Merged(Children(st)), s) <==> p.0 in MapOf(h) && MapOf(h)[p.0] == p.1
  {
    hide Less, Merged, Ascending, Sorted, Live, WellKinded;
    var m := Merged(Children(st));
    MergedShape(st, h, s);
    LiveAscends(m, s);
    forall p: Pair ensures p in Live(m, s) <==> p.0 in MapOf(h) && MapOf(h)[p.0] == p.1 {
      LiveMember(m, s, p);
      MergedIsNewest(st, h, p.0, s);
      MapHoldsNewest(h, p.0);
    }
  }

  lemma {:induction false} MergedIsNewest(st: Stack, h: seq<Entry>, k: Key, s: nat)
    requires Represents(st, h) && AllSorted(st) && s >= |h|
    ensures var r := Visible(Merged(Children(st)), k, s);
            r == Newest(h, k) || (r.None? && Newest(h, k).value.kind == DELETION)
  {
    hide Less, Merged, Ascending, Sorted, Visible, Newest, WellKinded, Unambiguous;
    var m := Merged(Children(st));
    MergedShape(st, h, s);
    var r := Visible(m, k, s);
    if r.Some? { MergedHolds(st, r.value); }
    assert CoversKey(st, h, k);
    if Newest(h, k).Some? {
      var n := Newest(h, k).value;
      MergedHolds(st, n);
      if Holds(st, n) { MergedVisible(m, k, s, n); }
    }
  }

  // ---- The cursor ----

  /** The pairs from the first key at or after `target`. */
  function PairsFrom(ps: seq<Pair>, target: Key): (j: nat)
    ensures j <= |ps| && (forall i :: 0 <= i < j ==> Less(ps[i].0, target)) && (j < |ps| ==> !Less(ps[j].0, target))
  {
    if ps == [] || !Less(ps[0].0, target) then 0
    else
      var j := PairsFrom(ps[1..], target);
      assert forall i :: 0 < i < j + 1 ==> ps[i] == ps[1..][i - 1];
      j + 1
  }

  lemma {:induction false} FromSkips(m: seq<Entry>, k: Key, target: Key)
    requires Less(k, target)
    ensures From(SkipKey(m, k), target) == From(m, target)
  {
    hide Less;
    if m != [] && m[0].key == k { FromSkips(m[1..], k, target); }
  }

  lemma {:induction false} LiveNotBelow(m: seq<Entry>, s: nat, k: Key)
    requires forall e :: e in m ==> AtMost(k, e.key)
    ensures forall p :: p in Live(m, s) ==> AtMost(k, p.0)
    decreases |m|
  {
    hide Less;
    if m != [] {
      assert m[0] in m;
      LiveNotBelow(SkipKey(m[1..], m[0].key), s, k);
      LiveNotBelow(m[1..], s, k);
    }
  }

  /** Seeking in the merged run is seeking among the live pairs. */
  lemma {:induction false} LiveFrom(m: seq<Entry>, s: nat, target: Key)
    requires Ascending(m)
    ensures Live(From(m, target), s) == Live(m, s)[PairsFrom(Live(m, s), target)..]
    decreases |m|
  {
    hide Less, Ascending, SkipKey, From, PairsFrom;
    FromHead(m, target);
    if m != [] {
      TailAscends(m);
      if Less(m[0].key, target) {
        var r := SkipKey(m[1..], m[0].key);
        SkipIsAbove(m[1..], m[0].key);
        FromSkips(m[1..], m[0].key, target);
        LiveFrom(r, s, target);
        LiveFrom(m[1..], s, target);
        PairsFromNext((m[0].key, m[0].value), Live(r, s), target);
      } else {
        LiveNotBelow(m, s, m[0].key);
        PairsFromAll(Live(m, s), target);
      }
    } else {
      PairsFromAll([], target);
    }
  }

  lemma {:induction false} FromHead(m: seq<Entry>, target: Key)
    ensures From(m, target) == if m == [] || !Less(m[0].key, target) then m else From(m[1..], target)
  {
    hide Less;
  }

  lemma {:induction false} PairsFromNext(p: Pair, ps: seq<Pair>, target: Key)
    requires Less(p.0, target)
    ensures ([p] + ps)[PairsFrom([p] + ps, target)..] == ps[PairsFrom(ps, target)..]
  {
    hide Less;
    assert ([p] + ps)[1..] == ps;
  }

  lemma {:induction false} PairsFromAll(ps: seq<Pair>, target: Key)
    requires ps == [] || !Less(ps[0].0, target)
    ensures ps[PairsFrom(ps, target)..] == ps
  {
    hide Less;
  }

  class DBIterator {
    const iter: MergingIterator
    const sequence: nat
    var valid: bool
    var savedKey: Key
    var savedValue: Bytes

    /** The pairs the cursor moves over. */
    ghost function Pairs(): seq<Pair>
      reads this, iter
    {
      Live(Merged(AllAtFirst(iter.children)), sequence)
    }

    ghost predicate Sorted()
      reads this, iter
    {
      AllChildrenSorted(AllAtFirst(iter.children))
    }

    /** The cursor is on pair `i`. */
    ghost predicate At(i: nat)
      reads this, iter
    {
      CursorAt(iter.children, iter.current, sequence, valid, savedKey, savedValue, i)
    }

    constructor (iter: MergingIterator, sequence: nat)
      ensures this.iter == iter && this.sequence == sequence && !valid
    {
      this.iter := iter;
      this.sequence := sequence;
      valid := false;
      savedKey, savedValue := [], [];
    }

    /** Moves on to the next live pair of what the merging iterator still has. */
    method FindNextUserEntry()
      requires iter.Consistent()
      modifies this, iter
      ensures iter.Consistent() && AllAtFirst(iter.children) == AllAtFirst(old(iter.children))
      ensures LandedOn(iter.Remaining(), sequence, valid, savedKey, savedValue, old(Live(iter.Remaining(), sequence)))
    {
      hide Less, Merged, SkipKey, Pick;
      valid := false;
      while iter.Valid()
        invariant iter.Consistent() && AllAtFirst(iter.children) == AllAtFirst(old(iter.children)) && !valid
        invariant Live(iter.Remaining(), sequence) == old(Live(iter.Remaining(), sequence))
        decreases |iter.Remaining()|
      {
        if iter.Current().seqno > sequence {
          iter.Next();
          continue;
        }
        var candidate := iter.Current().key;
        ghost var m := iter.Remaining();
        if iter.Current().kind == VALUE {
          savedKey, savedValue, valid := candidate, iter.Current().value, true;
          SkipFirst(m);
          return;
        } else if iter.Current().kind == DELETION {
          SkipFirst(m);
          while iter.Valid() && iter.Current().key == candidate
            invariant iter.Consistent() && AllAtFirst(iter.children) == AllAtFirst(old(iter.children))
            invariant SkipKey(iter.Remaining(), candidate) == SkipKey(m, candidate) && |iter.Remaining()| <= |m|
            invariant !valid && (iter.Remaining() == m || |iter.Remaining()| < |m|)
            decreases |iter.Remaining()|
          {
            SkipFirst(iter.Remaining());
            iter.Next();
          }
          SkipDone(iter.Remaining(), candidate);
        } else {
          iter.Next();
        }
      }
    }

    /** The merging iterator's remaining live pairs are those from `i` on, and the cursor is on the
        first of them, or invalid when there is none. */
    ghost predicate Just(i: nat)
      reads this, iter
    {
      JustAt(iter.children, iter.current, sequence, valid, savedKey, savedValue, i)
    }

    method SeekToFirst()
      modifies this, iter
      ensures Pairs() == old(Pairs()) && AllAtFirst(iter.children) == AllAtFirst(old(iter.children))
      ensures Just(0)
    {
      hide Less, Merged, Pick, SkipKey, Live;
      iter.SeekToFirst();
      assert AllAtFirst(iter.children) == iter.children == AllAtFirst(old(iter.children));
      FindNextUserEntry();
      assert Pairs()[0..] == Pairs();
      Lands(iter.children, iter.current, sequence, valid, savedKey, savedValue, 0);
    }

    /** Lands on the first live key at or after the target, if the probes of the memtables leave out
        nothing that is shown. */
    method Seek(target: Key)
      requires Sorted()
      modifies this, iter
      ensures Pairs() == old(Pairs()) && AllAtFirst(iter.children) == AllAtFirst(old(iter.children))
      ensures SeeksRight(old(iter.children), target, sequence) ==> Just(PairsFrom(Pairs(), target))
    {
      hide Less, Merged, Pick, SkipKey, Live, Ascending, PairsFrom, From, SeeksRight, LandedOn, JustAt;
      ghost var cs := iter.children;
      if SeeksRight(cs, target, sequence) { SoughtLive(cs, target, sequence); }
      MergedAscends(AllAtFirst(cs));
      LiveFrom(Merged(AllAtFirst(cs)), sequence, target);
      iter.Seek(target);
      assert AllAtTarget(AllAtFirst(cs), target) == AllAtTarget(cs, target);
      FindNextUserEntry();
      if SeeksRight(cs, target, sequence) {
        Lands(iter.children, iter.current, sequence, valid, savedKey, savedValue, PairsFrom(Pairs(), target));
      }
    }

    method Next(ghost i: nat)
      requires At(i)
      modifies this, iter
      ensures Pairs() == old(Pairs()) && AllAtFirst(iter.children) == AllAtFirst(old(iter.children))
      ensures Just(i + 1)
    {
      hide Less, Merged, Pick, SkipKey, Live;
      var current := savedKey;
      ghost var m := iter.Remaining();
      while iter.Valid() && iter.Current().key == current
        invariant iter.Consistent() && AllAtFirst(iter.children) == AllAtFirst(old(iter.children))
        invariant SkipKey(iter.Remaining(), current) == SkipKey(m, current)
        decreases |iter.Remaining()|
      {
        SkipFirst(iter.Remaining());
        iter.Next();
      }
      SkipDone(iter.Remaining(), current);
      FindNextUserEntry();
      Lands(iter.children, iter.current, sequence, valid, savedKey, savedValue, i + 1);
    }

    /** From the first pair the cursor becomes invalid. */
    method Prev(ghost i: nat)
      requires At(i) && Sorted()
      modifies this, iter
      ensures Pairs() == old(Pairs()) && AllAtFirst(iter.children) == AllAtFirst(old(iter.children))
      ensures if i == 0 then !valid else At(i - 1)
    {
      hide Less, Merged, Pick, SkipKey, Live, AllChildrenSorted, StrictlyUp, CursorAt, JustAt, AllAtFirst;
      var target := savedKey;
      ghost var ps := Pairs();
      OnPair(iter.children, iter.current, sequence, valid, savedKey, savedValue, i);
      PairsAscend(iter.children, sequence);
      SeekToFirst();
      var prevKey, prevValue, found := [], [], false;
      ghost var j: nat := 0;
      JustOn(iter.children, iter.current, sequence, valid, savedKey, savedValue, j);
      KeyOrder(ps, i, j);
      while valid && Less(savedKey, target)
        invariant AllAtFirst(iter.children) == AllAtFirst(old(iter.children)) && Pairs() == ps
        invariant j <= i && Just(j) && valid && (savedKey, savedValue) == ps[j]
        invariant Less(savedKey, target) <==> j < i
        invariant found == (j > 0) && (j > 0 ==> ps[j - 1] == (prevKey, prevValue))
        decreases i - j
      {
        prevKey, prevValue, found := savedKey, savedValue, true;
        JustOn(iter.children, iter.current, sequence, valid, savedKey, savedValue, j);
        Next(j);
        j := j + 1;
        JustOn(iter.children, iter.current, sequence, valid, savedKey, savedValue, j);
        KeyOrder(ps, i, j);
      }
      if found {
        ShowsPrevious(iter.children, iter.current, sequence, savedKey, savedValue, prevKey, prevValue, i);
        savedKey, savedValue, valid := prevKey, prevValue, true;
      } else {
        valid := false;
      }
    }

    /** Lands on the last live key, if there is one. */
    method SeekToLast()
      modifies this, iter
      ensures Pairs() == old(Pairs()) && AllAtFirst(iter.children) == AllAtFirst(old(iter.children))
      ensures if Pairs() == [] then !valid else At(|Pairs()| - 1)
    {
      hide Less, Merged, Pick, SkipKey, Live, CursorAt, JustAt, AllAtFirst;
      ghost var ps := Pairs();
      SeekToFirst();
      var lastKey, lastValue, hadAny := [], [], false;
      ghost var j: nat := 0;
      JustOn(iter.children, iter.current, sequence, valid, savedKey, savedValue, j);
      while valid
        invariant AllAtFirst(iter.children) == AllAtFirst(old(iter.children)) && Pairs() == ps
        invariant j <= |ps| && Just(j) && (valid <==> j < |ps|)
        invariant hadAny == (j > 0) && (j > 0 ==> ps[j - 1] == (lastKey, lastValue))
        decreases |ps| - j
      {
        JustOn(iter.children, iter.current, sequence, valid, savedKey, savedValue, j);
        lastKey, lastValue, hadAny := savedKey, savedValue, true;
        Next(j);
        j := j + 1;
        JustOn(iter.children, iter.current, sequence, valid, savedKey, savedValue, j);
      }
      if hadAny {
        ShowsLast(iter.children, iter.current, sequence, savedKey, savedValue, lastKey, lastValue);
        savedKey, savedValue, valid := lastKey, lastValue, true;
      }
    }
  }

  /** What `FindNextUserEntry` leaves: the first of the live pairs `ps`, or an exhausted cursor. */
  ghost predicate LandedOn(m: seq<Entry>, s: nat, valid: bool, key: Key, value: Bytes, ps: seq<Pair>) {
    && Live(m, s) == ps
    && if ps == [] then !valid && m == []
       else valid && (key, value) == ps[0] && m != [] && m[0].key == key && Live(SkipKey(m, key), s) == ps[1..]
  }

  ghost predicate JustAt(cs: seq<Child>, current: int, s: nat, valid: bool, key: Key, value: Bytes, i: nat) {
    var ps := Live(Merged(AllAtFirst(cs)), s);
    && current == Pick(cs) && i <= |ps| && Live(Merged(cs), s) == ps[i..]
    && if i < |ps| then CursorAt(cs, current, s, valid, key, value, i) else !valid && Merged(cs) == []
  }

  lemma {:induction false} Lands(cs: seq<Child>, current: int, s: nat, valid: bool, key: Key, value: Bytes, i: nat)
    requires i <= |Live(Merged(AllAtFirst(cs)), s)| && current == Pick(cs)
    requires LandedOn(Merged(cs), s, valid, key, value, Live(Merged(AllAtFirst(cs)), s)[i..])
    ensures JustAt(cs, current, s, valid, key, value, i)
  {
    hide Less, Merged, Pick, SkipKey, Live;
    var ps := Live(Merged(AllAtFirst(cs)), s);
    assert i < |ps| ==> ps[i..][1..] == ps[i + 1..];
  }

  lemma {:induction false} OnPair(cs: seq<Child>, current: int, s: nat, valid: bool, key: Key, value: Bytes, i: nat)
    requires CursorAt(cs, current, s, valid, key, value, i)
    ensures var ps := Live(Merged(AllAtFirst(cs)), s); valid && i < |ps| && ps[i] == (key, value)
  {
    hide Less, Merged, Pick, SkipKey, Live;
  }

  lemma {:induction false} JustOn(cs: seq<Child>, current: int, s: nat, valid: bool, key: Key, value: Bytes, i: nat)
    requires JustAt(cs, current, s, valid, key, value, i)
    ensures var ps := Live(Merged(AllAtFirst(cs)), s);
            if i < |ps| then valid && ps[i] == (key, value) && CursorAt(cs, current, s, valid, key, value, i)
            else !valid
  {
    hide Less, Merged, Pick, SkipKey, Live;
  }

  lemma {:induction false} KeyOrder(ps: seq<Pair>, i: nat, j: nat)
    requires StrictlyUp(ps) && i < |ps| && j < |ps|
    ensures Less(ps[j].0, ps[i].0) <==> j < i
  {
    hide Less;
  }

  lemma {:induction false} PairsAscend(cs: seq<Child>, s: nat)
    requires AllChildrenSorted(AllAtFirst(cs))
    ensures StrictlyUp(Live(Merged(AllAtFirst(cs)), s))
  {
    hide *;
    MergedAscends(AllAtFirst(cs));
    LiveAscends(Merged(AllAtFirst(cs)), s);
  }

  /** A cursor that has just moved onto pair `i` may show pair `i - 1` instead. */
  lemma {:induction false} ShowsPrevious(cs: seq<Child>, current: int, s: nat, key: Key, value: Bytes, key': Key,
      value': Bytes, i: nat)
    requires AllChildrenSorted(AllAtFirst(cs)) && JustAt(cs, current, s, true, key, value, i)
    requires 0 < i < |Live(Merged(AllAtFirst(cs)), s)| && Live(Merged(AllAtFirst(cs)), s)[i - 1] == (key', value')
    ensures CursorAt(cs, current, s, true, key', value', i - 1)
  {
    hide Less, Merged, Pick, SkipKey, Live, AllChildrenSorted;
    PairsAscend(cs, s);
    SkipDone(Merged(cs), key');
  }

  /** An exhausted cursor may show the last pair. */
  lemma {:induction false} ShowsLast(cs: seq<Child>, current: int, s: nat, key: Key, value: Bytes, key': Key,
      value': Bytes)
    requires var ps := Live(Merged(AllAtFirst(cs)), s);
             JustAt(cs, current, s, false, key, value, |ps|) && ps != [] && ps[|ps| - 1] == (key', value')
    ensures CursorAt(cs, current, s, true, key', value', |Live(Merged(AllAtFirst(cs)), s)| - 1)
  {
    hide Less, Merged, Pick, SkipKey, Live;
    SkipDone([], key');
  }

  lemma {:induction false} SkipFirst(m: seq<Entry>)
    requires m != []
    ensures SkipKey(m, m[0].key) == SkipKey(m[1..], m[0].key)
  {
  }

  lemma {:induction false} SkipDone(m: seq<Entry>, k: Key)
    requires m == [] || m[0].key != k
    ensures SkipKey(m, k) == m
  {
  }

  /** A cursor in state (children, current, valid, key, value) is on live pair `i`: it shows that
      pair, and what the merging iterator has beyond the shown key are the live pairs after it. */
  ghost predicate CursorAt(cs: seq<Child>, current: int, s: nat, valid: bool, key: Key, value: Bytes, i: nat) {
    var ps, m := Live(Merged(AllAtFirst(cs)), s), Merged(cs);
    && current == Pick(cs) && valid && i < |ps| && ps[i] == (key, value)
    && (m != [] ==> AtMost(key, m[0].key))
    && Live(SkipKey(m, key), s) == ps[i + 1..]
  }

  // ---- Inserts that arrive while a cursor is in use ----

  /** Where `AddSorted` puts an entry. */
  function Slot(es: seq<Entry>, e: Entry): (j: nat)
    ensures j <= |es| && forall i :: 0 <= i < j ==> !Before(e, es[i])
  {
    if es == [] || Before(e, es[0]) then 0
    else
      var j := Slot(es[1..], e);
      assert forall i :: 0 < i < j + 1 ==> es[i] == es[1..][i - 1];
      j + 1
  }

  lemma {:induction false} AddedAtSlot(es: seq<Entry>, e: Entry)
    ensures var j := Slot(es, e); AddSorted(es, e) == es[..j] + [e] + es[j..]
  {
    hide Before;
    var j := Slot(es, e);
    if j == 0 {
      assert es[..0] == [] && es[0..] == es;
    } else {
      AddedAtSlot(es[1..], e);
      assert es[..j] == [es[0]] + es[1..][..j - 1] && es[j..] == es[1..][j - 1..];
    }
  }

  /** A memtable iterator after an insert into its memtable: it holds a node, so it stays on its
      entry, and an exhausted one stays exhausted. */
  function Grown(c: Child, e: Entry): Child {
    c.(entries := AddSorted(c.entries, e), pos := if Slot(c.entries, e) <= c.pos then c.pos + 1 else c.pos)
  }

  lemma {:induction false} GrownStays(c: Child, e: Entry)
    ensures Grown(c, e).Valid() == c.Valid()
    ensures c.Valid() ==> Grown(c, e).Current() == c.Current()
    ensures forall x :: x in Grown(c, e).Rest() ==> x in c.Rest() || (x == e && c.Valid() && !Before(e, c.Current()))
    ensures forall x :: x in c.Rest() ==> x in Grown(c, e).Rest()
  {
    hide Before, AddSorted, Slot;
    AddedAtSlot(c.entries, e);
    var j, c' := Slot(c.entries, e), Grown(c, e);
    if c.Valid() {
      var r, r' := c.Rest(), c'.Rest();
      if j <= c.pos {
        assert r' == r;
      } else {
        var d := j - c.pos;
        assert r' == r[..d] + [e] + r[d..];
        assert r == r[..d] + r[d..];
      }
    }
  }

  lemma {:induction false} SamePick(cs: seq<Child>, cs': seq<Child>)
    requires |cs| == |cs'|
    requires forall i :: 0 <= i < |cs| ==>
               cs[i].Valid() == cs'[i].Valid() && (cs[i].Valid() ==> cs[i].Current() == cs'[i].Current())
    ensures Pick(cs) == Pick(cs')
  {
    hide Smaller;
    if cs != [] { SamePick(cs[..|cs| - 1], cs'[..|cs| - 1]); }
  }

  ghost predicate Within(cs: seq<Child>, e: Entry) {
    exists i :: 0 <= i < |cs| && e in cs[i].entries
  }

  /** Sorted children whose entries visible at `s` are such as the engine writes. */
  ghost predicate Clean(cs: seq<Child>, s: nat) {
    && AllChildrenSorted(cs)
    && (forall e :: Within(cs, e) && e.seqno <= s ==> e.kind == VALUE || e.kind == DELETION)
    && forall e, f :: Within(cs, e) && Within(cs, f) && e.key == f.key && e.seqno == f.seqno <= s ==> e == f
  }

  /** A write after `s` whose number the child does not have yet. */
  ghost predicate IsNew(c: Child, e: Entry, s: nat) {
    e.seqno > s && forall x :: x in c.entries ==> x.key != e.key || x.seqno != e.seqno
  }

  lemma {:induction false} GrownWithin(cs: seq<Child>, c: nat, e: Entry)
    requires c < |cs|
    ensures forall x :: Within(cs[c := Grown(cs[c], e)], x) <==> Within(cs, x) || x == e
  {
    hide Before, AddSorted;
    var cs' := cs[c := Grown(cs[c], e)];
    forall x ensures Within(cs', x) <==> Within(cs, x) || x == e {
      assert x == e ==> x in cs'[c].entries;
      if i :| 0 <= i < |cs| && x in cs[i].entries { assert x in cs'[i].entries; }
      if i :| 0 <= i < |cs| && x in cs'[i].entries { assert i == c || x in cs[i].entries; }
    }
  }

  lemma {:induction false} GrownClean(cs: seq<Child>, c: nat, e: Entry, s: nat)
    requires c < |cs| && Clean(cs, s) && IsNew(cs[c], e, s)
    ensures Clean(cs[c := Grown(cs[c], e)], s)
  {
    hide Before, AddSorted, Within, Sorted;
    var cs' := cs[c := Grown(cs[c], e)];
    GrownWithin(cs, c, e);
    assert Sorted(cs[c].entries);
    AddSortedKeeps(cs[c].entries, e);
  }

  /** What the engine's entries are like once merged, from any positions. */
  lemma {:induction false} CleanMerged(cs: seq<Child>, s: nat)
    requires Clean(cs, s)
    ensures var m := Merged(cs); Ascending(m) && WellKinded(m, s) && Unambiguous(m, s)
    ensures forall x :: x in Merged(cs) ==> Within(cs, x)
  {
    hide Less, Merged, Ascending, Sorted;
    MergedAscends(cs);
    forall x | x in Merged(cs) ensures Within(cs, x) {
      MergedMember(cs, x);
      var i :| 0 <= i < |cs| && x in cs[i].Rest();
      assert x in cs[i].entries;
    }
  }

  lemma {:induction false} CleanFirst(cs: seq<Child>, s: nat)
    requires Clean(cs, s)
    ensures Clean(AllAtFirst(cs), s) && forall x :: x in Merged(AllAtFirst(cs)) <==> Within(cs, x)
  {
    hide Less, Merged, Sorted;
    var fs := AllAtFirst(cs);
    forall x ensures Within(fs, x) <==> Within(cs, x) {
      if i :| 0 <= i < |cs| && x in cs[i].entries { assert x in fs[i].entries; }
    }
    forall x ensures x in Merged(fs) <==> Within(cs, x) {
      MergedMember(fs, x);
      assert forall i :: 0 <= i < |cs| ==> fs[i].Rest() == cs[i].entries;
    }
  }

  // ---- Seeking ----

  /** What an entry shows of its key. */
  function ShownOf(e: Option<Entry>): Option<Bytes> {
    if e.Some? && e.value.kind == VALUE then Some(e.value.value) else None
  }

  /** Leaving out the versions of the target that the memtables' probes pass over does not change what
      is shown of it. */
  ghost predicate SeekSees(cs: seq<Child>, target: Key, s: nat) {
    ShownOf(Visible(Merged(AllAtTarget(cs, target)), target, s)) ==
    ShownOf(Visible(Merged(AllAtKey(cs, target)), target, s))
  }

  /** What seeking by key leaves. */
  lemma {:induction false} SoughtByKey(cs: seq<Child>, target: Key)
    ensures Merged(AllAtKey(cs, target)) == From(Merged(AllAtFirst(cs)), target)
  {
    hide Merged, From;
    assert AllAtKey(AllAtFirst(cs), target) == AllAtKey(cs, target);
    SeekIsSuffix(AllAtFirst(cs), target);
  }

  lemma {:induction false} SoughtClean(cs: seq<Child>, target: Key, s: nat)
    requires Clean(cs, s)
    ensures Clean(AllAtTarget(cs, target), s) && Clean(AllAtKey(cs, target), s)
  {
    hide Sorted, LowerBound, ProbeBound;
    var a, b := AllAtTarget(cs, target), AllAtKey(cs, target);
    forall x ensures (Within(a, x) <==> Within(cs, x)) && (Within(b, x) <==> Within(cs, x)) {
      if i :| 0 <= i < |cs| && x in cs[i].entries { assert x in a[i].entries && x in b[i].entries; }
      if i :| 0 <= i < |a| && x in a[i].entries { assert x in cs[i].entries; }
      if i :| 0 <= i < |b| && x in b[i].entries { assert x in cs[i].entries; }
    }
  }

  /** The two differ in hidden versions of the target only. */
  lemma {:induction false} SoughtMembers(cs: seq<Child>, target: Key, e: Entry)
    requires AllChildrenSorted(cs)
    ensures e in Merged(AllAtTarget(cs, target)) ==> e in Merged(AllAtKey(cs, target))
    ensures e in Merged(AllAtKey(cs, target)) && (e.key != target || e.seqno <= MAX_SEQNO) ==>
              e in Merged(AllAtTarget(cs, target))
  {
    hide Sorted, Merged, Less;
    var a, b := AllAtTarget(cs, target), AllAtKey(cs, target);
    MergedMember(a, e);
    MergedMember(b, e);
    forall i | 0 <= i < |cs|
      ensures e in a[i].Rest() <==> e in b[i].Rest() && !Hidden(cs[i], target, e)
    {
      SoughtRest(cs[i], target, e);
    }
  }

  /** Seeking lands right exactly when that leaves out nothing that is shown. */
  lemma {:induction false} SeekIff(cs: seq<Child>, target: Key, s: nat)
    requires Clean(cs, s)
    ensures Live(Merged(AllAtTarget(cs, target)), s) == Live(From(Merged(AllAtFirst(cs)), target), s) <==>
            SeekSees(cs, target, s)
  {
    hide Merged, Live, From, Ascending, Within, Visible, Sorted;
    var a, b := Merged(AllAtTarget(cs, target)), Merged(AllAtKey(cs, target));
    SoughtByKey(cs, target);
    SoughtClean(cs, target, s);
    CleanMerged(AllAtTarget(cs, target), s);
    CleanMerged(AllAtKey(cs, target), s);
    LiveAscends(a, s);
    LiveAscends(b, s);
    forall p: Pair ensures (p in Live(a, s) <==> IsLive(a, s, p)) && (p in Live(b, s) <==> IsLive(b, s, p)) {
      LiveMember(a, s, p);
      LiveMember(b, s, p);
    }
    forall k | k != target ensures Visible(a, k, s) == Visible(b, k, s) {
      forall e: Entry | e.key == k && e.seqno <= s ensures e in b <==> e in a { SoughtMembers(cs, target, e); }
      SameVisible(b, a, k, s);
    }
    SeekShows(a, b, target, s);
  }

  /** No memtable has a version of the target beyond its probe, or the entries are the engine's and no
      such version is shown. */
  ghost predicate SeeksRight(cs: seq<Child>, target: Key, s: nat) {
    (forall c :: c in cs ==> Probes(c, target)) || (Clean(cs, s) && SeekSees(cs, target, s))
  }

  lemma {:induction false} SoughtLive(cs: seq<Child>, target: Key, s: nat)
    requires SeeksRight(cs, target, s)
    ensures Live(Merged(AllAtTarget(cs, target)), s) == Live(From(Merged(AllAtFirst(cs)), target), s)
  {
    hide Merged, Live, From, Clean, SeekSees, Probes;
    if forall c :: c in cs ==> Probes(c, target) {
      AllProbe(cs, target);
      SoughtByKey(cs, target);
    } else {
      SeekIff(cs, target, s);
    }
  }

  lemma {:induction false} SeekShows(a: seq<Entry>, b: seq<Entry>, target: Key, s: nat)
    requires StrictlyUp(Live(a, s)) && StrictlyUp(Live(b, s))
    requires forall p: Pair :: (p in Live(a, s) <==> IsLive(a, s, p)) && (p in Live(b, s) <==> IsLive(b, s, p))
    requires forall k :: k != target ==> Visible(a, k, s) == Visible(b, k, s)
    ensures Live(a, s) == Live(b, s) <==> ShownOf(Visible(a, target, s)) == ShownOf(Visible(b, target, s))
  {
    hide Live, Visible, StrictlyUp;
    var x, y := ShownOf(Visible(a, target, s)), ShownOf(Visible(b, target, s));
    if x == y {
      forall p: Pair ensures p in Live(a, s) <==> p in Live(b, s) {
        assert p.0 == target || Visible(a, p.0, s) == Visible(b, p.0, s);
      }
      SameStrictlyUp(Live(a, s), Live(b, s));
    } else {
      assert x.Some? ==> (target, x.value) in Live(a, s) && (target, x.value) !in Live(b, s);
      assert y.Some? ==> (target, y.value) in Live(b, s) && (target, y.value) !in Live(a, s);
    }
  }

  /** A reader whose sequence number the probe reaches misses nothing. */
  lemma {:induction false} LowSees(cs: seq<Child>, target: Key, s: nat)
    requires Clean(cs, s) && s <= 0xFF_FFFF_FFFF_FFFF
    ensures SeekSees(cs, target, s)
  {
    hide Merged, Ascending, Within, Visible, Sorted;
    SoughtClean(cs, target, s);
    CleanMerged(AllAtTarget(cs, target), s);
    CleanMerged(AllAtKey(cs, target), s);
    forall e: Entry | e.key == target && e.seqno <= s
      ensures e in Merged(AllAtKey(cs, target)) <==> e in Merged(AllAtTarget(cs, target))
    {
      SoughtMembers(cs, target, e);
    }
    SameVisible(Merged(AllAtKey(cs, target)), Merged(AllAtTarget(cs, target)), target, s);
  }

  /** One write numbered beyond that is shown from the first entry on, and seeking its key misses it. */
  lemma {:induction false} SeekMisses()
    ensures var cs, s := [Mem([Entry([7], 0x100_0000_0000_0000, VALUE, [1])], 0)], 0x100_0000_0000_0000;
            && Live(Merged(AllAtFirst(cs)), s) == [([7], [1])]
            && Live(Merged(AllAtTarget(cs, [7])), s) == [] && !SeekSees(cs, [7], s)
  {
    var e := Entry([7], MAX_SEQNO + 1, VALUE, [1]);
    var c, s := Mem([e], 0), MAX_SEQNO + 1;
    assert c.AtTarget([7]) == Mem([e], 1) by { assert ProbeBound([e][1..], [7]) == 0; }
    assert c.AtKey([7]) == c && AllAtFirst([c]) == [c];
    assert AllAtTarget([c], [7]) == [Mem([e], 1)] && AllAtKey([c], [7]) == [c];
    OneChild(e);
    assert SkipKey([e][1..], [7]) == [];
  }

  lemma {:induction false} OneChild(e: Entry)
    ensures Merged([Mem([e], 0)]) == [e] && Merged([Mem([e], 1)]) == []
  {
    assert [Mem([e], 0)][..0] == [] && [Mem([e], 1)][..0] == [];
    assert Pick([Mem([e], 1)]) == -1;
    assert Pick([Mem([e], 0)]) == 0;
    assert [Mem([e], 0)][0 := Mem([e], 0).Advanced()] == [Mem([e], 1)];
  }

  /** The pairs a cursor moves over do not change. */
  lemma {:induction false} InsertKeepsPairs(cs: seq<Child>, c: nat, e: Entry, s: nat)
    requires c < |cs| && Clean(cs, s) && IsNew(cs[c], e, s)
    ensures var cs' := cs[c := Grown(cs[c], e)];
            Clean(cs', s) && Live(Merged(AllAtFirst(cs')), s) == Live(Merged(AllAtFirst(cs)), s)
  {
    hide Before, AddSorted, Within, Merged, Live, Ascending, Clean;
    var cs' := cs[c := Grown(cs[c], e)];
    GrownClean(cs, c, e, s);
    GrownWithin(cs, c, e);
    CleanFirst(cs, s);
    CleanFirst(cs', s);
    CleanMerged(AllAtFirst(cs), s);
    CleanMerged(AllAtFirst(cs'), s);
    LiveIgnoresNewer(Merged(AllAtFirst(cs')), Merged(AllAtFirst(cs)), s);
  }

  lemma {:induction false} SkipMembers(m: seq<Entry>, k: Key)
    requires Ascending(m) && forall e :: e in m ==> AtMost(k, e.key)
    ensures Ascending(SkipKey(m, k)) && forall e :: e in SkipKey(m, k) <==> e in m && e.key != k
  {
    hide Less, Ascending;
    SkipIsAbove(m, k);
    if m != [] && m[0].key == k {
      TailAscends(m);
      SkipMembers(m[1..], k);
      assert m == [m[0]] + m[1..];
    }
  }

  /** What the merging iterator still has changes by the new entry at most, and that one is not
      before the current entry. */
  lemma {:induction false} GrownRemaining(cs: seq<Child>, c: nat, e: Entry)
    requires c < |cs|
    ensures var cs' := cs[c := Grown(cs[c], e)];
            && Pick(cs') == Pick(cs)
            && (forall x :: x in Merged(cs) ==> x in Merged(cs'))
            && forall x :: x in Merged(cs') ==>
                 x in Merged(cs) || (x == e && cs[c].Valid() && !Before(e, cs[c].Current()))
  {
    hide Before, AddSorted, Merged, Pick, Grown;
    var cs' := cs[c := Grown(cs[c], e)];
    GrownStays(cs[c], e);
    SamePick(cs, cs');
    forall x | x in Merged(cs) ensures x in Merged(cs') {
      MergedMember(cs, x);
      MergedMember(cs', x);
      var i :| 0 <= i < |cs| && x in cs[i].Rest();
      assert x in cs'[i].Rest();
    }
    forall x | x in Merged(cs')
      ensures x in Merged(cs) || (x == e && cs[c].Valid() && !Before(e, cs[c].Current()))
    {
      MergedMember(cs, x);
      MergedMember(cs', x);
      var i :| 0 <= i < |cs| && x in cs'[i].Rest();
      assert i == c || x in cs[i].Rest();
    }
  }

  /** An insert with a later sequence number, wherever it falls, leaves the cursor where it is and
      everything it will show unchanged. */
  lemma {:induction false} InsertKeepsCursor(cs: seq<Child>, current: int, s: nat, valid: bool, key: Key,
      value: Bytes, i: nat, c: nat, e: Entry)
    requires c < |cs| && Clean(cs, s) && IsNew(cs[c], e, s)
    requires CursorAt(cs, current, s, valid, key, value, i)
    ensures CursorAt(cs[c := Grown(cs[c], e)], current, s, valid, key, value, i)
  {
    hide Before, AddSorted, Within, Merged, Live, Ascending, Clean, Pick, SkipKey, Grown, AllAtFirst;
    var cs' := cs[c := Grown(cs[c], e)];
    InsertKeepsPairs(cs, c, e, s);
    GrownRemaining(cs, c, e);
    NotBelow(cs, cs', c, e, s, key);
    SameBeyond(cs, cs', e, s, key);
  }

  lemma {:induction false} NotBelow(cs: seq<Child>, cs': seq<Child>, c: nat, e: Entry, s: nat, key: Key)
    requires c < |cs| && Clean(cs, s) && IsNew(cs[c], e, s) && (Merged(cs) != [] ==> AtMost(key, Merged(cs)[0].key))
    requires forall x :: x in Merged(cs') ==>
               x in Merged(cs) || (x == e && cs[c].Valid() && !Before(e, cs[c].Current()))
    ensures forall x :: x in Merged(cs) ==> AtMost(key, x.key)
    ensures forall x :: x in Merged(cs') ==> AtMost(key, x.key)
  {
    hide Less, AddSorted, Merged, Ascending, Pick, Clean, Within;
    CleanMerged(cs, s);
    if Merged(cs) != [] { TailAscends(Merged(cs)); }
    if cs[c].Valid() {
      var x := cs[c].Current();
      MergedMember(cs, x);
      assert x in cs[c].Rest();
      Trichotomy(x, e);
    }
  }

  lemma {:induction false} SameBeyond(cs: seq<Child>, cs': seq<Child>, e: Entry, s: nat, key: Key)
    requires Clean(cs, s) && Clean(cs', s) && e.seqno > s
    requires forall x :: x in Merged(cs) ==> x in Merged(cs') && AtMost(key, x.key)
    requires forall x :: x in Merged(cs') ==> (x in Merged(cs) || x == e) && AtMost(key, x.key)
    ensures Live(SkipKey(Merged(cs'), key), s) == Live(SkipKey(Merged(cs), key), s)
  {
    hide Less, Merged, Ascending, Clean, Within, Live, SkipKey;
    CleanMerged(cs, s);
    CleanMerged(cs', s);
    SkipMembers(Merged(cs), key);
    SkipMembers(Merged(cs'), key);
    LiveIgnoresNewer(SkipKey(Merged(cs'), key), SkipKey(Merged(cs), key), s);
  }
}
