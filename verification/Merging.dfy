/** The forward merging iterator: a cursor over the sorted union of its children. */
module Merging {
  import opened Keys
  import opened Entries

  /** A child iterator: a sorted run and a position in it, valid while inside the run.  `Child` is a
      table's, `Mem` a memtable's; they differ in how they seek. */
  datatype Child = Child(entries: seq<Entry>, pos: nat) | Mem(entries: seq<Entry>, pos: nat) {
    predicate Valid() { pos < |entries| }

    function Current(): Entry
      requires Valid()
    {
      entries[pos]
    }

    function Rest(): seq<Entry> {
      if Valid() then entries[pos..] else []
    }

    function AtFirst(): Child { this.(pos := 0) }

    function Advanced(): Child { this.(pos := pos + 1) }

    /** On the first entry with a key at or after the target. */
    function AtKey(target: Key): Child { this.(pos := LowerBound(entries, target)) }

    /** `Seek`: a table looks for the key, a memtable for the key with the largest sequence number. */
    function AtTarget(target: Key): Child {
      this.(pos := if Mem? then ProbeBound(entries, target) else LowerBound(entries, target))
    }
  }

  /** What `MemTableIterator::Seek` looks for. */
  function Probe(target: Key): Entry { Entry(target, MAX_SEQNO, VALUE, []) }

  /** The index of the first entry that is not before the probe. */
  function ProbeBound(es: seq<Entry>, target: Key): (r: nat)
    ensures r <= |es|
    ensures forall i :: 0 <= i < r ==> Before(es[i], Probe(target))
    ensures r < |es| ==> !Before(es[r], Probe(target))
  {
    if es == [] || !Before(es[0], Probe(target)) then 0
    else
      var r := ProbeBound(es[1..], target);
      assert forall i :: 0 < i < r + 1 ==> es[i] == es[1..][i - 1];
      r + 1
  }

  /** The index of the first entry whose key is at or after `target`. */
  function LowerBound(es: seq<Entry>, target: Key): (r: nat)
    ensures r <= |es|
    ensures forall i :: 0 <= i < r ==> Less(es[i].key, target)
    ensures r < |es| ==> !Less(es[r].key, target)
  {
    if es == [] || !Less(es[0].key, target) then 0
    else
      var r := LowerBound(es[1..], target);
      assert forall i :: 0 < i < r + 1 ==> es[i] == es[1..][i - 1];
      r + 1
  }

  /** `CompareIterators(a, b) < 0`: as `Before`, with equal sequence numbers ordered by kind. */
  predicate Smaller(a: Entry, b: Entry) {
    Less(a.key, b.key) ||
    (a.key == b.key && (a.seqno > b.seqno || (a.seqno == b.seqno && a.kind > b.kind)))
  }

  predicate Ascending(m: seq<Entry>) {
    forall i, j :: 0 <= i < j < |m| ==> !Smaller(m[j], m[i])
  }

  predicate AllChildrenSorted(cs: seq<Child>) {
    forall i :: 0 <= i < |cs| ==> Sorted(cs[i].entries)
  }

  /** Child `m` is the first among the valid children with the smallest entry; -1 when none is valid. */
  predicate IsPick(cs: seq<Child>, m: int) {
    if m < 0 then
      m == -1 && forall i :: 0 <= i < |cs| ==> !cs[i].Valid()
    else
      && m < |cs| && cs[m].Valid()
      && (forall i :: 0 <= i < m && cs[i].Valid() ==> Smaller(cs[m].Current(), cs[i].Current()))
      && forall i :: m < i < |cs| && cs[i].Valid() ==> !Smaller(cs[i].Current(), cs[m].Current())
  }

  function Pick(cs: seq<Child>): (m: int)
    ensures IsPick(cs, m)
  {
    if cs == [] then -1
    else
      var n := |cs| - 1;
      var m := Pick(cs[..n]);
      if cs[n].Valid() && (m < 0 || Smaller(cs[n].Current(), cs[m].Current())) then n else m
  }

  lemma {:induction false} NoPick()
    ensures IsPick([], -1)
  {
  }

  /** Looking at one more child. */
  lemma {:induction false} PickNext(cs: seq<Child>, c: Child, m: int)
    requires IsPick(cs, m) && m < |cs|
    ensures m >= 0 ==> cs[m].Valid()
    ensures IsPick(cs + [c], if c.Valid() && (m < 0 || Smaller(c.Current(), cs[m].Current())) then |cs| else m)
  {
    hide Less;
  }

  /** There is one pick only. */
  lemma {:induction false} OnePick(cs: seq<Child>, m: int)
    requires IsPick(cs, m)
    ensures m == Pick(cs)
  {
    hide Pick, Less;
    assert IsPick(cs, Pick(cs));
  }

  function Left(cs: seq<Child>): nat {
    if cs == [] then 0 else |cs[0].Rest()| + Left(cs[1..])
  }

  lemma {:induction false} LeftAdvanced(cs: seq<Child>, m: nat)
    requires m < |cs| && cs[m].Valid()
    ensures Left(cs) == 1 + Left(cs[m := cs[m].Advanced()])
  {
    var cs' := cs[m := cs[m].Advanced()];
    if m == 0 {
      assert cs'[1..] == cs[1..];
    } else {
      LeftAdvanced(cs[1..], m - 1);
      assert cs'[1..] == cs[1..][m - 1 := cs[m].Advanced()];
    }
  }

  /** What repeated `Next` calls yield from here on. */
  function Merged(cs: seq<Child>): seq<Entry>
    decreases Left(cs)
  {
    var m := Pick(cs);
    if m < 0 then []
    else
      LeftAdvanced(cs, m);
      [cs[m].Current()] + Merged(cs[m := cs[m].Advanced()])
  }

  /** One step of `Merged`. */
  lemma {:induction false} MergedStep(cs: seq<Child>, m: int)
    requires m == Pick(cs)
    ensures m < 0 ==> Merged(cs) == []
    ensures m >= 0 ==>
              && Merged(cs) == [cs[m].Current()] + Merged(cs[m := cs[m].Advanced()])
              && Left(cs[m := cs[m].Advanced()]) < Left(cs)
  {
    if m >= 0 {
      LeftAdvanced(cs, m);
    }
  }

  function Union(cs: seq<Child>): multiset<Entry> {
    if cs == [] then multiset{} else multiset(cs[0].Rest()) + Union(cs[1..])
  }

  lemma {:induction false} UnionAdvanced(cs: seq<Child>, m: nat)
    requires m < |cs| && cs[m].Valid()
    ensures Union(cs) == multiset{cs[m].Current()} + Union(cs[m := cs[m].Advanced()])
  {
    var cs' := cs[m := cs[m].Advanced()];
    if m == 0 {
      assert cs'[1..] == cs[1..];
      assert cs[0].Rest() == [cs[0].Current()] + cs'[0].Rest();
    } else {
      UnionAdvanced(cs[1..], m - 1);
      assert cs'[1..] == cs[1..][m - 1 := cs[m].Advanced()];
    }
  }

  lemma {:induction false} UnionExhausted(cs: seq<Child>)
    requires forall i :: 0 <= i < |cs| ==> !cs[i].Valid()
    ensures Union(cs) == multiset{}
  {
    if cs != [] {
      UnionExhausted(cs[1..]);
    }
  }

  /** Merging loses, adds and duplicates nothing. */
  lemma {:induction false} MergedIsUnion(cs: seq<Child>)
    ensures multiset(Merged(cs)) == Union(cs)
    decreases Left(cs)
  {
    var m := Pick(cs);
    if m < 0 {
      UnionExhausted(cs);
    } else {
      LeftAdvanced(cs, m);
      UnionAdvanced(cs, m);
      MergedIsUnion(cs[m := cs[m].Advanced()]);
    }
  }

  lemma {:induction false} UnionMember(cs: seq<Child>, e: Entry)
    ensures e in Union(cs) <==> exists i :: 0 <= i < |cs| && e in cs[i].Rest()
  {
    if cs != [] {
      UnionMember(cs[1..], e);
      if i :| 0 <= i < |cs| && e in cs[i].Rest() {
        assert i > 0 ==> e in cs[1..][i - 1].Rest();
      }
    }
  }

  lemma {:induction false} MergedMember(cs: seq<Child>, e: Entry)
    ensures e in Merged(cs) <==> exists i :: 0 <= i < |cs| && e in cs[i].Rest()
  {
    MergedIsUnion(cs);
    UnionMember(cs, e);
    assert e in Merged(cs) <==> e in multiset(Merged(cs));
  }

  /** Nothing still to come is smaller than the picked child's entry. */
  lemma {:induction false} PickIsLeast(cs: seq<Child>, m: nat, i: nat, e: Entry)
    requires AllChildrenSorted(cs) && IsPick(cs, m)
    requires i < |cs| && e in cs[i].Rest()
    ensures !Smaller(e, cs[m].Current())
  {
    hide Less, Sorted;
    var first := cs[i].Current();
    RestAscends(cs[i], e);
    assert !Smaller(first, cs[m].Current());
  }

  lemma {:induction false} RestAscends(c: Child, e: Entry)
    requires Sorted(c.entries) && e in c.Rest()
    ensures c.Valid() && (e == c.Current() || Before(c.Current(), e))
  {
    hide Less;
    var j :| 0 <= j < |c.Rest()| && c.Rest()[j] == e;
    assert e == c.entries[c.pos + j];
  }

  /** Merging sorted children yields a sorted sequence. */
  lemma {:induction false} MergedAscends(cs: seq<Child>)
    requires AllChildrenSorted(cs)
    ensures Ascending(Merged(cs))
    decreases Left(cs)
  {
    hide Smaller, Pick, Sorted, Merged, Left;
    var m := Pick(cs);
    MergedStep(cs, m);
    if m >= 0 {
      var cs' := cs[m := cs[m].Advanced()];
      MergedAscends(cs');
      forall e | e in Merged(cs') ensures !Smaller(e, cs[m].Current()) {
        MergedMember(cs', e);
        var i :| 0 <= i < |cs'| && e in cs'[i].Rest();
        PickIsLeast(cs, m, i, e);
      }
    }
  }

  /** The suffix that starts at the first key at or after `target`. */
  function From(m: seq<Entry>, target: Key): seq<Entry> {
    if m == [] || !Less(m[0].key, target) then m else From(m[1..], target)
  }

  predicate NotPast(cs: seq<Child>, target: Key) {
    forall i :: 0 <= i < |cs| ==> cs[i].pos <= LowerBound(cs[i].entries, target)
  }

  function AllAtTarget(cs: seq<Child>, target: Key): (r: seq<Child>)
    ensures |r| == |cs|
    ensures forall i :: 0 <= i < |cs| ==> r[i] == cs[i].AtTarget(target)
  {
    seq(|cs|, i requires 0 <= i < |cs| => cs[i].AtTarget(target))
  }

  function AllAtKey(cs: seq<Child>, target: Key): (r: seq<Child>)
    ensures |r| == |cs|
    ensures forall i :: 0 <= i < |cs| ==> r[i] == cs[i].AtKey(target)
  {
    seq(|cs|, i requires 0 <= i < |cs| => cs[i].AtKey(target))
  }

  function AllAtFirst(cs: seq<Child>): (r: seq<Child>)
    ensures |r| == |cs|
    ensures forall i :: 0 <= i < |cs| ==> r[i] == cs[i].AtFirst()
  {
    seq(|cs|, i requires 0 <= i < |cs| => cs[i].AtFirst())
  }

  /** Once the smallest entry is at or after the target, so is every child. */
  lemma {:induction false} NoneBelow(cs: seq<Child>, target: Key)
    requires NotPast(cs, target)
    requires Pick(cs) < 0 || !Less(cs[Pick(cs)].Current().key, target)
    ensures AllAtKey(cs, target) == cs
  {
    hide Less, Pick, LowerBound;
    var m := Pick(cs);
    forall i | 0 <= i < |cs| ensures cs[i].AtKey(target) == cs[i] {
      if cs[i].pos < LowerBound(cs[i].entries, target) {
        assert cs[i].Valid() && Less(cs[i].Current().key, target);
        assert Less(cs[i].Current().key, cs[m].Current().key);
      }
    }
  }

  /** Seeking every child by key and merging is merging everything and then seeking. */
  lemma {:induction false} SeekIsSuffix(cs: seq<Child>, target: Key)
    requires NotPast(cs, target)
    ensures Merged(AllAtKey(cs, target)) == From(Merged(cs), target)
    decreases Left(cs)
  {
    hide Less, Pick, LowerBound, Smaller, Merged, Left;
    var m := Pick(cs);
    MergedStep(cs, m);
    if m >= 0 && Less(cs[m].Current().key, target) {
      var cs' := cs[m := cs[m].Advanced()];
      assert AllAtKey(cs', target) == AllAtKey(cs, target);
      assert NotPast(cs', target);
      SeekIsSuffix(cs', target);
      assert Merged(cs)[1..] == Merged(cs');
    } else {
      NoneBelow(cs, target);
    }
  }

  /** What the probe of a memtable leaves out: the versions of the target above the largest sequence
      number it looks for. */
  predicate Hidden(c: Child, target: Key, e: Entry) {
    c.Mem? && e.key == target && e.seqno > MAX_SEQNO
  }

  /** Seeking the child is seeking it by key. */
  predicate Probes(c: Child, target: Key) {
    Sorted(c.entries) && forall e :: e in c.entries ==> !Hidden(c, target, e)
  }

  lemma {:induction false} SoughtRest(c: Child, target: Key, e: Entry)
    requires Sorted(c.entries)
    ensures e in c.AtKey(target).Rest() <==> e in c.entries && !Less(e.key, target)
    ensures e in c.AtTarget(target).Rest() <==> e in c.AtKey(target).Rest() && !Hidden(c, target, e)
  {
    hide Less;
    var es := c.entries;
    var l, p := LowerBound(es, target), c.AtTarget(target).pos;
    forall i | 0 <= i < |es| ensures Less(es[i].key, target) <==> i < l {
      assert i > l ==> Before(es[l], es[i]);
    }
    forall i | 0 <= i < |es| ensures Less(es[i].key, target) || Hidden(c, target, es[i]) <==> i < p {
      assert i > p ==> Before(es[p], es[i]);
    }
  }

  lemma {:induction false} AllProbe(cs: seq<Child>, target: Key)
    requires forall i :: 0 <= i < |cs| ==> Probes(cs[i], target)
    ensures AllAtTarget(cs, target) == AllAtKey(cs, target)
  {
    hide Less, LowerBound, ProbeBound;
    forall i | 0 <= i < |cs| ensures cs[i].AtTarget(target) == cs[i].AtKey(target) {
      var es := cs[i].entries;
      var l, p := LowerBound(es, target), cs[i].AtTarget(target).pos;
      assert l < |es| ==> es[l] in es && !Hidden(cs[i], target, es[l]);
      assert p < |es| ==> !Less(es[p].key, target);
    }
  }

  class MergingIterator {
    var children: seq<Child>
    var current: int

    /** `current` is the child that `FindSmallest` chose. */
    ghost predicate Consistent()
      reads this
    {
      current == Pick(children)
    }

    /** The entries still to come; the current entry is the first of them. */
    ghost function Remaining(): seq<Entry>
      reads this
    {
      Merged(children)
    }

    constructor (children: seq<Child>)
      ensures this.children == children && !Valid()
    {
      this.children := children;
      this.current := -1;
    }

    predicate Valid()
      reads this
      ensures Consistent() ==> (Valid() <==> Remaining() != [])
    {
      0 <= current < |children| && children[current].Valid()
    }

    function Current(): (e: Entry)
      requires Valid()
      reads this
      ensures Consistent() ==> Remaining()[0] == e
    {
      children[current].Current()
    }

    method FindSmallest()
      modifies this`current
      ensures Consistent()
    {
      hide Smaller, IsPick;
      var smallest := -1;
      NoPick();
      for i := 0 to |children|
        invariant smallest < i && IsPick(children[..i], smallest)
      {
        PickNext(children[..i], children[i], smallest);
        assert children[..i + 1] == children[..i] + [children[i]];
        if children[i].Valid() && (smallest < 0 || Smaller(children[i].Current(), children[smallest].Current())) {
          smallest := i;
        }
      }
      assert children[..|children|] == children;
      OnePick(children, smallest);
      current := smallest;
    }

    method SeekToFirst()
      modifies this
      ensures Consistent() && children == AllAtFirst(old(children))
    {
      for i := 0 to |children|
        invariant |children| == |old(children)|
        invariant forall j :: 0 <= j < |children| ==>
            children[j] == if j < i then old(children)[j].AtFirst() else old(children)[j]
      {
        children := children[i := children[i].AtFirst()];
      }
      FindSmallest();
    }

    method Seek(target: Key)
      modifies this
      ensures Consistent() && |children| == |old(children)|
      ensures AllAtFirst(children) == AllAtFirst(old(children))
      ensures children == AllAtTarget(AllAtFirst(children), target)
      ensures (forall i :: 0 <= i < |children| ==> Probes(children[i], target)) ==>
                Remaining() == From(Merged(AllAtFirst(children)), target)
    {
      for i := 0 to |children|
        invariant |children| == |old(children)|
        invariant forall j :: 0 <= j < |children| ==>
            children[j] == if j < i then old(children)[j].AtTarget(target) else old(children)[j]
      {
        children := children[i := children[i].AtTarget(target)];
      }
      FindSmallest();
      assert children == AllAtTarget(AllAtFirst(children), target);
      if forall i :: 0 <= i < |children| ==> Probes(children[i], target) {
        AllProbe(AllAtFirst(children), target);
        SeekIsSuffix(AllAtFirst(children), target);
      }
    }

    method Next()
      requires Consistent() && Valid()
      modifies this
      ensures Consistent() && AllAtFirst(children) == AllAtFirst(old(children))
      ensures Remaining() == old(Remaining())[1..]
    {
      children := children[current := children[current].Advanced()];
      FindSmallest();
    }
  }

  /** The order of a merge, spelt out: keys ascend, of equal keys the larger sequence number comes first,
      and of equal numbers the larger kind, so a put before a delete. */
  lemma {:induction false} MergedOrder(cs: seq<Child>, i: nat, j: nat)
    requires AllChildrenSorted(cs) && i < j < |Merged(cs)|
    ensures var a, b := Merged(cs)[i], Merged(cs)[j];
            || Less(a.key, b.key)
            || (a.key == b.key && (a.seqno > b.seqno || (a.seqno == b.seqno && a.kind >= b.kind)))
  {
    hide Less, Merged;
    MergedAscends(cs);
    assert !Smaller(Merged(cs)[j], Merged(cs)[i]);
  }
}
