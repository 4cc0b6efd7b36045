/** The skip list and the memtable as objects. */
module Memtables {
  import opened Keys
  import opened Entries
  import opened Merging
  import opened SkipLists

  class SkipList {
    var heap: Heap
    ghost var levels: Levels

    ghost predicate Ok()
      reads this
    {
      SkipLists.Valid(heap, levels)
    }

    /** The entries in list order. */
    ghost function Contents(): seq<Entry>
      requires Ok()
      reads this
    {
      ListNodes(heap, levels, 0);
      KeysOf(heap, levels[0])
    }

    constructor ()
      ensures Ok() && Contents() == []
    {
      heap := Heap([Entry([], 0, VALUE, [])], [seq(MAX_HEIGHT, _ => NULL)], 1);
      levels := seq(MAX_HEIGHT, _ => []);
    }

    /** `FindGreaterOrEqual`, with the predecessors it passes on each level. */
    method FindGreaterOrEqual(target: Entry) returns (r: Node, prev: seq<Node>)
      requires Ok()
      ensures Ok() && IsFirst(heap, levels, target, r)
      ensures |prev| == MAX_HEIGHT && forall l :: 0 <= l < MAX_HEIGHT ==> StopsAt(heap, levels, target, l, prev[l])
    {
      hide Before, Chained;
      var x, level := HEAD, heap.maxHeight - 1;
      prev := seq(MAX_HEIGHT, _ => HEAD);
      EmptyStops(heap, levels, target);
      ghost var j: nat := 0;
      while true
        invariant 0 <= level < heap.maxHeight && |prev| == MAX_HEIGHT
        invariant Reached(heap, levels, target, x, level)
        invariant j <= |levels[level]| && x == Pred(levels[level], j)
        invariant forall l :: level < l < MAX_HEIGHT ==> StopsAt(heap, levels, target, l, prev[l])
        decreases level, |levels[level]| - j
      {
        ghost var i := Position(heap, levels, target, x, level);
        SamePosition(heap, levels, level, i, j);
        StepRight(heap, levels, target, x, level);
        var next := heap.next[x][level];
        if IsAfter(heap, target, next) {
          x, j := next, j + 1;
        } else {
          ListNodes(heap, levels, level);
          Stopped(heap, levels, target, level, j);
          prev := prev[level := x];
          if level == 0 {
            LastLoad(heap, levels, target, x);
            return next, prev;
          }
          StepDown(heap, levels, target, x, level);
          j := Position(heap, levels, target, x, level - 1);
          level := level - 1;
        }
      }
    }
  
    /** `Insert`: search, raise the height, allocate, then two stores per level from the bottom up. */
    method Insert(e: Entry, height: nat)
      requires Ok() && 1 <= height <= MAX_HEIGHT
      requires forall x :: x in Contents() ==> x.key != e.key || x.seqno != e.seqno
      modifies this
      ensures Ok() && Contents() == AddSorted(old(Contents()), e)
    {
      hide Before, Chained, AddSorted, WriterOk, SkipLists.Valid;
      var x, prev := NewNode(e, height);
      for i := 0 to height
        invariant Ok() && x < |heap.keys| && heap.keys[x] == e
        invariant WriterOk(heap, levels, if i == height then Resting else Linking(x, height, prev, i, false))
        invariant Contents() == if i == 0 then old(Contents()) else AddSorted(old(Contents()), e)
      {
        Link(x, height, prev, i);
      }
    }

    /** Finds the predecessors, records the height and allocates the node; nothing is linked yet. */
    method NewNode(e: Entry, height: nat) returns (x: Node, prev: seq<Node>)
      requires Ok() && 1 <= height <= MAX_HEIGHT
      requires forall x :: x in Contents() ==> x.key != e.key || x.seqno != e.seqno
      modifies this
      ensures Ok() && Contents() == old(Contents()) && x < |heap.keys| && heap.keys[x] == e
      ensures WriterOk(heap, levels, Linking(x, height, prev, 0, false))
    {
      hide Before, Chained, IsPrev, WriterOk;
      var r;
      r, prev := FindGreaterOrEqual(e);
      ListNodes(heap, levels, 0);
      NewKey(heap, levels, e);
      SearchedOk(heap, levels, e, height, prev);
      WriterStepKeeps(heap, levels, Searched(e, height, prev));
      if height > heap.maxHeight {
        heap := heap.(maxHeight := height);
      }
      WriterStepKeeps(heap, levels, Raised(e, height, prev));
      SameContents(heap, levels, Raised(e, height, prev));
      x := |heap.keys|;
      heap := Allocate(heap, e, height);
    }

    /** Links node `x` into level `i`: its own pointer first, then its predecessor's. */
    method Link(x: Node, height: nat, prev: seq<Node>, i: nat)
      requires Ok() && WriterOk(heap, levels, Linking(x, height, prev, i, false))
      modifies this
      ensures Ok()
      ensures WriterOk(heap, levels, if i + 1 == height then Resting else Linking(x, height, prev, i + 1, false))
      ensures x < |old(heap).keys| && heap.keys == old(heap.keys)
      ensures Contents() == if i == 0 then AddSorted(old(Contents()), heap.keys[x]) else old(Contents())
    {
      hide Before, Chained, AddSorted, IsPrev, WriterOk, SetNext;
      ghost var w := Linking(x, height, prev, i, false);
      LinkingNode(heap, levels, w);
      WriterStepKeeps(heap, levels, w);
      SameContents(heap, levels, w);
      SetNextKeys(heap, x, i, heap.next[prev[i]][i]);
      heap := SetNext(heap, x, i, heap.next[prev[i]][i]);
      w := w.(copied := true);
      WriterStepKeeps(heap, levels, w);
      if i == 0 { NewContents(heap, levels, w); } else { SameContents(heap, levels, w); }
      ghost var levels' := LevelsAfter(heap, levels, w);
      SetNextKeys(heap, prev[i], i, x);
      heap := SetNext(heap, prev[i], i, x);
      levels := levels';
    }

    /** `FindLessThan`: the last node before the target, or the head. */
    method FindLessThan(target: Entry) returns (r: Node)
      requires Ok()
      ensures StopsAt(heap, levels, target, 0, r)
    {
      hide Before, Chained;
      var x, level := HEAD, heap.maxHeight - 1;
      ghost var j: nat := 0;
      while true
        invariant 0 <= level < heap.maxHeight && Reached(heap, levels, target, x, level)
        invariant j <= |levels[level]| && x == Pred(levels[level], j)
        decreases level, |levels[level]| - j
      {
        ghost var i := Position(heap, levels, target, x, level);
        SamePosition(heap, levels, level, i, j);
        StepRight(heap, levels, target, x, level);
        var next := heap.next[x][level];
        if next == NULL || !Before(heap.keys[next], target) {
          if level == 0 {
            ListNodes(heap, levels, level);
            Stopped(heap, levels, target, 0, j);
            return x;
          }
          StepDown(heap, levels, target, x, level);
          j := Position(heap, levels, target, x, level - 1);
          level := level - 1;
        } else {
          x, j := next, j + 1;
        }
      }
    }

    /** `FindLast`: the last node, or the head of an empty list. */
    method FindLast() returns (r: Node)
      requires Ok()
      ensures r == Pred(levels[0], |levels[0]|)
    {
      hide Before, Chained;
      var x, level := HEAD, heap.maxHeight - 1;
      ghost var j: nat := 0;
      while true
        invariant 0 <= level < heap.maxHeight
        invariant j <= |levels[level]| && x == Pred(levels[level], j)
        decreases level, |levels[level]| - j
      {
        PredPointer(heap, levels, level, j);
        ListNodes(heap, levels, level);
        var next := heap.next[x][level];
        if next != NULL {
          x, j := next, j + 1;
        } else if level == 0 {
          return x;
        } else {
          j := LowerPosition(heap, levels, level, j);
          level := level - 1;
        }
      }
    }
  }

  /** An iterator over a skip list.  Position |Contents| is the invalid one. */
  class Iterator {
    const list: SkipList
    var node: Node

    ghost predicate Stands(i: nat)
      reads this, list
    {
      list.Ok() && i <= |list.levels[0]| && node == Succ(list.levels[0], i)
    }

    constructor (list: SkipList)
      requires list.Ok()
      ensures this.list == list && Stands(|list.Contents()|)
    {
      this.list := list;
      node := NULL;
    }

    predicate Valid()
      reads this
    {
      node != NULL
    }

    /** `key()`. */
    method Key(ghost i: nat) returns (e: Entry)
      requires Stands(i) && Valid()
      ensures i < |list.Contents()| && e == list.Contents()[i]
    {
      hide Before, Chained;
      ListNodes(list.heap, list.levels, 0);
      e := list.heap.keys[node];
    }

    method Next(ghost i: nat)
      requires Stands(i) && Valid()
      modifies this
      ensures Stands(i + 1)
    {
      hide Before, Chained;
      PredPointer(list.heap, list.levels, 0, i + 1);
      node := list.heap.next[node][0];
    }

    /** Stepping back from the first entry leaves the iterator invalid. */
    method Prev(ghost i: nat)
      requires Stands(i) && Valid()
      modifies this
      ensures Stands(if i == 0 then |list.Contents()| else i - 1)
    {
      hide Before, Chained;
      ListNodes(list.heap, list.levels, 0);
      node := list.FindLessThan(list.heap.keys[node]);
      BeforeItself(list.heap, list.levels, i, node);
    }

    /** The first entry that is not before the target. */
    method Seek(target: Entry)
      requires list.Ok()
      modifies this
      ensures exists i: nat :: Stands(i) && SplitAt(list.Contents(), target, i)
    {
      hide Before, Chained;
      var prev;
      node, prev := list.FindGreaterOrEqual(target);
      ghost var i := FirstIndex(list.heap, list.levels, target, node);
      assert Stands(i) && SplitAt(list.Contents(), target, i);
    }

    /** `MemTableIterator::Seek`: to the first entry that is not before the target with the largest
        sequence number; that is the first entry of a key at or after the target exactly when no version
        of the target has a larger number. */
    method SeekKey(target: Key)
      requires list.Ok() && Sorted(list.Contents())
      modifies this
      ensures Stands(ProbeBound(list.Contents(), target))
      ensures ProbeBound(list.Contents(), target) == LowerBound(list.Contents(), target) <==>
              forall e :: e in list.Contents() && e.key == target ==> e.seqno <= MAX_SEQNO
    {
      hide Before, Chained, Sorted, LowerBound, ProbeBound;
      Seek(Probe(target));
      ghost var i: nat :| Stands(i) && SplitAt(list.Contents(), Probe(target), i);
      SplitIsProbe(list.Contents(), target, i);
      SeekKeyIff(list.Contents(), Probe(target), i);
    }

    method SeekToFirst()
      requires list.Ok()
      modifies this
      ensures Stands(0)
    {
      hide Before, Chained;
      PredPointer(list.heap, list.levels, 0, 0);
      node := list.heap.next[HEAD][0];
    }

    method SeekToLast()
      requires list.Ok()
      modifies this
      ensures Stands(if |list.Contents()| == 0 then 0 else |list.Contents()| - 1)
    {
      hide Before, Chained;
      node := list.FindLast();
    }
  }

  /** The first `i` entries are those before the target. */
  ghost predicate SplitAt(es: seq<Entry>, target: Entry, i: nat) {
    i <= |es| && forall j :: 0 <= j < |es| ==> (Before(es[j], target) <==> j < i)
  }

  lemma {:induction false} SplitIsProbe(es: seq<Entry>, target: Key, i: nat)
    requires SplitAt(es, Probe(target), i)
    ensures i == ProbeBound(es, target)
  {
    hide Before;
    if es != [] {
      var rest := es[1..];
      assert es[0] in es;
      if i > 0 {
        assert Before(es[0], Probe(target));
        forall j | 0 <= j < |rest| ensures Before(rest[j], Probe(target)) <==> j < i - 1 {
          assert rest[j] == es[j + 1];
        }
        SplitIsProbe(rest, target, i - 1);
      } else {
        assert !Before(es[0], Probe(target));
      }
    }
  }

  /** Seeking with a sequence number lands on the first entry of a key at or after the target exactly
      when no version of the target itself has a larger number. */
  lemma {:induction false} SeekKeyIff(es: seq<Entry>, probe: Entry, i: nat)
    requires Sorted(es) && SplitAt(es, probe, i)
    ensures i == LowerBound(es, probe.key) <==> forall e :: e in es && e.key == probe.key ==> e.seqno <= probe.seqno
  {
    hide Less;
    var j := LowerBound(es, probe.key);
    assert i < j ==> Before(es[i], probe);
    assert j <= i;
    if i == j {
      forall e | e in es && e.key == probe.key ensures e.seqno <= probe.seqno {
        var k :| 0 <= k < |es| && es[k] == e;
        assert k >= j;
      }
    } else {
      assert Before(es[j], probe) && es[j] in es;
    }
  }

  /** A memtable: its table and how many entries it has. */
  class Memtable {
    const table: SkipList
    var count: nat

    ghost predicate Ok()
      reads this, table
    {
      table.Ok() && count == |table.Contents()| && Sorted(table.Contents())
    }

    ghost function Contents(): seq<Entry>
      requires table.Ok()
      reads this, table
    {
      table.Contents()
    }

    constructor ()
      ensures Ok() && fresh(table) && Contents() == []
    {
      table := new SkipList();
      count := 0;
    }

    /** `Add` with the random height as a parameter. */
    method Add(e: Entry, height: nat)
      requires Ok() && 1 <= height <= MAX_HEIGHT
      requires forall x :: x in Contents() ==> x.key != e.key || x.seqno != e.seqno
      modifies this, table
      ensures Ok() && Contents() == AddSorted(old(Contents()), e)
    {
      hide AddSorted, Sorted;
      AddSortedKeeps(Contents(), e);
      table.Insert(e, height);
      count := count + 1;
    }

    /** `Get`: seek to (key, seqno) and look at one node. */
    method Get(key: Key, seqno: nat) returns (r: Answer)
      requires Ok()
      ensures r == match Visible(Contents(), key, seqno) case Some(e) => AnswerOf(e) case None => Missing
    {
      hide Before, Chained, Visible;
      var probe := Entry(key, seqno, VALUE, []);
      var n, prev := table.FindGreaterOrEqual(probe);
      ghost var j := FirstIndex(table.heap, table.levels, probe, n);
      SeekVisible(table.Contents(), probe, j);
      if n != NULL && table.heap.keys[n].key == key {
        return AnswerOf(table.heap.keys[n]);
      }
      return Missing;
    }
  }

  lemma {:induction false} ListNodes(h: Heap, lv: Levels, l: nat)
    requires SkipLists.Valid(h, lv) && l < MAX_HEIGHT
    ensures forall j :: 0 <= j < |lv[l]| ==> HEAD < lv[l][j] < |h.keys|
  {
    hide Before;
    assert Chained(h, l, lv[l]);
    assert forall j :: 0 <= j < |lv[l]| ==> Member(h, l, lv[l][j]);
  }

  /** On level `l` everything up to `p` is before the target and nothing after it is. */
  ghost predicate StopsAt(h: Heap, lv: Levels, target: Entry, l: nat, p: Node)
    requires SkipLists.Valid(h, lv) && l < MAX_HEIGHT
  {
    exists j :: 0 <= j <= |lv[l]| && p == Pred(lv[l], j) && Divides(h, lv, target, l, j)
  }

  ghost predicate Divides(h: Heap, lv: Levels, target: Entry, l: nat, j: nat)
    requires SkipLists.Valid(h, lv) && l < MAX_HEIGHT && j <= |lv[l]|
  {
    && (forall i :: 0 <= i < |lv[l]| ==> lv[l][i] < |h.keys|)
    && forall i :: 0 <= i < |lv[l]| ==> (Before(h.keys[lv[l][i]], target) <==> i < j)
  }

  lemma {:induction false} EmptyStops(h: Heap, lv: Levels, target: Entry)
    requires SkipLists.Valid(h, lv)
    ensures forall l :: h.maxHeight <= l < MAX_HEIGHT ==> StopsAt(h, lv, target, l, HEAD)
  {
    hide Before, Chained;
    forall l | h.maxHeight <= l < MAX_HEIGHT ensures StopsAt(h, lv, target, l, HEAD) {
      assert Divides(h, lv, target, l, 0);
    }
  }

  lemma {:induction false} SamePosition(h: Heap, lv: Levels, l: nat, i: nat, j: nat)
    requires SkipLists.Valid(h, lv) && l < MAX_HEIGHT && i <= |lv[l]| && j <= |lv[l]|
             && Pred(lv[l], i) == Pred(lv[l], j)
    ensures i == j
  {
    hide Before;
    assert Chained(h, l, lv[l]);
    DistinctNodes(h, l, lv[l]);
    ListNodes(h, lv, l);
  }

  lemma {:induction false} Stopped(h: Heap, lv: Levels, target: Entry, l: nat, j: nat)
    requires SkipLists.Valid(h, lv) && l < MAX_HEIGHT && j <= |lv[l]|
    requires !IsAfter(h, target, Succ(lv[l], j))
    requires forall i :: 0 <= i < j ==> lv[l][i] < |h.keys| && Before(h.keys[lv[l][i]], target)
    ensures StopsAt(h, lv, target, l, Pred(lv[l], j))
  {
    hide Before, Chained;
    ListNodes(h, lv, l);
    AllAfter(h, lv, target, l, j);
    assert Divides(h, lv, target, l, j);
  }

  /** The search for a node's own key stops just before it. */
  lemma {:induction false} BeforeItself(h: Heap, lv: Levels, i: nat, p: Node)
    requires SkipLists.Valid(h, lv) && i < |lv[0]| && lv[0][i] < |h.keys|
    requires StopsAt(h, lv, h.keys[lv[0][i]], 0, p)
    ensures p == Pred(lv[0], i)
  {
    hide Less;
    ListNodes(h, lv, 0);
    assert Chained(h, 0, lv[0]);
    assert forall k :: 0 <= k < i ==> Before(h.keys[lv[0][k]], h.keys[lv[0][i]]);
    assert !Before(h.keys[lv[0][i]], h.keys[lv[0][i]]);
    var j :| 0 <= j <= |lv[0]| && p == Pred(lv[0], j) && Divides(h, lv, h.keys[lv[0][i]], 0, j);
  }

  lemma {:induction false} LowerPosition(h: Heap, lv: Levels, l: nat, j: nat) returns (k: nat)
    requires SkipLists.Valid(h, lv) && 0 < l < MAX_HEIGHT && j <= |lv[l]|
    ensures k <= |lv[l - 1]| && Pred(lv[l - 1], k) == Pred(lv[l], j)
  {
    hide Before, Chained;
    if j == 0 {
      k := 0;
    } else {
      assert Nested(lv, l) && lv[l][j - 1] in lv[l];
      var i :| 0 <= i < |lv[l - 1]| && lv[l - 1][i] == lv[l][j - 1];
      k := i + 1;
    }
  }

  /** What the search found is where the new node goes on every level. */
  lemma {:induction false} SearchedOk(h: Heap, lv: Levels, e: Entry, height: nat, prev: seq<Node>)
    requires SkipLists.Valid(h, lv) && 1 <= height <= MAX_HEIGHT && |prev| == MAX_HEIGHT
    requires forall l :: 0 <= l < MAX_HEIGHT ==> StopsAt(h, lv, e, l, prev[l])
    requires forall n :: n in lv[0] ==> n < |h.keys| && (h.keys[n].key != e.key || h.keys[n].seqno != e.seqno)
    ensures WriterOk(h, lv, Searched(e, height, prev))
  {
    hide Before, Chained;
    forall l | 0 <= l < height ensures IsPrev(h, lv, e, l, prev[l]) {
      var j :| 0 <= j <= |lv[l]| && prev[l] == Pred(lv[l], j) && Divides(h, lv, e, l, j);
      forall i | j <= i < |lv[l]| ensures Before(e, h.keys[lv[l][i]]) {
        InBottom(h, lv, l, lv[l][i]);
        Trichotomy(h.keys[lv[l][i]], e);
      }
      assert SplitsAt(h, lv, e, l, j);
    }
  }

  lemma {:induction false} NewKey(h: Heap, lv: Levels, e: Entry)
    requires SkipLists.Valid(h, lv) && forall j :: 0 <= j < |lv[0]| ==> lv[0][j] < |h.keys|
    requires forall x :: x in KeysOf(h, lv[0]) ==> x.key != e.key || x.seqno != e.seqno
    ensures forall n :: n in lv[0] ==> n < |h.keys| && (h.keys[n].key != e.key || h.keys[n].seqno != e.seqno)
  {
    hide Before, Chained;
    forall j | 0 <= j < |lv[0]| ensures h.keys[lv[0][j]].key != e.key || h.keys[lv[0][j]].seqno != e.seqno {
      assert KeysOf(h, lv[0])[j] in KeysOf(h, lv[0]);
    }
  }

  lemma {:induction false} InBottom(h: Heap, lv: Levels, l: nat, n: Node)
    requires SkipLists.Valid(h, lv) && l < MAX_HEIGHT && n in lv[l]
    ensures n in lv[0]
  {
    hide Before, Chained;
    if l > 0 {
      assert Nested(lv, l);
      InBottom(h, lv, l - 1, n);
    }
  }

  /** Every step of the inserter but the first publication leaves the entries alone. */
  lemma {:induction false} SameContents(h: Heap, lv: Levels, w: Writer)
    requires SkipLists.Valid(h, lv) && WriterOk(h, lv, w)
    requires !(w.Linking? && w.copied && w.level == 0)
    requires w.Linking? ==>
               && w.level < |h.next[w.x]| && w.level < |w.prev|
               && w.prev[w.level] < |h.next| && w.level < |h.next[w.prev[w.level]]|
    requires var (h', w') := WriterStep(h, w);
             SkipLists.Valid(h', LevelsAfter(h, lv, w)) && Grows(h, lv, h', LevelsAfter(h, lv, w))
    ensures var (h', w') := WriterStep(h, w);
            var lv' := LevelsAfter(h, lv, w);
            && lv'[0] == lv[0] && (forall j :: 0 <= j < |lv[0]| ==> lv[0][j] < |h.keys|)
            && (forall j :: 0 <= j < |lv[0]| ==> lv[0][j] < |h'.keys|)
            && KeysOf(h', lv'[0]) == KeysOf(h, lv[0])
  {
    hide Before, Chained, SetNext, Allocate, IsPrev;
    ListNodes(h, lv, 0);
    if w.Linking? && w.copied {
      assert IsPrev(h, lv, h.keys[w.x], w.level, w.prev[w.level]);
    }
  }

  /** The first publication adds the entry where the order wants it. */
  lemma {:induction false} NewContents(h: Heap, lv: Levels, w: Writer)
    requires SkipLists.Valid(h, lv) && WriterOk(h, lv, w) && w.Linking? && w.copied && w.level == 0
    requires w.prev[0] < |h.next| && 0 < |h.next[w.prev[0]]|
    ensures (forall j :: 0 <= j < |lv[0]| ==> lv[0][j] < |h.keys|)
    ensures var (h', w') := WriterStep(h, w);
            var lv' := LevelsAfter(h, lv, w);
            && |lv'| == |lv| && (forall j :: 0 <= j < |lv'[0]| ==> lv'[0][j] < |h'.keys|)
            && KeysOf(h', lv'[0]) == AddSorted(KeysOf(h, lv[0]), h.keys[w.x])
  {
    hide Before, Chained, AddSorted, SetNext, InsertAt;
    var lv', e := LevelsAfter(h, lv, w), h.keys[w.x];
    assert IsPrev(h, lv, e, 0, w.prev[0]);
    var j: nat :| SplitsAt(h, lv, e, 0, j) && w.prev[0] == Pred(lv[0], j) && lv' == lv[0 := InsertAt(lv[0], j, w.x)];
    ListNodes(h, lv, 0);
    SplitKeys(h, lv, e, j);
    AddAt(KeysOf(h, lv[0]), j, e);
    SetNextKeys(h, w.prev[0], 0, w.x);
    InsertedKeys(h, WriterStep(h, w).0, lv[0], j, w.x);
  }

  lemma {:induction false} LinkingNode(h: Heap, lv: Levels, w: Writer)
    requires SkipLists.Valid(h, lv) && w.Linking? && WriterOk(h, lv, w)
    ensures w.x < |h.keys| && w.level < |w.prev|
  {
    hide Before, Chained;
  }

  lemma {:induction false} SplitKeys(h: Heap, lv: Levels, e: Entry, j: nat)
    requires SkipLists.Valid(h, lv) && SplitsAt(h, lv, e, 0, j)
    requires forall i :: 0 <= i < |lv[0]| ==> lv[0][i] < |h.keys|
    ensures var es := KeysOf(h, lv[0]);
            (forall i :: 0 <= i < j ==> Before(es[i], e)) && forall i :: j <= i < |es| ==> Before(e, es[i])
  {
    hide Before, Chained;
  }

  lemma {:induction false} SetNextKeys(h: Heap, n: Node, l: nat, v: Node)
    requires n < |h.next| && l < |h.next[n]|
    ensures SetNext(h, n, l, v).keys == h.keys
  {
  }

  lemma {:induction false} InsertedKeys(h: Heap, h': Heap, list: seq<Node>, j: nat, x: Node)
    requires h'.keys == h.keys && j <= |list| && x < |h.keys| && forall i :: 0 <= i < |list| ==> list[i] < |h.keys|
    ensures forall i :: 0 <= i < |InsertAt(list, j, x)| ==> InsertAt(list, j, x)[i] < |h'.keys|
    ensures KeysOf(h', InsertAt(list, j, x)) == KeysOf(h, list)[..j] + [h.keys[x]] + KeysOf(h, list)[j..]
  {
    var list' := InsertAt(list, j, x);
    assert list' == list[..j] + [x] + list[j..];
    assert forall i :: 0 <= i < j ==> list'[i] == list[i];
    assert forall i :: j < i <= |list| ==> list'[i] == list[i - 1];
    var es, es' := KeysOf(h, list), KeysOf(h', list');
    var want := es[..j] + [h.keys[x]] + es[j..];
    assert |es'| == |want|;
    forall i | 0 <= i < |want| ensures es'[i] == want[i] { }
  }

  lemma {:induction false} AddAt(es: seq<Entry>, j: nat, e: Entry)
    requires j <= |es|
    requires forall i :: 0 <= i < j ==> Before(es[i], e)
    requires forall i :: j <= i < |es| ==> Before(e, es[i])
    ensures AddSorted(es, e) == es[..j] + [e] + es[j..]
  {
    hide Less;
    if es != [] && j > 0 {
      AddAt(es[1..], j - 1, e);
      assert es[..j] == [es[0]] + es[1..][..j - 1];
      assert es[j..] == es[1..][j - 1..];
    }
  }

  lemma {:induction false} FirstIndex(h: Heap, lv: Levels, target: Entry, r: Node) returns (j: nat)
    requires SkipLists.Valid(h, lv) && IsFirst(h, lv, target, r)
    ensures (forall i :: 0 <= i < |lv[0]| ==> HEAD < lv[0][i] < |h.keys|) && j <= |lv[0]| && r == Succ(lv[0], j)
    ensures var es := KeysOf(h, lv[0]);
            (forall i :: 0 <= i < j ==> Before(es[i], target)) && forall i :: j <= i < |es| ==> !Before(es[i], target)
  {
    hide Before, Chained;
    ListNodes(h, lv, 0);
    j :| 0 <= j <= |lv[0]| && r == Succ(lv[0], j)
      && (forall i :: 0 <= i < j ==> Before(h.keys[lv[0][i]], target))
      && forall i :: j <= i < |lv[0]| ==> !Before(h.keys[lv[0][i]], target);
  }

  /** The first entry not before (key, seqno) is the visible version of the key, if there is one. */
  lemma {:induction false} SeekVisible(es: seq<Entry>, probe: Entry, j: nat)
    requires Sorted(es) && j <= |es|
    requires forall i :: 0 <= i < j ==> Before(es[i], probe)
    requires forall i :: j <= i < |es| ==> !Before(es[i], probe)
    ensures Visible(es, probe.key, probe.seqno) == if j < |es| && es[j].key == probe.key then Some(es[j]) else None
  {
    hide Less;
    if j > 0 {
      SeekVisible(es[1..], probe, j - 1);
    } else if es != [] && es[0].key != probe.key {
      NoneVisible(es, probe);
    }
  }

  lemma {:induction false} NoneVisible(es: seq<Entry>, probe: Entry)
    requires Sorted(es) && es != [] && es[0].key != probe.key && !Before(es[0], probe)
    ensures Visible(es, probe.key, probe.seqno).None?
  {
    hide Less, Visible;
    var r := Visible(es, probe.key, probe.seqno);
    assert r.Some? ==> r.value == es[0] || Before(es[0], r.value);
  }
}
