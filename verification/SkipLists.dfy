/** The skip list behind a memtable, store by store. */
module SkipLists {
  import opened Keys
  import opened Entries

  const MAX_HEIGHT: nat := 16

  type Node = nat

  /** The head node.  It is never a successor, so as a successor the same number stands for null. */
  const HEAD: Node := 0
  const NULL: Node := 0

  /** Node memory: the key of every node and its forward pointers, one per level it takes part in. */
  datatype Heap = Heap(keys: seq<Entry>, next: seq<seq<Node>>, maxHeight: nat)

  /** The nodes of each level, in list order. */
  type Levels = seq<seq<Node>>

  // ---- Well-formed lists ----

  function Pred(list: seq<Node>, j: nat): Node
    requires j <= |list|
  {
    if j == 0 then HEAD else list[j - 1]
  }

  function Succ(list: seq<Node>, j: nat): Node
    requires j <= |list|
  {
    if j == |list| then NULL else list[j]
  }

  ghost predicate ValidNodes(h: Heap) {
    && |h.keys| == |h.next| && h.next != [] && |h.next[HEAD]| == MAX_HEIGHT && 1 <= h.maxHeight <= MAX_HEIGHT
    && forall n, l :: 0 <= n < |h.next| && 0 <= l < |h.next[n]| ==> h.next[n][l] < |h.keys|
  }

  ghost predicate Member(h: Heap, l: nat, n: Node) {
    HEAD < n < |h.next| && l < |h.next[n]|
  }

  /** `list` is what the pointers of level `l` chain together, in strictly ascending key order. */
  ghost predicate Chained(h: Heap, l: nat, list: seq<Node>)
    requires ValidNodes(h) && l < MAX_HEIGHT
  {
    && (forall j :: 0 <= j < |list| ==> Member(h, l, list[j]))
    && (forall j :: 0 <= j <= |list| ==> h.next[Pred(list, j)][l] == Succ(list, j))
    && forall i, j :: 0 <= i < j < |list| ==> Before(h.keys[list[i]], h.keys[list[j]])
  }

  ghost predicate Nested(lv: Levels, l: nat)
    requires 0 < l < |lv|
  {
    forall n :: n in lv[l] ==> n in lv[l - 1]
  }

  /** Each level is a sorted list and a sublist of the level below; levels at or above the recorded
      height are empty. */
  ghost predicate Valid(h: Heap, lv: Levels) {
    && ValidNodes(h) && |lv| == MAX_HEIGHT
    && (forall l :: 0 <= l < MAX_HEIGHT ==> Chained(h, l, lv[l]))
    && (forall l :: 0 < l < MAX_HEIGHT ==> Nested(lv, l))
    && forall l :: h.maxHeight <= l < MAX_HEIGHT ==> lv[l] == []
  }

  /** The entries of a list of nodes. */
  ghost function KeysOf(h: Heap, list: seq<Node>): (es: seq<Entry>)
    requires forall j :: 0 <= j < |list| ==> list[j] < |h.keys|
    ensures |es| == |list| && forall j :: 0 <= j < |list| ==> es[j] == h.keys[list[j]]
  {
    seq(|list|, j requires 0 <= j < |list| => h.keys[list[j]])
  }

  // ---- Searching ----

  /** A search for `target` may stand at `x` on level `l`. */
  ghost predicate Reached(h: Heap, lv: Levels, target: Entry, x: Node, l: nat)
    requires Valid(h, lv)
  {
    l < MAX_HEIGHT && (x == HEAD || (x in lv[l] && Before(h.keys[x], target)))
  }

  /** `r` is the first node of level 0 that is not before the target; null when there is none. */
  ghost predicate IsFirst(h: Heap, lv: Levels, target: Entry, r: Node)
    requires Valid(h, lv)
  {
    exists j :: 0 <= j <= |lv[0]| && r == Succ(lv[0], j)
      && (forall i :: 0 <= i < j ==> Before(h.keys[lv[0][i]], target))
      && forall i :: j <= i < |lv[0]| ==> !Before(h.keys[lv[0][i]], target)
  }

  /** `KeyIsAfterNode`. */
  predicate IsAfter(h: Heap, target: Entry, n: Node) {
    n != NULL && n < |h.keys| && Before(h.keys[n], target)
  }

  /** Where a node that a search stands at sits in its level. */
  lemma {:induction false} Position(h: Heap, lv: Levels, target: Entry, x: Node, l: nat) returns (j: nat)
    requires Valid(h, lv) && Reached(h, lv, target, x, l)
    ensures j <= |lv[l]| && x == Pred(lv[l], j)
    ensures x < |h.next| && l < |h.next[x]| && h.next[x][l] == Succ(lv[l], j)
    ensures forall i :: 0 <= i < j ==> Before(h.keys[lv[l][i]], target)
  {
    hide Less;
    assert Chained(h, l, lv[l]);
    if x == HEAD {
      j := 0;
    } else {
      var i :| 0 <= i < |lv[l]| && lv[l][i] == x;
      j := i + 1;
      assert Member(h, l, lv[l][i]);
    }
  }

  lemma {:induction false} AllAfter(h: Heap, lv: Levels, target: Entry, l: nat, j: nat)
    requires Valid(h, lv) && l < MAX_HEIGHT && j <= |lv[l]|
    requires !IsAfter(h, target, Succ(lv[l], j))
    ensures forall i :: j <= i < |lv[l]| ==> !Before(h.keys[lv[l][i]], target)
  {
    hide Less;
    assert Chained(h, l, lv[l]);
    forall i | j <= i < |lv[l]| ensures !Before(h.keys[lv[l][i]], target) {
      assert Member(h, l, lv[l][j]);
      assert i > j ==> Before(h.keys[lv[l][j]], h.keys[lv[l][i]]);
    }
  }

  /** Moving right on a level. */
  lemma {:induction false} StepRight(h: Heap, lv: Levels, target: Entry, x: Node, l: nat)
    requires Valid(h, lv) && Reached(h, lv, target, x, l)
    ensures x < |h.next| && l < |h.next[x]|
    ensures IsAfter(h, target, h.next[x][l]) ==> Reached(h, lv, target, h.next[x][l], l)
  {
    var j := Position(h, lv, target, x, l);
  }

  /** Moving down a level. */
  lemma {:induction false} StepDown(h: Heap, lv: Levels, target: Entry, x: Node, l: nat)
    requires Valid(h, lv) && Reached(h, lv, target, x, l) && l > 0
    ensures Reached(h, lv, target, x, l - 1)
  {
    assert Nested(lv, l);
  }

  /** The last load of a search is exact. */
  lemma {:induction false} LastLoad(h: Heap, lv: Levels, target: Entry, x: Node)
    requires Valid(h, lv) && Reached(h, lv, target, x, 0)
    ensures x < |h.next| && 0 < |h.next[x]|
    ensures !IsAfter(h, target, h.next[x][0]) ==> IsFirst(h, lv, target, h.next[x][0])
  {
    var j := Position(h, lv, target, x, 0);
    if !IsAfter(h, target, h.next[x][0]) {
      AllAfter(h, lv, target, 0, j);
    }
  }

  // ---- The stores of an insert ----

  function SetNext(h: Heap, n: Node, l: nat, v: Node): Heap
    requires n < |h.next| && l < |h.next[n]|
  {
    var row: seq<Node> := h.next[n];
    var row': seq<Node> := row[..l] + [v] + row[l + 1..];
    h.(next := h.next[n := row'])
  }

  /** A new node with null pointers. */
  function Allocate(h: Heap, e: Entry, height: nat): Heap {
    h.(keys := h.keys + [e], next := h.next + [seq(height, _ => NULL)])
  }

  function InsertAt(list: seq<Node>, j: nat, x: Node): (r: seq<Node>)
    requires j <= |list|
    ensures forall n :: n in r <==> n in list || n == x
  {
    assert list == list[..j] + list[j..];
    list[..j] + [x] + list[j..]
  }

  lemma {:induction false} AllocateKeeps(h: Heap, lv: Levels, e: Entry, height: nat)
    requires Valid(h, lv) && height <= MAX_HEIGHT
    ensures Valid(Allocate(h, e, height), lv)
  {
    hide Before;
    var h' := Allocate(h, e, height);
    forall l | 0 <= l < MAX_HEIGHT ensures Chained(h', l, lv[l]) {
      assert Chained(h, l, lv[l]);
      forall j | 0 <= j < |lv[l]| ensures Member(h', l, lv[l][j]) { assert Member(h, l, lv[l][j]); }
    }
  }

  lemma {:induction false} RaiseKeeps(h: Heap, lv: Levels, height: nat)
    requires Valid(h, lv) && h.maxHeight <= height <= MAX_HEIGHT
    ensures Valid(h.(maxHeight := height), lv)
  {
    hide Before;
    var h' := h.(maxHeight := height);
    forall l | 0 <= l < MAX_HEIGHT ensures Chained(h', l, lv[l]) {
      assert Chained(h, l, lv[l]);
      forall j | 0 <= j < |lv[l]| ensures Member(h', l, lv[l][j]) { assert Member(h, l, lv[l][j]); }
    }
  }

  /** The pointer of a node that is not yet on a level is private. */
  lemma {:induction false} PrivateStoreKeeps(h: Heap, lv: Levels, x: Node, l: nat, v: Node)
    requires Valid(h, lv) && Member(h, l, x) && l < MAX_HEIGHT && x !in lv[l] && v < |h.keys|
    ensures Valid(SetNext(h, x, l, v), lv)
  {
    hide Before;
    var h' := SetNext(h, x, l, v);
    forall m | 0 <= m < MAX_HEIGHT ensures Chained(h', m, lv[m]) {
      assert Chained(h, m, lv[m]);
      forall j | 0 <= j < |lv[m]| ensures Member(h', m, lv[m][j]) { assert Member(h, m, lv[m][j]); }
      forall j | 0 <= j <= |lv[m]| ensures h'.next[Pred(lv[m], j)][m] == Succ(lv[m], j) {
        assert m == l && j > 0 ==> lv[m][j - 1] in lv[l];
      }
    }
  }

  /** Publishing: the predecessor's pointer is swung to the new node, which already points on. */
  lemma {:induction false} PublishChains(h: Heap, l: nat, list: seq<Node>, j: nat, x: Node)
    requires ValidNodes(h) && l < MAX_HEIGHT && Chained(h, l, list) && j <= |list|
    requires Member(h, l, x) && x !in list && h.next[x][l] == Succ(list, j)
    requires forall i :: 0 <= i < j ==> Before(h.keys[list[i]], h.keys[x])
    requires forall i :: j <= i < |list| ==> Before(h.keys[x], h.keys[list[i]])
    ensures Pred(list, j) < |h.next| && l < |h.next[Pred(list, j)]|
    ensures ValidNodes(SetNext(h, Pred(list, j), l, x))
            && Chained(SetNext(h, Pred(list, j), l, x), l, InsertAt(list, j, x))
  {
    hide Before;
    assert j > 0 ==> Member(h, l, list[j - 1]);
    var h', list' := SetNext(h, Pred(list, j), l, x), InsertAt(list, j, x);
    forall i | 0 <= i < |list'| ensures Member(h', l, list'[i]) {
      if i < j { assert Member(h, l, list[i]); } else if i > j { assert Member(h, l, list[i - 1]); }
    }
    DistinctNodes(h, l, list);
    Pointers(h, l, list, j, x);
  }

  lemma {:induction false} Pointers(h: Heap, l: nat, list: seq<Node>, j: nat, x: Node)
    requires ValidNodes(h) && l < MAX_HEIGHT && Chained(h, l, list) && j <= |list|
    requires Member(h, l, x) && x !in list && h.next[x][l] == Succ(list, j)
    requires Pred(list, j) < |h.next| && l < |h.next[Pred(list, j)]|
    requires forall i, k :: 0 <= i < k < |list| ==> list[i] != list[k]
    ensures var h', list' := SetNext(h, Pred(list, j), l, x), InsertAt(list, j, x);
            forall i :: 0 <= i <= |list'| ==>
              && Pred(list', i) < |h'.next| && l < |h'.next[Pred(list', i)]|
              && h'.next[Pred(list', i)][l] == Succ(list', i)
  {
    hide Before;
    var h', list' := SetNext(h, Pred(list, j), l, x), InsertAt(list, j, x);
    forall i | 0 <= i <= |list'|
      ensures Pred(list', i) < |h'.next| && l < |h'.next[Pred(list', i)]|
              && h'.next[Pred(list', i)][l] == Succ(list', i)
    {
      if i < j {
        assert i > 0 ==> Member(h, l, list[i - 1]);
        assert Pred(list', i) == Pred(list, i) && Succ(list', i) == Succ(list, i);
      } else if i == j {
        assert Pred(list', i) == Pred(list, j) && Succ(list', i) == x;
      } else if i == j + 1 {
        assert Pred(list', i) == x && Succ(list', i) == Succ(list, j);
      } else {
        assert Member(h, l, list[i - 2]);
        assert Pred(list', i) == Pred(list, i - 1) && Succ(list', i) == Succ(list, i - 1);
      }
    }
  }

  lemma {:induction false} DistinctNodes(h: Heap, l: nat, list: seq<Node>)
    requires ValidNodes(h) && l < MAX_HEIGHT && Chained(h, l, list)
    ensures forall i, k :: 0 <= i < k < |list| ==> list[i] != list[k]
  {
    hide Less;
    forall i, k | 0 <= i < k < |list| ensures list[i] != list[k] {
      assert Before(h.keys[list[i]], h.keys[list[k]]);
    }
  }

  lemma {:induction false} PublishKeeps(h: Heap, lv: Levels, l: nat, j: nat, x: Node)
    requires Valid(h, lv) && l < h.maxHeight && j <= |lv[l]|
    requires Member(h, l, x) && x !in lv[l] && h.next[x][l] == Succ(lv[l], j)
    requires l > 0 ==> x in lv[l - 1]
    requires l + 1 < MAX_HEIGHT ==> x !in lv[l + 1]
    requires forall i :: 0 <= i < j ==> Before(h.keys[lv[l][i]], h.keys[x])
    requires forall i :: j <= i < |lv[l]| ==> Before(h.keys[x], h.keys[lv[l][i]])
    ensures Pred(lv[l], j) < |h.next| && l < |h.next[Pred(lv[l], j)]|
    ensures Valid(SetNext(h, Pred(lv[l], j), l, x), lv[l := InsertAt(lv[l], j, x)])
  {
    hide Before;
    assert Chained(h, l, lv[l]);
    PublishChains(h, l, lv[l], j, x);
    var p := Pred(lv[l], j);
    var h', lv' := SetNext(h, p, l, x), lv[l := InsertAt(lv[l], j, x)];
    forall m | 0 <= m < MAX_HEIGHT && m != l ensures Chained(h', m, lv'[m]) {
      assert Chained(h, m, lv[m]);
      forall i | 0 <= i < |lv[m]| ensures Member(h', m, lv[m][i]) { assert Member(h, m, lv[m][i]); }
    }
    forall m | 0 < m < MAX_HEIGHT ensures Nested(lv', m) {
      assert Nested(lv, m);
    }
  }

  // ---- One inserter and a reader, store by store and load by load ----

  /** `p` is where a new node with key `e` goes on level `l`. */
  ghost predicate IsPrev(h: Heap, lv: Levels, e: Entry, l: nat, p: Node)
    requires Valid(h, lv) && l < MAX_HEIGHT
  {
    exists j :: SplitsAt(h, lv, e, l, j) && p == Pred(lv[l], j)
  }

  ghost predicate SplitsAt(h: Heap, lv: Levels, e: Entry, l: nat, j: nat)
    requires Valid(h, lv) && l < MAX_HEIGHT
  {
    && j <= |lv[l]| && (forall i :: 0 <= i < |lv[l]| ==> lv[l][i] < |h.keys|)
    && (forall i :: 0 <= i < j ==> Before(h.keys[lv[l][i]], e))
    && forall i :: j <= i < |lv[l]| ==> Before(e, h.keys[lv[l][i]])
  }

  /** Where the inserting thread stands.  `copied` tells whether the new node's pointer of the
      current level has been stored but the predecessor's has not. */
  datatype Writer =
    | Resting
    | Searched(e: Entry, height: nat, prev: seq<Node>)
    | Raised(e: Entry, height: nat, prev: seq<Node>)
    | Linking(x: Node, height: nat, prev: seq<Node>, level: nat, copied: bool)

  datatype Reader = Away | At(target: Entry, x: Node, level: nat)

  datatype System = System(h: Heap, w: Writer, r: Reader)

  ghost predicate PrevsOk(h: Heap, lv: Levels, e: Entry, from: nat, height: nat, prev: seq<Node>)
    requires Valid(h, lv)
  {
    from <= height <= MAX_HEIGHT && height <= |prev| && forall l :: from <= l < height ==> IsPrev(h, lv, e, l, prev[l])
  }

  ghost predicate WriterOk(h: Heap, lv: Levels, w: Writer)
    requires Valid(h, lv)
  {
    match w
    case Resting => true
    case Searched(e, height, prev) => PrevsOk(h, lv, e, 0, height, prev) && height > 0
    case Raised(e, height, prev) => PrevsOk(h, lv, e, 0, height, prev) && 0 < height <= h.maxHeight
    case Linking(x, height, prev, level, copied) =>
      && HEAD < x < |h.next| && |h.next[x]| == height <= h.maxHeight && level < height
      && (forall l :: 0 <= l < level ==> x in lv[l]) && (forall l :: level <= l < MAX_HEIGHT ==> x !in lv[l])
      && PrevsOk(h, lv, h.keys[x], level, height, prev)
      && (copied ==>
            && prev[level] < |h.next| && level < |h.next[prev[level]]|
            && h.next[x][level] == h.next[prev[level]][level])
  }

  ghost predicate SystemOk(s: System, lv: Levels) {
    Valid(s.h, lv) && WriterOk(s.h, lv, s.w) && (s.r.At? ==> Reached(s.h, lv, s.r.target, s.r.x, s.r.level))
  }

  // ---- What the inserter does between two loads of the reader ----

  ghost predicate Grows(h: Heap, lv: Levels, h': Heap, lv': Levels) {
    && |lv| == |lv'| && h.keys <= h'.keys
    && forall l, n :: 0 <= l < |lv| && n in lv[l] ==> n in lv'[l]
  }

  lemma {:induction false} ReachedGrows(h: Heap, lv: Levels, h': Heap, lv': Levels, target: Entry, x: Node, l: nat)
    requires Valid(h, lv) && Valid(h', lv') && Grows(h, lv, h', lv') && Reached(h, lv, target, x, l)
    ensures Reached(h', lv', target, x, l)
  {
    hide Before;
    if x != HEAD {
      assert Chained(h, l, lv[l]);
      var i :| 0 <= i < |lv[l]| && lv[l][i] == x;
      assert Member(h, l, lv[l][i]);
    }
  }

  /** The store of the new height, the allocation, and the two stores per level. */
  function WriterStep(h: Heap, w: Writer): (r: (Heap, Writer))
    requires w.Linking? ==>
               && w.x < |h.next| && w.level < |h.next[w.x]| && w.level < |w.prev|
               && w.prev[w.level] < |h.next| && w.level < |h.next[w.prev[w.level]]|
  {
    match w
    case Resting => (h, w)
    case Searched(e, height, prev) =>
      (if height > h.maxHeight then h.(maxHeight := height) else h, Raised(e, height, prev))
    case Raised(e, height, prev) => (Allocate(h, e, height), Linking(|h.keys|, height, prev, 0, false))
    case Linking(x, height, prev, level, copied) =>
      if !copied then (SetNext(h, x, level, h.next[prev[level]][level]), w.(copied := true))
      else
        (SetNext(h, prev[level], level, x),
         if level + 1 == height then Resting else Linking(x, height, prev, level + 1, false))
  }

  /** The sets of linked nodes after the step: only publishing changes them. */
  ghost function LevelsAfter(h: Heap, lv: Levels, w: Writer): Levels
    requires Valid(h, lv) && WriterOk(h, lv, w)
  {
    if w.Linking? && w.copied then
      var j :| SplitsAt(h, lv, h.keys[w.x], w.level, j) && w.prev[w.level] == Pred(lv[w.level], j);
      lv[w.level := InsertAt(lv[w.level], j, w.x)]
    else lv
  }

  lemma {:induction false} PrevPointer(h: Heap, lv: Levels, e: Entry, l: nat, p: Node) returns (j: nat)
    requires Valid(h, lv) && l < MAX_HEIGHT && IsPrev(h, lv, e, l, p)
    ensures SplitsAt(h, lv, e, l, j) && p == Pred(lv[l], j)
    ensures p < |h.next| && l < |h.next[p]| && h.next[p][l] == Succ(lv[l], j)
  {
    hide Before;
    j :| SplitsAt(h, lv, e, l, j) && p == Pred(lv[l], j);
    assert Chained(h, l, lv[l]);
    if j > 0 { assert Member(h, l, lv[l][j - 1]); }
  }

  lemma {:induction false} WriterEnabled(h: Heap, lv: Levels, w: Writer)
    requires Valid(h, lv) && WriterOk(h, lv, w) && w.Linking?
    ensures w.level < |h.next[w.x]| && w.level < |w.prev|
    ensures w.prev[w.level] < |h.next| && w.level < |h.next[w.prev[w.level]]|
  {
    hide Before, Chained;
    var j := PrevPointer(h, lv, h.keys[w.x], w.level, w.prev[w.level]);
  }

  lemma {:induction false} PrevsStay(h: Heap, lv: Levels, h': Heap, lv': Levels, e: Entry, from: nat, height: nat,
      prev: seq<Node>)
    requires Valid(h, lv) && Valid(h', lv') && h.keys <= h'.keys
    requires PrevsOk(h, lv, e, from, height, prev)
    requires forall l :: from <= l < height ==> lv'[l] == lv[l]
    ensures PrevsOk(h', lv', e, from, height, prev)
  {
    hide Before, Chained;
    forall l | from <= l < height ensures IsPrev(h', lv', e, l, prev[l]) {
      assert IsPrev(h, lv, e, l, prev[l]);
      var j :| SplitsAt(h, lv, e, l, j) && prev[l] == Pred(lv[l], j);
      assert SplitsAt(h', lv', e, l, j);
    }
  }

  lemma {:induction false} AllocateStep(h: Heap, lv: Levels, w: Writer)
    requires Valid(h, lv) && WriterOk(h, lv, w) && w.Raised?
    ensures var (h', w') := WriterStep(h, w);
            Valid(h', lv) && WriterOk(h', lv, w') && Grows(h, lv, h', lv)
  {
    hide Before, Chained, IsPrev;
    var (h', w') := WriterStep(h, w);
    AllocateKeeps(h, lv, w.e, w.height);
    PrevsStay(h, lv, h', lv, w.e, 0, w.height, w.prev);
    forall l | 0 <= l < MAX_HEIGHT ensures w'.x !in lv[l] { NodesBelow(h, lv, l); }
  }

  lemma {:induction false} NodesBelow(h: Heap, lv: Levels, l: nat)
    requires Valid(h, lv) && l < MAX_HEIGHT
    ensures |h.keys| !in lv[l]
  {
    hide Before;
    assert Chained(h, l, lv[l]);
    assert forall i :: 0 <= i < |lv[l]| ==> Member(h, l, lv[l][i]);
  }

  lemma {:induction false} CopyStep(h: Heap, lv: Levels, w: Writer)
    requires Valid(h, lv) && WriterOk(h, lv, w) && w.Linking? && !w.copied
    ensures w.level < |h.next[w.x]| && w.level < |w.prev|
    ensures w.prev[w.level] < |h.next| && w.level < |h.next[w.prev[w.level]]|
    ensures var (h', w') := WriterStep(h, w);
            Valid(h', lv) && WriterOk(h', lv, w') && Grows(h, lv, h', lv)
  {
    hide Before, Chained, IsPrev;
    WriterEnabled(h, lv, w);
    var (h', w') := WriterStep(h, w);
    PrivateStoreKeeps(h, lv, w.x, w.level, h.next[w.prev[w.level]][w.level]);
    PrevsStay(h, lv, h', lv, h.keys[w.x], w.level, w.height, w.prev);
    PrevIsOther(h, lv, w);
  }

  lemma {:induction false} PrevIsOther(h: Heap, lv: Levels, w: Writer)
    requires Valid(h, lv) && WriterOk(h, lv, w) && w.Linking?
    ensures w.prev[w.level] != w.x
  {
    hide Before, Chained;
    assert IsPrev(h, lv, h.keys[w.x], w.level, w.prev[w.level]);
    var j :| SplitsAt(h, lv, h.keys[w.x], w.level, j) && w.prev[w.level] == Pred(lv[w.level], j);
  }

  lemma {:induction false} PublishStep(h: Heap, lv: Levels, w: Writer)
    requires Valid(h, lv) && WriterOk(h, lv, w) && w.Linking? && w.copied
    ensures var (h', w') := WriterStep(h, w);
            var lv' := LevelsAfter(h, lv, w);
            Valid(h', lv') && WriterOk(h', lv', w') && Grows(h, lv, h', lv')
  {
    hide Before, Chained;
    var (h', w') := WriterStep(h, w);
    var lv', l, e := LevelsAfter(h, lv, w), w.level, h.keys[w.x];
    assert IsPrev(h, lv, e, l, w.prev[l]);
    var j :| SplitsAt(h, lv, e, l, j) && w.prev[l] == Pred(lv[l], j) && lv' == lv[l := InsertAt(lv[l], j, w.x)];
    PredPointer(h, lv, l, j);
    PublishKeeps(h, lv, l, j, w.x);
    if l + 1 < w.height {
      assert PrevsOk(h, lv, e, l + 1, w.height, w.prev);
      PrevsStay(h, lv, h', lv', e, l + 1, w.height, w.prev);
    }
  }

  lemma {:induction false} PredPointer(h: Heap, lv: Levels, l: nat, j: nat)
    requires Valid(h, lv) && l < MAX_HEIGHT && j <= |lv[l]|
    ensures Pred(lv[l], j) < |h.next| && l < |h.next[Pred(lv[l], j)]| && h.next[Pred(lv[l], j)][l] == Succ(lv[l], j)
  {
    hide Before;
    assert Chained(h, l, lv[l]);
    if j > 0 { assert Member(h, l, lv[l][j - 1]); }
  }

  /** Every store of the inserter leaves every level a sorted sublist of the level below, for any
      height; nodes are only added. */
  lemma {:induction false} WriterStepKeeps(h: Heap, lv: Levels, w: Writer)
    requires Valid(h, lv) && WriterOk(h, lv, w)
    ensures w.Linking? ==>
              && w.level < |h.next[w.x]| && w.level < |w.prev|
              && w.prev[w.level] < |h.next| && w.level < |h.next[w.prev[w.level]]|
    ensures var (h', w') := WriterStep(h, w);
            var lv' := LevelsAfter(h, lv, w);
            Valid(h', lv') && WriterOk(h', lv', w') && Grows(h, lv, h', lv')
  {
    hide Before, Chained, IsPrev, SetNext, Allocate;
    match w {
      case Resting =>
      case Searched(e, height, prev) =>
        if height > h.maxHeight {
          RaiseKeeps(h, lv, height);
          PrevsStay(h, lv, h.(maxHeight := height), lv, e, 0, height, prev);
        }
      case Raised(_, _, _) => AllocateStep(h, lv, w);
      case Linking(_, _, _, _, copied) =>
        WriterEnabled(h, lv, w);
        if copied { PublishStep(h, lv, w); } else { CopyStep(h, lv, w); }
    }
  }

  /** One step of either thread.  A reader starts at the head of the highest level it sees, and each
      later step is one load. */
  ghost predicate Next(s: System, lv: Levels, s': System, lv': Levels)
    requires SystemOk(s, lv)
  {
    || (WriterMoves(s, lv, s', lv') && s'.r == s.r)
    || (s'.h == s.h && s'.w == s.w && lv' == lv && ReaderMoves(s, s'.r))
    || (s'.h == s.h && s'.r == s.r && lv' == lv && s.w.Resting? && s'.w.Searched? && WriterOk(s.h, lv, s'.w))
  }

  ghost predicate WriterMoves(s: System, lv: Levels, s': System, lv': Levels)
    requires SystemOk(s, lv)
  {
    WriterStepKeeps(s.h, lv, s.w);
    (s'.h, s'.w) == WriterStep(s.h, s.w) && lv' == LevelsAfter(s.h, lv, s.w)
  }

  ghost predicate ReaderMoves(s: System, r': Reader) {
    match s.r
    case Away => r'.At? && r'.x == HEAD && r'.level == s.h.maxHeight - 1
    case At(target, x, level) =>
      && x < |s.h.next| && level < |s.h.next[x]|
      && var n := s.h.next[x][level];
         if IsAfter(s.h, target, n) then r' == At(target, n, level)
         else if level > 0 then r' == At(target, x, level - 1)
         else r' == Away
  }

  /** Any interleaving keeps the list and the reader's position consistent. */
  lemma {:induction false} NextKeeps(s: System, lv: Levels, s': System, lv': Levels)
    requires SystemOk(s, lv) && Next(s, lv, s', lv')
    ensures SystemOk(s', lv')
  {
    hide Before, Chained, IsPrev, Valid, Reached, WriterOk, LevelsAfter, WriterStep;
    if WriterMoves(s, lv, s', lv') && s'.r == s.r {
      WriterStepKeeps(s.h, lv, s.w);
      if s.r.At? { ReachedGrows(s.h, lv, s'.h, lv', s.r.target, s.r.x, s.r.level); }
    } else if s'.h == s.h && s'.w == s.w && lv' == lv && ReaderMoves(s, s'.r) {
      ReaderMoveKeeps(s, lv, s'.r);
    }
  }

  lemma {:induction false} ReaderMoveKeeps(s: System, lv: Levels, r': Reader)
    requires SystemOk(s, lv) && ReaderMoves(s, r')
    ensures r'.At? ==> Reached(s.h, lv, r'.target, r'.x, r'.level)
  {
    hide Before, Chained, IsPrev, WriterOk;
    if s.r.At? {
      StepRight(s.h, lv, s.r.target, s.r.x, s.r.level);
      if s.r.level > 0 { StepDown(s.h, lv, s.r.target, s.r.x, s.r.level); }
    }
  }

  ghost predicate IsExecution(run: seq<System>, lvs: seq<Levels>) {
    && |run| == |lvs| && run != [] && SystemOk(run[0], lvs[0])
    && forall i :: 0 <= i < |run| - 1 ==> SystemOk(run[i], lvs[i]) ==> Next(run[i], lvs[i], run[i + 1], lvs[i + 1])
  }

  lemma {:induction false} ExecutionKeeps(run: seq<System>, lvs: seq<Levels>, i: nat)
    requires IsExecution(run, lvs) && i < |run|
    ensures SystemOk(run[i], lvs[i])
  {
    hide SystemOk, Next;
    if i > 0 {
      ExecutionKeeps(run, lvs, i - 1);
      NextKeeps(run[i - 1], lvs[i - 1], run[i], lvs[i]);
    }
  }

  /** However its loads interleave with the stores of inserts, a search that ends in state `i`
      returns the first node that is not before the target in the list as it is in state `i`. */
  lemma {:induction false} SearchIsExact(run: seq<System>, lvs: seq<Levels>, i: nat)
    requires IsExecution(run, lvs) && i < |run|
    requires var s := run[i]; s.r.At? && s.r.level == 0
    ensures var s := run[i];
            && Valid(s.h, lvs[i]) && s.r.x < |s.h.next| && 0 < |s.h.next[s.r.x]|
            && (!IsAfter(s.h, s.r.target, s.h.next[s.r.x][0]) ==> IsFirst(s.h, lvs[i], s.r.target, s.h.next[s.r.x][0]))
  {
    hide Before, Chained, WriterOk, Next, IsFirst;
    ExecutionKeeps(run, lvs, i);
    var s := run[i];
    LastLoad(s.h, lvs[i], s.r.target, s.r.x);
  }
}
