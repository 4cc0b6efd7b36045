/** Entries cut into blocks, and looking a key up in the one block that the last keys point to. */
module BlockSearch {
  import opened Keys
  import opened Entries

  predicate KeysUp(es: seq<Entry>) {
    forall i, j :: 0 <= i < j < |es| ==> AtMost(es[i].key, es[j].key)
  }

  function Concat(blocks: seq<seq<Entry>>): seq<Entry> {
    if blocks == [] then [] else Concat(blocks[..|blocks| - 1]) + blocks[|blocks| - 1]
  }

  /** No block is empty. */
  predicate Parted(blocks: seq<seq<Entry>>) {
    forall b :: 0 <= b < |blocks| ==> blocks[b] != []
  }

  function LastKey(block: seq<Entry>): Key
    requires block != []
  {
    block[|block| - 1].key
  }

  /** The first block whose last key is at or after `key`. */
  function BlockNumber(blocks: seq<seq<Entry>>, key: Key): (b: nat)
    requires Parted(blocks)
    ensures b <= |blocks|
    ensures forall c :: 0 <= c < b ==> Less(LastKey(blocks[c]), key)
    ensures b < |blocks| ==> !Less(LastKey(blocks[b]), key)
  {
    if blocks == [] || !Less(LastKey(blocks[0]), key) then 0
    else
      var b := BlockNumber(blocks[1..], key);
      assert forall c :: 0 < c < b + 1 ==> blocks[c] == blocks[1..][c - 1];
      b + 1
  }

  /** The block in which a key is looked up. */
  function BlockFor(blocks: seq<seq<Entry>>, key: Key): seq<Entry>
    requires Parted(blocks)
  {
    var b := BlockNumber(blocks, key);
    if b < |blocks| then blocks[b] else []
  }

  // ---- Positions ----

  /** How many entries precede block `b`. */
  function Start(blocks: seq<seq<Entry>>, b: nat): nat
    requires b <= |blocks|
  {
    |Concat(blocks[..b])|
  }

  lemma {:induction false} StartNext(blocks: seq<seq<Entry>>, b: nat)
    requires b < |blocks|
    ensures Start(blocks, b + 1) == Start(blocks, b) + |blocks[b]|
    ensures Start(blocks, 0) == 0 && Start(blocks, |blocks|) == |Concat(blocks)|
  {
    assert blocks[..b + 1][..b] == blocks[..b];
    assert blocks[..|blocks|] == blocks;
  }

  lemma {:induction false} StartEnds(blocks: seq<seq<Entry>>)
    ensures Start(blocks, 0) == 0 && Start(blocks, |blocks|) == |Concat(blocks)|
  {
    assert blocks[..|blocks|] == blocks;
  }

  /** Entry `i` of block `b` in the whole table. */
  lemma {:induction false} EntryAt(blocks: seq<seq<Entry>>, b: nat, i: nat)
    requires b < |blocks| && i < |blocks[b]|
    ensures Start(blocks, b) + i < |Concat(blocks)| && Concat(blocks)[Start(blocks, b) + i] == blocks[b][i]
  {
    var n := |blocks| - 1;
    if b < n {
      EntryAt(blocks[..n], b, i);
      assert blocks[..n][..b] == blocks[..b];
    }
  }

  lemma {:induction false} StartsGrow(blocks: seq<seq<Entry>>, b: nat, c: nat)
    requires b <= c <= |blocks|
    ensures Start(blocks, b) <= Start(blocks, c)
    decreases c - b
  {
    hide Concat;
    if b < c {
      StartNext(blocks, b);
      StartsGrow(blocks, b + 1, c);
    }
  }

  lemma {:induction false} BlockUp(blocks: seq<seq<Entry>>, b: nat)
    requires KeysUp(Concat(blocks)) && b < |blocks|
    ensures KeysUp(blocks[b])
  {
    hide Less, Concat;
    forall i, j | 0 <= i < j < |blocks[b]| ensures AtMost(blocks[b][i].key, blocks[b][j].key) {
      EntryAt(blocks, b, i);
      EntryAt(blocks, b, j);
    }
  }

  /** Every entry of a block is at most the last of any block from there on. */
  lemma {:induction false} LastIsMost(blocks: seq<seq<Entry>>, b: nat, i: nat, c: nat)
    requires KeysUp(Concat(blocks)) && b <= c < |blocks| && i < |blocks[b]| && blocks[c] != []
    ensures AtMost(blocks[b][i].key, LastKey(blocks[c]))
  {
    hide Less, Concat;
    EntryAt(blocks, b, i);
    EntryAt(blocks, c, |blocks[c]| - 1);
    if b < c {
      StartNext(blocks, b);
      StartsGrow(blocks, b + 1, c);
    }
  }

  lemma {:induction false} ConcatConcat(a: seq<seq<Entry>>, b: seq<seq<Entry>>)
    ensures Concat(a + b) == Concat(a) + Concat(b)
  {
    if b == [] {
      assert a + b == a;
    } else {
      ConcatConcat(a, b[..|b| - 1]);
      assert (a + b)[..|a| + |b| - 1] == a + b[..|b| - 1];
    }
  }

  lemma {:induction false} RestSplits(blocks: seq<seq<Entry>>, b: nat)
    requires b < |blocks|
    ensures Start(blocks, b) <= |Concat(blocks)|
    ensures Concat(blocks)[Start(blocks, b)..] == blocks[b] + Concat(blocks[b + 1..])
  {
    hide Concat;
    assert blocks == blocks[..b] + ([blocks[b]] + blocks[b + 1..]);
    ConcatConcat(blocks[..b], [blocks[b]] + blocks[b + 1..]);
    ConcatConcat([blocks[b]], blocks[b + 1..]);
    ConcatOne(blocks[b]);
  }

  lemma {:induction false} ConcatOne(block: seq<Entry>)
    ensures Concat([block]) == block
  {
    assert Concat([block][..0]) == [];
  }

  lemma {:induction false} TailUp(es: seq<Entry>, i: nat)
    requires i < |es| && KeysUp(es[i..])
    ensures KeysUp(es[i + 1..]) && es[i..][1..] == es[i + 1..] && (i + 1 < |es| ==> AtMost(es[i].key, es[i + 1].key))
  {
    hide Less;
    var r, tail := es[i..], es[i + 1..];
    assert forall a :: 0 <= a < |tail| ==> tail[a] == r[a + 1];
    if i + 1 < |es| { assert r[0] == es[i] && r[1] == es[i + 1]; }
  }

  lemma {:induction false} VisibleHead(es: seq<Entry>, key: Key, seqno: nat)
    requires es != []
    ensures Visible(es, key, seqno) ==
            if es[0].key == key && es[0].seqno <= seqno then Some(es[0]) else Visible(es[1..], key, seqno)
  {
  }

  /** Entries below the key can be skipped. */
  lemma {:induction false} VisibleFrom(es: seq<Entry>, key: Key, seqno: nat, i: nat)
    requires i <= |es| && (forall j :: 0 <= j < i ==> Less(es[j].key, key)) && KeysUp(es)
    ensures Visible(es, key, seqno) == Visible(es[i..], key, seqno) && KeysUp(es[i..])
  {
    hide Less, Visible, KeysUp;
    if i > 0 {
      assert es[0..] == es;
      TailUp(es, 0);
      VisibleHead(es, key, seqno);
      var rest := es[1..];
      assert forall j :: 0 <= j < i - 1 ==> rest[j] == es[j + 1];
      VisibleFrom(rest, key, seqno, i - 1);
      assert es[i..] == rest[i - 1..];
    } else {
      assert es[0..] == es;
    }
  }

  lemma {:induction false} NoneLeft(es: seq<Entry>, key: Key, seqno: nat)
    requires KeysUp(es) && (es != [] ==> Less(key, es[0].key))
    ensures Visible(es, key, seqno).None?
  {
    hide Less, Visible;
    var r := Visible(es, key, seqno);
    assert r.Some? ==> r.value in es && r.value.key == key;
    assert forall i :: 0 <= i < |es| ==> Less(key, es[i].key);
  }

  lemma {:induction false} SortedUp(es: seq<Entry>)
    requires Sorted(es)
    ensures KeysUp(es)
  {
    hide Less;
    forall i, j | 0 <= i < j < |es| ensures AtMost(es[i].key, es[j].key) { assert Before(es[i], es[j]); }
  }

  lemma {:induction false} BeyondLast(es: seq<Entry>, last: nat, post: seq<Entry>, key: Key, seqno: nat)
    requires KeysUp(es) && last < |es| && post == es[last + 1..] && Less(key, es[last].key)
    ensures Visible(post, key, seqno).None?
  {
    hide Less, Visible;
    forall i | 0 <= i < |post| ensures Less(key, post[i].key) { assert post[i] == es[last + 1 + i]; }
    forall i, j | 0 <= i < j < |post| ensures AtMost(post[i].key, post[j].key) {
      assert post[i] == es[last + 1 + i] && post[j] == es[last + 1 + j];
    }
    NoneLeft(post, key, seqno);
  }

  lemma {:induction false} VisibleIn(es: seq<Entry>, key: Key, seqno: nat, i: nat)
    requires i < |es| && es[i].key == key
    ensures es[i].seqno <= seqno ==> Visible(es, key, seqno).Some?
  {
    hide Visible;
    assert es[i] in es;
  }

  lemma {:induction false} BelowStart(blocks: seq<seq<Entry>>, target: Key, b: nat)
    requires Parted(blocks) && KeysUp(Concat(blocks)) && b <= |blocks|
    requires forall c :: 0 <= c < b ==> Less(LastKey(blocks[c]), target)
    ensures Start(blocks, b) <= |Concat(blocks)|
    ensures forall p :: 0 <= p < Start(blocks, b) ==> Less(Concat(blocks)[p].key, target)
  {
    hide Less, Concat;
    StartEnds(blocks);
    if b > 0 {
      BelowStart(blocks, target, b - 1);
      StartNext(blocks, b - 1);
      StartsGrow(blocks, b, |blocks|);
      var last := |blocks[b - 1]| - 1;
      EntryAt(blocks, b - 1, last);
    }
  }

  /** The versions of the key reach beyond the block that is searched, and all of them in it are too
      new to be seen. */
  predicate CutOff(blocks: seq<seq<Entry>>, key: Key, seqno: nat)
    requires Parted(blocks)
  {
    var block := BlockFor(blocks, key);
    block != [] && block[|block| - 1].key == key && block[|block| - 1].seqno > seqno
  }

  /** Searching one block is searching the whole table, except that versions cut off by a block
      boundary are missed: exactly when the block ends in versions of the key that are all too new
      while a visible one follows in a later block. */
  lemma {:induction false} OneBlockIff(blocks: seq<seq<Entry>>, key: Key, seqno: nat)
    requires Parted(blocks) && Sorted(Concat(blocks))
    ensures Visible(BlockFor(blocks, key), key, seqno) == Visible(Concat(blocks), key, seqno) <==>
            !(CutOff(blocks, key, seqno) && Visible(Concat(blocks), key, seqno).Some?)
  {
    hide Less, Visible, Concat, BlockNumber, Sorted;
    var b, es := BlockNumber(blocks, key), Concat(blocks);
    SortedUp(es);
    InBlock(blocks, key, seqno);
    if CutOff(blocks, key, seqno) { AllTooNew(blocks, key, seqno); }
  }

  /** A visible entry of the whole table lies in the searched block unless that block is cut off. */
  lemma {:induction false} InBlock(blocks: seq<seq<Entry>>, key: Key, seqno: nat)
    requires Parted(blocks) && Sorted(Concat(blocks)) && KeysUp(Concat(blocks))
    ensures var block := BlockFor(blocks, key);
            var r, q := Visible(Concat(blocks), key, seqno), Visible(block, key, seqno);
            && (q.Some? ==> q == r)
            && (r.Some? && q.None? ==> CutOff(blocks, key, seqno))
  {
    hide Less, Visible, Concat, BlockNumber, Sorted;
    var b, es := BlockNumber(blocks, key), Concat(blocks);
    BelowStart(blocks, key, b);
    VisibleFrom(es, key, seqno, Start(blocks, b));
    if b < |blocks| {
      RestSplits(blocks, b);
      var block, post := blocks[b], Concat(blocks[b + 1..]);
      var es' := es[Start(blocks, b)..];
      VisibleConcat(block, post, key, seqno);
      var last := |block| - 1;
      assert es'[last] == block[last];
      if block[last].key == key {
        VisibleIn(block, key, seqno, last);
      } else {
        BeyondLast(es', last, post, key, seqno);
      }
    } else {
      StartEnds(blocks);
      NothingVisible(key, seqno);
      assert es[|es|..] == [];
    }
  }

  /** In a cut-off block every version of the key is too new. */
  lemma {:induction false} AllTooNew(blocks: seq<seq<Entry>>, key: Key, seqno: nat)
    requires Parted(blocks) && Sorted(Concat(blocks)) && CutOff(blocks, key, seqno)
    ensures Visible(BlockFor(blocks, key), key, seqno).None?
  {
    hide Less, Visible, Concat, BlockNumber;
    var b := BlockNumber(blocks, key);
    var block := blocks[b];
    var last := |block| - 1;
    forall e | e in block && e.key == key ensures e.seqno > seqno {
      var i :| 0 <= i < |block| && block[i] == e;
      EntryAt(blocks, b, i);
      EntryAt(blocks, b, last);
      if i < last { assert Before(block[i], block[last]); }
    }
  }

  /** A reader whose sequence number is at least that of every version of the key in the table, as
      the engine's is, gets what a scan of the table gives. */
  lemma {:induction false} CurrentReadsAgree(blocks: seq<seq<Entry>>, key: Key, seqno: nat)
    requires Parted(blocks) && Sorted(Concat(blocks))
    requires forall e :: e in Concat(blocks) && e.key == key ==> e.seqno <= seqno
    ensures Visible(BlockFor(blocks, key), key, seqno) == Visible(Concat(blocks), key, seqno)
  {
    hide Less, Visible, Concat, BlockNumber, Sorted;
    OneBlockIff(blocks, key, seqno);
    if CutOff(blocks, key, seqno) {
      var b := BlockNumber(blocks, key);
      EntryAt(blocks, b, |blocks[b]| - 1);
    }
  }

  // ---- Cutting ----

  /** `blocks` are the entries cut into non-empty blocks. */
  predicate IsCut(blocks: seq<seq<Entry>>, es: seq<Entry>) {
    Parted(blocks) && Concat(blocks) == es
  }

  /** Some way of cutting a table's entries into blocks. */
  type Cutter = cut: seq<Entry> -> seq<seq<Entry>> | forall es :: IsCut(cut(es), es)
    witness OneBlock

  function OneBlock(es: seq<Entry>): (blocks: seq<seq<Entry>>)
    ensures IsCut(blocks, es)
  {
    if es == [] then [] else ConcatOne(es); [es]
  }
}
