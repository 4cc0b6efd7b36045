/** The block cache: a list in order of last use and a table into it. */
module Caches {
  import opened Keys
  import opened Entries

  type CacheKey = (nat, nat)

  datatype CacheEntry = CacheEntry(key: CacheKey, block: Bytes, charge: nat)

  function Charge(es: seq<CacheEntry>): nat {
    if es == [] then 0 else Charge(es[..|es| - 1]) + es[|es| - 1].charge
  }

  function Without(es: seq<CacheEntry>, key: CacheKey): (r: seq<CacheEntry>)
    ensures forall e :: e in r <==> e in es && e.key != key
    ensures |r| <= |es|
  {
    if es == [] then []
    else
      assert forall e :: e in es <==> e == es[0] || e in es[1..];
      if es[0].key == key then Without(es[1..], key) else [es[0]] + Without(es[1..], key)
  }

  /** The longest prefix that leaves room for `charge`. */
  function Fitting(es: seq<CacheEntry>, charge: nat, capacity: nat): seq<CacheEntry> {
    if es == [] || Charge(es) + charge <= capacity then es else Fitting(es[..|es| - 1], charge, capacity)
  }

  ghost predicate UniqueKeys(es: seq<CacheEntry>) {
    forall i, j :: 0 <= i < j < |es| ==> es[i].key != es[j].key
  }

  lemma {:induction false} ChargeConcat(a: seq<CacheEntry>, b: seq<CacheEntry>)
    ensures Charge(a + b) == Charge(a) + Charge(b)
  {
    if b == [] {
      assert a + b == a;
    } else {
      ChargeConcat(a, b[..|b| - 1]);
      assert (a + b)[..|a| + |b| - 1] == a + b[..|b| - 1];
    }
  }

  lemma {:induction false} ChargeOne(e: CacheEntry)
    ensures Charge([e]) == e.charge
  {
    assert Charge([e][..0]) == 0;
  }

  /** Exactly the least recently used entries go: what stays is a prefix, it leaves room for the new
      entry unless nothing stays, and one more entry would not. */
  lemma {:induction false} FittingIsLongest(es: seq<CacheEntry>, charge: nat, capacity: nat)
    ensures var r := Fitting(es, charge, capacity);
            && r <= es && (r != [] ==> Charge(r) + charge <= capacity)
            && forall n :: |r| < n <= |es| ==> Charge(es[..n]) + charge > capacity
  {
    if es != [] && Charge(es) + charge > capacity {
      var init := es[..|es| - 1];
      FittingIsLongest(init, charge, capacity);
      forall n | |Fitting(es, charge, capacity)| < n <= |es| ensures Charge(es[..n]) + charge > capacity {
        if n < |es| { assert es[..n] == init[..n]; } else { assert es[..n] == es; }
      }
    } else {
      assert es <= es;
    }
  }

  lemma {:induction false} TailUnique(es: seq<CacheEntry>)
    requires UniqueKeys(es) && es != []
    ensures UniqueKeys(es[1..]) && forall e :: e in es[1..] ==> e.key != es[0].key
  {
    var rest := es[1..];
    forall e | e in rest ensures e.key != es[0].key { var i :| 0 <= i < |rest| && rest[i] == e; assert es[i + 1] == e; }
  }

  lemma {:induction false} WithoutAbsent(es: seq<CacheEntry>, key: CacheKey)
    requires forall e :: e in es ==> e.key != key
    ensures Without(es, key) == es
  {
    if es != [] {
      assert es == [es[0]] + es[1..];
      WithoutAbsent(es[1..], key);
    }
  }

  lemma {:induction false} WithoutUnique(es: seq<CacheEntry>, key: CacheKey)
    requires UniqueKeys(es)
    ensures UniqueKeys(Without(es, key))
  {
    if es != [] {
      TailUnique(es);
      WithoutUnique(es[1..], key);
    }
  }

  /** Taking an entry out takes its charge out. */
  lemma {:induction false} WithoutCharge(es: seq<CacheEntry>, e: CacheEntry)
    requires UniqueKeys(es) && e in es
    ensures Charge(es) == Charge(Without(es, e.key)) + e.charge && |es| == |Without(es, e.key)| + 1
  {
    hide Charge;
    TailUnique(es);
    var rest := es[1..];
    assert es == [es[0]] + rest;
    ChargeConcat([es[0]], rest);
    ChargeOne(es[0]);
    if es[0].key == e.key {
      WithoutAbsent(rest, e.key);
    } else {
      WithoutCharge(rest, e);
      ChargeConcat([es[0]], Without(rest, e.key));
    }
  }

  /** Table and list hold the same entries, one per key. */
  ghost predicate Lists(lru: seq<CacheEntry>, table: map<CacheKey, CacheEntry>) {
    && UniqueKeys(lru)
    && (forall e :: e in lru ==> e.key in table && table[e.key] == e)
    && forall k :: k in table ==> table[k] in lru && table[k].key == k
  }

  class BlockCache {
    const capacity: nat
    var total: nat
    var lru: seq<CacheEntry>
    var table: map<CacheKey, CacheEntry>

    /** Table and list hold the same entries, the charge is their sum, and it stays within the
        capacity unless a single entry is larger than that. */
    ghost predicate Ok()
      reads this
    {
      Lists(lru, table) && total == Charge(lru) && (total <= capacity || |lru| == 1)
    }

    constructor (capacity: nat)
      ensures Ok() && lru == [] && this.capacity == capacity
    {
      this.capacity := capacity;
      total, lru, table := 0, [], map[];
    }

    /** A hit becomes the most recently used entry. */
    method Lookup(key: CacheKey) returns (r: Option<Bytes>)
      requires Ok()
      modifies this
      ensures Ok() && table == old(table)
      ensures r == if key in table then Some(table[key].block) else None
      ensures lru == if key in table then [table[key]] + Without(old(lru), key) else old(lru)
    {
      hide Charge, Without;
      if key !in table { return None; }
      var e := table[key];
      WithoutUnique(lru, key);
      WithoutCharge(lru, e);
      ChargeConcat([e], Without(lru, key));
      ChargeOne(e);
      lru := [e] + Without(lru, key);
      return Some(e.block);
    }

    /** The new entry comes first; an old one under its key goes; then the least recently used ones
        go until there is room. */
    method Insert(key: CacheKey, block: Bytes, charge: nat)
      requires Ok()
      modifies this
      ensures Ok() && lru == [CacheEntry(key, block, charge)] + Fitting(Without(old(lru), key), charge, capacity)
    {
      hide Charge, Without, Fitting, UniqueKeys;
      Erase(key);
      Evict(charge);
      Pushed(lru, table, total, key, block, charge, capacity);
      lru := [CacheEntry(key, block, charge)] + lru;
      table := table[key := CacheEntry(key, block, charge)];
      total := total + charge;
    }

    /** Drops entries from the back until the new one fits. */
    method Evict(charge: nat)
      requires Ok()
      modifies this
      ensures Lists(lru, table) && total == Charge(lru) && lru == Fitting(old(lru), charge, capacity)
      ensures table.Keys <= old(table.Keys) && (lru == [] || total + charge <= capacity)
    {
      hide Charge, Fitting, UniqueKeys;
      while total + charge > capacity && lru != []
        invariant Lists(lru, table) && total == Charge(lru) && table.Keys <= old(table.Keys)
        invariant Fitting(lru, charge, capacity) == Fitting(old(lru), charge, capacity)
        decreases |lru|
      {
        var last := lru[|lru| - 1];
        DropLast(lru, table, charge, capacity);
        total := total - last.charge;
        table := table - {last.key};
        lru := lru[..|lru| - 1];
      }
      FittingDone(lru, charge, capacity);
    }

    method Erase(key: CacheKey)
      requires Ok()
      modifies this
      ensures Ok() && lru == Without(old(lru), key) && key !in table
    {
      hide Without;
      WithoutUnique(lru, key);
      if key in table {
        WithoutCharge(lru, table[key]);
        total := total - table[key].charge;
        lru := Without(lru, key);
        table := table - {key};
      } else {
        WithoutAbsent(lru, key);
      }
    }

    method Clear()
      modifies this
      ensures Ok() && lru == []
    {
      lru, table, total := [], map[], 0;
    }
  }

  lemma {:induction false} DropLast(lru: seq<CacheEntry>, table: map<CacheKey, CacheEntry>, charge: nat, capacity: nat)
    requires Lists(lru, table) && lru != [] && Charge(lru) + charge > capacity
    ensures var last := lru[|lru| - 1];
            && Lists(lru[..|lru| - 1], table - {last.key})
            && Charge(lru) == Charge(lru[..|lru| - 1]) + last.charge
            && Fitting(lru, charge, capacity) == Fitting(lru[..|lru| - 1], charge, capacity)
  {
    ListsInit(lru, table);
  }

  lemma {:induction false} ListsInit(lru: seq<CacheEntry>, table: map<CacheKey, CacheEntry>)
    requires Lists(lru, table) && lru != []
    ensures Lists(lru[..|lru| - 1], table - {lru[|lru| - 1].key})
  {
    var last, init := lru[|lru| - 1], lru[..|lru| - 1];
    assert lru == init + [last];
    forall e | e in init ensures e.key != last.key { var i :| 0 <= i < |init| && init[i] == e; assert lru[i] == e; }
  }

  /** A new entry in front. */
  lemma {:induction false} Pushed(lru: seq<CacheEntry>, table: map<CacheKey, CacheEntry>, total: nat, key: CacheKey,
      block: Bytes, charge: nat, capacity: nat)
    requires Lists(lru, table) && total == Charge(lru) && key !in table && (lru == [] || total + charge <= capacity)
    ensures var e := CacheEntry(key, block, charge);
            && Lists([e] + lru, table[key := e]) && Charge([e] + lru) == total + charge
            && (total + charge <= capacity || |[e] + lru| == 1)
  {
    hide Charge;
    var e := CacheEntry(key, block, charge);
    ChargeConcat([e], lru);
    ChargeOne(e);
  }

  lemma {:induction false} FittingDone(es: seq<CacheEntry>, charge: nat, capacity: nat)
    requires es == [] || Charge(es) + charge <= capacity
    ensures Fitting(es, charge, capacity) == es
  {
  }

  // ---- Transparency ----

  /** Every cached block is the one that `read` would fetch for its key. */
  ghost predicate Faithful(es: seq<CacheEntry>, read: map<CacheKey, Bytes>) {
    forall e :: e in es ==> e.key in read && read[e.key] == e.block
  }

  /** Inserting what was just read keeps the cache faithful, whatever is evicted. */
  lemma {:induction false} FaithfulInsert(es: seq<CacheEntry>, read: map<CacheKey, Bytes>, key: CacheKey, charge: nat,
      capacity: nat)
    requires Faithful(es, read) && key in read
    ensures Faithful([CacheEntry(key, read[key], charge)] + Fitting(Without(es, key), charge, capacity), read)
  {
    hide Charge, Without, Fitting;
    FittingIsLongest(Without(es, key), charge, capacity);
  }
}
