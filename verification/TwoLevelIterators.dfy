/** The iterator over a table: an index iterator and an iterator over the block it points to. */
module TwoLevelIterators {
  import opened Keys
  import opened Entries
  import opened Merging
  import opened BlockSearch
  import opened Blocks
  import opened Tables
  import opened Caches
  import opened TableReaders
  import Bloom

  class TwoLevelIterator {
    const reader: SSTableReader
    const cache: BlockCache?
    const indexIter: Iter
    var dataIter: Iter?
    ghost const disk: map<CacheKey, Bytes>
    ghost var b: nat
    ghost var i: nat

    ghost function Parts(): set<object>
      reads this
    {
      {indexIter} + (if dataIter == null then {} else {dataIter}) + Maybe(cache)
    }

    ghost function DataBlocks(): seq<seq<Entry>> { reader.t.blocks }

    /** All entries of the table. */
    ghost function Entries(): seq<Entry> { Concat(DataBlocks()) }

    ghost predicate Base()
      reads this, Parts()
    {
      && reader.Ok() && CacheOk(cache, disk) && Registered(reader.t, reader.number, disk) && KeysUp(Entries())
      && indexIter.Over() && indexIter.es == IndexEntries(reader.t) && dataIter != indexIter
    }

    /** The index iterator is on block `b` and the data iterator on entry `i` of it, or at its end;
        past the last block there is no data iterator. */
    ghost predicate Placed()
      reads this, Parts()
    {
      && Base() && b <= |DataBlocks()| && indexIter.At(b)
      && if b < |DataBlocks()| then dataIter != null && dataIter.es == DataBlocks()[b] && dataIter.At(i)
         else dataIter == null
    }

    predicate Valid()
      reads this, dataIter
    {
      dataIter != null && dataIter.Valid()
    }

    /** The entry of the table that this is; the end of a block counts as the start of the next. */
    ghost function Global(): nat
      requires b <= |DataBlocks()|
      reads this
    {
      Start(DataBlocks(), b) + if b < |DataBlocks()| then i else 0
    }

    /** The iterator is on entry `p` of the table; position `|Entries()|` is the invalid one. */
    ghost predicate At(p: nat)
      reads this, Parts()
    {
      Placed() && Global() == p && (b < |DataBlocks()| ==> i < |DataBlocks()[b]|)
    }

    constructor (reader: SSTableReader, cache: BlockCache?, ghost disk: map<CacheKey, Bytes>)
      requires reader.Ok() && CacheOk(cache, disk) && Registered(reader.t, reader.number, disk)
      requires KeysUp(Concat(reader.t.blocks))
      ensures this.reader == reader && this.cache == cache && this.disk == disk
      ensures Base() && fresh(Parts() - Maybe(cache)) && !Valid()
    {
      hide IsBlock, Bloom.IsFilter, Stored, Concat, KeysUp, UniqueKeys, Charge, Body;
      IndexLimits(reader.file, reader.t);
      this.reader, this.cache, this.disk := reader, cache, disk;
      indexIter := new Iter(reader.index, IndexEntries(reader.t), reader.t.indexIdx);
      dataIter := null;
      b, i := 0, 0;
    }

    /** An iterator over block `b`, given its index entry. */
    method OpenBlock(handle: Bytes, ghost b: nat) returns (it: Iter?)
      requires reader.Ok() && CacheOk(cache, disk) && Registered(reader.t, reader.number, disk)
      requires b < |DataBlocks()| && handle == IndexEntry(reader.t, b).value
      modifies Maybe(cache)
      ensures CacheOk(cache, disk)
      ensures it != null && fresh(it) && it.es == DataBlocks()[b] && it.At(|DataBlocks()[b]|)
    {
      hide IsBlock, Bloom.IsFilter, Stored, Concat, KeysUp, UniqueKeys, Charge, Fits, Body, Limits, IsTable,
           Registered, Faithful, DataOk, Handle;
      TableFacts(reader);
      var raw := reader.LoadBlock(handle, cache, b, disk);
      if raw.None? { return null; }
      BlockLimits(reader.file, reader.t, b);
      it := new Iter(raw.value, DataBlocks()[b], reader.t.idxs[b]);
    }

    /** Opens the block that the index iterator is on. */
    method InitDataBlock()
      requires Base() && b <= |DataBlocks()| && indexIter.At(b)
      modifies this, Maybe(cache)
      ensures Placed() && b == old(b) && (b < |DataBlocks()| ==> i == |DataBlocks()[b]|)
      ensures dataIter == null || fresh(dataIter)
    {
      hide IsBlock, Bloom.IsFilter, Concat, KeysUp, Fits, Body, IsTable, Registered, Faithful, Limits, UniqueKeys,
           Charge, DataOk;
      TableFacts(reader);
      InsideIff(IndexEntries(reader.t), b);
      dataIter := null;
      if indexIter.Valid() {
        i := |DataBlocks()[b]|;
        dataIter := OpenBlock(indexIter.entry.value, b);
      }
    }

    /** From the end of a block on to the next block. */
    method SkipEmptyDataBlocksForward(ghost p: nat)
      requires Placed() && Global() == p
      modifies this, Parts()
      ensures At(p) && fresh(Parts() - old(Parts()))
    {
      hide IsBlock, Bloom.IsFilter, Concat, KeysUp, UniqueKeys, Charge, Fits, Body, Limits, IsTable, Registered,
           Faithful, Start, DataOk;
      TableFacts(reader);
      InsideData();
      while dataIter == null || !dataIter.Valid()
        invariant Placed() && Global() == p && fresh(Parts() - old(Parts()))
        invariant b < |DataBlocks()| ==> (dataIter.Valid() <==> i < |DataBlocks()[b]|)
        decreases |DataBlocks()| - b
      {
        InsideIff(IndexEntries(reader.t), b);
        if !indexIter.Valid() {
          dataIter := null;
          return;
        }
        StepForward();
        InsideData();
      }
    }

    /** On to the first entry of the next block. */
    method StepForward()
      requires Placed() && b < |DataBlocks()| && i == |DataBlocks()[b]|
      modifies this, Parts()
      ensures Placed() && b == old(b) + 1 && Global() == old(Global()) && fresh(Parts() - old(Parts()))
    {
      hide IsBlock, Bloom.IsFilter, Concat, KeysUp, UniqueKeys, Charge, Fits, Body, Limits, IsTable, Registered,
           Faithful, Start, DataOk;
      TableFacts(reader);
      StartNext(DataBlocks(), b);
      InsideIff(IndexEntries(reader.t), b);
      indexIter.Next(b);
      b := b + 1;
      InitDataBlock();
      if dataIter != null {
        HasRestart(dataIter.data, dataIter.es, dataIter.idx);
        dataIter.SeekToFirst();
        i := 0;
      }
    }

    /** What a backward move aims at: the entry before `q`. */
    ghost predicate Aiming(q: nat)
      reads this, Parts()
    {
      && Placed()
      && if b == |DataBlocks()| then q == 0
         else q == Start(DataBlocks(), b) + if i < |DataBlocks()[b]| then i + 1 else 0
    }

    /** From before the start of a block back to the end of the previous block. */
    method SkipEmptyDataBlocksBackward(ghost q: nat)
      requires Aiming(q)
      modifies this, Parts()
      ensures At(if q == 0 then |Entries()| else q - 1) && fresh(Parts() - old(Parts()))
    {
      hide IsBlock, Bloom.IsFilter, Concat, KeysUp, UniqueKeys, Charge, Fits, Body, Limits, IsTable, Registered,
           Faithful, Start, DataOk;
      TableFacts(reader);
      StartEnds(DataBlocks());
      InsideData();
      while dataIter == null || !dataIter.Valid()
        invariant Aiming(q) && fresh(Parts() - old(Parts()))
        invariant b < |DataBlocks()| ==> (dataIter.Valid() <==> i < |DataBlocks()[b]|)
        decreases if b == |DataBlocks()| then 0 else b + 1
      {
        InsideIff(IndexEntries(reader.t), b);
        if !indexIter.Valid() {
          dataIter := null;
          return;
        }
        StepBackward(q);
        InsideData();
      }
    }

    /** Back to the last entry of the previous block. */
    method StepBackward(ghost q: nat)
      requires Aiming(q) && b < |DataBlocks()| && i == |DataBlocks()[b]|
      modifies this, Parts()
      ensures Aiming(q) && b == (if old(b) == 0 then |DataBlocks()| else old(b) - 1) && fresh(Parts() - old(Parts()))
    {
      hide IsBlock, Bloom.IsFilter, Concat, KeysUp, UniqueKeys, Charge, Fits, Body, Limits, IsTable, Registered,
           Faithful, Start, DataOk;
      TableFacts(reader);
      StartEnds(DataBlocks());
      if b > 0 { StartNext(DataBlocks(), b - 1); }
      InsideIff(IndexEntries(reader.t), b);
      indexIter.Prev(b);
      b := if b == 0 then |DataBlocks()| else b - 1;
      InitDataBlock();
      if dataIter != null {
        dataIter.SeekToLast();
        i := |DataBlocks()[b]| - 1;
      }
    }

    method SeekToFirst()
      requires Base()
      modifies this, Parts()
      ensures At(0) && fresh(Parts() - old(Parts()))
    {
      hide IsBlock, Bloom.IsFilter, Concat, KeysUp, UniqueKeys, Charge, Fits, Body, Limits, IsTable, Registered,
           Faithful, Start, DataOk;
      TableFacts(reader);
      StartEnds(DataBlocks());
      HasRestart(indexIter.data, indexIter.es, indexIter.idx);
      indexIter.SeekToFirst();
      b := 0;
      InitDataBlock();
      if dataIter != null {
        HasRestart(dataIter.data, dataIter.es, dataIter.idx);
        dataIter.SeekToFirst();
        i := 0;
      }
      SkipEmptyDataBlocksForward(0);
    }

    method SeekToLast()
      requires Base()
      modifies this, Parts()
      ensures At(if Entries() == [] then 0 else |Entries()| - 1) && fresh(Parts() - old(Parts()))
    {
      hide IsBlock, Bloom.IsFilter, Concat, KeysUp, UniqueKeys, Charge, Fits, Body, Limits, IsTable, Registered,
           Faithful, Start, DataOk;
      TableFacts(reader);
      StartEnds(DataBlocks());
      indexIter.SeekToLast();
      b := if |DataBlocks()| == 0 then 0 else |DataBlocks()| - 1;
      if |DataBlocks()| > 0 { StartNext(DataBlocks(), b); }
      InitDataBlock();
      if dataIter != null {
        dataIter.SeekToLast();
        i := |DataBlocks()[b]| - 1;
      }
      SkipEmptyDataBlocksBackward(|Entries()|);
    }

    /** Lands on the first entry of the table whose key is at or after the target. */
    method Seek(target: Key)
      requires Base()
      modifies this, Parts()
      ensures At(LowerBound(Entries(), target)) && fresh(Parts() - old(Parts()))
    {
      hide IsBlock, Bloom.IsFilter, Concat, KeysUp, UniqueKeys, Charge, Fits, Body, Limits, IsTable, Registered,
           Faithful, Start, DataOk, LowerBound;
      TableFacts(reader);
      StartEnds(DataBlocks());
      IndexUp(reader.t);
      IndexFinds(reader.t, target);
      indexIter.Seek(target);
      b := LowerBound(IndexEntries(reader.t), target);
      InitDataBlock();
      if dataIter != null {
        BlockUp(DataBlocks(), b);
        dataIter.Seek(target);
        i := LowerBound(DataBlocks()[b], target);
      }
      SkipEmptyDataBlocksForward(LowerBound(Entries(), target));
    }

    method Next(ghost p: nat)
      requires At(p) && Valid()
      modifies this, Parts()
      ensures At(p + 1) && fresh(Parts() - old(Parts()))
    {
      hide IsBlock, Bloom.IsFilter, Concat, KeysUp, UniqueKeys, Charge, Fits, Body, Limits, IsTable, Registered,
           Faithful, Start, DataOk;
      dataIter.Next(i);
      i := i + 1;
      SkipEmptyDataBlocksForward(p + 1);
    }

    /** Before the first entry the iterator becomes invalid. */
    method Prev(ghost p: nat)
      requires At(p) && Valid()
      modifies this, Parts()
      ensures At(if p == 0 then |Entries()| else p - 1) && fresh(Parts() - old(Parts()))
    {
      hide IsBlock, Bloom.IsFilter, Concat, KeysUp, UniqueKeys, Charge, Fits, Body, Limits, IsTable, Registered,
           Faithful, Start, DataOk;
      dataIter.Prev(i);
      i := if i == 0 then |DataBlocks()[b]| else i - 1;
      SkipEmptyDataBlocksBackward(p);
    }

    /** The current entry. */
    method Current(ghost p: nat) returns (e: Entry)
      requires At(p) && Valid()
      ensures p < |Entries()| && e == Entries()[p]
    {
      hide IsBlock, Bloom.IsFilter, Concat, KeysUp, UniqueKeys, Charge, Fits, Body, Limits, IsTable, Registered,
           Faithful, DataOk;
      EntryAt(DataBlocks(), b, i);
      e := dataIter.entry;
    }

    lemma ValidIff(p: nat)
      requires At(p)
      ensures Valid() <==> p < |Entries()|
    {
      hide IsBlock, Bloom.IsFilter, Concat, KeysUp, UniqueKeys, Charge, Fits, Body, Limits, IsTable, Registered,
           Faithful, DataOk;
      InsideData();
      StartEnds(DataBlocks());
      if b < |DataBlocks()| { EntryAt(DataBlocks(), b, i); }
    }

    /** The data iterator is valid exactly when it is not at the end of its block. */
    lemma InsideData()
      requires Placed()
      ensures b < |DataBlocks()| ==> (dataIter.Valid() <==> i < |DataBlocks()[b]|)
    {
      hide IsBlock, Bloom.IsFilter, Concat, KeysUp, UniqueKeys, Charge, Fits, Body, Limits, IsTable, Registered,
           Faithful;
      if b < |DataBlocks()| { InsideIff(DataBlocks()[b], i); }
    }
  }

  lemma {:induction false} TableFacts(reader: SSTableReader)
    requires reader.Ok()
    ensures Shaped(reader.t) && DataOk(reader.file, reader.t) && Limits(reader.file, reader.t)
    ensures forall b :: 0 <= b < |reader.t.blocks| ==> IsBlock(reader.t.raws[b], reader.t.blocks[b], reader.t.idxs[b])
  {
    hide IsBlock, Stored, Bloom.IsFilter, Limits;
  }

  // ---- Writing a table and reading it back ----

  method WriteTable(hash: Bytes -> nat, blockSize: nat, bitsPerKey: nat, es: seq<Entry>)
    returns (file: Bytes, ghost t: Table)
    ensures IsTable(file, t, hash) && Concat(t.blocks) == es
    ensures BuiltFrom(file, t, blockSize, bitsPerKey, es)
  {
    hide IsBlock, Bloom.IsFilter, Concat, Body, Points, Counts, DataOk, IndexEntries, IsTable, BuiltFrom, Restarts,
         CutUp, SizesOk, DataSize;
    var builder := new SSTableBuilder(hash, blockSize, bitsPerKey);
    for i := 0 to |es|
      invariant builder.Ok() && builder.Cuts() && builder.Added() == es[..i] && builder.hash == hash
      invariant builder.blockSize == blockSize && builder.bitsPerKey == bitsPerKey
      invariant fresh(builder) && fresh(builder.dataBlock) && fresh(builder.indexBlock)
    {
      builder.Add(es[i]);
    }
    assert es[..|es|] == es;
    t := builder.Finish();
    file := builder.file;
  }

  /** All entries from the first on. */
  method Scan(it: TwoLevelIterator) returns (es: seq<Entry>)
    requires it.Base()
    modifies it, it.Parts()
    ensures es == it.Entries()
  {
    hide IsBlock, Bloom.IsFilter, Concat, KeysUp, UniqueKeys, Charge, Fits, Body, Limits, IsTable, Registered,
         Faithful, DataOk, Start, IndexEntries;
    it.SeekToFirst();
    es := [];
    ghost var p: nat := 0;
    it.ValidIff(0);
    while it.Valid()
      invariant it.At(p) && p <= |it.Entries()| && es == it.Entries()[..p]
      invariant it.Valid() <==> p < |it.Entries()|
      invariant fresh(it.Parts() - old(it.Parts()))
      decreases |it.Entries()| - p
    {
      es := Take(it, es, p);
      p := p + 1;
    }
  }

  method Take(it: TwoLevelIterator, es: seq<Entry>, ghost p: nat) returns (es': seq<Entry>)
    requires it.At(p) && it.Valid() && p < |it.Entries()| && es == it.Entries()[..p]
    modifies it, it.Parts()
    ensures it.At(p + 1) && es' == it.Entries()[..p + 1] && (it.Valid() <==> p + 1 < |it.Entries()|)
    ensures fresh(it.Parts() - old(it.Parts()))
  {
    hide IsBlock, Bloom.IsFilter, Concat, KeysUp, UniqueKeys, Charge, Fits, Body, Limits, IsTable, Registered,
         Faithful, DataOk, Start, IndexEntries;
    var e := it.Current(p);
    es' := es + [e];
    it.Next(p);
    it.ValidIff(p + 1);
  }

  /** Opening a table and iterating from its first entry yields its entries, whatever is cached. */
  method ReadTable(file: Bytes, fileSize: nat, number: nat,
      hash: Bytes -> nat, cache: BlockCache?, ghost t: Table, ghost disk: map<CacheKey, Bytes>)
    returns (es: seq<Entry>)
    requires IsTable(file, t, hash) && fileSize == |file| && Limits(file, t) && KeysUp(Concat(t.blocks))
    requires CacheOk(cache, disk) && Registered(t, number, disk)
    modifies Maybe(cache)
    ensures es == Concat(t.blocks)
  {
    hide IsBlock, Bloom.IsFilter, Concat, KeysUp, UniqueKeys, Charge, Fits, Body, Limits, IsTable, Registered,
         Faithful, DataOk, Start, IndexEntries;
    var reader := Open(file, fileSize, number, hash, t);
    var it := new TwoLevelIterator(reader, cache, disk);
    es := Scan(it);
  }
}
