/** Opening a table, looking a key up in it, and iterating over it. */
module TableReaders {
  import opened Keys
  import opened Entries
  import opened Coding
  import opened Checksums
  import opened Merging
  import opened BlockSearch
  import opened Blocks
  import opened Tables
  import opened Caches
  import Bloom

  /** The largest block and the largest filter a reader accepts: 64 MB. */
  const MAX_BLOCK: nat := 64 * 1024 * 1024

  // ---- Reading blocks ----

  /** `ReadBlock` of a handle in a file that is recorded to have `fileSize` bytes: the bytes, unless the
      bounds or the checksum are wrong or the file ends before them. */
  function ReadRaw(file: Bytes, fileSize: nat, offset: nat, size: nat): Option<Bytes> {
    if size > MAX_BLOCK || offset + size + 4 > fileSize then None
    else if offset + size + 4 > |file| then None
    else if Value(file[offset + size..offset + size + 4]) != Crc(file[offset..offset + size], 0) then None
    else Some(file[offset..offset + size])
  }

  function DecodeHandle(b: Bytes): Option<(nat, nat)> {
    if |b| < 16 then None else Some((Value(b[..8]), Value(b[8..16])))
  }

  lemma {:induction false} HandleRoundTrip(offset: nat, size: nat, rest: Bytes)
    requires offset < Pow256(8) && size < Pow256(8)
    ensures DecodeHandle(Handle(offset, size) + rest) == Some((offset, size))
  {
    hide Fixed, Value, Pow256;
    var b := Handle(offset, size) + rest;
    assert b[..8] == Fixed(offset, 8) && b[8..16] == Fixed(size, 8);
    FixedRoundTrip(offset, 8);
    FixedRoundTrip(size, 8);
  }

  /** A stored block reads back exactly when it is within the limit. */
  lemma {:induction false} StoredReads(file: Bytes, offset: nat, raw: Bytes)
    requires Stored(file, offset, raw)
    ensures ReadRaw(file, |file|, offset, |raw|) == if |raw| <= 67108864 then Some(raw) else None
  {
    hide Fixed, Value, Crc;
    CrcBound(raw, 0);
    FixedRoundTrip(Crc(raw, 0), 4);
  }

  /** A stored block in which up to four adjacent bytes were changed is refused. */
  lemma {:induction false} DamagedBlockRefused(file: Bytes, fileSize: nat, offset: nat, pre: Bytes,
      a: Bytes, b: Bytes, post: Bytes)
    requires |a| == |b| <= 4 && a != b
    requires var raw, bad := pre + a + post, pre + b + post;
             offset + |bad| + 4 <= |file| && file[offset..offset + |bad|] == bad
             && file[offset + |bad|..offset + |bad| + 4] == Fixed(Crc(raw, 0), 4)
    ensures ReadRaw(file, fileSize, offset, |pre + b + post|) == None
  {
    hide Fixed, Value, Crc;
    var raw := pre + a + post;
    CrcBound(raw, 0);
    FixedRoundTrip(Crc(raw, 0), 4);
    CrcSeparates(pre, a, b, post, 0);
  }

  // ---- Where a key is ----

  /** Sizes within what the reader accepts, and kinds and numbers as the engine writes them. */
  ghost predicate Limits(file: Bytes, t: Table) {
    && |file| < Pow256(8) && |t.index| <= MAX_BLOCK && |t.filter| <= MAX_BLOCK
    && (forall b :: 0 <= b < |t.raws| ==> |t.raws[b]| <= MAX_BLOCK)
    && forall b, i :: 0 <= b < |t.blocks| && 0 <= i < |t.blocks[b]| ==>
         t.blocks[b][i].seqno < Pow256(8) && (t.blocks[b][i].kind == VALUE || t.blocks[b][i].kind == DELETION)
  }

  lemma {:induction false} BlockLimits(file: Bytes, t: Table, b: nat)
    requires DataOk(file, t) && Limits(file, t) && b < |t.blocks|
    ensures Blocks.Fits(t.raws[b], t.blocks[b]) && t.offsets[b] < Pow256(8) && |t.raws[b]| < Pow256(8)
    ensures ReadRaw(file, |file|, t.offsets[b], |t.raws[b]|) == Some(t.raws[b])
  {
    hide ReadRaw, Fixed, Crc, IsBlock;
    assert Stored(file, t.offsets[b], t.raws[b]);
    StoredReads(file, t.offsets[b], t.raws[b]);
  }

  lemma {:induction false} IndexLimits(file: Bytes, t: Table)
    requires Shaped(t) && Limits(file, t)
    ensures Blocks.Fits(t.index, IndexEntries(t))
  {
  }

  lemma {:induction false} IndexUp(t: Table)
    requires Shaped(t) && KeysUp(Concat(t.blocks))
    ensures KeysUp(IndexEntries(t))
  {
    hide Less, Concat;
    forall b, c | 0 <= b < c < |t.blocks| ensures AtMost(IndexEntry(t, b).key, IndexEntry(t, c).key) {
      LastIsMost(t.blocks, b, |t.blocks[b]| - 1, c);
    }
  }

  /** The index is searched for the first block whose last key reaches the target. */
  lemma {:induction false} IndexIsNumber(t: Table, target: Key)
    requires Shaped(t)
    ensures LowerBound(IndexEntries(t), target) == BlockNumber(t.blocks, target)
  {
    hide Less, LowerBound, BlockNumber;
    assert forall b :: 0 <= b < |t.blocks| ==> IndexEntries(t)[b].key == LastKey(t.blocks[b]);
    LowerBoundIs(IndexEntries(t), target, BlockNumber(t.blocks, target));
  }

  /** The index finds the block: nothing before it reaches the target, and its last key does. */
  lemma {:induction false} IndexFinds(t: Table, target: Key)
    requires Shaped(t) && KeysUp(Concat(t.blocks))
    ensures var b := LowerBound(IndexEntries(t), target);
            if b < |t.blocks| then
              LowerBound(t.blocks[b], target) < |t.blocks[b]|
              && LowerBound(Concat(t.blocks), target) == Start(t.blocks, b) + LowerBound(t.blocks[b], target)
            else LowerBound(Concat(t.blocks), target) == |Concat(t.blocks)|
  {
    hide Less, Concat, LowerBound, KeysUp, BlockNumber;
    var b, es := BlockNumber(t.blocks, target), Concat(t.blocks);
    IndexIsNumber(t, target);
    StartEnds(t.blocks);
    BelowStart(t.blocks, target, b);
    if b < |t.blocks| {
      var block := t.blocks[b];
      var i := LowerBound(block, target);
      EntryAt(t.blocks, b, i);
      forall p | 0 <= p < Start(t.blocks, b) + i ensures Less(es[p].key, target) {
        if p >= Start(t.blocks, b) { EntryAt(t.blocks, b, p - Start(t.blocks, b)); }
      }
      LowerBoundIs(es, target, Start(t.blocks, b) + i);
    } else {
      LowerBoundIs(es, target, |es|);
    }
  }

  // ---- The reader ----

  /** The blocks of this table as the cache's owner knows them. */
  ghost predicate Registered(t: Table, number: nat, disk: map<CacheKey, Bytes>) {
    && |t.offsets| == |t.raws|
    && forall b :: 0 <= b < |t.raws| ==> (number, t.offsets[b]) in disk && disk[(number, t.offsets[b])] == t.raws[b]
  }

  /** A cache, if there is one, that holds only what is on disk. */
  ghost predicate CacheOk(cache: BlockCache?, disk: map<CacheKey, Bytes>)
    reads cache
  {
    cache != null ==> cache.Ok() && Faithful(cache.lru, disk)
  }

  ghost function Maybe(cache: BlockCache?): set<object> {
    if cache == null then {} else {cache}
  }

  /** `Open`: the footer at the end of the recorded size, the index block and the filter block; `null`
      stands for an error.  A recorded size beyond the end of the file is one. */
  method Open(file: Bytes, fileSize: nat, number: nat, hash: Bytes -> nat, ghost t: Table) returns (r: SSTableReader?)
    ensures IsTable(file, t, hash) && fileSize == |file| < Pow256(8) ==>
              (r != null <==> |t.index| <= 67108864 && |t.filter| <= 67108864)
    ensures IsTable(file, t, hash) && fileSize == |file| && Limits(file, t) ==>
              r != null && r.Ok() && r.t == t && r.number == number
    ensures fileSize > |file| || fileSize < FOOTER_SIZE ==> r == null
  {
    hide Fixed, Value, Crc, IsBlock, Bloom.IsFilter, DataOk, ReadRaw, Pow256, Handle;
    if IsTable(file, t, hash) && |file| < Pow256(8) { FooterRead(file, t, hash); }
    if fileSize < FOOTER_SIZE || fileSize > |file| { return null; }
    var footer := file[fileSize - FOOTER_SIZE..fileSize];
    assert fileSize == |file| ==> footer == file[|file| - FOOTER_SIZE..];
    if Value(footer[40..48]) != TABLE_MAGIC { return null; }
    var filterHandle, indexHandle := DecodeHandle(footer[..16]), DecodeHandle(footer[16..32]);
    if filterHandle.None? || indexHandle.None? { return null; }
    var index := ReadRaw(file, fileSize, indexHandle.value.0, indexHandle.value.1);
    if index.None? { return null; }
    var (filterAt, filterSize) := filterHandle.value;
    var filter := [];
    if filterSize > 0 {
      if filterSize > MAX_BLOCK || filterAt + filterSize + 4 > fileSize { return null; }
      var raw := ReadRaw(file, fileSize, filterAt, filterSize);
      if raw.Some? { filter := raw.value; }
    }
    r := new SSTableReader(file, fileSize, number, hash, index.value, filter, t);
  }

  lemma {:induction false} FooterRead(file: Bytes, t: Table, hash: Bytes -> nat)
    requires IsTable(file, t, hash) && |file| < Pow256(8)
    ensures var footer := file[|file| - FOOTER_SIZE..];
            && Value(footer[40..48]) == TABLE_MAGIC
            && DecodeHandle(footer[..16]) == Some((t.filterAt, |t.filter|))
            && DecodeHandle(footer[16..32]) == Some((t.indexAt, |t.index|))
    ensures 0 < |t.filter| && t.filterAt + |t.filter| + 4 <= |file|
    ensures ReadRaw(file, |file|, t.filterAt, |t.filter|) == if |t.filter| <= MAX_BLOCK then Some(t.filter) else None
    ensures ReadRaw(file, |file|, t.indexAt, |t.index|) == if |t.index| <= MAX_BLOCK then Some(t.index) else None
  {
    hide Fixed, Value, Crc, IsBlock, DataOk, ReadRaw, DecodeHandle, Pow256;
    StoredReads(file, t.filterAt, t.filter);
    StoredReads(file, t.indexAt, t.index);
    var a, b := Handle(t.filterAt, |t.filter|), Handle(t.indexAt, |t.index|);
    var footer := Footer(t.filterAt, |t.filter|, t.indexAt, |t.index|);
    assert footer[..16] == a + [] && footer[16..32] == b + [] && footer[40..48] == Fixed(TABLE_MAGIC, 8);
    HandleRoundTrip(t.filterAt, |t.filter|, []);
    HandleRoundTrip(t.indexAt, |t.index|, []);
    MagicFits();
  }

  lemma {:induction false} MagicFits()
    ensures Value(Fixed(TABLE_MAGIC, 8)) == TABLE_MAGIC
  {
    hide Fixed, Value;
    assert Pow256(4) == 0x1_0000_0000;
    assert Pow256(8) > TABLE_MAGIC;
    FixedRoundTrip(TABLE_MAGIC, 8);
  }

  class SSTableReader {
    const file: Bytes
    const fileSize: nat
    const number: nat
    const hash: Bytes -> nat
    const index: Bytes
    const filter: Bytes
    ghost const t: Table

    /** The reader serves table `t`. */
    ghost predicate Ok() {
      IsTable(file, t, hash) && fileSize == |file| && Limits(file, t) && index == t.index && filter == t.filter
    }

    constructor (file: Bytes, fileSize: nat, number: nat, hash: Bytes -> nat, index: Bytes, filter: Bytes,
        ghost t: Table)
      ensures this.file == file && this.fileSize == fileSize && this.number == number && this.hash == hash
      ensures this.index == index && this.filter == filter && this.t == t
    {
      this.file, this.fileSize, this.number, this.hash := file, fileSize, number, hash;
      this.index, this.filter, this.t := index, filter, t;
    }

    /** The block behind an index entry: from the cache, or from the file and then into the cache. */
    method LoadBlock(handle: Bytes, cache: BlockCache?, ghost b: nat, ghost disk: map<CacheKey, Bytes>)
      returns (raw: Option<Bytes>)
      requires Ok() && b < |t.blocks| && handle == IndexEntry(t, b).value
      requires CacheOk(cache, disk) && Registered(t, number, disk)
      modifies Maybe(cache)
      ensures CacheOk(cache, disk) && raw == Some(t.raws[b])
    {
      hide Fixed, Value, Crc, IsBlock, Bloom.IsFilter, ReadRaw, Pow256, Stored, Without, Fitting, DecodeHandle,
           UniqueKeys, Charge;
      BlockLimits(file, t, b);
      HandleRoundTrip(t.offsets[b], |t.raws[b]|, []);
      assert handle + [] == handle;
      var h := DecodeHandle(handle);
      if h.None? { return None; }
      var (offset, size) := h.value;
      raw := None;
      if cache != null { raw := cache.Lookup((number, offset)); }
      if raw.None? {
        raw := ReadRaw(file, fileSize, offset, size);
        if raw.None? { return None; }
        if cache != null {
          FaithfulInsert(cache.lru, disk, (number, offset), size, cache.capacity);
          cache.Insert((number, offset), raw.value, size);
        }
      }
    }

    /** `Get`: filter, index, then one data block. */
    method Get(key: Key, seqno: nat, cache: BlockCache?, ghost disk: map<CacheKey, Bytes>) returns (r: Answer)
      requires Ok() && KeysUp(Concat(t.blocks))
      requires CacheOk(cache, disk) && Registered(t, number, disk)
      modifies Maybe(cache)
      ensures CacheOk(cache, disk)
      ensures r == match Visible(BlockFor(t.blocks, key), key, seqno) case Some(e) => AnswerOf(e) case None => Missing
    {
      hide Less, Fixed, Value, Crc, IsBlock, Bloom.IsFilter, Pow256, Stored, Visible, Concat, KeysUp, LowerBound,
           UniqueKeys, Charge, Blocks.Fits, Body, BlockNumber;
      if filter != [] {
        var may := Bloom.KeyMayMatch(hash, key, filter, KeysOf(Concat(t.blocks)));
        if !may {
          NotInTable(t, key, seqno, hash);
          return Missing;
        }
      }
      IndexUp(t);
      IndexLimits(file, t);
      var indexIter := new Iter(index, IndexEntries(t), t.indexIdx);
      indexIter.Seek(key);
      ghost var b := LowerBound(IndexEntries(t), key);
      IndexIsNumber(t, key);
      InsideIff(IndexEntries(t), b);
      if !indexIter.Valid() {
        NothingVisible(key, seqno);
        return Missing;
      }
      var raw := LoadBlock(indexIter.entry.value, cache, b, disk);
      if raw.None? { return Missing; }
      BlockUp(t.blocks, b);
      BlockLimits(file, t, b);
      r := SearchBlock(raw.value, key, seqno, t.blocks[b], t.idxs[b]);
    }
  }

  /** The scan of one data block: entries of the key, newest first. */
  method SearchBlock(raw: Bytes, key: Key, seqno: nat, ghost es: seq<Entry>, ghost idx: seq<nat>) returns (r: Answer)
    requires IsBlock(raw, es, idx) && Blocks.Fits(raw, es) && KeysUp(es)
    requires forall i :: 0 <= i < |es| ==> es[i].kind == VALUE || es[i].kind == DELETION
    ensures r == match Visible(es, key, seqno) case Some(e) => AnswerOf(e) case None => Missing
  {
    hide Less, IsBlock, Blocks.Fits, Visible, LowerBound, KeysUp, Body;
    var dataIter := new Iter(raw, es, idx);
    dataIter.Seek(key);
    ghost var i: nat := LowerBound(es, key);
    VisibleFrom(es, key, seqno, i);
    InsideIff(es, i);
    while dataIter.Valid() && dataIter.entry.key == key
      invariant dataIter.At(i) && dataIter.es == es && Visible(es, key, seqno) == Visible(es[i..], key, seqno)
      invariant KeysUp(es[i..]) && (dataIter.Valid() <==> i < |es|)
      invariant i < |es| ==> !Less(es[i].key, key)
      decreases |es| - i
    {
      VisibleHead(es[i..], key, seqno);
      if dataIter.entry.seqno <= seqno {
        if dataIter.entry.kind == VALUE { return Found(dataIter.entry.value); }
        if dataIter.entry.kind == DELETION { return Deleted; }
      }
      TailUp(es, i);
      dataIter.Next(i);
      i := i + 1;
      InsideIff(es, i);
    }
    NoneLeft(es[i..], key, seqno);
    return Missing;
  }

  /** A key that the filter rejects is not in the table. */
  lemma {:induction false} NotInTable(t: Table, key: Key, seqno: nat, hash: Bytes -> nat)
    requires Shaped(t) && Bloom.IsFilter(hash, KeysOf(Concat(t.blocks)), t.filter)
    requires !Bloom.Covered(hash, KeysOf(Concat(t.blocks)), 8 * (|t.filter| - 1), t.filter[|t.filter| - 1], key)
    ensures Visible(BlockFor(t.blocks, key), key, seqno).None?
  {
    hide Less, Visible, Concat, BlockNumber, Bloom.Covered;
    var ks := KeysOf(Concat(t.blocks));
    if key in ks { Bloom.NoFalseNegatives(hash, ks, 8 * (|t.filter| - 1), t.filter[|t.filter| - 1], key); }
    var b := BlockNumber(t.blocks, key);
    if b < |t.blocks| {
      forall e | e in t.blocks[b] ensures e.key != key {
        var i :| 0 <= i < |t.blocks[b]| && t.blocks[b][i] == e;
        EntryAt(t.blocks, b, i);
        assert ks[Start(t.blocks, b) + i] == e.key;
      }
    }
  }
}
