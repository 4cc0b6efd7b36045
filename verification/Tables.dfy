/** Table files: data blocks, a filter block, an index block and a footer. */
module Tables {
  import opened Keys
  import opened Entries
  import opened Coding
  import opened Checksums
  import opened BlockSearch
  import opened Blocks
  import Bloom

  const TABLE_MAGIC: nat := 0x5354_5241_5441_3031
  const FOOTER_SIZE: nat := 48

  /** What a table file holds and where: the entries of each data block, its bytes, its restart
      points and its offset; likewise the filter and the index. */
  datatype Table = Table(
    blocks: seq<seq<Entry>>, raws: seq<Bytes>, idxs: seq<seq<nat>>, offsets: seq<nat>,
    filter: Bytes, filterAt: nat, index: Bytes, indexIdx: seq<nat>, indexAt: nat)

  function Handle(offset: nat, size: nat): Bytes { Fixed(offset, 8) + Fixed(size, 8) }

  function KeysOf(es: seq<Entry>): (ks: seq<Key>)
    ensures |ks| == |es| && forall i :: 0 <= i < |es| ==> ks[i] == es[i].key
  {
    seq(|es|, i requires 0 <= i < |es| => es[i].key)
  }

  /** `raw` and its checksum lie at `offset`. */
  ghost predicate Stored(file: Bytes, offset: nat, raw: Bytes) {
    && offset + |raw| + 4 <= |file| && file[offset..offset + |raw|] == raw
    && file[offset + |raw|..offset + |raw| + 4] == Fixed(Crc(raw, 0), 4)
  }

  ghost predicate Shaped(t: Table) {
    && |t.raws| == |t.blocks| && |t.idxs| == |t.blocks| && |t.offsets| == |t.blocks|
    && Parted(t.blocks)
  }

  /** The index entry of a block: its last key, and its handle. */
  ghost function IndexEntry(t: Table, b: nat): Entry
    requires Shaped(t) && b < |t.blocks|
  {
    Entry(t.blocks[b][|t.blocks[b]| - 1].key, 0, VALUE, Handle(t.offsets[b], |t.raws[b]|))
  }

  ghost function IndexEntries(t: Table): (es: seq<Entry>)
    requires Shaped(t)
    ensures |es| == |t.blocks| && forall b :: 0 <= b < |es| ==> es[b] == IndexEntry(t, b)
  {
    seq(|t.blocks|, b requires 0 <= b < |t.blocks| => IndexEntry(t, b))
  }

  function Padding(): Bytes { [0, 0, 0, 0, 0, 0, 0, 0] }

  function Footer(filterAt: nat, filterSize: nat, indexAt: nat, indexSize: nat): (b: Bytes)
    ensures |b| == FOOTER_SIZE
  {
    Handle(filterAt, filterSize) + Handle(indexAt, indexSize) + Padding() + Fixed(TABLE_MAGIC, 8)
  }

  ghost predicate DataOk(file: Bytes, t: Table) {
    Shaped(t) && forall b :: 0 <= b < |t.blocks| ==>
      IsBlock(t.raws[b], t.blocks[b], t.idxs[b]) && Stored(file, t.offsets[b], t.raws[b])
  }

  /** `file` is a finished table. */
  ghost predicate IsTable(file: Bytes, t: Table, hash: Bytes -> nat) {
    && DataOk(file, t)
    && Bloom.IsFilter(hash, KeysOf(Concat(t.blocks)), t.filter) && Stored(file, t.filterAt, t.filter)
    && IsBlock(t.index, IndexEntries(t), t.indexIdx) && Stored(file, t.indexAt, t.index)
    && |file| >= FOOTER_SIZE && file[|file| - FOOTER_SIZE..] == Footer(t.filterAt, |t.filter|, t.indexAt, |t.index|)
  }

  lemma {:induction false} StoredStays(file: Bytes, more: Bytes, offset: nat, raw: Bytes)
    requires Stored(file, offset, raw)
    ensures Stored(file + more, offset, raw)
  {
    hide Fixed, Crc;
    var f := file + more;
    assert f[offset..offset + |raw|] == file[offset..offset + |raw|];
    assert f[offset + |raw|..offset + |raw| + 4] == file[offset + |raw|..offset + |raw| + 4];
  }

  lemma {:induction false} DataStays(file: Bytes, more: Bytes, t: Table)
    requires DataOk(file, t)
    ensures DataOk(file + more, t)
  {
    hide Stored, IsBlock;
    forall b | 0 <= b < |t.blocks| ensures Stored(file + more, t.offsets[b], t.raws[b]) {
      StoredStays(file, more, t.offsets[b], t.raws[b]);
    }
  }

  lemma {:induction false} StoredAtEnd(file: Bytes, raw: Bytes)
    ensures Stored(file + raw + Fixed(Crc(raw, 0), 4), |file|, raw)
  {
    hide Fixed, Crc;
  }

  // ---- How a table comes out ----

  /** The entries of a data block between two restart points, and of the index. */
  const DATA_INTERVAL: nat := 16
  const INDEX_INTERVAL: nat := 1

  /** The blocks that adding `es` has completed, and the entries of the one under construction: a
      block is complete once it reaches the block size. */
  function CutUp(blockSize: nat, es: seq<Entry>): (seq<seq<Entry>>, seq<Entry>) {
    if es == [] then ([], [])
    else
      var (blocks, pending) := CutUp(blockSize, es[..|es| - 1]);
      var block := pending + [es[|es| - 1]];
      if BlockSize(block, DATA_INTERVAL) >= blockSize then (blocks + [block], []) else (blocks, block)
  }

  function WithPending(blocks: seq<seq<Entry>>, pending: seq<Entry>): seq<seq<Entry>> {
    if pending == [] then blocks else blocks + [pending]
  }

  /** The data blocks of the finished table. */
  function CutInto(blockSize: nat, es: seq<Entry>): (blocks: seq<seq<Entry>>)
    ensures IsCut(blocks, es)
  {
    CutUpIs(blockSize, es);
    var (blocks, pending) := CutUp(blockSize, es);
    WithPending(blocks, pending)
  }

  lemma {:induction false} CutUpIs(blockSize: nat, es: seq<Entry>)
    ensures var (blocks, pending) := CutUp(blockSize, es);
            Parted(blocks) && Concat(blocks) + pending == es && IsCut(WithPending(blocks, pending), es)
  {
    hide BlockSize;
    if es != [] {
      CutUpIs(blockSize, es[..|es| - 1]);
    }
  }

  function IndexBody(blocks: seq<seq<Entry>>): nat
    requires Parted(blocks)
  {
    if blocks == [] then 0 else IndexBody(blocks[..|blocks| - 1]) + 33 + |LastKey(blocks[|blocks| - 1])|
  }

  /** The size of the index block: one entry per data block, with its last key and its handle. */
  function IndexSize(blocks: seq<seq<Entry>>): nat
    requires Parted(blocks)
  {
    IndexBody(blocks) + 4 * Restarts(|blocks|, INDEX_INTERVAL).0 + 4
  }

  /** The bytes of the data blocks with their checksums. */
  function DataSize(blocks: seq<seq<Entry>>): nat {
    if blocks == [] then 0
    else DataSize(blocks[..|blocks| - 1]) + BlockSize(blocks[|blocks| - 1], DATA_INTERVAL) + 4
  }

  /** What the builder has written after adding `es`: the complete blocks. */
  function FlushedSize(blockSize: nat, es: seq<Entry>): nat {
    DataSize(CutUp(blockSize, es).0)
  }

  /** The size of the finished file: data blocks, filter and index with their checksums, footer. */
  function TableSize(blockSize: nat, bitsPerKey: nat, es: seq<Entry>): nat {
    var blocks := CutInto(blockSize, es);
    DataSize(blocks) + (Bloom.FilterBytes(|es|, bitsPerKey) + 1) + 4 + IndexSize(blocks) + 4 + FOOTER_SIZE
  }

  /** The sizes of a table's parts. */
  ghost predicate SizesOk(t: Table) {
    && Parted(t.blocks) && |t.raws| == |t.blocks|
    && forall b :: 0 <= b < |t.raws| ==> |t.raws[b]| == BlockSize(t.blocks[b], DATA_INTERVAL)
  }

  /** The table that the builder makes of `es`, down to the sizes of its parts. */
  ghost predicate BuiltFrom(file: Bytes, t: Table, blockSize: nat, bitsPerKey: nat, es: seq<Entry>) {
    && t.blocks == CutInto(blockSize, es) && SizesOk(t)
    && |t.index| == IndexSize(t.blocks)
    && |t.filter| == Bloom.FilterBytes(|es|, bitsPerKey) + 1
    && |file| == TableSize(blockSize, bitsPerKey, es)
  }

  lemma {:induction false} IndexSizes(t: Table)
    requires Shaped(t)
    ensures BlockSize(IndexEntries(t), INDEX_INTERVAL) == IndexSize(t.blocks)
  {
    hide Handle, EntryBytes, Body, Restarts;
    IndexBodySize(t, |t.blocks|);
    assert IndexEntries(t)[..|t.blocks|] == IndexEntries(t) && t.blocks[..|t.blocks|] == t.blocks;
  }

  lemma {:induction false} IndexBodySize(t: Table, n: nat)
    requires Shaped(t) && n <= |t.blocks|
    ensures |Body(IndexEntries(t)[..n])| == IndexBody(t.blocks[..n])
  {
    hide EntryBytes, Handle, Body;
    var es, bs := IndexEntries(t)[..n], t.blocks[..n];
    if n == 0 {
      BodyEmpty([]);
    } else {
      IndexBodySize(t, n - 1);
      var e := IndexEntry(t, n - 1);
      assert es == IndexEntries(t)[..n - 1] + [e] && bs[..n - 1] == t.blocks[..n - 1];
      BodyConcat(IndexEntries(t)[..n - 1], [e]);
      BodyOne(e);
      EntrySize(e);
      HandleSize(t.offsets[n - 1], |t.raws[n - 1]|);
    }
  }

  lemma {:induction false} HandleSize(offset: nat, size: nat)
    ensures |Handle(offset, size)| == 16
  {
    hide Fixed;
  }

  // ---- Building ----

  class SSTableBuilder {
    const hash: Bytes -> nat
    const blockSize: nat
    const bitsPerKey: nat
    const dataBlock: BlockBuilder
    const indexBlock: BlockBuilder
    var file: Bytes
    var numEntries: nat
    var keysForFilter: seq<Key>
    var lastKeyInBlock: Key
    var smallest: Key
    var largest: Key
    ghost var t: Table

    /** The entries added so far. */
    ghost function Added(): seq<Entry>
      reads this, dataBlock
    {
      Concat(t.blocks) + dataBlock.es
    }

    ghost predicate Ok()
      reads this, dataBlock, indexBlock
    {
      && dataBlock != indexBlock && dataBlock.Open() && indexBlock.Open()
      && dataBlock.interval == DATA_INTERVAL && indexBlock.interval == INDEX_INTERVAL
      && DataOk(file, t) && indexBlock.es == IndexEntries(t)
      && SizesOk(t) && |file| == DataSize(t.blocks)
      && (dataBlock.es != [] ==> lastKeyInBlock == dataBlock.es[|dataBlock.es| - 1].key)
      && Counts(Added(), keysForFilter, numEntries, smallest, largest)
    }

    /** The blocks are complete exactly as `CutUp` says. */
    ghost predicate Cuts()
      reads this, dataBlock
    {
      (t.blocks, dataBlock.es) == CutUp(blockSize, Added())
    }

    /** `FileSize`: while building, the complete blocks. */
    function FileSize(): (n: nat)
      reads this, dataBlock, indexBlock
      ensures n == |file|
      ensures Ok() && Cuts() ==> n == FlushedSize(blockSize, Added())
    {
      hide DataOk, Counts, IndexEntries, SizesOk, DataSize, CutUp, Concat, Restarts, Points, Spaced, Body;
      |file|
    }

    constructor (hash: Bytes -> nat, blockSize: nat, bitsPerKey: nat)
      ensures Ok() && Cuts() && fresh(dataBlock) && fresh(indexBlock) && Added() == []
      ensures this.hash == hash && this.blockSize == blockSize && this.bitsPerKey == bitsPerKey
    {
      hide Bloom.IsFilter;
      this.hash, this.blockSize, this.bitsPerKey := hash, blockSize, bitsPerKey;
      dataBlock := new BlockBuilder(DATA_INTERVAL);
      indexBlock := new BlockBuilder(INDEX_INTERVAL);
      file, numEntries, keysForFilter := [], 0, [];
      lastKeyInBlock, smallest, largest := [], [], [];
      t := Table([], [], [], [], [], 0, [], [], 0);
    }

    /** Appends a block and its checksum. */
    method WriteRawBlock(raw: Bytes) returns (offset: nat, size: nat)
      modifies this`file
      ensures offset == |old(file)| && size == |raw|
      ensures file == old(file) + raw + Fixed(Crc(raw, 0), 4)
      ensures Stored(file, offset, raw)
    {
      hide Fixed, Crc, Stored;
      StoredAtEnd(file, raw);
      offset, size := |file|, |raw|;
      file := file + raw;
      var crc := Crc32(raw, 0);
      file := file + Fixed(crc, 4);
    }

    /** Writes the data block under construction, if there is one. */
    method FlushBlock()
      requires Ok()
      modifies this, dataBlock, indexBlock
      ensures Ok() && Added() == old(Added()) && dataBlock.es == []
      ensures t.blocks == WithPending(old(t.blocks), old(dataBlock.es))
    {
      hide Fixed, Crc, Stored, IsBlock, Body, Points, Counts, DataOk, Concat, WithBlock, Handle, SizesOk, DataSize,
           Restarts, BlockSize;
      BodyEmpty(dataBlock.es);
      if dataBlock.Empty() { return; }
      ghost var es, idx, t0, file0 := dataBlock.es, dataBlock.idx, t, file;
      var raw := dataBlock.Finish();
      var offset, size := WriteRawBlock(raw);
      BlockAdded(file0, t0, es, raw, idx, file);
      t := WithBlock(t, es, raw, idx, offset);
      indexBlock.Add(Entry(lastKeyInBlock, 0, VALUE, Handle(offset, size)));
      dataBlock.Reset();
      assert Added() == old(Added());
    }

    method Add(e: Entry)
      requires Ok() && Cuts()
      modifies this, dataBlock, indexBlock
      ensures Ok() && Cuts() && Added() == old(Added()) + [e]
      ensures dataBlock.es == [] || dataBlock.CurrentSizeEstimate() < blockSize
    {
      hide Ok, BlockSize, CutUp, Restarts, Concat;
      CutUpNext(blockSize, Added(), e);
      ghost var added := Added();
      AddToBlock(e);
      var estimate := BlockEstimate();
      if estimate >= blockSize { FlushBlock(); }
      assert Added() == added + [e];
    }

    /** The entry goes to the block under construction. */
    method AddToBlock(e: Entry)
      requires Ok()
      modifies this, dataBlock
      ensures Ok() && Added() == old(Added()) + [e]
      ensures t == old(t) && dataBlock.es == old(dataBlock.es) + [e]
    {
      hide Fixed, Crc, Stored, IsBlock, Body, DataOk, Points, Counts, Concat, IndexEntries, SizesOk, DataSize, Restarts,
           BlockSize;
      CountsAdd(Added(), keysForFilter, numEntries, smallest, largest, e);
      if numEntries == 0 { smallest := e.key; }
      largest := e.key;
      keysForFilter := keysForFilter + [e.key];
      lastKeyInBlock := e.key;
      dataBlock.Add(e);
      assert Added() == old(Added()) + [e];
      numEntries := numEntries + 1;
    }

    method BlockEstimate() returns (n: nat)
      requires Ok()
      ensures n == dataBlock.CurrentSizeEstimate() == BlockSize(dataBlock.es, DATA_INTERVAL)
    {
      hide DataOk, Counts, IndexEntries, SizesOk, DataSize, Concat, Restarts, Points, Spaced, Body, BlockSize;
      n := dataBlock.CurrentSizeEstimate();
    }

    /** The last data block, the filter, the index and the footer. */
    method Finish() returns (ghost table: Table)
      requires Ok() && Cuts()
      modifies this, dataBlock, indexBlock
      ensures IsTable(file, table, hash) && Concat(table.blocks) == old(Added())
      ensures BuiltFrom(file, table, blockSize, bitsPerKey, old(Added()))
      ensures FileSize() == TableSize(blockSize, bitsPerKey, old(Added()))
      ensures Counts(old(Added()), keysForFilter, numEntries, smallest, largest)
    {
      hide Fixed, Crc, Stored, IsBlock, Body, Bloom.IsFilter, DataOk, Points, SizesOk, DataSize, Restarts, CutUp,
           IndexSize, BlockSize, Bloom.FilterBytes;
      FlushBlock();
      assert Concat(t.blocks) + [] == Concat(t.blocks);
      ghost var t0, file0 := t, file;
      var filter := Bloom.CreateFilter(hash, keysForFilter, bitsPerKey);
      var filterAt, filterSize := WriteRawBlock(filter);
      ghost var file1 := file;
      var index := indexBlock.Finish();
      var indexAt, indexSize := WriteRawBlock(index);
      ghost var file2 := file;
      var footer := Footer(filterAt, filterSize, indexAt, indexSize);
      file := file + footer;
      table := t.(filter := filter, filterAt := filterAt, index := index, indexIdx := indexBlock.idx,
                  indexAt := indexAt);
      t := table;
      Finished(file0, file1, file2, footer, t0, table);
      SameSizes(t0, table);
      IndexSizes(table);
    }
  }

  lemma {:induction false} CutUpNext(blockSize: nat, es: seq<Entry>, e: Entry)
    ensures var (blocks, pending) := CutUp(blockSize, es);
            CutUp(blockSize, es + [e]) ==
            if BlockSize(pending + [e], DATA_INTERVAL) >= blockSize then (blocks + [pending + [e]], [])
            else (blocks, pending + [e])
  {
    hide BlockSize;
    assert (es + [e])[..|es|] == es;
  }

  lemma {:induction false} SameSizes(t: Table, t': Table)
    requires SizesOk(t) && t'.blocks == t.blocks && t'.raws == t.raws
    ensures SizesOk(t')
  {
    hide BlockSize;
  }

  /** What the builder records about the entries it was given. */
  ghost predicate Counts(added: seq<Entry>, keys: seq<Key>, n: nat, smallest: Key, largest: Key) {
    && keys == KeysOf(added) && n == |added|
    && (added != [] ==> smallest == added[0].key && largest == added[|added| - 1].key)
  }

  lemma {:induction false} CountsAdd(added: seq<Entry>, keys: seq<Key>, n: nat, smallest: Key, largest: Key, e: Entry)
    requires Counts(added, keys, n, smallest, largest)
    ensures Counts(added + [e], keys + [e.key], n + 1, if n == 0 then e.key else smallest, e.key)
  {
  }

  /** One more data block at the end of the file. */
  function WithBlock(t: Table, es: seq<Entry>, raw: Bytes, idx: seq<nat>, offset: nat): Table {
    t.(blocks := t.blocks + [es], raws := t.raws + [raw], idxs := t.idxs + [idx], offsets := t.offsets + [offset])
  }

  lemma {:induction false} BlockAdded(file: Bytes, t: Table, es: seq<Entry>, raw: Bytes, idx: seq<nat>, file': Bytes)
    requires DataOk(file, t) && es != [] && IsBlock(raw, es, idx)
    requires SizesOk(t) && |file| == DataSize(t.blocks) && |raw| == BlockSize(es, DATA_INTERVAL)
    requires file' == file + raw + Fixed(Crc(raw, 0), 4) && Stored(file', |file|, raw)
    ensures var t' := WithBlock(t, es, raw, idx, |file|);
            && DataOk(file', t') && Concat(t'.blocks) == Concat(t.blocks) + es && t'.blocks == t.blocks + [es]
            && SizesOk(t') && |file'| == DataSize(t'.blocks)
            && IndexEntries(t') == IndexEntries(t) + [Entry(es[|es| - 1].key, 0, VALUE, Handle(|file|, |raw|))]
  {
    hide Fixed, Crc, Stored, IsBlock, Handle, BlockSize;
    var t' := WithBlock(t, es, raw, idx, |file|);
    DataStays(file, raw + Fixed(Crc(raw, 0), 4), t);
    assert file' == file + (raw + Fixed(Crc(raw, 0), 4));
    assert t'.blocks[..|t.blocks|] == t.blocks;
    IndexGrows(t, t');
  }

  lemma {:induction false} IndexGrows(t: Table, t': Table)
    requires Shaped(t) && Shaped(t') && |t'.blocks| == |t.blocks| + 1
    requires t.blocks <= t'.blocks && t.raws <= t'.raws && t.offsets <= t'.offsets
    ensures IndexEntries(t') == IndexEntries(t) + [IndexEntry(t', |t.blocks|)]
  {
    hide Fixed;
  }

  lemma {:induction false} Finished(file0: Bytes, file1: Bytes, file2: Bytes, footer: Bytes, t: Table, t': Table)
    requires DataOk(file0, t) && t'.blocks == t.blocks && t'.raws == t.raws && t'.idxs == t.idxs
             && t'.offsets == t.offsets
    requires file1 == file0 + t'.filter + Fixed(Crc(t'.filter, 0), 4) && Stored(file1, t'.filterAt, t'.filter)
    requires file2 == file1 + t'.index + Fixed(Crc(t'.index, 0), 4) && Stored(file2, t'.indexAt, t'.index)
    requires |footer| == FOOTER_SIZE
    ensures DataOk(file2 + footer, t') && Shaped(t') && IndexEntries(t') == IndexEntries(t)
    ensures Stored(file2 + footer, t'.filterAt, t'.filter) && Stored(file2 + footer, t'.indexAt, t'.index)
    ensures (file2 + footer)[|file2 + footer| - FOOTER_SIZE..] == footer
  {
    hide Fixed, Crc, Stored, IsBlock;
    var a, b := t'.filter + Fixed(Crc(t'.filter, 0), 4), t'.index + Fixed(Crc(t'.index, 0), 4);
    assert file1 == file0 + a && file2 == file1 + b;
    assert DataOk(file0, t');
    DataStays(file0, a, t');
    DataStays(file1, b, t');
    DataStays(file2, footer, t');
    StoredStays(file1, b, t'.filterAt, t'.filter);
    StoredStays(file2, footer, t'.filterAt, t'.filter);
    StoredStays(file2, footer, t'.indexAt, t'.index);
    assert forall i :: 0 <= i < |t.blocks| ==> IndexEntry(t', i) == IndexEntry(t, i);
  }

  // ---- Layout and sizes ----

  /** The footer: four numbers of eight bytes, eight zero bytes, and the characters "10ATARTS". */
  lemma {:induction false} FooterLayout(filterAt: nat, filterSize: nat, indexAt: nat, indexSize: nat)
    ensures var f := Footer(filterAt, filterSize, indexAt, indexSize);
            && |f| == 48
            && f[..8] == Fixed(filterAt, 8) && f[8..16] == Fixed(filterSize, 8)
            && f[16..24] == Fixed(indexAt, 8) && f[24..32] == Fixed(indexSize, 8)
            && f[32..40] == [0, 0, 0, 0, 0, 0, 0, 0]
            && f[40..] == [0x31, 0x30, 0x41, 0x54, 0x41, 0x52, 0x54, 0x53]
  {
    hide Fixed;
    MagicBytes();
  }

  lemma {:induction false} MagicBytes()
    ensures Fixed(TABLE_MAGIC, 8) == [0x31, 0x30, 0x41, 0x54, 0x41, 0x52, 0x54, 0x53]
  {
    assert Fixed(0x53, 1) == [0x53] by { assert Fixed(0, 0) == []; }
    assert Fixed(0x5354, 2) == [0x54, 0x53];
    assert Fixed(0x53_5452, 3) == [0x52, 0x54, 0x53];
    assert Fixed(0x5354_5241, 4) == [0x41, 0x52, 0x54, 0x53];
    assert Fixed(0x53_5452_4154, 5) == [0x54, 0x41, 0x52, 0x54, 0x53];
    assert Fixed(0x5354_5241_5441, 6) == [0x41, 0x54, 0x41, 0x52, 0x54, 0x53];
    assert Fixed(0x53_5452_4154_4130, 7) == [0x30, 0x41, 0x54, 0x41, 0x52, 0x54, 0x53];
  }

  /** The bytes of entries: 17 for each, its key and its value. */
  function EntrySizes(es: seq<Entry>): nat {
    if es == [] then 0 else 17 + |es[0].key| + |es[0].value| + EntrySizes(es[1..])
  }

  lemma {:induction false} BodySize(es: seq<Entry>)
    ensures |Body(es)| == EntrySizes(es)
  {
    hide EntryBytes;
    if es != [] {
      EntrySize(es[0]);
      BodySize(es[1..]);
    }
  }

  lemma {:induction false} RestartsAre(n: nat, interval: nat)
    requires interval > 0
    ensures var (points, counter) := Restarts(n, interval);
            && points >= 1 && (n == 0 ==> points == 1 && counter == 0)
            && (n > 0 ==> 1 <= counter <= interval && n == (points - 1) * interval + counter)
  {
    if n > 0 {
      RestartsAre(n - 1, interval);
      var (points, counter) := Restarts(n - 1, interval);
      assert (points + 1 - 1) * interval == (points - 1) * interval + interval;
    }
  }

  /** The size of a data block: its entries, four bytes for every 16 of them or part of 16, and four. */
  lemma {:induction false} DataBlockSize(es: seq<Entry>)
    requires es != []
    ensures BlockSize(es, DATA_INTERVAL) == EntrySizes(es) + 4 * ((|es| + 15) / 16) + 4
  {
    hide Body, Restarts;
    BodySize(es);
    RestartsAre(|es|, DATA_INTERVAL);
  }

  /** The size of the index: for each block 33 bytes and its last key, four bytes each, and four. */
  lemma {:induction false} IndexBlockSize(blocks: seq<seq<Entry>>)
    requires blocks != [] && Parted(blocks)
    ensures IndexSize(blocks) == IndexBody(blocks) + 4 * |blocks| + 4
  {
    hide Restarts, IndexBody;
    RestartsAre(|blocks|, INDEX_INTERVAL);
  }

  // ---- Where blocks end ----

  /** A block that is still under construction has not reached the block size. */
  ghost predicate Growing(blockSize: nat, block: seq<Entry>) {
    forall n :: 0 < n <= |block| ==> BlockSize(block[..n], DATA_INTERVAL) < blockSize
  }

  /** A complete block reaches the block size with its last entry and not before. */
  ghost predicate JustFull(blockSize: nat, block: seq<Entry>) {
    && block != [] && BlockSize(block, DATA_INTERVAL) >= blockSize
    && forall n :: 0 < n < |block| ==> BlockSize(block[..n], DATA_INTERVAL) < blockSize
  }

  lemma {:induction false} CutUpFull(blockSize: nat, es: seq<Entry>)
    ensures var (blocks, pending) := CutUp(blockSize, es);
            Growing(blockSize, pending) && forall b :: 0 <= b < |blocks| ==> JustFull(blockSize, blocks[b])
  {
    hide BlockSize;
    if es != [] {
      CutUpFull(blockSize, es[..|es| - 1]);
      var (blocks, pending) := CutUp(blockSize, es[..|es| - 1]);
      var block := pending + [es[|es| - 1]];
      assert forall n :: 0 < n <= |pending| ==> block[..n] == pending[..n];
      assert block[..|block|] == block;
    }
  }

  /** Every block but the last is full, and no block was full before its last entry. */
  lemma {:induction false} BlocksEnd(blockSize: nat, es: seq<Entry>)
    ensures var blocks := CutInto(blockSize, es);
            && (forall b :: 0 <= b < |blocks| - 1 ==> BlockSize(blocks[b], DATA_INTERVAL) >= blockSize)
            && forall b, n :: 0 <= b < |blocks| && 0 < n < |blocks[b]| ==>
                 BlockSize(blocks[b][..n], DATA_INTERVAL) < blockSize
  {
    hide BlockSize, CutUp, Concat;
    CutUpFull(blockSize, es);
  }
}
