/** Which tables the reader accepts, said of the entries they are built from, and tables it refuses or
    reads wrongly. */
module TableLimits {
  import opened Keys
  import opened Entries
  import opened Records
  import opened Coding
  import opened BlockSearch
  import opened Blocks
  import opened Tables
  import opened Caches
  import opened TableReaders
  import opened TwoLevelIterators
  import Bloom

  /** Every block, the index and the filter of the table of `es` are at most 64 MB, and the file can be
      addressed. */
  predicate TableFits(blockSize: nat, bitsPerKey: nat, es: seq<Entry>) {
    var blocks, filter := CutInto(blockSize, es), Bloom.FilterBytes(|es|, bitsPerKey) + 1;
    && (forall b :: 0 <= b < |blocks| ==> BlockSize(blocks[b], DATA_INTERVAL) <= MAX_BLOCK)
    && IndexSize(blocks) <= MAX_BLOCK && filter <= MAX_BLOCK
    && DataSize(blocks) + filter + IndexSize(blocks) + 8 + FOOTER_SIZE < SEQNO_END
  }

  /** As the engine writes them. */
  predicate EngineEntries(es: seq<Entry>) {
    forall e :: e in es ==> e.seqno < SEQNO_END && (e.kind == VALUE || e.kind == DELETION)
  }

  /** The built table is one that the reader serves exactly when it fits. */
  lemma {:induction false} FitsIff(file: Bytes, t: Table, blockSize: nat, bitsPerKey: nat, es: seq<Entry>)
    requires BuiltFrom(file, t, blockSize, bitsPerKey, es) && EngineEntries(es)
    ensures Limits(file, t) <==> TableFits(blockSize, bitsPerKey, es)
  {
    hide Pow256, BlockSize, DataSize, IndexSize, Bloom.FilterBytes, CutUp, Concat;
    Widths();
    forall b, i | 0 <= b < |t.blocks| && 0 <= i < |t.blocks[b]| ensures t.blocks[b][i] in es {
      EntryAt(t.blocks, b, i);
    }
  }

  /** A block exceeds the block size by less than its last entry and two restart words. */
  lemma {:induction false} BlocksBounded(blockSize: nat, es: seq<Entry>, b: nat)
    requires b < |CutInto(blockSize, es)|
    ensures var block := CutInto(blockSize, es)[b];
            && block != []
            && BlockSize(block, DATA_INTERVAL) < blockSize + RecordSize(block[|block| - 1]) + 13
  {
    hide BlockSize, CutUp, Concat;
    CutUpIs(blockSize, es);
    PendingSmall(blockSize, es);
    if b < |CutUp(blockSize, es).0| { CompleteBounded(blockSize, es, b); }
  }

  lemma {:induction false} CompleteBounded(blockSize: nat, es: seq<Entry>, b: nat)
    requires b < |CutUp(blockSize, es).0|
    ensures var block := CutUp(blockSize, es).0[b];
            && block != []
            && BlockSize(block, DATA_INTERVAL) < blockSize + RecordSize(block[|block| - 1]) + 13
  {
    hide BlockSize, RecordSize;
    var prev, last := es[..|es| - 1], es[|es| - 1];
    var (blocks, pending) := CutUp(blockSize, prev);
    if b < |blocks| {
      CompleteBounded(blockSize, prev, b);
    } else {
      PendingSmall(blockSize, prev);
      AddSize(pending, last);
    }
  }

  lemma {:induction false} PendingSmall(blockSize: nat, es: seq<Entry>)
    ensures var pending := CutUp(blockSize, es).1;
            pending == [] || BlockSize(pending, DATA_INTERVAL) < blockSize
  {
    hide BlockSize;
  }

  lemma {:induction false} AddSize(es: seq<Entry>, e: Entry)
    ensures BlockSize(es + [e], DATA_INTERVAL) <= BlockSize(es, DATA_INTERVAL) + RecordSize(e) + 4
    ensures BlockSize([], DATA_INTERVAL) == 8
  {
    hide EntryBytes;
    BodyConcat(es, [e]);
    BodyOne(e);
    EntrySize(e);
  }

  /** A put can fit the log and not the table: the restart words of a block count against the same
      64 MB. */
  lemma {:induction false} LogButNoTable(blockSize: nat, bitsPerKey: nat, e: Entry)
    requires e.seqno < SEQNO_END && MAX_RECORD - 8 < RecordSize(e) <= MAX_RECORD
    ensures Readable(e) && !TableFits(blockSize, bitsPerKey, [e])
  {
    hide IndexSize, DataSize, Bloom.FilterBytes, EntryBytes, Body;
    OneBlockSize(blockSize, e);
    BodyOne(e);
    EntrySize(e);
    assert BlockSize(CutInto(blockSize, [e])[0], DATA_INTERVAL) == RecordSize(e) + 8;
  }

  lemma {:induction false} OneBlockSize(blockSize: nat, e: Entry)
    ensures CutInto(blockSize, [e]) == [[e]] && Restarts(1, DATA_INTERVAL).0 == 1
  {
    hide BlockSize;
    CutUpNext(blockSize, [], e);
    assert [] + [e] == [e];
    assert Restarts(0, DATA_INTERVAL) == (1, 0);
  }

  // ---- Failing inputs ----

  /** A table whose filter passes 64 MB is written and then cannot be opened. */
  method FilterTooLarge(hash: Bytes -> nat) returns (accepted: bool)
    ensures !accepted
  {
    hide IsTable, BlockSize, Pow256, Bloom.IsFilter;
    var e := Entry([7], 1, VALUE, [1]);
    var file, t := WriteTable(hash, 4096, 8 * MAX_BLOCK, [e]);
    SmallFile(file, t, e);
    var r := Open(file, |file|, 1, hash, t);
    accepted := r != null;
  }

  lemma {:induction false} SmallFile(file: Bytes, t: Table, e: Entry)
    requires BuiltFrom(file, t, 4096, 8 * MAX_BLOCK, [e]) && RecordSize(e) < 4096
    ensures |t.filter| == MAX_BLOCK + 1 && |file| < Pow256(8)
  {
    hide Pow256, EntryBytes, Body;
    Widths();
    OneBlockSize(4096, e);
    BodyOne(e);
    EntrySize(e);
    assert t.blocks == [[e]] && [[e]][..0] == [];
    assert DataSize([[e]]) == BlockSize([e], DATA_INTERVAL) + 4;
    assert IndexBody([[e]]) == 33 + |e.key|;
    assert Restarts(1, INDEX_INTERVAL).0 == 1;
  }

  const NEWER: Entry := Entry([7], 2, VALUE, [2])
  const OLDER: Entry := Entry([7], 1, VALUE, [1])

  /** With blocks of one entry, two versions of a key lie in two blocks. */
  lemma {:induction false} CutInTwo()
    ensures CutInto(1, [NEWER, OLDER]) == [[NEWER], [OLDER]]
  {
    hide Body;
    CutUpNext(1, [], NEWER);
    CutUpNext(1, [NEWER], OLDER);
    assert [] + [NEWER] == [NEWER] && [] + [OLDER] == [OLDER] && [NEWER] + [OLDER] == [NEWER, OLDER];
  }

  /** At the older version's number the entries hold a visible version, and the block that is searched
      holds none. */
  lemma {:induction false} CutOffExample()
    ensures Sorted([NEWER, OLDER]) && Visible([NEWER, OLDER], [7], 1) == Some(OLDER)
    ensures Visible(BlockFor(CutInto(1, [NEWER, OLDER]), [7]), [7], 1) == None
  {
    CutInTwo();
    hide CutInto;
    assert BlockNumber([[NEWER], [OLDER]], [7]) == 0;
    assert Visible([NEWER, OLDER][1..], [7], 1) == Some(OLDER);
    assert Visible([NEWER][1..], [7], 1) == None;
  }

  /** So the reader of the table that the builder writes misses it. */
  method CutOffTable(hash: Bytes -> nat) returns (r: Answer)
    ensures r == Missing && Visible([NEWER, OLDER], [7], 1) == Some(OLDER)
  {
    hide IsTable, BlockSize, Pow256, Visible, BlockNumber, CutInto, Limits, Registered, Sorted, KeysUp, TableFits;
    var file, t := WriteTable(hash, 1, 10, [NEWER, OLDER]);
    CutOffExample();
    TwoFit(file, t);
    SortedUp([NEWER, OLDER]);
    var reader := Open(file, |file|, 1, hash, t);
    ghost var disk := OnlyTable(file, t, hash);
    r := reader.Get([7], 1, null, disk);
  }

  /** What a cache may hold of this table. */
  lemma {:induction false} OnlyTable(file: Bytes, t: Table, hash: Bytes -> nat) returns (disk: map<CacheKey, Bytes>)
    requires IsTable(file, t, hash) && BuiltFrom(file, t, 1, 10, [NEWER, OLDER])
    ensures Registered(t, 1, disk)
  {
    hide CutInto, BlockSize, IsBlock, Bloom.IsFilter, IndexSize, DataSize, Bloom.FilterBytes;
    CutInTwo();
    SmallSizes();
    assert Stored(file, t.offsets[0], t.raws[0]) && Stored(file, t.offsets[1], t.raws[1]);
    disk := map[(1, t.offsets[0]) := t.raws[0], (1, t.offsets[1]) := t.raws[1]];
  }

  lemma {:induction false} TwoFit(file: Bytes, t: Table)
    requires BuiltFrom(file, t, 1, 10, [NEWER, OLDER])
    ensures Limits(file, t)
  {
    hide CutInto, Limits, BuiltFrom, BlockSize;
    FitsIff(file, t, 1, 10, [NEWER, OLDER]);
    CutInTwo();
    SmallSizes();
  }

  lemma {:induction false} SmallSizes()
    ensures BlockSize([NEWER], DATA_INTERVAL) == BlockSize([OLDER], DATA_INTERVAL) == 27
    ensures IndexSize([[NEWER], [OLDER]]) == 80 && DataSize([[NEWER], [OLDER]]) == 62
  {
    hide EntryBytes, Body;
    BodyOne(NEWER);
    BodyOne(OLDER);
    EntrySize(NEWER);
    EntrySize(OLDER);
    assert Restarts(1, DATA_INTERVAL).0 == 1 && Restarts(2, INDEX_INTERVAL).0 == 2;
    assert [[NEWER], [OLDER]][..1] == [[NEWER]];
    assert DataSize([[NEWER]]) == BlockSize([NEWER], DATA_INTERVAL) + 4;
    assert IndexBody([[NEWER]]) == 34;
  }
}
