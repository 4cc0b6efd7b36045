/** The engine's manifest and tables as files.  The readers' limits are those of the code. */
module EngineFiles {
  import opened Keys
  import opened Entries
  import opened Records
  import opened Recency
  import opened BlockSearch
  import opened Versions
  import opened Edits
  import opened Compactions
  import opened Manifest
  import opened Engine
  import EngineInvariant
  import opened EngineTheorems
  import opened EngineSnapshots
  import opened EngineReads
  import opened EngineLimits
  import opened EditCodec
  import opened Wal
  import opened ManifestLog
  import opened Blocks
  import opened Tables
  import opened TableReaders
  import opened TableLimits

  // ---- The manifest ----

  /** An edit passes only if the record it is written as is small enough to be read. */
  ghost predicate ManifestLimit(opts: Options) {
    forall e :: opts.editFits(e) ==> 17 + |MANIFEST_ENTRY| + EditSize(e) <= MAX_RECORD
  }

  /** `bytes` is the edit as `AppendEdit` writes it. */
  ghost predicate WrittenAs(bytes: Bytes, e: Edit) {
    Encodes(bytes, e) && |bytes| == EditSize(e)
  }

  /** The records that hold these edits, as the manifest has them. */
  ghost predicate ManifestHolds(rs: seq<Entry>, edits: seq<Edit>) {
    && |rs| == |edits|
    && forall i :: 0 <= i < |rs| ==> rs[i] == RecordOf(rs[i].value) && WrittenAs(rs[i].value, edits[i])
  }

  /** Such are the records of a manifest to which these edits were logged. */
  method WriteManifest(edits: seq<Edit>) returns (file: Bytes, ghost rs: seq<Entry>)
    requires forall e :: e in edits ==> EditFits(e)
    ensures file == Frames(rs) && ManifestHolds(rs, EraseEdits(edits))
  {
    hide Frame, Encodes, EditFits, EditSize, EraseEdit, RecordOf;
    var writer := new WalWriter([]);
    rs := [];
    for i := 0 to |edits|
      invariant writer.file == Frames(rs) && |rs| == i && fresh(writer)
      invariant forall j :: 0 <= j < i ==> rs[j] == RecordOf(rs[j].value) && WrittenAs(rs[j].value, EraseEdit(edits[j]))
    {
      assert edits[i] in edits;
      ErasedSize(edits[i]);
      ghost var record := ManifestLog.AppendEdit(writer, edits[i]);
      FramesConcat(rs, record);
      rs := rs + [record];
    }
    file := writer.file;
  }

  function EraseEdits(edits: seq<Edit>): (r: seq<Edit>)
    ensures |r| == |edits| && forall i :: 0 <= i < |edits| ==> r[i] == EraseEdit(edits[i])
  {
    seq(|edits|, i requires 0 <= i < |edits| => EraseEdit(edits[i]))
  }

  lemma {:induction false} FramesConcat(es: seq<Entry>, e: Entry)
    ensures Frames(es + [e]) == Frames(es) + Frame(e)
  {
    hide Frame;
    if es == [] {
      assert [e][1..] == [] && Frames([]) == [];
    } else {
      FramesConcat(es[1..], e);
      assert (es + [e])[1..] == es[1..] + [e];
    }
  }

  lemma {:induction false} HoldsThem(rs: seq<Entry>, edits: seq<Edit>)
    requires ManifestHolds(rs, edits)
    ensures ManifestLog.Holds(rs, edits)
  {
    hide Encodes, RecordOf, EditSize;
  }

  lemma {:induction false} RecordsReadable(opts: Options, rs: seq<Entry>, edits: seq<Edit>)
    requires ManifestLimit(opts) && ManifestHolds(rs, edits) && forall e :: e in edits ==> opts.editFits(e)
    ensures AllReadable(rs)
  {
    hide Encodes, EditSize;
    forall i | 0 <= i < |rs| ensures Readable(rs[i]) { assert edits[i] in edits; }
  }

  /** In every reachable state the manifest reads back whole, so replay sees the engine's records. */
  lemma {:induction false} ManifestReads(opts: Options, run: seq<State>, steps: seq<Step>, i: nat, rs: seq<Entry>)
    requires IsRun(opts, run, steps) && i < |run| && (forall e :: e in run[0].disk.records ==> opts.editFits(e))
    requires ManifestLimit(opts) && ManifestHolds(rs, run[i].disk.records)
    ensures ReadAll(Frames(rs)) == (rs, NotFound) && ManifestLog.Holds(rs, run[i].disk.records)
  {
    hide IsRun, Frames, ReadAll, AllReadable, ManifestLimit, ManifestHolds, VersionFits, AddedFit, Reloaded;
    RunWithin(opts, run, steps, i);
    RecordsReadable(opts, rs, run[i].disk.records);
    HoldsThem(rs, run[i].disk.records);
    WholeLog(rs);
  }

  /** Wherever the append of an edit was interrupted, the manifest holds the records before the step
      that logs it, or those after it. */
  lemma {:induction false} ManifestTorn(opts: Options, run: seq<State>, steps: seq<Step>, i: nat, rs: seq<Entry>,
      bytes: Bytes, n: nat)
    requires IsRun(opts, run, steps) && i < |run| && run[i].pc.Committing? && Enabled(opts, run[i], AppendEdit)
    requires (forall e :: e in run[0].disk.records ==> opts.editFits(e)) && ManifestLimit(opts)
    requires ManifestHolds(rs, run[i].disk.records) && WrittenAs(bytes, EraseEdit(run[i].pc.edit))
    requires |Frames(rs)| <= n <= |Frames(rs + [RecordOf(bytes)])|
    ensures var (back, end) := ReadAll(Frames(rs + [RecordOf(bytes)])[..n]);
            && end == NotFound
            && ManifestLog.Holds(
                 back,
                 if n == |Frames(rs + [RecordOf(bytes)])| then Do(opts, run[i], AppendEdit).disk.records
                 else run[i].disk.records)
  {
    hide IsRun, Enabled, Do, Frames, ReadAll, ManifestLimit, ManifestHolds, VersionFits, AddedFit, Reloaded, WrittenAs,
         EraseEdit, RecordOf, ManifestLog.Holds;
    RunWithin(opts, run, steps, i);
    LoggedRecords(opts, run[i]);
    TornRecords(opts, rs, run[i].disk.records, bytes, EraseEdit(run[i].pc.edit), n);
  }

  /** The same of records and edits. */
  lemma {:induction false} TornRecords(opts: Options, rs: seq<Entry>, edits: seq<Edit>, bytes: Bytes, edit: Edit,
      n: nat)
    requires ManifestLimit(opts) && ManifestHolds(rs, edits) && WrittenAs(bytes, edit)
    requires (forall e :: e in edits ==> opts.editFits(e)) && opts.editFits(edit)
    requires |Frames(rs)| <= n <= |Frames(rs + [RecordOf(bytes)])|
    ensures var (back, end) := ReadAll(Frames(rs + [RecordOf(bytes)])[..n]);
            && end == NotFound
            && ManifestLog.Holds(back, if n == |Frames(rs + [RecordOf(bytes)])| then edits + [edit] else edits)
  {
    hide Frames, ReadAll, AllReadable, ManifestLimit, WrittenAs, RecordOf, ManifestLog.Holds;
    var all := rs + [RecordOf(bytes)];
    assert ManifestHolds(all, edits + [edit]) by { RecordIs(bytes); }
    RecordsReadable(opts, all, edits + [edit]);
    HoldsThem(all, edits + [edit]);
    HoldsThem(rs, edits);
    TornAppend(rs, RecordOf(bytes), n);
  }

  lemma {:induction false} RecordIs(bytes: Bytes)
    ensures RecordOf(bytes).value == bytes
  {
  }

  lemma {:induction false} LoggedRecords(opts: Options, s: State)
    requires Enabled(opts, s, AppendEdit)
    ensures s.pc.Committing? && opts.editFits(EraseEdit(s.pc.edit))
    ensures Do(opts, s, AppendEdit).disk.records == s.disk.records + [EraseEdit(s.pc.edit)]
  {
    hide Apply, EraseEdit;
  }

  // ---- Tables ----

  /** Entries pass only if the reader accepts their table. */
  ghost predicate TableLimit(opts: Options, blockSize: nat, bitsPerKey: nat) {
    forall es :: opts.tableFits(es) ==> TableFits(blockSize, bitsPerKey, es)
  }

  /** File sizes are those of the tables that the builder writes: while building, and finished. */
  ghost predicate TrueSizes(opts: Options, blockSize: nat, bitsPerKey: nat) {
    && (forall es :: opts.flushedBytes(es) == FlushedSize(blockSize, es))
    && forall es :: opts.fileBytes(es) == TableSize(blockSize, bitsPerKey, es)
  }

  /** In every reachable state the file of every live table has the size recorded for it and is accepted
      by its reader, and the one block that a lookup searches answers for the whole table. */
  lemma {:induction false} TableServes(opts: Options, run: seq<State>, steps: seq<Step>, i: nat, l: nat, f: File,
      blockSize: nat, bitsPerKey: nat, file: Bytes, t: Table, k: Key)
    requires IsRun(opts, run, steps) && i < |run| && (forall e :: e in run[0].disk.records ==> opts.editFits(e))
    requires Serving(run[i]) && l < NUM_LEVELS && f in run[i].vs.current[l]
    requires TableLimit(opts, blockSize, bitsPerKey) && TrueSizes(opts, blockSize, bitsPerKey)
    requires BuiltFrom(file, t, blockSize, bitsPerKey, Content(f))
    ensures f.size == |file| && Limits(file, t) && Concat(t.blocks) == Content(f) && KeysUp(Concat(t.blocks))
    ensures Visible(BlockFor(t.blocks, k), k, run[i].vs.lastSeq) == Visible(Content(f), k, run[i].vs.lastSeq)
  {
    hide IsRun, Serving, Limits, TableFits, Visible, CutInto, BlockFor, SizesOk, Concat, Sorted, KeysUp, EngineEntries,
         ValidFile, TableSize, FlushedSize;
    LiveFits(opts, run, steps, i, l, f);
    FitsIff(file, t, blockSize, bitsPerKey, Content(f));
    TableReadsAgree(opts, run, steps, i, l, f, t.blocks, k);
    SortedUp(Content(f));
  }

  lemma {:induction false} LiveFits(opts: Options, run: seq<State>, steps: seq<Step>, i: nat, l: nat, f: File)
    requires IsRun(opts, run, steps) && i < |run| && (forall e :: e in run[0].disk.records ==> opts.editFits(e))
    requires Serving(run[i]) && l < NUM_LEVELS && f in run[i].vs.current[l]
    ensures Recorded(opts, f) && EngineEntries(Content(f)) && Sorted(Content(f))
  {
    hide IsRun, Reloaded, AddedFit, Sources, StackOf, NewestFirst, Sorted, Less;
    var s := run[i];
    RunWithin(opts, run, steps, i);
    ServingMatches(opts, run, steps, i);
    SnapshotShape(opts, run, steps, i);
    assert ValidFile(f) by { assert l > 0 ==> ValidLevel(s.vs.current[l]); }
    forall e | e in Content(f) ensures e.seqno < SEQNO_END {
      StackHolds(s.vs.current, e);
      SourcesHold(Capture(s), s.mems, e);
    }
  }

  lemma {:induction false} ServingMatches(opts: Options, run: seq<State>, steps: seq<Step>, i: nat)
    requires IsRun(opts, run, steps) && i < |run| && Serving(run[i])
    ensures Reloaded(run[i].disk).current == run[i].vs.current && run[i].vs.lastSeq == |run[i].hist|
  {
    hide IsRun, Reloaded, EngineInvariant.Inv, EngineInvariant.Running, EngineInvariant.Base, Sources, Represents,
         AllSorted;
    RunKeeps(opts, run, steps, i);
    MatchesMemory(opts, run[i]);
    ServingRuns(opts, run[i]);
    RunningSources(EngineInvariant.Base(run[i]));
  }

  /** Per put: when every record written so far leaves room for a block, no block of any table made of
      what the process holds passes the limit.  Memtables, live tables and the outputs of compactions
      are such tables. */
  lemma {:induction false} ShortPutsFit(opts: Options, run: seq<State>, steps: seq<Step>, i: nat, blockSize: nat,
      es: seq<Entry>, b: nat)
    requires IsRun(opts, run, steps) && i < |run| && Serving(run[i])
    requires run[i].mem in run[i].mems && (run[i].imm.Some? ==> run[i].imm.value in run[i].mems)
    requires forall e :: e in run[i].hist ==> RecordSize(e) + blockSize + 12 <= MAX_BLOCK
    requires forall e :: e in es ==> Recency.Holds(Sources(Capture(run[i]), run[i].mems), e)
    requires b < |CutInto(blockSize, es)|
    ensures BlockSize(CutInto(blockSize, es)[b], DATA_INTERVAL) <= MAX_BLOCK
  {
    hide IsRun, Serving, CutInto, BlockSize, RecordSize, Sources, Recency.Holds;
    var block := CutInto(blockSize, es)[b];
    BlocksBounded(blockSize, es, b);
    var last := block[|block| - 1];
    BlockWithin(blockSize, es, b);
    HeldIsWritten(opts, run, steps, i, last);
  }

  lemma {:induction false} BlockWithin(blockSize: nat, es: seq<Entry>, b: nat)
    requires b < |CutInto(blockSize, es)|
    ensures forall e :: e in CutInto(blockSize, es)[b] ==> e in es
  {
    hide Concat, CutUp;
    var blocks := CutInto(blockSize, es);
    forall j | 0 <= j < |blocks[b]| ensures blocks[b][j] in es { EntryAt(blocks, b, j); }
  }

  /** What the process holds was written. */
  lemma {:induction false} HeldIsWritten(opts: Options, run: seq<State>, steps: seq<Step>, i: nat, e: Entry)
    requires IsRun(opts, run, steps) && i < |run| && Serving(run[i])
    requires run[i].mem in run[i].mems && (run[i].imm.Some? ==> run[i].imm.value in run[i].mems)
    requires Recency.Holds(Sources(Capture(run[i]), run[i].mems), e)
    ensures e in run[i].hist
  {
    hide IsRun, EngineInvariant.Inv, EngineInvariant.Running, EngineInvariant.Base, Sources, AllSorted, Recency.Holds,
         Covers, NewestFirst;
    RunKeeps(opts, run, steps, i);
    ServingRuns(opts, run[i]);
    RunningSources(EngineInvariant.Base(run[i]));
  }
}
