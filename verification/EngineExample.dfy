/** Options with the limits of the code, and databases made under them. */
module EngineExample {
  import opened Keys
  import opened Entries
  import opened Records
  import opened History
  import opened Coding
  import opened Versions
  import opened Edits
  import opened Compactions
  import opened Manifest
  import opened Engine
  import opened EngineInvariant
  import opened EngineCommit
  import opened EngineTheorems
  import opened EngineBackground
  import opened EngineFlush
  import opened EngineLogFiles
  import opened EngineFiles
  import opened EngineDirectory
  import opened EditCodec
  import opened Wal
  import opened ManifestLog
  import opened Blocks
  import opened Tables
  import opened TableReaders
  import opened TableLimits
  import TwoLevelIterators
  import Bloom

  // ---- The limits of the code ----

  predicate EditReadable(e: Edit) {
    EditFits(e) && 17 + |MANIFEST_ENTRY| + EditSize(e) <= MAX_RECORD
  }

  /** Every table and every edit passes that the readers take, and no other. */
  function CodeOptions(format: Format, maxLevel0Files: int, maxFileSize: nat): Options {
    Options(
      maxLevel0Files, maxFileSize,
      es => FlushedSize(format.blockSize, es), es => TableSize(format.blockSize, format.bitsPerKey, es),
      es => TableFits(format.blockSize, format.bitsPerKey, es), EditReadable)
  }

  lemma {:induction false} CodeOptionsLimits(format: Format, maxLevel0Files: int, maxFileSize: nat)
    ensures CodeLimits(CodeOptions(format, maxLevel0Files, maxFileSize), format)
  {
    hide TableFits, EditSize, EditFits, TableSize, FlushedSize;
  }

  /** The size recorded under those options is that of the file the builder writes. */
  lemma {:induction false} RecordedSize(format: Format, maxLevel0Files: int, maxFileSize: nat, file: Bytes, t: Table,
      es: seq<Entry>)
    requires BuiltFrom(file, t, format.blockSize, format.bitsPerKey, es)
    ensures CodeOptions(format, maxLevel0Files, maxFileSize).fileBytes(es) == |file|
  {
    hide TableSize, CutInto, SizesOk;
  }

  /** A short entry makes a table and edits that the readers take. */
  lemma {:induction false} TakesShort(format: Format, maxLevel0Files: int, maxFileSize: nat, e: Entry)
    requires RecordSize(e) <= 0x10_0000 && TableFits(format.blockSize, format.bitsPerKey, [e])
    ensures TakesSmall(CodeOptions(format, maxLevel0Files, maxFileSize), [e])
  {
    hide TableFits, EditReadable, SmallEdit;
    var opts := CodeOptions(format, maxLevel0Files, maxFileSize);
    forall edit | SmallEdit(opts, [e], edit) ensures EditReadable(edit) {
      ShortEdit(format, maxLevel0Files, maxFileSize, e, edit);
    }
  }

  lemma {:induction false} ShortEdit(format: Format, maxLevel0Files: int, maxFileSize: nat, e: Entry, edit: Edit)
    requires RecordSize(e) <= 0x10_0000 && TableFits(format.blockSize, format.bitsPerKey, [e])
    requires SmallEdit(CodeOptions(format, maxLevel0Files, maxFileSize), [e], edit)
    ensures EditReadable(edit)
  {
    hide Pow256, TableFits, Level0File, TableSize, AddedSize, EditCodec.Fits;
    Widths();
    forall a | a in edit.added
      ensures |a.1.smallest| <= 0x10_0000 && |a.1.largest| <= 0x10_0000 && EditCodec.Fits(NewFile(a.0, Erase(a.1)))
    {
      ShortFile(format, maxLevel0Files, maxFileSize, e, a.1.number);
    }
    OneAdded(edit.added);
  }

  lemma {:induction false} ShortFile(format: Format, maxLevel0Files: int, maxFileSize: nat, e: Entry, n: nat)
    requires RecordSize(e) <= 0x10_0000 && TableFits(format.blockSize, format.bitsPerKey, [e]) && n < 16
    ensures var f := Erase(Level0File(CodeOptions(format, maxLevel0Files, maxFileSize), [e], n));
            && |f.smallest| <= 0x10_0000 && |f.largest| <= 0x10_0000 && EditCodec.Fits(NewFile(0, f)) && Erase(f) == f
  {
    hide Pow256, TableFits, TableSize, Level0File;
    Widths();
    var opts := CodeOptions(format, maxLevel0Files, maxFileSize);
    OneEntryFile(opts, e, n);
    SizeBelow(format, e);
  }

  lemma {:induction false} OneEntryFile(opts: Options, e: Entry, n: nat)
    ensures Level0File(opts, [e], n) == File(n, opts.fileBytes([e]), e.key, e.key, Some([e]))
  {
  }

  lemma {:induction false} SizeBelow(format: Format, e: Entry)
    requires TableFits(format.blockSize, format.bitsPerKey, [e])
    ensures TableSize(format.blockSize, format.bitsPerKey, [e]) < SEQNO_END
  {
    hide CutInto, DataSize, IndexSize, Bloom.FilterBytes;
  }

  lemma {:induction false} OneAdded(added: seq<(nat, File)>)
    requires |added| <= 1
    requires forall a :: a in added ==> |a.1.smallest| <= 0x10_0000 && |a.1.largest| <= 0x10_0000
    ensures AddedSize(added) <= 29 + 0x20_0000
  {
    if added != [] {
      assert added[0] in added && added[..0] == [];
      assert AddedSize(added[..0]) == 0;
    }
  }

  // ---- A database with one flushed put ----

  /** What the manifest holds after a first put was flushed. */
  function FlushedRecords(opts: Options, e: Entry): seq<Edit> {
    [Snapshot(Switched(NEW_VERSION_SET)), NewDatabase(), FirstLog(), FlushOf(opts, e)]
  }

  /** The first edit of a new database. */
  function NewDatabase(): Edit { Edit(Some(COMPARATOR), Some(0), Some(2), Some(0), {}, []) }

  function FlushOf(opts: Options, e: Entry): Edit {
    Edit(None, Some(4), Some(6), Some(1), {}, [(0, Level0File(opts, [e], 5))])
  }

  /** A new database: one put, a rotation, and its flush committed. */
  lemma {:induction false} FlushedRun(opts: Options, s: State, k: Key, v: Bytes)
    returns (run: seq<State>, steps: seq<Step>)
    requires Init(s) && TakesSmall(opts, [Entry(k, 1, VALUE, v)]) && Readable(Entry(k, 1, VALUE, v))
    ensures |run| == 9 && IsRun(opts, run, steps) && run[0] == s
    ensures steps == [AppendEdit, CreateLog, AppendEdit, Append(k, VALUE, v), Acknowledge, Rotate, BeginFlush,
                      AppendEdit]
    ensures var e := Entry(k, 1, VALUE, v);
            && run[8].pc == Idle && run[8].hist == [e]
            && run[8].disk == Disk(EraseEdits(FlushedRecords(opts, e)), map[5 := [e]], map[3 := [e], 4 := []])
  {
    hide Inv, AddSorted, Do, Enabled, Init, TakesSmall, Readable, EMPTY_VERSION, EraseEdit, Snapshot, Level0File,
         Rotated;
    var e := Entry(k, 1, VALUE, v);
    var start, first := Create(opts, [e], s);
    var s3 := start[3];
    var s5 := OneWrite(opts, s3, k, v);
    var s6 := OneRotation(opts, s5);
    AddOne(e);
    RotatedIs(s3, s5, s6, e);
    FlushShort(opts, s6, e);
    var s7 := Do(opts, s6, BeginFlush);
    var s8 := Do(opts, s7, AppendEdit);
    var path := [s3, Do(opts, s3, Append(k, VALUE, v)), s5, s6, s7, s8];
    var more := [Append(k, VALUE, v), Acknowledge, Rotate, BeginFlush, AppendEdit];
    assert IsPath(opts, path, more);
    Joined(opts, start, first, path, more);
    run, steps := start + path[1..], first + more;
    InitRecords(opts, s, e);
  }

  lemma {:induction false} RotatedIs(s3: State, s5: State, s6: State, e: Entry)
    requires s3.mem == 3 && s3.mems == map[3 := []] && s3.vs.nextFile == 4 && s3.hist == [] && s3.vs.lastSeq == 0
    requires s3.disk.logs == map[3 := []] && s6 == Rotated(s5)
    requires s5.mem == 3 && s5.mems == map[3 := [e]] && s5.vs == s3.vs.(lastSeq := 1) && s5.hist == [e]
    requires s5.disk == s3.disk.(logs := map[3 := [e]])
    ensures s6.disk == s3.disk.(logs := map[3 := [e], 4 := []]) && s6.mem == 4 && s6.imm == Some(3)
    ensures s6.vs == s3.vs.(lastSeq := 1, nextFile := 5) && s6.mems == map[3 := [e], 4 := []]
    ensures s6.hist == [e] && s6.pc == s5.pc
  {
  }

  lemma {:induction false} FlushShort(opts: Options, s: State, e: Entry)
    requires Inv(opts, s) && s.pc == Idle && s.mem == 4 && s.imm == Some(3) && s.mems == map[3 := [e], 4 := []]
    requires s.vs.nextFile == 5 && s.vs.lastSeq == 1 && s.disk.tables == map[] && TakesSmall(opts, [e])
    ensures CanFlush(opts, s)
    ensures var s' := Do(opts, Do(opts, s, BeginFlush), AppendEdit);
            && s'.pc == Idle && s'.hist == s.hist
            && s'.disk == Disk(s.disk.records + [EraseEdit(FlushOf(opts, e))], map[5 := [e]], s.disk.logs)
  {
    hide Inv, TakesSmall, Level0File, EraseEdit, Apply;
    var f := Level0File(opts, [e], 5);
    FileNumber(opts, [e], 5);
    assert WithDefaults(s.vs.(nextFile := 6), TableEdit(f, 4)) == FlushOf(opts, e);
    SmallFlushEdit(opts, e);
    CanFlushIff(opts, s);
    FileContent(opts, e);
    assert [f][..0] == [];
    assert WithTables(map[], [f]) == map[5 := [e]];
  }

  lemma {:induction false} FileContent(opts: Options, e: Entry)
    ensures Content(Level0File(opts, [e], 5)) == [e]
  {
  }

  lemma {:induction false} SmallFlushEdit(opts: Options, e: Entry)
    requires TakesSmall(opts, [e])
    ensures opts.tableFits([e]) && opts.editFits(EraseEdit(FlushOf(opts, e)))
  {
    hide Level0File;
    var f := Level0File(opts, [e], 5);
    FileNumber(opts, [e], 5);
    assert EraseAdded([(0, f)]) == [(0, Erase(f))];
    SmallIsTaken(opts, [e], FlushOf(opts, e));
  }

  lemma {:induction false} InitRecords(opts: Options, s: State, e: Entry)
    requires Init(s)
    ensures s.disk.records + [s.pc.edit, FirstLog()] + [EraseEdit(FlushOf(opts, e))] ==
            EraseEdits(FlushedRecords(opts, e))
  {
    hide EMPTY_VERSION, EraseEdit, Snapshot, FlushOf;
    InitDisk(s);
    NoFilesErased(NewDatabase());
    NoFilesErased(FirstLog());
  }

  /** The records of this run fit, the first one included. */
  lemma {:induction false} RecordsFit(opts: Options, e: Entry, edit: Edit)
    requires TakesSmall(opts, [e]) && edit in FlushedRecords(opts, e)
    ensures opts.editFits(EraseEdit(edit))
  {
    hide TakesSmall, EraseEdit, Level0File;
    if edit == FlushOf(opts, e) {
      SmallFlushEdit(opts, e);
    } else {
      NoFiles();
      NoFilesErased(edit);
      SmallIsTaken(opts, [e], edit);
    }
  }

  lemma {:induction false} NoFiles()
    ensures Snapshot(Switched(NEW_VERSION_SET)) == Edit(Some(COMPARATOR), Some(0), Some(3), Some(0), {}, [])
  {
    forall l | 0 <= l < NUM_LEVELS ensures EMPTY_VERSION[l] == [] { EmptyLevels(l); }
    hide EMPTY_VERSION;
    NoneBelow(EMPTY_VERSION, NUM_LEVELS);
  }

  lemma {:induction false} NoneBelow(v: Version, l: nat)
    requires l <= NUM_LEVELS && forall m :: 0 <= m < NUM_LEVELS ==> v[m] == []
    ensures AllFiles(v, l) == []
  {
    if l > 0 {
      NoneBelow(v, l - 1);
      assert AllAt(l - 1, v[l - 1]) == [];
    }
  }

  /** A new database in its first state. */
  ghost function NewState(): (s: State)
    ensures Init(s)
  {
    hide EMPTY_VERSION, Snapshot, EraseEdit;
    State(Restarted(Disk([], map[], map[]), NEW_VERSION_SET), Switched(NEW_VERSION_SET), 0, None, map[],
          Committing(NewDatabase(), Created), [])
  }

  /** The whole directory of that database, written by the writers of the code under its limits: all that
      `DirectoryRecovers` asks for is there. */
  method FlushedDirectory(hash: Bytes -> nat, k: Key, v: Bytes)
    returns (dir: Directory, ghost opts: Options, ghost run: seq<State>, ghost steps: seq<Step>, ghost rs: seq<Entry>)
    requires |k| <= 1000 && |v| <= 1000
    ensures CodeLimits(opts, Format(hash, 4096, 10))
    ensures |run| == 9 && IsRun(opts, run, steps) && (forall e :: e in run[0].disk.records ==> opts.editFits(e))
    ensures steps == [AppendEdit, CreateLog, AppendEdit, Append(k, VALUE, v), Acknowledge, Rotate, BeginFlush,
                      AppendEdit]
    ensures LeftBy(opts, Format(hash, 4096, 10), run[8], rs, dir) && |rs| == 4
  {
    hide *;
    var format, e := Format(hash, 4096, 10), Entry(k, 1, VALUE, v);
    var codeOpts := CodeOptions(format, 4, 0x20_0000);
    opts := codeOpts;
    CodeOptionsLimits(format, 4, 0x20_0000);
    ShortSize(k, 1, v);
    ShortFits(e);
    TakesShort(format, 4, 0x20_0000, e);
    run, steps := FlushedRun(opts, NewState(), k, v);
    FirstRecords(opts, run, steps, e);
    dir, rs := WriteFiles(format, codeOpts, e);
    FilesLeft(opts, format, run[8], rs, dir, e);
  }

  /** Manifest, table and logs through the writers. */
  method WriteFiles(format: Format, opts: Options, e: Entry) returns (dir: Directory, ghost rs: seq<Entry>)
    requires TakesSmall(opts, [e]) && opts == CodeOptions(format, 4, 0x20_0000)
    ensures ManifestHolds(rs, EraseEdits(FlushedRecords(opts, e))) && dir.manifest == Frames(rs)
    ensures dir.tables.Keys == {5} && TableFile(format, [e], dir.tables[5])
    ensures dir.logs == map[3 := Frames([e]), 4 := Frames([])]
  {
    hide *;
    var records := FlushedRecords(opts, e);
    forall edit | edit in records ensures EditFits(edit) { RecordsEncode(format, 4, 0x20_0000, e, edit); }
    var manifest, table, log;
    manifest, rs := WriteManifest(records);
    ghost var t;
    table, t := TwoLevelIterators.WriteTable(format.hash, format.blockSize, format.bitsPerKey, [e]);
    IsTableFile(format, [e], table, t);
    log := WriteLog(e);
    NoFrames();
    dir := Directory(manifest, map[5 := table], map[3 := log, 4 := []]);
  }

  lemma {:induction false} IsTableFile(format: Format, es: seq<Entry>, file: Bytes, t: Table)
    requires IsTable(file, t, format.hash) && BuiltFrom(file, t, format.blockSize, format.bitsPerKey, es)
    ensures TableFile(format, es, file)
  {
    hide IsTable, BuiltFrom;
  }

  lemma {:induction false} FilesLeft(opts: Options, format: Format, s: State, rs: seq<Entry>, dir: Directory, e: Entry)
    requires s.pc == Idle
    requires s.disk == Disk(EraseEdits(FlushedRecords(opts, e)), map[5 := [e]], map[3 := [e], 4 := []])
    requires ManifestHolds(rs, EraseEdits(FlushedRecords(opts, e))) && dir.manifest == Frames(rs)
    requires dir.tables.Keys == {5} && TableFile(format, [e], dir.tables[5])
    requires dir.logs == map[3 := Frames([e]), 4 := Frames([])]
    ensures LeftBy(opts, format, s, rs, dir) && |rs| == 4
  {
    hide TableFile, Frames, LogFile, Enabled, WrittenAs, EraseEdit, Snapshot, Level0File;
    LogsAre(s, dir, e);
  }

  method WriteLog(e: Entry) returns (file: Bytes)
    ensures file == Frames([e])
  {
    hide Frame;
    var writer := new WalWriter([]);
    FramesConcat([], e);
    NoFrames();
    assert [] + [e] == [e];
    writer.AppendRecord(e);
    file := writer.file;
  }

  lemma {:induction false} NoFrames()
    ensures Frames([]) == []
  {
  }

  /** Short entries pass every limit at the usual block size and filter width. */
  lemma {:induction false} ShortFits(e: Entry)
    requires e.seqno < SEQNO_END && RecordSize(e) <= 4000
    ensures Readable(e) && TableFits(4096, 10, [e])
  {
    hide EntryBytes, Body;
    OneBlockSize(4096, e);
    BodyOne(e);
    EntrySize(e);
    assert [[e]][..0] == [];
    assert DataSize([[e]]) == BlockSize([e], DATA_INTERVAL) + 4;
    assert IndexBody([[e]]) == 33 + |e.key|;
    assert Restarts(1, INDEX_INTERVAL).0 == 1;
  }

  lemma {:induction false} FirstRecords(opts: Options, run: seq<State>, steps: seq<Step>, e: Entry)
    requires run != [] && Init(run[0]) && TakesSmall(opts, [e])
    ensures forall edit :: edit in run[0].disk.records ==> opts.editFits(edit)
  {
    hide TakesSmall, EraseEdit, Snapshot, Level0File;
    InitDisk(run[0]);
    RecordsFit(opts, e, Snapshot(Switched(NEW_VERSION_SET)));
  }

  lemma {:induction false} RecordsEncode(format: Format, maxLevel0Files: int, maxFileSize: nat, e: Entry, edit: Edit)
    requires TakesSmall(CodeOptions(format, maxLevel0Files, maxFileSize), [e])
    requires edit in FlushedRecords(CodeOptions(format, maxLevel0Files, maxFileSize), e)
    ensures EditFits(edit)
  {
    hide TakesSmall, EraseEdit, Snapshot, Level0File, EditFits, FlushedRecords, TableFits;
    RecordsFit(CodeOptions(format, maxLevel0Files, maxFileSize), e, edit);
    EraseFits(edit);
  }

  lemma {:induction false} LogsAre(s: State, dir: Directory, e: Entry)
    requires s.pc == Idle && s.disk.logs == map[3 := [e], 4 := []]
    requires dir.logs == map[3 := Frames([e]), 4 := Frames([])]
    ensures dir.logs.Keys == s.disk.logs.Keys && forall n :: n in dir.logs ==> LogFile(s, n, dir.logs[n])
  {
    hide Frames;
  }

  // ---- The write that FlushMemTable loses ----

  /** The lost write under the limits of the code: any two short puts of different keys. */
  lemma {:induction false} CodeLosesWrite(hash: Bytes -> nat, k: Key, v: Bytes, k2: Key, v2: Bytes)
    returns (opts: Options, run: seq<State>, steps: seq<Step>, path: seq<State>, more: seq<Step>)
    requires k != k2 && |k| + |v| <= 1000 && |k2| + |v2| <= 1000
    ensures CodeLimits(opts, Format(hash, 4096, 10)) && |run| == 9 && IsRun(opts, run, steps)
    ensures steps == [AppendEdit, CreateLog, AppendEdit, Append(k, VALUE, v), Acknowledge, Rotate,
                      Append(k2, VALUE, v2), Acknowledge]
    ensures run[8].mem in run[8].mems && run[8].mems[run[8].mem] != [] && CanFlush(opts, Rotated(run[8]))
    ensures IsPath(opts, path, more) && IsRestart(more)
    ensures path[0] == Do(opts, Do(opts, Rotated(run[8]), BeginFlush), AppendEdit)
    ensures var e := path[6];
            && e.pc == Idle && e.mem in e.mems && e.imm.None?
            && Expected(e.hist, k) == Found(v) && Read(e, k) == Missing
  {
    hide *;
    var format, e2 := Format(hash, 4096, 10), Entry(k2, 2, VALUE, v2);
    opts := CodeOptions(format, 4, 0x20_0000);
    CodeOptionsLimits(format, 4, 0x20_0000);
    ShortSize(k, 1, v);
    ShortSize(k2, 2, v2);
    ShortFits(Entry(k, 1, VALUE, v));
    ShortFits(e2);
    TakesShort(format, 4, 0x20_0000, e2);
    run, steps, path, more := FlushMemTableLosesWrite(opts, NewState(), k, v, k2, v2);
    RestartLength(opts, path, more);
  }

  lemma {:induction false} RestartLength(opts: Options, path: seq<State>, steps: seq<Step>)
    requires IsPath(opts, path, steps) && IsRestart(steps)
    ensures |path| == 7
  {
    hide Enabled, Do;
  }

  lemma {:induction false} ShortSize(k: Key, n: nat, v: Bytes)
    requires |k| + |v| <= 2000 && n <= 2
    ensures n < SEQNO_END && RecordSize(Entry(k, n, VALUE, v)) <= 4000
  {
  }
}
