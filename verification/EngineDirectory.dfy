/** A whole directory as bytes: whatever a run leaves there, torn appends included, reads as a state from
    which the engine recovers the map of that run. */
module EngineDirectory {
  import opened Keys
  import opened Entries
  import opened Records
  import opened Recency
  import opened BlockSearch
  import opened Versions
  import opened Edits
  import opened Compactions
  import opened Manifest
  import opened Engine
  import opened EngineInvariant
  import opened EngineCommit
  import opened EngineTheorems
  import opened EngineRecovered
  import opened EngineLimits
  import opened EngineLogFiles
  import opened EngineFiles
  import opened Wal
  import opened ManifestLog
  import opened Tables
  import opened TableReaders
  import opened TableLimits

  /** The manifest that CURRENT names, and the tables and logs by number. */
  datatype Directory = Directory(manifest: Bytes, tables: map<nat, Bytes>, logs: map<nat, Bytes>)

  /** How tables are built. */
  datatype Format = Format(hash: Bytes -> nat, blockSize: nat, bitsPerKey: nat)

  /** The manifest's records, and any part of the one that is being appended. */
  ghost predicate ManifestFile(opts: Options, s: State, rs: seq<Entry>, file: Bytes) {
    && ManifestHolds(rs, s.disk.records)
    && (|| file == Frames(rs)
        || (&& s.pc.Committing? && Enabled(opts, s, AppendEdit)
            && exists bytes, n ::
                 && WrittenAs(bytes, EraseEdit(s.pc.edit))
                 && |Frames(rs)| <= n <= |Frames(rs + [RecordOf(bytes)])|
                 && file == Frames(rs + [RecordOf(bytes)])[..n]))
  }

  ghost predicate TableFile(format: Format, es: seq<Entry>, file: Bytes) {
    exists t :: IsTable(file, t, format.hash) && BuiltFrom(file, t, format.blockSize, format.bitsPerKey, es)
  }

  /** What a process that was stopped in this state left behind. */
  ghost predicate LeftBy(opts: Options, format: Format, s: State, rs: seq<Entry>, dir: Directory) {
    && ManifestFile(opts, s, rs, dir.manifest)
    && (forall n :: n in s.disk.tables ==> n in dir.tables && TableFile(format, s.disk.tables[n], dir.tables[n]))
    && dir.logs.Keys == s.disk.logs.Keys && forall n :: n in dir.logs ==> LogFile(s, n, dir.logs[n])
  }

  /** A reader that is told the size accepts the file and serves these entries. */
  ghost predicate Serves(format: Format, file: Bytes, size: nat, es: seq<Entry>) {
    size == |file| && exists t :: IsTable(file, t, format.hash) && Limits(file, t) && Concat(t.blocks) == es
  }

  /** The bytes of the directory stand for this disk. */
  ghost predicate ReadsAs(format: Format, dir: Directory, d: Disk) {
    && ReadAll(dir.manifest).1 == NotFound && ManifestLog.Holds(ReadAll(dir.manifest).0, d.records)
    && dir.logs.Keys == d.logs.Keys && (forall n :: n in dir.logs ==> ReadAll(dir.logs[n]) == (d.logs[n], NotFound))
    && forall l, f :: 0 <= l < NUM_LEVELS && f in Reloaded(d).current[l] ==>
         f.number in dir.tables && Serves(format, dir.tables[f.number], f.size, Content(f))
  }

  /** The limits under which the run was made, in the words of the readers. */
  ghost predicate CodeLimits(opts: Options, format: Format) {
    && ManifestLimit(opts) && TableLimit(opts, format.blockSize, format.bitsPerKey)
    && TrueSizes(opts, format.blockSize, format.bitsPerKey)
  }

  /** The directory that any state of any run leaves reads as the disk of a crash of the engine, at that
      state or at the one to which the interrupted append leads; and from there recovery brings back the
      map, with at most the write in flight added. */
  lemma {:induction false} DirectoryRecovers(opts: Options, format: Format, run: seq<State>, steps: seq<Step>, i: nat,
      rs: seq<Entry>, dir: Directory) returns (c: State)
    requires IsRun(opts, run, steps) && i < |run| && (forall e :: e in run[0].disk.records ==> opts.editFits(e))
    requires CodeLimits(opts, format) && LeftBy(opts, format, run[i], rs, dir)
    ensures c.pc == Down && Inv(opts, c) && ReadsAs(format, dir, c.disk) && RecoversTo(c.disk, c.hist)
    ensures c.hist == run[i].hist || (run[i].pc.Writing? && c.hist == run[i].hist + [run[i].pc.e])
  {
    hide Inv, IsRun, Do, Enabled, Frames, ReadAll, ManifestHolds, RecoversTo, Reloaded, LogFile, TableFile, Serves,
         CodeLimits, VersionFits, AddedFit, WrittenAs;
    var s := run[i];
    RunKeeps(opts, run, steps, i);
    RunWithin(opts, run, steps, i);
    var logged := ManifestReadsAs(opts, format, run, steps, i, rs, dir);
    if logged {
      c := CommittedCrash(opts, format, run, steps, i, dir);
    } else {
      c := PlainCrash(opts, format, run, steps, i, dir);
    }
    StateRecovers(opts, c);
    TablesServe(opts, format, c, dir);
  }

  /** The manifest reads as the records of the state, or of the next one. */
  lemma {:induction false} ManifestReadsAs(opts: Options, format: Format, run: seq<State>, steps: seq<Step>, i: nat,
      rs: seq<Entry>, dir: Directory) returns (logged: bool)
    requires IsRun(opts, run, steps) && i < |run| && (forall e :: e in run[0].disk.records ==> opts.editFits(e))
    requires CodeLimits(opts, format) && LeftBy(opts, format, run[i], rs, dir)
    ensures logged ==> Enabled(opts, run[i], AppendEdit)
    ensures ReadAll(dir.manifest).1 == NotFound
    ensures ManifestLog.Holds(
              ReadAll(dir.manifest).0,
              if logged then Do(opts, run[i], AppendEdit).disk.records else run[i].disk.records)
  {
    hide IsRun, Do, Enabled, Frames, ReadAll, ManifestHolds, LogFile, TableFile, TableLimit, ManifestLimit, WrittenAs,
         EraseEdit, RecordOf, ManifestLog.Holds;
    var s := run[i];
    if dir.manifest == Frames(rs) {
      ManifestReads(opts, run, steps, i, rs);
      logged := false;
    } else {
      var bytes, n :| && WrittenAs(bytes, EraseEdit(s.pc.edit))
                      && |Frames(rs)| <= n <= |Frames(rs + [RecordOf(bytes)])|
                      && dir.manifest == Frames(rs + [RecordOf(bytes)])[..n];
      ManifestTorn(opts, run, steps, i, rs, bytes, n);
      logged := n == |Frames(rs + [RecordOf(bytes)])|;
    }
  }

  /** The logs and the tables, when no edit was being logged or its record is incomplete. */
  lemma {:induction false} PlainCrash(opts: Options, format: Format, run: seq<State>, steps: seq<Step>, i: nat,
      dir: Directory) returns (c: State)
    requires IsRun(opts, run, steps) && i < |run| && Within(opts, run[i]) && Inv(opts, run[i])
    requires dir.logs.Keys == run[i].disk.logs.Keys && forall n :: n in dir.logs ==> LogFile(run[i], n, dir.logs[n])
    ensures c.pc == Down && Inv(opts, c) && Within(opts, c)
    ensures c.disk.records == run[i].disk.records && c.disk.tables == run[i].disk.tables
    ensures dir.logs.Keys == c.disk.logs.Keys
    ensures forall n :: n in dir.logs ==> ReadAll(dir.logs[n]) == (c.disk.logs[n], NotFound)
    ensures c.hist == run[i].hist || (run[i].pc.Writing? && c.hist == run[i].hist + [run[i].pc.e])
  {
    hide Inv, IsRun, Enabled, Frames, ReadAll, LogFile, Within, Reloaded;
    var survives := CrashLeaves(opts, run, steps, i, dir.logs);
    var step := Crash(survives, run[i].disk.tables);
    c := Do(opts, run[i], step);
    StepKeeps(opts, run[i], step);
    StepWithin(opts, run[i], step);
  }

  /** The same when the record of an edit is complete although the process did not get further. */
  lemma {:induction false} CommittedCrash(opts: Options, format: Format, run: seq<State>, steps: seq<Step>, i: nat,
      dir: Directory) returns (c: State)
    requires IsRun(opts, run, steps) && i < |run| && Within(opts, run[i]) && Inv(opts, run[i])
    requires Enabled(opts, run[i], AppendEdit)
    requires dir.logs.Keys == run[i].disk.logs.Keys && forall n :: n in dir.logs ==> LogFile(run[i], n, dir.logs[n])
    ensures c.pc == Down && Inv(opts, c) && Within(opts, c) && c.hist == run[i].hist
    ensures c.disk.records == Do(opts, run[i], AppendEdit).disk.records && c.disk.tables == run[i].disk.tables
    ensures dir.logs.Keys == c.disk.logs.Keys
    ensures forall n :: n in dir.logs ==> ReadAll(dir.logs[n]) == (c.disk.logs[n], NotFound)
  {
    hide Inv, IsRun, Frames, ReadAll, LogFile, Within, Reloaded, Apply, EraseEdit, IsLive;
    var s := run[i];
    var s' := Do(opts, s, AppendEdit);
    StepKeeps(opts, s, AppendEdit);
    StepWithin(opts, s, AppendEdit);
    var step := Crash(true, s'.disk.tables);
    c := Do(opts, s', step);
    StepKeeps(opts, s', step);
    StepWithin(opts, s', step);
    forall n | n in dir.logs ensures ReadAll(dir.logs[n]) == (c.disk.logs[n], NotFound) {
      LogReads(opts, run, steps, i, n);
      QuietLog(s, n, dir.logs[n]);
    }
  }

  /** Every live table opens and serves its entries. */
  lemma {:induction false} TablesServe(opts: Options, format: Format, c: State, dir: Directory)
    requires Inv(opts, c) && c.pc == Down && Within(opts, c) && CodeLimits(opts, format)
    requires forall n :: n in c.disk.tables ==> n in dir.tables && TableFile(format, c.disk.tables[n], dir.tables[n])
    ensures forall l, f :: 0 <= l < NUM_LEVELS && f in Reloaded(c.disk).current[l] ==>
              f.number in dir.tables && Serves(format, dir.tables[f.number], f.size, Content(f))
  {
    hide Inv, Reloaded, TableFile, Serves, VersionFits, AddedFit, ManifestLimit, TableLimit, Opened;
    DownValid(opts, c);
    ReloadedOpened(c.disk);
    forall l, f | 0 <= l < NUM_LEVELS && f in Reloaded(c.disk).current[l]
      ensures f.number in dir.tables && Serves(format, dir.tables[f.number], f.size, Content(f))
    {
      LiveTable(opts, c, l, f);
      FileServes(opts, format, f, dir.tables[f.number]);
    }
  }

  lemma {:induction false} DownValid(opts: Options, c: State)
    requires Inv(opts, c) && c.pc == Down
    ensures ValidVersion(Reloaded(c.disk).current)
  {
    hide Reloaded, ValidVersion, DistinctFiles, NumbersBelow, ReplayAll, ValidLog, Recoverable, LiveLogs;
  }

  lemma {:induction false} LiveTable(opts: Options, c: State, l: nat, f: File)
    requires Inv(opts, c) && Within(opts, c) && l < NUM_LEVELS && f in Reloaded(c.disk).current[l]
    requires ValidVersion(Reloaded(c.disk).current) && Opened(Reloaded(c.disk).current, c.disk.tables)
    ensures f.number in c.disk.tables && Content(f) == c.disk.tables[f.number]
    ensures Recorded(opts, f) && EngineEntries(Content(f))
  {
    hide Recorded, Inv, Reloaded, Sorted, Less, StackOf, AddedFit, Disjoint, DistinctNumbers;
    assert ValidFile(f) by { assert l > 0 ==> ValidLevel(Reloaded(c.disk).current[l]); }
    forall e | e in Content(f) ensures e.seqno < SEQNO_END {
      StackHolds(Reloaded(c.disk).current, e);
      TablesHold(opts, c, e);
    }
  }

  lemma {:induction false} FileServes(opts: Options, format: Format, f: File, file: Bytes)
    requires TableFile(format, Content(f), file) && CodeLimits(opts, format)
    requires Recorded(opts, f) && EngineEntries(Content(f))
    ensures Serves(format, file, f.size, Content(f))
  {
    hide IsTable, Limits, TableFits, EngineEntries, ManifestLimit, CutInto, SizesOk, TableSize, FlushedSize;
    var es := Content(f);
    var t :| IsTable(file, t, format.hash) && BuiltFrom(file, t, format.blockSize, format.bitsPerKey, es);
    FitsIff(file, t, format.blockSize, format.bitsPerKey, es);
  }
}
