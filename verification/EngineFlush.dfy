/** `FlushMemTable`: a rotation that does not look at the immutable memtable first. */
module EngineFlush {
  import opened Keys
  import opened Entries
  import opened Records
  import opened History
  import opened Recency
  import opened Versions
  import opened Edits
  import opened Compactions
  import opened Manifest
  import opened Engine
  import opened EngineInvariant
  import opened EngineCommit
  import opened EngineSteps
  import opened EngineFinish
  import opened EngineTables
  import opened EngineRecover
  import opened EngineTheorems
  import opened EngineBackground
  import opened EngineReopen
  import opened EngineRecovered

  /** The process still knows every log that holds unflushed writes if and only if the immutable
      slot was free. */
  lemma {:induction false} FlushRotationKnowsLogs(opts: Options, s: State)
    requires Inv(opts, s) && s.pc == Idle
    ensures var s' := Rotated(s);
            LiveLogs(s'.disk.logs, s'.vs.logNumber, Live(s')) <==> s.imm.None?
  {
    hide Core, Reloaded, MemsMatch, Sorted;
    var s' := Rotated(s);
    RunningFacts(s);
    CoreLive(s, Live(s));
    if s.imm.Some? {
      var i := s.imm.value;
      assert i in Live(s);
      ImmIsOther(s);
      assert i in s'.disk.logs && i >= s'.vs.logNumber && i !in Live(s');
    } else {
      RotateKeeps(opts, s);
      assert s' == Do(opts, s, Rotate);
      CoreLive(s', Live(s'));
    }
  }

  /** When it is free, `FlushMemTable` is an ordinary rotation. */
  lemma {:induction false} FlushRotationIsRotation(opts: Options, s: State)
    requires Inv(opts, s) && s.pc == Idle && s.imm.None?
    ensures Rotated(s) == Do(opts, s, Rotate) && Inv(opts, Rotated(s))
  {
    hide Inv;
    RotateKeeps(opts, s);
  }

  /** What `Get` returns in a state. */
  ghost function Read(s: State, k: Key): Answer
    requires s.mem in s.mems && (s.imm.Some? ==> s.imm.value in s.mems)
  {
    Outcome(FirstHit(Sources(Capture(s), s.mems), k, s.vs.lastSeq))
  }

  /** The old immutable memtable is not needed for `k`: the active one answers, or it has nothing of
      the key, or the tables give the same answer. */
  ghost predicate Dispensable(s: State, k: Key)
    requires s.mem in s.mems && s.imm.Some? && s.imm.value in s.mems
  {
    var q := s.vs.lastSeq;
    || Visible(s.mems[s.mem], k, q).Some?
    || Visible(s.mems[s.imm.value], k, q).None?
    || Outcome(FirstHit(StackOf(s.vs.current), k, q)) == Outcome(AnswerOf(Visible(s.mems[s.imm.value], k, q).value))
  }

  /** With an occupied slot, a key reads as it should afterwards exactly when the memtable that was
      waiting there is not needed for it. */
  lemma {:induction false} FlushReadsIff(opts: Options, s: State, k: Key)
    requires Inv(opts, s) && s.pc == Idle && s.imm.Some?
    ensures s.mem in s.mems && s.imm.value in s.mems && Rotated(s).mem in Rotated(s).mems && s.mem in Rotated(s).mems
    ensures Read(s, k) == Expected(s.hist, k)
    ensures Read(Rotated(s), k) == Expected(s.hist, k) <==> Dispensable(s, k)
  {
    hide Inv, StackOf, Represents, AllSorted, Visible, FirstHit, Running;
    var s' := Rotated(s);
    RunningMems(opts, s);
    RunningSources(s);
    TwoSources(s.mems[s.mem], s.mems[s.imm.value], StackOf(s.vs.current), k, s.vs.lastSeq);
    TwoSources([], s.mems[s.mem], StackOf(s.vs.current), k, s.vs.lastSeq);
    NothingVisible(k, s.vs.lastSeq);
    ReadsLastWrite(Sources(Capture(s), s.mems), s.hist, k, s.vs.lastSeq);
  }

  lemma {:induction false} TwoSources(a: Source, b: Source, rest: Stack, k: Key, s: nat)
    ensures FirstHit([a] + [b] + rest, k, s) ==
            if Visible(a, k, s).Some? then AnswerOf(Visible(a, k, s).value)
            else if Visible(b, k, s).Some? then AnswerOf(Visible(b, k, s).value)
            else FirstHit(rest, k, s)
  {
    hide Visible;
    assert ([a] + [b] + rest)[1..] == [b] + rest;
    assert ([b] + rest)[1..] == rest;
  }

  lemma {:induction false} RunningMems(opts: Options, s: State)
    requires Inv(opts, s) && s.pc == Idle
    ensures Running(s) && s.mem < s.vs.nextFile && (s.mem in s.mems ==> s.vs.nextFile !in s.mems)
  {
    hide Core, MemsMatch, Reloaded, Sorted;
    RunningFacts(s);
  }

  // ---- The flush that follows, and a restart ----

  /** What the disk denotes once the second memtable has been flushed: its table on top of the old
      version, and a log number above that of the memtable that was overwritten. */
  ghost predicate FlushedOver(opts: Options, r: State, d: Disk) {
    var n, re := r.vs.nextFile, Reloaded(d);
    && r.mem in r.mems && re.logNumber == n && re.nextFile == n + 2 && re.lastSeq == r.vs.lastSeq && !re.open
    && d.logs == r.disk.logs[n := []] && SoundDisk(d.(logs := map[]))
    && ValidVersion(re.current) && StackOf(re.current) == [r.mems[r.mem]] + StackOf(r.vs.current)
    && Pushed(r.vs.current, Level0File(opts, r.mems[r.mem], n + 1), re.current)
  }

  lemma {:induction false} FlushStage(opts: Options, r: State)
    requires Inv(opts, r) && r.pc == Idle && CanFlush(opts, Rotated(r))
    ensures var p2 := Do(opts, Do(opts, Rotated(r), BeginFlush), AppendEdit);
            p2.pc == Idle && p2.hist == r.hist && FlushedOver(opts, r, p2.disk)
  {
    hide Inv, Running, Ready, Core, Reloaded, SortedLog, Level0File, Apply, WithTables, StackOf, ValidVersion,
         SoundDisk;
    var t, n := Rotated(r), r.vs.nextFile;
    RunningMems(opts, r);
    RunningFacts(r);
    var p1 := Do(opts, t, BeginFlush);
    var u := r.(vs := r.vs.(nextFile := n + 1));
    var u' := u.(disk := u.disk.(tables := p1.disk.tables), vs := p1.vs, pc := p1.pc);
    FlushCore(opts, r, u, u');
    var p2 := Do(opts, p1, AppendEdit);
    SameReload(Logged(u'.disk, u'.pc.edit), p2.disk);
    WithoutLogs(Logged(u'.disk, u'.pc.edit));
    assert Logged(u'.disk, u'.pc.edit).(logs := map[]) == p2.disk.(logs := map[]);
  }

  lemma {:induction false} WithoutLogs(d: Disk)
    requires SoundDisk(d)
    ensures SoundDisk(d.(logs := map[]))
  {
    hide Reloaded, ReplayAll, GoodVersion, ValidLog;
    SameReload(d, d.(logs := map[]));
  }

  /** That flush is possible exactly when its table and its edit fit. */
  lemma {:induction false} FlushPossible(opts: Options, r: State)
    requires Inv(opts, r) && r.pc == Idle
    ensures r.mem in r.mems
    ensures CanFlush(opts, Rotated(r)) <==>
            var n := r.vs.nextFile;
            var f := Level0File(opts, r.mems[r.mem], n + 1);
            && opts.tableFits(r.mems[r.mem])
            && opts.editFits(EraseEdit(WithDefaults(r.vs.(nextFile := n + 2), TableEdit(f, n))))
  {
    hide Inv, Running, Core, Reloaded, SortedLog, Level0File, WithTables, StackOf, ValidVersion, SoundDisk, EraseEdit;
    RunningMems(opts, r);
    RunningFacts(r);
    assert r.vs.logNumber <= r.vs.nextFile by { RunningLog(r); }
  }

  lemma {:induction false} FlushCore(opts: Options, r: State, u: State, u': State)
    requires Running(r) && u == r.(vs := r.vs.(nextFile := r.vs.nextFile + 1)) && r.mem in r.mems
    requires var f := Level0File(opts, r.mems[r.mem], u.vs.nextFile);
             && u'.disk == u.disk.(tables := WithTables(u.disk.tables, [f])) && u'.hist == u.hist
             && u'.vs == u.vs.(nextFile := u.vs.nextFile + 1)
             && u'.pc == Committing(WithDefaults(u'.vs, TableEdit(f, r.vs.nextFile)), FlushDone)
    ensures u'.pc.edit.lastSeq.Some? && u'.pc.edit.logNumber.Some? && u'.pc.edit.logNumber.value >= u'.vs.logNumber
    ensures var re := Reloaded(Logged(u'.disk, u'.pc.edit));
            && re.logNumber == r.vs.nextFile && re.nextFile == r.vs.nextFile + 2
            && re.lastSeq == r.vs.lastSeq && !re.open
            && ValidVersion(re.current) && StackOf(re.current) == [r.mems[r.mem]] + StackOf(r.vs.current)
            && Pushed(r.vs.current, Level0File(opts, r.mems[r.mem], r.vs.nextFile + 1), re.current)
    ensures SoundDisk(Logged(u'.disk, u'.pc.edit))
  {
    hide Reloaded, SortedLog, Apply, WithTables, StackOf, GoodVersion, Running, Core, Ready, FlushEdit, Level0File,
         SoundDisk;
    FlushBase(r, u);
    TableReady(opts, u, Live(r), r.mem, r.vs.nextFile, u');
    FlushLogged(u', Live(r));
    FlushStack(opts, r, u, u');
  }

  /** The state before the rotation, with one more file number handed out. */
  lemma {:induction false} FlushBase(r: State, u: State)
    requires Running(r) && u == r.(vs := r.vs.(nextFile := r.vs.nextFile + 1))
    ensures Core(u, Live(r)) && r.mem in r.disk.logs && r.mem in r.mems
            && r.mems[r.mem] == SortedLog(r.disk.logs[r.mem])
    ensures r.vs.logNumber <= r.vs.nextFile && (forall n :: n in Live(r) ==> n in r.disk.logs)
  {
    hide Reloaded, SortedLog, Recoverable, SoundDisk, MemsSane;
    assert r.mem in Live(r);
    RunningLog(r);
    RunningFacts(r);
  }

  lemma {:induction false} FlushLogged(s: State, pending: seq<nat>)
    requires Core(s, pending) && s.pc.Committing? && Ready(s, s.pc.edit)
    ensures Reloaded(Logged(s.disk, s.pc.edit)) == LoggedVersionSet(s, s.pc.edit)
    ensures ValidVersion(Apply(s.vs.current, s.pc.edit)) && SoundDisk(Logged(s.disk, s.pc.edit))
  {
    hide Reloaded, Apply, Recoverable, SoundDisk, ValidVersion, DistinctFiles, NumbersBelow, Settled;
    LoggedDisk(s, s.pc.edit);
  }

  lemma {:induction false} FlushStack(opts: Options, r: State, u: State, u': State)
    requires u'.pc.Committing? && FlushEdit(u', u'.pc.edit, r.mem, r.vs.nextFile) && r.mem in r.mems
    requires u'.vs.current == r.vs.current
    requires u'.pc.edit.added == [(0, Level0File(opts, r.mems[r.mem], u.vs.nextFile))]
    ensures StackOf(Apply(u'.vs.current, u'.pc.edit)) == [r.mems[r.mem]] + StackOf(r.vs.current)
    ensures Pushed(r.vs.current, Level0File(opts, r.mems[r.mem], u.vs.nextFile), Apply(u'.vs.current, u'.pc.edit))
  {
    hide StackOf, Apply;
    PushStack(r.vs.current, u'.pc.edit.added[0].1, Apply(u'.vs.current, u'.pc.edit));
  }

  /** A crash right after that, and the recovery: only the newest log is replayed, and it is empty. */
  ghost predicate IsRestart(steps: seq<Step>) {
    && |steps| == 6 && steps[0].Crash? && steps[1].Open?
    && steps[2..] == [DropEmptyLog, CreateLog, SwitchManifest, AppendEdit]
  }

  lemma {:induction false} RestartStage(opts: Options, r: State, path: seq<State>, steps: seq<Step>)
    requires IsPath(opts, path, steps) && IsRestart(steps) && path[0].pc == Idle && FlushedOver(opts, r, path[0].disk)
    requires forall m :: m in r.disk.logs ==> m <= r.vs.nextFile
    ensures var e := path[6];
            && e.pc == Idle && e.hist == path[0].hist && e.imm.None? && e.mem in e.mems && e.mems[e.mem] == []
            && e.vs.lastSeq == r.vs.lastSeq && e.vs.current == Reloaded(path[0].disk).current
  {
    hide Reloaded, StackOf, ValidVersion, Enabled, Do, SoundDisk;
    assert steps[2] == DropEmptyLog && steps[3] == CreateLog && steps[4] == SwitchManifest && steps[5] == AppendEdit;
    assert path[1] == Do(opts, path[0], steps[0]) && path[2] == Do(opts, path[1], steps[1]);
    RecoverStage(opts, r, path[0], steps[0], steps[1]);
    assert path[3] == Do(opts, path[2], DropEmptyLog) && path[4] == Do(opts, path[3], CreateLog);
    CreateStep(opts, path[3]);
    assert path[5] == Do(opts, path[4], SwitchManifest) && path[6] == Do(opts, path[5], AppendEdit);
    SwitchedStep(opts, path[4]);
    ReopenStep(opts, path[5]);
  }

  lemma {:induction false} RecoverStage(opts: Options, r: State, s: State, crash: Step, open: Step)
    requires s.pc == Idle && FlushedOver(opts, r, s.disk) && crash.Crash? && open.Open?
    requires forall m :: m in r.disk.logs ==> m <= r.vs.nextFile
    requires Enabled(opts, s, crash) && Enabled(opts, Do(opts, s, crash), open)
    requires Enabled(opts, Do(opts, Do(opts, s, crash), open), DropEmptyLog)
    ensures var p := Do(opts, Do(opts, Do(opts, s, crash), open), DropEmptyLog);
            p.pc == Recovering([]) && p.hist == s.hist && p.vs == Reloaded(s.disk)
  {
    hide Reloaded, StackOf, ValidVersion, IsLive, SoundDisk, ReadBack;
    var p1, n := Do(opts, s, crash), r.vs.nextFile;
    SameReload(s.disk, s.disk.(logs := map[]));
    ReloadedIgnores(s.disk.(logs := map[]), crash.tables);
    SameReload(p1.disk, s.disk.(logs := map[], tables := crash.tables));
    assert LiveLogs(p1.disk.logs, n, [n]);
    LiveUnique(p1.disk.logs, n, open.pending, [n]);
  }

  lemma {:induction false} SwitchedStep(opts: Options, s: State)
    requires Enabled(opts, s, SwitchManifest)
    ensures var s' := Do(opts, s, SwitchManifest); s'.vs == Switched(s.vs) && s'.hist == s.hist && s'.pc == s.pc
  {
    hide Snapshot, EraseEdit;
    SwitchStep(opts, s);
  }

  /** The edit that installs a new log. */
  ghost predicate ReopenEdit(s: State) {
    && s.pc.Committing? && s.pc.after.Reopened? && ValidVersion(s.vs.current)
    && s.pc.edit.added == [] && s.pc.edit.deleted == {} && s.pc.edit.lastSeq == Some(s.vs.lastSeq)
  }

  lemma {:induction false} ReopenStep(opts: Options, s: State)
    requires ReopenEdit(s) && Enabled(opts, s, AppendEdit)
    ensures var s' := Do(opts, s, AppendEdit);
            && s'.pc == Idle && s'.imm == None && s'.mem == s.pc.after.log && s'.mems == map[s'.mem := []]
            && s'.hist == s.hist && s'.vs.current == s.vs.current && s'.vs.lastSeq == s.vs.lastSeq
            && s'.vs.nextFile == s.vs.nextFile && s'.disk == Logged(s.disk, s.pc.edit)
  {
    hide Apply, ValidVersion, EraseEdit;
    ApplyNothing(s.vs.current, s.pc.edit);
  }

  lemma {:induction false} LogsBelow(opts: Options, s: State)
    requires Inv(opts, s) && s.pc == Idle
    ensures forall m :: m in s.disk.logs ==> m <= s.vs.nextFile
  {
    hide Reloaded, ReplayAll, GoodVersion, ValidLog, Recoverable, MemsMatch, Sorted;
  }

  /** However the process is restarted after that flush, the database gives the answers it gave right
      after the rotation: what only the overwritten memtable held is lost for good. */
  lemma {:induction false} FlushDurableIff(opts: Options, s: State, path: seq<State>, steps: seq<Step>, k: Key)
    requires Inv(opts, s) && s.pc == Idle && s.imm.Some? && CanFlush(opts, Rotated(s))
    requires IsPath(opts, path, steps) && IsRestart(steps)
    requires path[0] == Do(opts, Do(opts, Rotated(s), BeginFlush), AppendEdit)
    ensures var e := path[6];
            && e.pc == Idle && e.hist == s.hist && e.mem in e.mems && e.imm.None?
            && s.mem in s.mems && s.imm.value in s.mems && s.mem in Rotated(s).mems
            && Read(e, k) == Read(Rotated(s), k)
            && (Read(e, k) == Expected(s.hist, k) <==> Dispensable(s, k))
  {
    hide Inv, FlushedOver, Read, Expected, Dispensable, Rotated, Reloaded, Running, Do, Enabled;
    assert |path| == 7;
    FlushStage(opts, s);
    LogsBelow(opts, s);
    RestartStage(opts, s, path, steps);
    RunningMems(opts, s);
    FlushReadsIff(opts, s, k);
    RotatedMems(s);
    SameReads(opts, s, path[6], path[0].disk, k);
  }

  /** A crash before that flush is committed does no harm: the overwritten memtable is still in its
      log. */
  lemma {:induction false} CrashBeforeCommit(opts: Options, s: State, t: State, crash: Step)
    requires Inv(opts, s) && s.pc == Idle && s.imm.Some?
    requires t == Rotated(s) || (Enabled(opts, Rotated(s), BeginFlush) && t == Do(opts, Rotated(s), BeginFlush))
    requires crash.Crash? && Enabled(opts, t, crash)
    ensures var c := Do(opts, t, crash); c.pc == Down && c.hist == s.hist && RecoversTo(c.disk, s.hist)
  {
    hide Inv, Running, RecoversTo, Reloaded, Level0File, IsLive, WithTables, KeepsLive;
    RunningMems(opts, s);
    RunningFacts(s);
    var files := if t == Rotated(s) then [] else [Level0File(opts, s.mems[s.mem], s.vs.nextFile + 1)];
    FlushTables(opts, s, t, files);
    assert KeepsLive(t.disk, crash.tables) by { CrashTables(opts, t, crash); }
    SameReload(t.disk, s.disk.(tables := t.disk.tables));
    KeptTwice(s.disk, t.disk, crash.tables);
    RotatedRecovers(s, Do(opts, t, crash).disk);
  }

  /** `tables` has the live tables of the disk. */
  ghost predicate KeepsLive(d: Disk, tables: map<nat, seq<Entry>>) {
    forall n :: n in d.tables && IsLive(Reloaded(d).current, n) ==> n in tables && tables[n] == d.tables[n]
  }

  lemma {:induction false} CrashTables(opts: Options, t: State, crash: Step)
    requires crash.Crash? && Enabled(opts, t, crash)
    ensures KeepsLive(t.disk, crash.tables)
  {
    hide Reloaded, IsLive;
  }

  /** The new table has a new number. */
  lemma {:induction false} FlushTables(opts: Options, s: State, t: State, files: seq<File>)
    requires Running(s) && s.mem in s.mems && s.pc == Idle
    requires t == Rotated(s) || (Enabled(opts, Rotated(s), BeginFlush) && t == Do(opts, Rotated(s), BeginFlush))
    requires files == if t == Rotated(s) then [] else [Level0File(opts, s.mems[s.mem], s.vs.nextFile + 1)]
    ensures t.disk == Disk(s.disk.records, WithTables(s.disk.tables, files), s.disk.logs[s.vs.nextFile := []])
    ensures t.hist == s.hist && !t.pc.Writing?
    ensures Reloaded(s.disk.(tables := t.disk.tables)) == Reloaded(s.disk) && KeepsLive(s.disk, t.disk.tables)
  {
    hide Reloaded, SoundDisk, Recoverable, MemsMatch, MemsSane, IsLive, Matches;
    RunningFacts(s);
    assert WithTables(s.disk.tables, []) == s.disk.tables;
    assert SoundDisk(s.disk) && s.vs.nextFile >= Reloaded(s.disk).nextFile by { RunningNumbers(s); }
    NewTablesIgnored(s.disk, files);
    NewTablesKept(s.disk, files);
  }

  lemma {:induction false} RunningNumbers(s: State)
    requires Running(s)
    ensures SoundDisk(s.disk) && s.vs.nextFile >= Reloaded(s.disk).nextFile
  {
    hide Reloaded, SoundDisk, Recoverable, MemsMatch, MemsSane;
  }

  lemma {:induction false} NewTablesKept(d: Disk, files: seq<File>)
    requires SoundDisk(d) && forall i :: 0 <= i < |files| ==> files[i].number >= Reloaded(d).nextFile
    ensures KeepsLive(d, WithTables(d.tables, files))
  {
    hide Reloaded, ReplayAll, ValidLog, ValidVersion, DistinctFiles, WithTables;
    forall n | n in d.tables && IsLive(Reloaded(d).current, n)
      ensures n in WithTables(d.tables, files) && WithTables(d.tables, files)[n] == d.tables[n]
    {
      TableKept(d.tables, files, n);
    }
  }

  lemma {:induction false} KeptTwice(d: Disk, d': Disk, tables: map<nat, seq<Entry>>)
    requires KeepsLive(d, d'.tables) && KeepsLive(d', tables) && Reloaded(d') == Reloaded(d)
    ensures KeepsLive(d, tables)
  {
    hide Reloaded, IsLive;
  }

  /** Manifest, logs and the new empty log represent the history. */
  lemma {:induction false} RotatedRecovers(s: State, d: Disk)
    requires Running(s) && KeepsLive(s.disk, d.tables)
    requires d == Disk(s.disk.records, d.tables, s.disk.logs[s.vs.nextFile := []])
    ensures RecoversTo(d, s.hist)
  {
    hide Reloaded, RecoversTo, Represents, StackOf, SoundDisk, ValidVersion, IsLive, LiveLogs, ValidLog, Running;
    RunningNumbers(s);
    ReloadedIgnores(s.disk, d.tables);
    SameReload(s.disk.(tables := d.tables), d);
    var n, p := s.vs.nextFile, Live(s);
    RunningCore(s);
    NewLogLive(s.disk, s.vs.logNumber, p, n, s.disk.(logs := d.logs));
    EmptyOnTop(LogStack(s.disk.logs, p), StackOf(s.vs.current), s.hist);
    EmptyLogValid();
    assert LogStack(d.logs, p + [n]) + StackOf(s.vs.current) == [[]] + LogStack(s.disk.logs, p) + StackOf(s.vs.current);
    DiskRecovers(d, p + [n], s.hist);
  }

  lemma {:induction false} RunningCore(s: State)
    requires Running(s)
    ensures var p := Live(s);
            && LiveLogs(s.disk.logs, s.vs.logNumber, p)
            && Represents(LogStack(s.disk.logs, p) + StackOf(s.vs.current), s.hist)
            && (forall m :: m in p ==> m < s.vs.nextFile && m in s.disk.logs && ValidLog(s.disk.logs[m]))
            && s.vs.nextFile !in s.disk.logs && s.vs.logNumber <= s.vs.nextFile
            && Reloaded(s.disk).current == s.vs.current && Reloaded(s.disk).logNumber == s.vs.logNumber
            && ValidVersion(s.vs.current)
  {
    hide Reloaded, Represents, StackOf, ReplayAll, ValidLog, SeqKnown, SortedLog, Sorted, ValidVersion, DistinctFiles,
         NumbersBelow;
  }

  lemma {:induction false} RotatedMems(s: State)
    requires s.mem in s.mems
    ensures var t := Rotated(s); t.mem in t.mems && t.imm == Some(s.mem) && s.mem in t.mems
  {
  }

  lemma {:induction false} SameReads(opts: Options, s: State, e: State, d: Disk, k: Key)
    requires FlushedOver(opts, s, d) && e.imm.None? && e.mem in e.mems && e.mems[e.mem] == []
    requires e.vs.lastSeq == s.vs.lastSeq && e.vs.current == Reloaded(d).current
    requires s.mem != s.vs.nextFile
    ensures s.mem in Rotated(s).mems && Read(e, k) == Read(Rotated(s), k)
  {
    hide Reloaded, StackOf, ValidVersion, FirstHit;
    var a, b := s.mems[s.mem], StackOf(s.vs.current);
    assert Sources(Capture(e), e.mems) == [[]] + ([a] + b) == [[]] + [a] + b;
    assert Sources(Capture(Rotated(s)), Rotated(s).mems) == [[]] + [a] + b;
  }

  // ---- From a new database ----

  /** An edit of a small database: numbers below 16, nothing deleted, and no file but the level 0
      table of `es`. */
  ghost predicate SmallEdit(opts: Options, es: seq<Entry>, e: Edit) {
    && (e.comparator.Some? ==> e.comparator.value == COMPARATOR)
    && (e.logNumber.Some? ==> e.logNumber.value < 16)
    && (e.nextFile.Some? ==> e.nextFile.value < 16)
    && (e.lastSeq.Some? ==> e.lastSeq.value < 16)
    && e.deleted == {} && |e.added| <= 1
    && forall a :: a in e.added ==> a.0 == 0 && a.1.number < 16 && a.1 == Erase(Level0File(opts, es, a.1.number))
  }

  /** The limits leave room for these entries as a table, and for such edits. */
  ghost predicate TakesSmall(opts: Options, es: seq<Entry>) {
    opts.tableFits(es) && forall e :: SmallEdit(opts, es, e) ==> opts.editFits(e)
  }

  lemma {:induction false} SmallIsTaken(opts: Options, es: seq<Entry>, e: Edit)
    requires TakesSmall(opts, es) && SmallEdit(opts, es, EraseEdit(e))
    ensures opts.editFits(EraseEdit(e))
  {
    hide SmallEdit, EraseEdit;
  }

  /** An edit without files is its own erasure. */
  lemma {:induction false} NoFilesErased(e: Edit)
    requires e.added == []
    ensures EraseEdit(e) == e
  {
  }

  /** The edit that makes log 3 the log of a new database. */
  function FirstLog(): Edit {
    EMPTY_EDIT.(logNumber := Some(3), nextFile := Some(4), lastSeq := Some(0))
  }

  /** The first steps of a new database. */
  lemma {:induction false} Create(opts: Options, es: seq<Entry>, s: State) returns (run: seq<State>, steps: seq<Step>)
    requires Init(s) && TakesSmall(opts, es)
    ensures |run| == 4 && IsRun(opts, run, steps) && run[0] == s
    ensures steps == [AppendEdit, CreateLog, AppendEdit]
    ensures var e := run[3];
            && Inv(opts, e) && e.pc == Idle && e.imm.None? && e.mem in e.mems && e.mems[e.mem] == []
            && e.vs.current == EMPTY_VERSION && e.vs.lastSeq == 0 && e.vs.nextFile == 4 && e.hist == []
            && e.mem == 3 && e.mems == map[3 := []]
            && e.disk == Disk(s.disk.records + [s.pc.edit, FirstLog()], map[], map[3 := []])
  {
    hide Inv, Restarted, EMPTY_VERSION, Enabled, Do, TakesSmall, ValidVersion, EraseEdit;
    EmptyValid();
    steps := [AppendEdit, CreateLog, AppendEdit];
    NoFilesErased(s.pc.edit);
    SmallIsTaken(opts, es, s.pc.edit);
    CreatedStep(opts, s);
    var s1 := Do(opts, s, AppendEdit);
    CreateStep(opts, s1);
    var s2 := Do(opts, s1, CreateLog);
    NoFilesErased(s2.pc.edit);
    SmallIsTaken(opts, es, s2.pc.edit);
    ReopenPossible(opts, s2);
    ReopenStep(opts, s2);
    run := [s, s1, s2, Do(opts, s2, AppendEdit)];
    RunKeeps(opts, run, steps, 3);
    InitDisk(s);
    assert s.disk.records + [s.pc.edit] + [s2.pc.edit] == s.disk.records + [s.pc.edit, FirstLog()];
  }

  lemma {:induction false} InitDisk(s: State)
    requires Init(s)
    ensures s.disk == Disk([EraseEdit(Snapshot(Switched(NEW_VERSION_SET)))], map[], map[])
  {
    hide EraseEdit, Snapshot, EMPTY_VERSION;
  }

  lemma {:induction false} CreatedStep(opts: Options, s: State)
    requires Init(s) && opts.editFits(EraseEdit(s.pc.edit))
    ensures Enabled(opts, s, AppendEdit)
    ensures var s' := Do(opts, s, AppendEdit);
            && s'.pc == Recovering([]) && s'.hist == [] && s'.vs == s.vs && s'.disk == Logged(s.disk, s.pc.edit)
  {
    hide Apply, Restarted, EMPTY_VERSION, EraseEdit, ValidVersion;
    EmptyValid();
    ApplyNothing(EMPTY_VERSION, s.pc.edit);
  }

  lemma {:induction false} ReopenPossible(opts: Options, s: State)
    requires ReopenEdit(s) && s.vs.open && opts.editFits(EraseEdit(s.pc.edit))
    requires s.pc.edit.logNumber.Some? && s.pc.edit.logNumber.value >= s.vs.logNumber
    ensures Enabled(opts, s, AppendEdit)
  {
    hide ValidVersion, EraseEdit;
  }

  /** The restart after the flush: its edits are small. */
  lemma {:induction false} RestartPossible(opts: Options, r: State, s: State)
    returns (path: seq<State>, steps: seq<Step>)
    requires s.pc == Idle && FlushedOver(opts, r, s.disk) && TakesSmall(opts, r.mems[r.mem])
    requires forall m :: m in r.disk.logs ==> m <= r.vs.nextFile
    requires r.vs.current == EMPTY_VERSION && r.vs.nextFile < 8 && r.vs.lastSeq < 16
    ensures IsRestart(steps) && IsPath(opts, path, steps) && path[0] == s
  {
    hide Reloaded, StackOf, ValidVersion, Enabled, Do, SoundDisk, TakesSmall, EraseEdit, Snapshot, EMPTY_VERSION,
         Pushed, Level0File;
    var n, es := r.vs.nextFile, r.mems[r.mem];
    steps := [Crash(true, s.disk.tables), Open([n]), DropEmptyLog, CreateLog, SwitchManifest, AppendEdit];
    RecoverPossible(opts, r, s);
    RecoverStage(opts, r, s, steps[0], steps[1]);
    var p1 := Do(opts, s, steps[0]);
    var p2 := Do(opts, p1, steps[1]);
    var p3 := Do(opts, p2, DropEmptyLog);
    CreateStep(opts, p3);
    var p4 := Do(opts, p3, CreateLog);
    SmallSnapshot(opts, es, p4.vs, n + 1);
    SmallIsTaken(opts, es, Snapshot(Switched(p4.vs)));
    SwitchStep(opts, p4);
    var p5 := Do(opts, p4, SwitchManifest);
    NoFilesErased(p5.pc.edit);
    SmallIsTaken(opts, es, p5.pc.edit);
    ReopenPossible(opts, p5);
    path := [s, p1, p2, p3, p4, p5, Do(opts, p5, AppendEdit)];
  }

  /** The snapshot of a version with one table. */
  lemma {:induction false} SmallSnapshot(opts: Options, es: seq<Entry>, vs: VersionSet, n: nat)
    requires Pushed(EMPTY_VERSION, Level0File(opts, es, n), vs.current) && n < 16
    requires vs.nextFile < 15 && vs.logNumber < 16 && vs.lastSeq < 16
    ensures SmallEdit(opts, es, EraseEdit(Snapshot(Switched(vs))))
  {
    hide Level0File;
    var f := Level0File(opts, es, n);
    assert f.number == n by { FileNumber(opts, es, n); }
    OneFile(vs.current, f);
    assert EraseAdded([(0, f)]) == [(0, Erase(f))];
    FileNumber(opts, es, n);
  }

  lemma {:induction false} FileNumber(opts: Options, es: seq<Entry>, n: nat)
    ensures Level0File(opts, es, n).number == n
  {
  }

  lemma {:induction false} OneFile(v: Version, f: File)
    requires Pushed(EMPTY_VERSION, f, v)
    ensures AllFiles(v, NUM_LEVELS) == [(0, f)]
  {
    forall l | 0 <= l < NUM_LEVELS ensures EMPTY_VERSION[l] == [] { EmptyLevels(l); }
    hide EMPTY_VERSION;
    assert v[0] == [f];
    LowerLevels(v, f, NUM_LEVELS);
  }

  lemma {:induction false} LowerLevels(v: Version, f: File, l: nat)
    requires 1 <= l <= NUM_LEVELS && v[0] == [f] && forall m :: 1 <= m < NUM_LEVELS ==> v[m] == []
    ensures AllFiles(v, l) == [(0, f)]
  {
    if l == 1 {
      assert AllFiles(v, 0) == [] && AllAt(0, [f]) == [(0, f)];
    } else {
      LowerLevels(v, f, l - 1);
      assert AllAt(l - 1, v[l - 1]) == [];
    }
  }

  lemma {:induction false} RecoverPossible(opts: Options, r: State, s: State)
    requires s.pc == Idle && FlushedOver(opts, r, s.disk)
    requires forall m :: m in r.disk.logs ==> m <= r.vs.nextFile
    ensures Enabled(opts, s, Crash(true, s.disk.tables))
    ensures var p1 := Do(opts, s, Crash(true, s.disk.tables));
            && Enabled(opts, p1, Open([r.vs.nextFile]))
            && Enabled(opts, Do(opts, p1, Open([r.vs.nextFile])), DropEmptyLog)
  {
    hide Reloaded, StackOf, ValidVersion, IsLive, SoundDisk;
    assert Do(opts, s, Crash(true, s.disk.tables)).disk == s.disk;
  }

  /** The calls that lose a write: put `k`, fill the memtable so that it rotates, put another key,
      call `FlushMemTable` before the background thread has run, and reopen the database. */
  lemma {:induction false} FlushMemTableLosesWrite(opts: Options, s: State, k: Key, v: Bytes, k2: Key, v2: Bytes)
    returns (run: seq<State>, steps: seq<Step>, path: seq<State>, more: seq<Step>)
    requires Init(s) && TakesSmall(opts, [Entry(k2, 2, VALUE, v2)]) && k != k2
    requires Readable(Entry(k, 1, VALUE, v)) && Readable(Entry(k2, 2, VALUE, v2))
    ensures |run| == 9 && IsRun(opts, run, steps) && run[0] == s
    ensures steps == [AppendEdit, CreateLog, AppendEdit, Append(k, VALUE, v), Acknowledge, Rotate,
                      Append(k2, VALUE, v2), Acknowledge]
    ensures run[8].pc == Idle && run[8].mem in run[8].mems && run[8].mems[run[8].mem] != []
    ensures CanFlush(opts, Rotated(run[8])) && path != []
    ensures path[0] == Do(opts, Do(opts, Rotated(run[8]), BeginFlush), AppendEdit)
    ensures IsRestart(more) && IsPath(opts, path, more)
    ensures var e := path[6];
            && e.pc == Idle && e.mem in e.mems && e.imm.None?
            && Expected(e.hist, k) == Found(v) && Read(e, k) == Missing
  {
    hide Inv, StackOf, Visible, AddSorted, Read, Expected, Do, Enabled, Init, TakesSmall, Rotated, Dispensable,
         Readable, FlushedOver, CanFlush, EMPTY_VERSION;
    var es := [Entry(k2, 2, VALUE, v2)];
    var start, first := Create(opts, es, s);
    var writes, next := TwoWrites(opts, start[3], k, v, k2, v2);
    run, steps := start + writes[1..], first + next;
    Joined(opts, start, first, writes, next);
    var t := run[8];
    assert t == writes[5];
    AddOne(es[0]);
    path, more := LosingPath(opts, t);
    FlushDurableIff(opts, t, path, more, k);
    ExpectedLast([], Entry(k, 1, VALUE, v), [Entry(k2, 2, VALUE, v2)]);
    assert [] + [Entry(k, 1, VALUE, v)] + [Entry(k2, 2, VALUE, v2)] == t.hist;
    NotInNew(t, k, Entry(k2, 2, VALUE, v2));
  }

  lemma {:induction false} AddOne(e: Entry)
    ensures AddSorted([], e) == [e]
  {
  }

  lemma {:induction false} LosingPath(opts: Options, s: State) returns (path: seq<State>, steps: seq<Step>)
    requires Inv(opts, s) && s.pc == Idle && s.mem in s.mems && TakesSmall(opts, s.mems[s.mem])
    requires s.vs.current == EMPTY_VERSION && s.vs.nextFile < 8 && s.vs.lastSeq < 16
    ensures IsRestart(steps) && IsPath(opts, path, steps) && CanFlush(opts, Rotated(s))
    ensures path[0] == Do(opts, Do(opts, Rotated(s), BeginFlush), AppendEdit)
  {
    hide Inv, Do, Enabled, TakesSmall, Rotated, FlushedOver, EMPTY_VERSION;
    FlushPossible(opts, s);
    SmallFlush(opts, s);
    FlushStage(opts, s);
    LogsBelow(opts, s);
    path, steps := RestartPossible(opts, s, Do(opts, Do(opts, Rotated(s), BeginFlush), AppendEdit));
  }

  lemma {:induction false} SmallFlush(opts: Options, s: State)
    requires s.mem in s.mems && TakesSmall(opts, s.mems[s.mem]) && s.vs.nextFile < 8 && s.vs.lastSeq < 16
    ensures var n := s.vs.nextFile;
            var f := Level0File(opts, s.mems[s.mem], n + 1);
            && opts.tableFits(s.mems[s.mem])
            && opts.editFits(EraseEdit(WithDefaults(s.vs.(nextFile := n + 2), TableEdit(f, n))))
  {
    hide Level0File;
    var n, es := s.vs.nextFile, s.mems[s.mem];
    var f := Level0File(opts, es, n + 1);
    FileNumber(opts, es, n + 1);
    assert EraseAdded([(0, f)]) == [(0, Erase(f))];
    SmallIsTaken(opts, es, WithDefaults(s.vs.(nextFile := n + 2), TableEdit(f, n)));
  }

  lemma {:induction false} Joined(opts: Options, run: seq<State>, steps: seq<Step>, path: seq<State>, more: seq<Step>)
    requires IsRun(opts, run, steps) && IsPath(opts, path, more) && path[0] == run[|run| - 1]
    ensures IsRun(opts, run + path[1..], steps + more)
  {
    hide Enabled, Do, Init;
    var all, every := run + path[1..], steps + more;
    forall i | 0 <= i < |every| ensures Enabled(opts, all[i], every[i]) && all[i + 1] == Do(opts, all[i], every[i]) {
      if i >= |steps| {
        var j := i - |steps|;
        assert all[i] == path[j] && every[i] == more[j] && all[i + 1] == path[j + 1];
      }
    }
  }

  /** After the rotation only the second memtable and the empty version are searched. */
  lemma {:induction false} NotInNew(s: State, k: Key, e: Entry)
    requires s.mem in s.mems && s.mems[s.mem] == AddSorted([], e) && e.key != k
    requires s.vs.current == EMPTY_VERSION && s.mem != s.vs.nextFile
    ensures s.mem in Rotated(s).mems && Read(Rotated(s), k) == Missing && s.mems[s.mem] != []
  {
    hide StackOf, FirstHit, EMPTY_VERSION, AddSorted, Visible;
    AddInvisible(e, k, s.vs.lastSeq);
    NothingVisible(k, s.vs.lastSeq);
    TwoSources([], s.mems[s.mem], StackOf(s.vs.current), k, s.vs.lastSeq);
    EmptyHits(k, s.vs.lastSeq);
  }

  lemma {:induction false} EmptyHits(k: Key, q: nat)
    ensures FirstHit(StackOf(EMPTY_VERSION), k, q) == Missing
  {
    hide FirstHit;
    var st := StackOf(EMPTY_VERSION);
    forall i | 0 <= i < |st| ensures Visible(st[i], k, q).None? {
      assert st[0 + (i + 1) - 1] == Flatten(EMPTY_VERSION[i + 1]);
    }
    FirstHitIs(st, k, q, |st|);
  }

  /** Put `k`, rotate, put `k2`: the first write is in the immutable memtable, the second in the new
      one. */
  lemma {:induction false} TwoWrites(opts: Options, s: State, k: Key, v: Bytes, k2: Key, v2: Bytes)
    returns (path: seq<State>, steps: seq<Step>)
    requires Inv(opts, s) && s.pc == Idle && s.imm.None? && s.mem in s.mems
    requires Readable(Entry(k, s.vs.lastSeq + 1, VALUE, v)) && Readable(Entry(k2, s.vs.lastSeq + 2, VALUE, v2))
    ensures |path| == 6 && IsPath(opts, path, steps) && path[0] == s && Inv(opts, path[5])
    ensures steps == [Append(k, VALUE, v), Acknowledge, Rotate, Append(k2, VALUE, v2), Acknowledge]
    ensures var t := path[5];
            && t.pc == Idle && t.imm.Some? && t.mem in t.mems && t.vs.current == s.vs.current
            && t.mems[t.mem] == AddSorted([], Entry(k2, s.vs.lastSeq + 2, VALUE, v2))
            && t.mem < t.vs.nextFile == s.vs.nextFile + 1 && t.vs.lastSeq == s.vs.lastSeq + 2
            && t.hist == s.hist + [Entry(k, s.vs.lastSeq + 1, VALUE, v), Entry(k2, s.vs.lastSeq + 2, VALUE, v2)]
  {
    hide Inv, AddSorted, Do, Enabled, Readable, Running;
    steps := [Append(k, VALUE, v), Acknowledge, Rotate, Append(k2, VALUE, v2), Acknowledge];
    var s2 := OneWrite(opts, s, k, v);
    var s3 := OneRotation(opts, s2);
    var t := OneWrite(opts, s3, k2, v2);
    path := [s, Do(opts, s, steps[0]), s2, s3, Do(opts, s3, steps[3]), t];
    RunningMems(opts, t);
  }

  lemma {:induction false} OneWrite(opts: Options, s: State, k: Key, v: Bytes) returns (s': State)
    requires Inv(opts, s) && s.pc == Idle && s.mem in s.mems && Readable(Entry(k, s.vs.lastSeq + 1, VALUE, v))
    ensures s'.hist == s.hist + [Entry(k, s.vs.lastSeq + 1, VALUE, v)]
    ensures Enabled(opts, s, Append(k, VALUE, v)) && Enabled(opts, Do(opts, s, Append(k, VALUE, v)), Acknowledge)
    ensures s' == Do(opts, Do(opts, s, Append(k, VALUE, v)), Acknowledge) && Inv(opts, s')
    ensures s'.pc == Idle && s'.imm == s.imm && s'.mem == s.mem && s'.vs == s.vs.(lastSeq := s.vs.lastSeq + 1)
    ensures s.mem in s.disk.logs
    ensures var e := Entry(k, s.vs.lastSeq + 1, VALUE, v);
            s'.disk == s.disk.(logs := s.disk.logs[s.mem := s.disk.logs[s.mem] + [e]])
    ensures s'.mems == s.mems[s.mem := AddSorted(s.mems[s.mem], Entry(k, s.vs.lastSeq + 1, VALUE, v))]
  {
    hide Inv, AddSorted, Running;
    RunningMems(opts, s);
    RunningLogs(s);
    var s1 := Do(opts, s, Append(k, VALUE, v));
    StepKeeps(opts, s, Append(k, VALUE, v));
    StepKeeps(opts, s1, Acknowledge);
    s' := Do(opts, s1, Acknowledge);
  }

  lemma {:induction false} OneRotation(opts: Options, s: State) returns (s': State)
    requires Inv(opts, s) && s.pc == Idle && s.imm.None? && s.mem in s.mems
    ensures Enabled(opts, s, Rotate) && s' == Do(opts, s, Rotate) == Rotated(s) && Inv(opts, s')
    ensures s'.pc == Idle && s'.imm == Some(s.mem) && s'.mem in s'.mems && s'.mems[s'.mem] == []
    ensures s'.vs == s.vs.(nextFile := s.vs.nextFile + 1) && s'.hist == s.hist
    ensures s'.mem != s.mem && s.mem in s'.mems && s'.mems[s.mem] == s.mems[s.mem]
  {
    hide Inv, Running;
    RunningMems(opts, s);
    StepKeeps(opts, s, Rotate);
    s' := Do(opts, s, Rotate);
  }

  lemma {:induction false} RunningLogs(s: State)
    requires Running(s)
    ensures s.mem in s.disk.logs
  {
    hide Core, MemsMatch, Reloaded, Sorted;
    RunningFacts(s);
  }

  lemma {:induction false} AddInvisible(e: Entry, k: Key, s: nat)
    requires e.key != k
    ensures Visible(AddSorted([], e), k, s).None? && AddSorted([], e) != []
  {
  }
}
