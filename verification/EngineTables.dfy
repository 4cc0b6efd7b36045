/** Steps that write table files and hand an edit to the manifest. */
module EngineTables {
  import opened Keys
  import opened Entries
  import opened Records
  import opened Recency
  import opened Versions
  import opened Edits
  import opened Compactions
  import opened CompactionCorrect
  import opened Manifest
  import opened Engine
  import opened EngineInvariant
  import opened EngineCommit
  import opened EngineSteps

  // ---- A new level 0 table ----

  ghost predicate PushesFile(e: Edit, f: File) {
    e.deleted == {} && e.added == [(0, f)]
  }

  lemma {:induction false} PushLevel0(v: Version, f: File, e: Edit)
    requires ValidVersion(v) && NumbersBelow(v, f.number) && AtMost(f.smallest, f.largest) && PushesFile(e, f)
    ensures Apply(v, e)[0] == [f] + v[0]
  {
    hide Less, SortFiles, Retained, AddedAt, ValidFile;
    LevelInOrder(v, 0);
    RetainedAll(v[0], 0, e.deleted);
    assert AllAt(0, [f]) == e.added;
    AddedAll(0, [f]);
    forall i, j | 0 <= i < j < |[f] + v[0]| ensures Above(0, ([f] + v[0])[i], ([f] + v[0])[j]) { }
    assert multiset(v[0] + [f]) == multiset([f] + v[0]);
    SortPermuted(0, v[0] + [f], [f] + v[0]);
  }

  lemma {:induction false} PushOtherLevel(v: Version, f: File, e: Edit, l: nat)
    requires ValidVersion(v) && PushesFile(e, f) && 1 <= l < NUM_LEVELS
    ensures Apply(v, e)[l] == v[l]
  {
    hide Less, SortFiles, Retained, AddedAt, ValidFile;
    LevelInOrder(v, l);
    RetainedAll(v[l], l, e.deleted);
    AddedNone(e.added, l);
    assert v[l] + [] == v[l];
    SortFixed(l, v[l]);
  }

  /** What pushing a file means for the whole version. */
  ghost predicate Pushed(v: Version, f: File, v': Version) {
    v'[0] == [f] + v[0] && forall l :: 1 <= l < NUM_LEVELS ==> v'[l] == v[l]
  }

  lemma {:induction false} PushIs(v: Version, f: File, e: Edit)
    requires ValidVersion(v) && NumbersBelow(v, f.number) && AtMost(f.smallest, f.largest) && PushesFile(e, f)
    ensures Pushed(v, f, Apply(v, e))
  {
    hide Less, Apply, ValidVersion, NumbersBelow, PushesFile;
    PushLevel0(v, f, e);
    forall l | 1 <= l < NUM_LEVELS ensures Apply(v, e)[l] == v[l] { PushOtherLevel(v, f, e, l); }
  }

  lemma {:induction false} PushGood(v: Version, f: File, v': Version)
    requires GoodVersion(v, f.number) && ValidFile(f) && Pushed(v, f, v')
    ensures GoodVersion(v', f.number + 1)
  {
    hide ValidFile, ValidLevel;
    PushDistinct(v, f, v');
  }

  lemma {:induction false} PushDistinct(v: Version, f: File, v': Version)
    requires DistinctFiles(v) && NumbersBelow(v, f.number) && Pushed(v, f, v')
    ensures DistinctFiles(v')
  {
    forall l, m, x, y | 0 <= l < NUM_LEVELS && 0 <= m < NUM_LEVELS && x in v'[l] && y in v'[m] && x.number == y.number
      ensures l == m && x == y
    {
      assert x in v[l] ==> x.number < f.number;
      assert y in v[m] ==> y.number < f.number;
      assert (x in v[l] || (x == f && l == 0)) && (y in v[m] || (y == f && m == 0));
    }
  }

  lemma {:induction false} PushStack(v: Version, f: File, v': Version)
    requires Pushed(v, f, v')
    ensures StackOf(v') == [Content(f)] + StackOf(v)
  {
    hide Flatten, Content;
    var st, st', n := StackOf(v), StackOf(v'), |v[0]|;
    forall i | 0 <= i < |st'| ensures st'[i] == ([Content(f)] + st)[i] {
      if 0 < i <= n {
        assert v'[0][i] == v[0][i - 1];
      } else if i > n {
        var l := i - n;
        assert st'[|v'[0]| + l - 1] == Flatten(v'[l]);
        assert st[n + l - 1] == Flatten(v[l]);
      }
    }
  }

  /** The table of a memtable or of a replayed log. */
  lemma {:induction false} Level0FileIs(opts: Options, log: seq<Entry>, n: nat)
    requires ValidLog(log)
    ensures var f := Level0File(opts, SortedLog(log), n);
            ValidFile(f) && f.number == n && SameMembers(log, Content(f)) && f.reader == Some(SortedLog(log))
  {
    hide SortedLog, Less, Sorted;
    var es := SortedLog(log);
    SortedLogIsSorted(log);
    var f := Level0File(opts, es, n);
    if es != [] { SortedWithin(es); }
  }

  lemma {:induction false} SortedWithin(es: seq<Entry>)
    requires Sorted(es) && es != []
    ensures AtMost(es[0].key, es[|es| - 1].key)
    ensures forall e :: e in es ==> AtMost(es[0].key, e.key) && AtMost(e.key, es[|es| - 1].key)
  {
    hide Less;
    forall i | 0 <= i < |es| ensures AtMost(es[0].key, es[i].key) && AtMost(es[i].key, es[|es| - 1].key) {
      assert i > 0 ==> Before(es[0], es[i]);
      assert i < |es| - 1 ==> Before(es[i], es[|es| - 1]);
    }
    assert AtMost(es[0].key, es[|es| - 1].key);
  }

  // ---- Writing tables ----

  /** Tables with new numbers do not disturb what the disk denotes. */
  lemma {:induction false} NewTablesIgnored(d: Disk, files: seq<File>)
    requires SoundDisk(d)
    requires forall i :: 0 <= i < |files| ==> files[i].number >= Reloaded(d).nextFile
    ensures Reloaded(d.(tables := WithTables(d.tables, files))) == Reloaded(d)
  {
    hide Reloaded, ReplayAll, ValidLog, ValidVersion, DistinctFiles, WithTables;
    var v := Reloaded(d).current;
    forall n | n in d.tables && IsLive(v, n)
      ensures n in WithTables(d.tables, files) && WithTables(d.tables, files)[n] == d.tables[n]
    {
      TableKept(d.tables, files, n);
    }
    ReloadedIgnores(d, WithTables(d.tables, files));
  }

  lemma {:induction false} NewTablesKeep(s: State, pending: seq<nat>, files: seq<File>, s': State)
    requires Core(s, pending)
    requires forall i :: 0 <= i < |files| ==> files[i].number >= s.vs.nextFile
    requires s'.disk == s.disk.(tables := WithTables(s.disk.tables, files)) && s'.hist == s.hist
    requires s'.vs == s.vs.(nextFile := s'.vs.nextFile, lastSeq := s'.vs.lastSeq)
    requires s'.vs.nextFile >= s.vs.nextFile && s'.vs.lastSeq >= s.vs.lastSeq
    ensures Core(s', pending) && Reloaded(s'.disk) == Reloaded(s.disk)
  {
    hide Reloaded, ReplayAll, ValidLog, GoodVersion, Represents, SeqKnown, LiveLogs, WithTables, StackOf;
    NewTablesIgnored(s.disk, files);
  }

  // ---- Flushing a memtable and replaying a log ----

  /** The state in which a table of log `from` has been written and its edit is about to be logged. */
  ghost predicate TableWrittenFor(opts: Options, s: State, from: nat, log: nat, s': State) {
    && from in s.disk.logs
    && var f := Level0File(opts, SortedLog(s.disk.logs[from]), s.vs.nextFile);
       && s'.disk == s.disk.(tables := WithTables(s.disk.tables, [f])) && s'.hist == s.hist
       && s'.vs == s.vs.(nextFile := s.vs.nextFile + 1, lastSeq := s'.vs.lastSeq)
       && s'.vs.lastSeq >= s.vs.lastSeq
       && s'.pc.Committing? && s'.pc.edit == WithDefaults(s'.vs, TableEdit(f, log))
  }

  lemma {:induction false} TableVersion(opts: Options, s: State, pending: seq<nat>, from: nat, log: nat, s': State)
    requires Core(s, pending) && TableWrittenFor(opts, s, from, log, s')
    ensures GoodVersion(Apply(s.vs.current, s'.pc.edit), s'.vs.nextFile)
    ensures FlushEdit(s', s'.pc.edit, from, log)
  {
    hide Reloaded, ReplayAll, Recoverable, SortedLog, Apply, WithTables, ValidFile, DistinctFiles;
    var f, v, e := Level0File(opts, SortedLog(s.disk.logs[from]), s.vs.nextFile), s.vs.current, s'.pc.edit;
    Level0FileIs(opts, s.disk.logs[from], s.vs.nextFile);
    GoodVersionGrows(v, Reloaded(s.disk).nextFile, s.vs.nextFile);
    assert AtMost(f.smallest, f.largest) by { ValidFileRange(f); }
    PushIs(v, f, e);
    PushGood(v, f, Apply(v, e));
  }

  lemma {:induction false} ValidFileRange(f: File)
    requires ValidFile(f)
    ensures AtMost(f.smallest, f.largest)
  {
  }

  lemma {:induction false} TableReady(opts: Options, s: State, pending: seq<nat>, from: nat, log: nat, s': State)
    requires Core(s, pending) && TableWrittenFor(opts, s, from, log, s')
    requires s.vs.logNumber <= log <= s.vs.nextFile
    ensures Core(s', pending) && Ready(s', s'.pc.edit) && FlushEdit(s', s'.pc.edit, from, log)
    ensures Reloaded(s'.disk) == Reloaded(s.disk)
  {
    hide Core, Reloaded, SortedLog, Apply, GoodVersion, FlushEdit, ValidFile;
    TableVersion(opts, s, pending, from, log, s');
    var f := Level0File(opts, SortedLog(s.disk.logs[from]), s.vs.nextFile);
    assert f.number == s.vs.nextFile && f.reader == Some(SortedLog(s.disk.logs[from]));
    TableWritten(s.disk.tables, [f], 0);
    NewTablesKeep(s, pending, [f], s');
  }

  lemma {:induction false} BeginFlushKeeps(opts: Options, s: State)
    requires Inv(opts, s) && Enabled(opts, s, BeginFlush)
    ensures Inv(opts, Do(opts, s, BeginFlush))
  {
    hide Core, Reloaded, SortedLog, Apply, Ready, FlushEdit, WithTables, WithDefaults;
    var s', i := Do(opts, s, BeginFlush), s.imm.value;
    RunningFacts(s);
    RunningLog(s);
    assert i in Live(s) && s.mems[i] == SortedLog(s.disk.logs[i]);
    assert TableWrittenFor(opts, s, i, s.mem, s') by {
      assert [Level0File(opts, s.mems[i], s.vs.nextFile)][..0] == [];
    }
    TableReady(opts, s, Live(s), i, s.mem, s');
    assert Live(s') == Live(s);
  }

  lemma {:induction false} RunningLog(s: State)
    requires Running(s)
    ensures s.vs.logNumber <= s.mem
  {
    hide SoundDisk, Reloaded, StackOf, Represents, SeqKnown, MemsMatch;
    assert s.mem in Live(s);
  }

  lemma {:induction false} ReplayLogKeeps(opts: Options, s: State)
    requires Inv(opts, s) && Enabled(opts, s, ReplayLog)
    ensures Inv(opts, Do(opts, s, ReplayLog))
  {
    hide Core, Reloaded, SortedLog, Apply, Ready, FlushEdit, WithTables, WithDefaults, SeqKnown;
    var s', p := Do(opts, s, ReplayLog), s.pc.pending;
    PendingFacts(s, p, p[0]);
    NextLogWhole(s, p);
    assert TableWrittenFor(opts, s, p[0], p[0], s');
    TableReady(opts, s, p, p[0], p[0], s');
    MaxSeqKnown(s, p, p[0]);
  }

  lemma {:induction false} NextLogWhole(s: State, p: seq<nat>)
    requires Core(s, p) && s.pc == Recovering(p) && p != [] && p[0] in s.disk.logs
    ensures NextLog(s) == s.disk.logs[p[0]]
  {
    hide SoundDisk, Reloaded, Recoverable, ReadBack;
    LogReadsBack(s.disk, p[0]);
  }

  lemma {:induction false} PendingFacts(s: State, p: seq<nat>, n: nat)
    requires Core(s, p) && n in p
    ensures n in s.disk.logs && s.vs.logNumber <= n <= s.vs.nextFile
    ensures forall m :: m in p ==> m in s.disk.logs
  {
    hide Reloaded, StackOf, Represents, SeqKnown, ReplayAll, GoodVersion, ValidLog;
  }

  lemma {:induction false} MaxSeqKnown(s: State, p: seq<nat>, n: nat)
    requires Restarting(s, p) && n in p && n in s.disk.logs
    requires forall m :: m in p ==> m in s.disk.logs
    ensures SeqKnown(MaxSeq(s.vs.lastSeq, s.disk.logs[n]), s.disk.logs, p, |s.hist|)
  {
    hide Reloaded, StackOf, Represents, SoundDisk, MaxSeq;
    forall e | e in s.disk.logs[n] ensures e.seqno <= |s.hist| { LoggedSeqs(s.disk, p, s.hist, n, e); }
  }
}
