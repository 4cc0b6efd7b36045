/** Unlinking, crashing and reopening. */
module EngineRecover {
  import opened Entries
  import opened Recency
  import opened Versions
  import opened Edits
  import opened Compactions
  import opened CompactionCorrect
  import opened Manifest
  import opened Engine
  import opened EngineInvariant
  import opened EngineSteps
  import opened EngineTables
  import opened EngineCompact
  import opened EngineFinish

  // ---- Unlinking a replayed or empty log ----

  lemma {:induction false} UnlinkedLive(logs: map<nat, seq<Entry>>, logNumber: nat, p: seq<nat>)
    requires LiveLogs(logs, logNumber, p) && p != []
    ensures LiveLogs(logs - {p[0]}, logNumber, p[1..])
    ensures (forall n :: n in p[1..] ==> n in logs) && LogStack(logs - {p[0]}, p[1..]) == LogStack(logs, p[1..])
  {
    forall n ensures n in p[1..] <==> n in p && n != p[0] {
      if n in p && n != p[0] { var i :| 0 <= i < |p| && p[i] == n; assert p[1..][i - 1] == n; }
      if n in p[1..] { var i :| 0 <= i < |p[1..]| && p[1..][i] == n; assert p[0] < p[i + 1]; }
    }
  }

  lemma {:induction false} UnlinkedSeq(bound: nat, logs: map<nat, seq<Entry>>, logNumber: nat, p: seq<nat>, last: nat)
    requires LiveLogs(logs, logNumber, p) && p != [] && SeqKnown(bound, logs, p, last)
    requires p[0] in logs && forall e :: e in logs[p[0]] ==> e.seqno <= bound
    ensures (forall n :: n in p[1..] ==> n in logs - {p[0]}) && SeqKnown(bound, logs - {p[0]}, p[1..], last)
  {
    UnlinkedLive(logs, logNumber, p);
    if bound != last {
      var q, e :| q in p && e in logs[q] && e.seqno == last;
      assert q != p[0] && q in p[1..] by { var i :| 0 <= i < |p| && p[i] == q; assert p[1..][i - 1] == q; }
    }
  }

  lemma {:induction false} UnlinkedMeaning(logs: map<nat, seq<Entry>>, logNumber: nat, p: seq<nat>, v: Stack,
      h: seq<Entry>)
    requires LiveLogs(logs, logNumber, p) && p != [] && p[0] in logs
    requires logs[p[0]] == [] || (v != [] && SameMembers(logs[p[0]], v[0]))
    requires Represents(LogStack(logs, p) + v, h)
    ensures LiveLogs(logs - {p[0]}, logNumber, p[1..]) && Represents(LogStack(logs - {p[0]}, p[1..]) + v, h)
  {
    hide Represents;
    UnlinkedLive(logs, logNumber, p);
    OldestLast(logs, p);
    RepresentsRemove(LogStack(logs, p[1..]), logs[p[0]], v, h);
  }

  lemma {:induction false} UnlinkedCore(s: State, p: seq<nat>, s': State)
    requires Restarting(s, p) && Settled(s) && p != [] && p[0] in s.disk.logs
    requires var log := s.disk.logs[p[0]];
             && (log == [] || (s.vs.current[0] != [] && SameMembers(log, Content(s.vs.current[0][0]))))
             && (forall e :: e in log ==> e.seqno <= Reloaded(s.disk).lastSeq)
    requires s' == s.(disk := s.disk.(logs := s.disk.logs - {p[0]}), pc := s'.pc)
    ensures Restarting(s', p[1..]) && Settled(s')
  {
    hide Reloaded, StackOf, Represents, SeqKnown, LiveLogs, GoodVersion, ReplayAll, ValidLog, Content;
    SameReload(s.disk, s'.disk);
    var logs, v := s.disk.logs, s.vs.current;
    UnlinkedMeaning(logs, s.vs.logNumber, p, StackOf(v), s.hist);
    UnlinkedSeq(Reloaded(s.disk).lastSeq, logs, s.vs.logNumber, p, |s.hist|);
    UnlinkedSeq(s.vs.lastSeq, logs, s.vs.logNumber, p, |s.hist|);
  }

  lemma {:induction false} UnlinkLogKeeps(opts: Options, s: State)
    requires Inv(opts, s) && Enabled(opts, s, UnlinkLog)
    ensures Inv(opts, Do(opts, s, UnlinkLog))
  {
    hide Restarting, Settled, Reloaded, Content;
    UnlinkedCore(s, s.pc.pending, Do(opts, s, UnlinkLog));
  }

  lemma {:induction false} DropEmptyLogKeeps(opts: Options, s: State)
    requires Inv(opts, s) && Enabled(opts, s, DropEmptyLog)
    ensures Inv(opts, Do(opts, s, DropEmptyLog))
  {
    hide Core, Settled, Reloaded, Content, SeqKnown;
    NextLogWhole(s, s.pc.pending);
    UnlinkedCore(s, s.pc.pending, Do(opts, s, DropEmptyLog));
  }

  // ---- The new log ----

  lemma {:induction false} ApplyNothing(v: Version, e: Edit)
    requires ValidVersion(v) && e.deleted == {} && e.added == []
    ensures Apply(v, e) == v
  {
    hide ValidVersion, SortFiles, Retained, AddedAt;
    forall l | 0 <= l < NUM_LEVELS ensures Apply(v, e)[l] == v[l] {
      LevelInOrder(v, l);
      RetainedAll(v[l], l, e.deleted);
      AddedNone(e.added, l);
      assert v[l] + [] == v[l];
      SortFixed(l, v[l]);
    }
  }

  lemma {:induction false} NewLogReady(s: State, n: nat, s': State)
    requires Core(s', [n]) && s'.vs.nextFile == n + 1
    requires s'.vs.current == s.vs.current && s'.vs.logNumber <= n
    requires s'.pc.Committing? && s'.pc.edit == WithDefaults(s'.vs, EMPTY_EDIT.(logNumber := Some(n)))
    ensures Ready(s', s'.pc.edit) && Apply(s'.vs.current, s'.pc.edit) == s'.vs.current
  {
    hide Core, Reloaded, Apply;
    CoreVersion(s', [n]);
    ApplyNothing(s'.vs.current, s'.pc.edit);
  }

  lemma {:induction false} CreateLogKeeps(opts: Options, s: State)
    requires Inv(opts, s) && Enabled(opts, s, CreateLog)
    ensures Inv(opts, Do(opts, s, CreateLog))
  {
    hide Core, Reloaded, Apply, Ready, SeqKnown, Settled, LiveLogs, Represents, StackOf, LogStack, FlushEdit;
    var s', n := Do(opts, s, CreateLog), s.vs.nextFile;
    NextLogIsNew(s, []);
    CoreLive(s, []);
    CoreLogNumber(s, []);
    NewLogKeeps(s, [], n, s');
    assert [] + [n] == [n];
    NewLogSeq(s.disk, [], n, s'.disk, s.vs.lastSeq, |s.hist|, s.vs.logNumber);
    NewLogReady(s, n, s');
  }

  lemma {:induction false} CoreLogNumber(s: State, p: seq<nat>)
    requires Core(s, p)
    ensures s.vs.logNumber <= s.vs.nextFile
  {
    hide Reloaded, Recoverable, ReplayAll, GoodVersion, ValidLog;
  }

  // ---- Unlinking tables ----

  lemma {:induction false} DroppedTable(s: State, p: seq<nat>, n: nat, s': State)
    requires Core(s, p) && !IsLive(s.vs.current, n)
    requires s'.disk == s.disk.(tables := s.disk.tables - {n}) && s'.vs == s.vs && s'.hist == s.hist
    ensures Core(s', p) && Reloaded(s'.disk) == Reloaded(s.disk)
  {
    hide Reloaded, StackOf, Represents, SeqKnown, LiveLogs, GoodVersion, ReplayAll, ValidLog, IsLive;
    ReloadedIgnores(s.disk, s.disk.tables - {n});
  }

  lemma {:induction false} UnlinkInputKeeps(opts: Options, s: State)
    requires Inv(opts, s) && Enabled(opts, s, UnlinkInput)
    ensures Inv(opts, Do(opts, s, UnlinkInput))
  {
    hide Core, Reloaded, SortedLog, IsLive;
    var s' := Do(opts, s, UnlinkInput);
    DroppedTable(s, Live(s), s.pc.numbers[0], s');
    assert Live(s') == Live(s);
  }

  lemma {:induction false} RemoveObsoleteKeeps(opts: Options, s: State, step: Step)
    requires Inv(opts, s) && step.RemoveObsolete? && Enabled(opts, s, step)
    ensures Inv(opts, Do(opts, s, step))
  {
    hide Core, Reloaded, SortedLog, IsLive;
    var s' := Do(opts, s, step);
    DroppedTable(s, Live(s), step.number, s');
    assert Live(s') == Live(s);
  }

  // ---- Crashing and reopening ----

  lemma {:induction false} CrashKeepsCore(opts: Options, s: State, p: seq<nat>, step: Step)
    requires Core(s, p) && step.Crash? && Enabled(opts, s, step) && !s.pc.Writing?
    ensures Inv(opts, Do(opts, s, step))
  {
    hide Core, Reloaded, IsLive, Inv;
    CoreSurvives(opts, s, p, Do(opts, s, step));
  }

  lemma {:induction false} CrashWriting(opts: Options, s: State, step: Step)
    requires Inv(opts, s) && step.Crash? && Enabled(opts, s, step) && s.pc.Writing?
    ensures Inv(opts, Do(opts, s, step))
  {
    hide Core, Reloaded, IsLive, MemsMatch, Recoverable, SoundDisk;
    var s', b := Do(opts, s, step), Base(s);
    InFlightIsPending(s);
    if step.survives {
      PendingDisk(b, s, s.pc.e);
      PendingMeaning(b, s, s.pc.e);
      assert Core(s.(hist := s.hist + [s.pc.e]), Live(s)) by { CoreIs(s.(hist := s.hist + [s.pc.e]), Live(s)); }
      CoreSurvives(opts, s.(hist := s.hist + [s.pc.e]), Live(s), s');
    } else {
      CoreSurvives(opts, b, Live(b), s');
    }
  }

  lemma {:induction false} CoreIs(s: State, p: seq<nat>)
    requires SoundDisk(s.disk) && Matches(s.vs, s.disk) && Recoverable(s.disk, p, s.hist)
    ensures Core(s, p)
  {
  }

  lemma {:induction false} CrashDown(opts: Options, s: State, step: Step)
    requires Inv(opts, s) && step.Crash? && Enabled(opts, s, step) && s.pc == Down
    ensures Inv(opts, Do(opts, s, step))
  {
    hide Reloaded, IsLive, GoodVersion, ValidLog, Represents, SeqKnown, StackOf, ReplayAll;
    ReloadedIgnores(s.disk, step.tables);
  }

  lemma {:induction false} CrashKeeps(opts: Options, s: State, step: Step)
    requires Inv(opts, s) && step.Crash? && Enabled(opts, s, step)
    ensures Inv(opts, Do(opts, s, step))
  {
    if s.pc == Down {
      CrashDown(opts, s, step);
    } else if s.pc.Writing? {
      CrashWriting(opts, s, step);
    } else {
      var p := SomeCore(opts, s);
      CrashKeepsCore(opts, s, p, step);
    }
  }

  lemma {:induction false} SomeCore(opts: Options, s: State) returns (p: seq<nat>)
    requires Inv(opts, s) && s.pc != Down && !s.pc.Writing?
    ensures Core(s, p)
  {
    hide Core, Reloaded, Apply, Ready, FlushEdit, IsLive, Represents, StackOf, SeqKnown, MemsMatch, Settled;
    p := match s.pc
      case Recovering(q) => q
      case Replayed(q) => q
      case Committing(_, LogReplayed(q)) => q
      case Committing(_, Reopened(n)) => [n]
      case Committing(_, Created) => []
      case _ => Live(s);
  }

  lemma {:induction false} OpenKeeps(opts: Options, s: State, step: Step)
    requires Inv(opts, s) && step.Open? && Enabled(opts, s, step)
    ensures Inv(opts, Do(opts, s, step))
  {
    hide Reloaded, SoundDisk, Represents, SeqKnown, StackOf, LiveLogs;
  }
}
