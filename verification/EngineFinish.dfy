/** Logging the edit, unlinking, crashing and reopening. */
module EngineFinish {
  import opened Entries
  import opened Recency
  import opened Versions
  import opened Edits
  import opened Compactions
  import opened Manifest
  import opened Engine
  import opened EngineInvariant
  import opened EngineCommit
  import opened EngineSteps
  import opened EngineTables

  // ---- Logging the edit ----

  /** Once the edit is logged, memory and disk agree on everything; only the meaning of the new
      stack is left to show. */
  lemma {:induction false} LoggedCore(s: State, p: seq<nat>, edit: Edit, s': State, q: seq<nat>)
    requires Core(s, p) && Ready(s, edit) && s.vs.open
    requires s'.disk == Logged(s.disk, edit) && s'.vs == Installed(s.vs, edit) && s'.hist == s.hist
    requires LiveLogs(s.disk.logs, s'.vs.logNumber, q)
    requires Represents(LogStack(s.disk.logs, q) + StackOf(s'.vs.current), s.hist)
    requires SeqKnown(s.vs.lastSeq, s.disk.logs, q, |s.hist|)
    ensures Core(s', q) && Settled(s') && s'.vs.open && s'.vs.nextFile == s.vs.nextFile && s'.vs.lastSeq == s.vs.lastSeq
    ensures Reloaded(s'.disk).lastSeq == s.vs.lastSeq
  {
    hide Reloaded, Apply, SoundDisk, Represents, SeqKnown, StackOf, LiveLogs, GoodVersion;
    LoggedDisk(s, edit);
  }

  lemma {:induction false} TopPair(logs: map<nat, seq<Entry>>, i: nat, m: nat, f: File, v: Version, v': Version,
      h: seq<Entry>)
    requires i in logs && m in logs && SameMembers(logs[i], Content(f)) && Pushed(v, f, v')
    requires Represents(LogStack(logs, [i, m]) + StackOf(v), h)
    ensures Represents(LogStack(logs, [m]) + StackOf(v'), h)
  {
    hide Represents, StackOf, Content;
    PushStack(v, f, v');
    var st, st' := LogStack(logs, [i, m]) + StackOf(v), LogStack(logs, [m]) + StackOf(v');
    assert st[0] == logs[m] == st'[0] && st[1] == logs[i] && st'[1] == Content(f);
    assert forall j :: 2 <= j < |st| ==> st[j] == st'[j];
    RepresentsMembers(st, st', h);
  }

  lemma {:induction false} FlushedMeaning(s: State, edit: Edit)
    requires Running(s) && s.imm.Some? && FlushEdit(s, edit, s.imm.value, s.mem)
    ensures LiveLogs(s.disk.logs, s.mem, [s.mem])
    ensures Represents(LogStack(s.disk.logs, [s.mem]) + StackOf(Apply(s.vs.current, edit)), s.hist)
  {
    hide Represents, StackOf, Apply, Reloaded, SoundDisk, MemsMatch, Content, SeqKnown;
    ImmIsOther(s);
    assert s.imm.value in Live(s) && s.mem in Live(s);
    TopPair(s.disk.logs, s.imm.value, s.mem, edit.added[0].1, s.vs.current, Apply(s.vs.current, edit), s.hist);
  }

  lemma {:induction false} KnownSeq(n: nat, logs: map<nat, seq<Entry>>, p: seq<nat>)
    requires forall m :: m in p ==> m in logs
    ensures SeqKnown(n, logs, p, n)
  {
  }

  lemma {:induction false} FlushDoneKeeps(opts: Options, s: State)
    requires Inv(opts, s) && s.pc.Committing? && s.pc.after == FlushDone && Enabled(opts, s, AppendEdit)
    ensures Inv(opts, Do(opts, s, AppendEdit))
  {
    hide Core, Apply, Ready, FlushEdit, StackOf, Represents, Reloaded, SortedLog;
    var s', edit := Do(opts, s, AppendEdit), s.pc.edit;
    FlushLog(s, edit, s.imm.value, s.mem);
    FlushedMeaning(s, edit);
    KnownSeq(|s.hist|, s.disk.logs, [s.mem]);
    LoggedCore(s, Live(s), edit, s', [s.mem]);
    assert s.mem in Live(s) && Live(s') == [s.mem];
  }

  lemma {:induction false} FlushLog(s: State, edit: Edit, from: nat, log: nat)
    requires FlushEdit(s, edit, from, log)
    ensures edit.logNumber == Some(log)
  {
  }

  lemma {:induction false} CompactDoneKeeps(opts: Options, s: State)
    requires Inv(opts, s) && s.pc.Committing? && s.pc.after.CompactDone? && Enabled(opts, s, AppendEdit)
    ensures Inv(opts, Do(opts, s, AppendEdit))
  {
    hide Running, Apply, Ready, StackOf, Represents, Reloaded, IsLive, Settled;
    var s', edit := Do(opts, s, AppendEdit), s.pc.edit;
    CompactDoneRuns(s, edit, s');
  }

  lemma {:induction false} CompactDoneRuns(s: State, edit: Edit, s': State)
    requires edit.lastSeq.Some? && edit.logNumber.None? && Running(s) && Ready(s, edit) && s.vs.open
    requires Represents(LogStack(s.disk.logs, Live(s)) + StackOf(Apply(s.vs.current, edit)), s.hist)
    requires s'.disk == Logged(s.disk, edit) && s'.vs == Installed(s.vs, edit) && s'.hist == s.hist
    requires s'.mem == s.mem && s'.imm == s.imm && s'.mems == s.mems
    ensures Running(s') && Settled(s')
  {
    hide Core, Apply, Ready, StackOf, Represents, Reloaded, SortedLog, Settled;
    CoreLive(s, Live(s));
    KnownSeq(|s.hist|, s.disk.logs, Live(s));
    LoggedCore(s, Live(s), edit, s', Live(s));
    assert Live(s') == Live(s);
  }

  lemma {:induction false} CoreLive(s: State, p: seq<nat>)
    requires Core(s, p)
    ensures LiveLogs(s.disk.logs, s.vs.logNumber, p)
            && Represents(LogStack(s.disk.logs, p) + StackOf(s.vs.current), s.hist)
  {
    hide SoundDisk, Reloaded, StackOf, Represents, SeqKnown, LiveLogs;
  }

  lemma {:induction false} CreatedKeeps(opts: Options, s: State)
    requires Inv(opts, s) && s.pc.Committing? && s.pc.after == Created && Enabled(opts, s, AppendEdit)
    ensures Inv(opts, Do(opts, s, AppendEdit))
  {
    hide Core, Apply, Ready, StackOf, Represents, Reloaded, SeqKnown;
    var s', edit := Do(opts, s, AppendEdit), s.pc.edit;
    CoreLive(s, []);
    LoggedCore(s, [], edit, s', []);
  }

  lemma {:induction false} ReopenedRuns(s: State, n: nat, edit: Edit, s': State)
    requires n in s.disk.logs && s.disk.logs[n] == [] && edit.lastSeq.Some? && edit.logNumber == Some(n)
    requires Restarting(s, [n]) && s.vs.open && Ready(s, edit) && Apply(s.vs.current, edit) == s.vs.current
    requires s'.disk == Logged(s.disk, edit) && s'.vs == Installed(s.vs, edit) && s'.hist == s.hist
    requires s'.mem == n && s'.imm == None && s'.mems == map[n := []]
    ensures Running(s') && Settled(s')
  {
    hide Core, Apply, StackOf, Represents, Reloaded, GoodVersion, SortedLog, Ready, Running, Installed, Sorted;
    ReopenedCore(s, n, edit, s');
    FreshMemtable(s', n);
  }

  lemma {:induction false} ReopenedCore(s: State, n: nat, edit: Edit, s': State)
    requires n in s.disk.logs && s.disk.logs[n] == [] && edit.lastSeq.Some? && edit.logNumber == Some(n)
    requires Restarting(s, [n]) && s.vs.open && Ready(s, edit) && Apply(s.vs.current, edit) == s.vs.current
    requires s'.disk == Logged(s.disk, edit) && s'.vs == Installed(s.vs, edit) && s'.hist == s.hist
    ensures Core(s', [n]) && Settled(s') && s'.vs.open && s'.vs.lastSeq == |s'.hist| && n < s'.vs.nextFile
    ensures s'.disk.logs == s.disk.logs
  {
    hide Core, Apply, StackOf, Represents, Reloaded, GoodVersion;
    CoreLive(s, [n]);
    assert s.vs.lastSeq == |s.hist|;
    LoggedCore(s, [n], edit, s', [n]);
  }

  /** A process with one empty log and its empty memtable is running. */
  lemma {:induction false} FreshMemtable(s: State, n: nat)
    requires n in s.disk.logs && s.disk.logs[n] == [] && n < s.vs.nextFile
    requires Core(s, [n]) && s.vs.open && s.vs.lastSeq == |s.hist|
    requires s.mem == n && s.imm == None && s.mems == map[n := []]
    ensures Running(s)
  {
    hide Core, SortedLog, Reloaded;
    EmptySorted();
    assert Live(s) == [n];
  }

  lemma {:induction false} ReopenedKeeps(opts: Options, s: State)
    requires Inv(opts, s) && s.pc.Committing? && s.pc.after.Reopened? && Enabled(opts, s, AppendEdit)
    ensures Inv(opts, Do(opts, s, AppendEdit))
  {
    hide Restarting, Apply, Ready, Running, Settled;
    var s' := Do(opts, s, AppendEdit);
    ReopenedRuns(s, s.pc.after.log, s.pc.edit, s');
  }

  // ---- Replayed logs ----

  /** The live logs split into the newer ones and the oldest. */
  lemma {:induction false} OldestLast(logs: map<nat, seq<Entry>>, p: seq<nat>)
    requires p != [] && forall n :: n in p ==> n in logs
    ensures (forall n :: n in p[1..] ==> n in p) && p[0] in p
    ensures LogStack(logs, p) == LogStack(logs, p[1..]) + [logs[p[0]]]
  {
    assert p[0] in p;
    forall n | n in p[1..] ensures n in p {}
    var st, st' := LogStack(logs, p), LogStack(logs, p[1..]) + [logs[p[0]]];
    forall i | 0 <= i < |p| ensures st[i] == st'[i] {
      if i < |p| - 1 { assert p[1..][|p| - 2 - i] == p[|p| - 1 - i]; }
    }
  }

  lemma {:induction false} ReplayedMeaning(logs: map<nat, seq<Entry>>, p: seq<nat>, f: File, v: Version, v': Version,
      h: seq<Entry>)
    requires p != [] && (forall n :: n in p ==> n in logs) && p[0] in logs
    requires SameMembers(logs[p[0]], Content(f)) && Pushed(v, f, v')
    requires Represents(LogStack(logs, p) + StackOf(v), h)
    ensures Represents(LogStack(logs, p) + StackOf(v'), h)
  {
    hide Represents, StackOf, Content;
    PushStack(v, f, v');
    OldestLast(logs, p);
    var x, log, t := LogStack(logs, p[1..]), logs[p[0]], Content(f);
    DuplicateBelow(x, log, t, StackOf(v), h);
    Assoc(x, [log], StackOf(v'));
    assert x + [log] + ([t] + StackOf(v)) == x + [log] + StackOf(v');
  }

  lemma {:induction false} DuplicateBelow(x: Stack, log: Source, t: Source, v: Stack, h: seq<Entry>)
    requires SameMembers(log, t) && Represents(x + [log] + v, h)
    ensures Represents(x + [log] + ([t] + v), h)
  {
    hide Represents;
    var st, st' := x + [log] + v, x + ([t] + v);
    assert |st| == |st'|;
    forall i | 0 <= i < |st| ensures SameMembers(st[i], st'[i]) { }
    assert Represents(st', h) by { RepresentsMembers(st, st', h); }
    RepresentsInsert(x, log, [t] + v, h);
  }

  lemma {:induction false} ReplayedCore(s: State, p: seq<nat>, edit: Edit, s': State)
    requires Restarting(s, p) && p != [] && s.vs.open && Ready(s, edit) && FlushEdit(s, edit, p[0], p[0])
    requires s'.disk == Logged(s.disk, edit) && s'.vs == Installed(s.vs, edit) && s'.hist == s.hist
    ensures Restarting(s', p) && Settled(s') && Reloaded(s'.disk).lastSeq == s.vs.lastSeq
  {
    hide Core, Apply, StackOf, Represents, Reloaded, GoodVersion, SeqKnown, Content;
    CoreLive(s, p);
    ReplayedMeaning(s.disk.logs, p, edit.added[0].1, s.vs.current, Apply(s.vs.current, edit), s.hist);
    FromOldest(s.disk.logs, s.vs.logNumber, p);
    LoggedCore(s, p, edit, s', p);
  }

  lemma {:induction false} FromOldest(logs: map<nat, seq<Entry>>, logNumber: nat, p: seq<nat>)
    requires LiveLogs(logs, logNumber, p) && p != []
    ensures LiveLogs(logs, p[0], p)
  {
    assert p[0] in p;
    forall n | n in p ensures n >= p[0] { var i :| 0 <= i < |p| && p[i] == n; }
  }

  lemma {:induction false} LogReplayedKeeps(opts: Options, s: State)
    requires Inv(opts, s) && s.pc.Committing? && s.pc.after.LogReplayed? && Enabled(opts, s, AppendEdit)
    ensures Inv(opts, Do(opts, s, AppendEdit))
  {
    hide Restarting, Apply, Ready, Settled, Reloaded, Content;
    var s', p := Do(opts, s, AppendEdit), s.pc.after.pending;
    ReplayedCore(s, p, s.pc.edit, s');
    assert s'.vs.current[0] == [s.pc.edit.added[0].1] + s.vs.current[0];
  }

  // ---- Creating the manifest ----

  lemma {:induction false} SwitchCore(s: State, p: seq<nat>, s': State)
    requires Restarting(s, p)
    requires s'.disk == Restarted(s.disk, s.vs) && s'.vs == Switched(s.vs) && s'.hist == s.hist
    ensures Restarting(s', p) && Settled(s')
  {
    hide Reloaded, SoundDisk, StackOf, Represents, SeqKnown, LiveLogs, Snapshot;
    RestartedDisk(s.disk, s.vs);
  }

  lemma {:induction false} SwitchReady(s: State, edit: Edit, s': State)
    requires Ready(s, edit) && Settled(s')
    requires s'.disk == Restarted(s.disk, s.vs) && s'.vs == Switched(s.vs)
    ensures Ready(s', edit)
  {
    hide Reloaded, GoodVersion, Apply, Snapshot;
    GoodVersionGrows(Apply(s.vs.current, edit), s.vs.nextFile, s'.vs.nextFile);
  }

  lemma {:induction false} SwitchKeeps(opts: Options, s: State)
    requires Inv(opts, s) && Enabled(opts, s, SwitchManifest)
    ensures Inv(opts, Do(opts, s, SwitchManifest))
  {
    hide Core, Apply, Ready, Settled, Reloaded, Content, Snapshot, SeqKnown;
    var s' := Do(opts, s, SwitchManifest);
    var p := match s.pc.after case LogReplayed(p) => p case Reopened(n) => [n] case _ => [];
    SwitchCore(s, p, s');
    SwitchReady(s, s.pc.edit, s');
  }
}
