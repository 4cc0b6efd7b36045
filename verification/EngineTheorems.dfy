/** What holds of every run of the engine. */
module EngineTheorems {
  import opened Keys
  import opened Entries
  import opened Records
  import opened History
  import opened Recency
  import opened Versions
  import opened Edits
  import opened Compactions
  import opened Manifest
  import opened Engine
  import opened EngineInvariant
  import opened EngineCommit
  import opened EngineSteps
  import opened EngineTables
  import opened EngineCompact
  import opened EngineFinish
  import opened EngineRecover

  const NEW_VERSION_SET: VersionSet := VersionSet(EMPTY_VERSION, 2, 0, 0, false)

  /** A database that has just been created: CURRENT names a manifest with one snapshot, and the
      first edit is about to be appended to it. */
  ghost predicate Init(s: State) {
    && s.disk == Restarted(Disk([], map[], map[]), NEW_VERSION_SET)
    && s.vs == Switched(NEW_VERSION_SET)
    && s.pc == Committing(Edit(Some(COMPARATOR), Some(0), Some(2), Some(0), {}, []), Created)
    && s.hist == []
  }

  lemma {:induction false} EmptyLevels(l: nat)
    requires l < NUM_LEVELS
    ensures EMPTY_VERSION[l] == []
  {
  }

  lemma {:induction false} EmptyGood(bound: nat)
    ensures GoodVersion(EMPTY_VERSION, bound) && Opened(EMPTY_VERSION, map[])
  {
    hide Less, ValidFile;
    forall l | 0 <= l < NUM_LEVELS ensures EMPTY_VERSION[l] == [] { EmptyLevels(l); }
    hide EMPTY_VERSION;
  }

  lemma {:induction false} EmptyRepresents()
    ensures Represents(StackOf(EMPTY_VERSION), [])
  {
    var st := StackOf(EMPTY_VERSION);
    forall i | 0 <= i < |st| ensures st[i] == [] { assert st[0 + (i + 1) - 1] == Flatten(EMPTY_VERSION[i + 1]); }
  }

  lemma {:induction false} InitCore(s: State)
    requires Init(s)
    ensures Restarting(s, []) && Settled(s)
  {
    hide Represents, GoodVersion, Opened, NumbersBelow, Snapshot, EraseEdit;
    var d := Disk([], map[], map[]);
    EmptyGood(2);
    EmptyGood(3);
    InitReload();
    LoggedErased(d, Snapshot(Switched(NEW_VERSION_SET)));
    assert [] + [EraseEdit(Snapshot(Switched(NEW_VERSION_SET)))] == [EraseEdit(Snapshot(Switched(NEW_VERSION_SET)))];
    hide Reloaded, ReplayAll, StackOf;
    EmptyRepresents();
    assert LogStack(s.disk.logs, []) + StackOf(EMPTY_VERSION) == StackOf(EMPTY_VERSION);
  }

  lemma {:induction false} InitReload()
    ensures Reloaded(Restarted(Disk([], map[], map[]), NEW_VERSION_SET)) == VersionSet(EMPTY_VERSION, 3, 0, 0, false)
    ensures ReplayAll(Restarted(Disk([], map[], map[]), NEW_VERSION_SET).records).maxFile > 0
  {
    hide ReplayAll, ValidVersion, DistinctFiles, NumbersBelow, Opened, Snapshot, EraseEdit, Reloaded;
    var d := Disk([], map[], map[]);
    EmptyGood(2);
    RestartedVersion(d, NEW_VERSION_SET);
    RestartedNumbers(d, NEW_VERSION_SET);
    LoggedClosed(Restarted(d, NEW_VERSION_SET));
  }

  lemma {:induction false} InitReady(s: State)
    requires Init(s) && Settled(s)
    ensures Ready(s, s.pc.edit) && Apply(s.vs.current, s.pc.edit) == s.vs.current
  {
    hide Settled, GoodVersion, Apply, Restarted;
    EmptyGood(3);
    EmptyValid();
    ApplyNothing(EMPTY_VERSION, s.pc.edit);
  }

  lemma {:induction false} EmptyValid()
    ensures ValidVersion(EMPTY_VERSION)
  {
    hide ValidVersion;
    EmptyGood(0);
  }

  lemma {:induction false} InitHolds(opts: Options, s: State)
    requires Init(s)
    ensures Inv(opts, s)
  {
    hide Restarting, Settled, Ready, Apply, Restarted;
    InitCore(s);
    InitReady(s);
  }

  lemma {:induction false} AppendEditKeeps(opts: Options, s: State)
    requires Inv(opts, s) && Enabled(opts, s, AppendEdit)
    ensures Inv(opts, Do(opts, s, AppendEdit))
  {
    hide Inv;
    match s.pc.after
    case FlushDone => FlushDoneKeeps(opts, s);
    case CompactDone(_) => CompactDoneKeeps(opts, s);
    case Created => CreatedKeeps(opts, s);
    case LogReplayed(_) => LogReplayedKeeps(opts, s);
    case Reopened(_) => ReopenedKeeps(opts, s);
  }

  /** The invariant is inductive. */
  lemma {:induction false} StepKeeps(opts: Options, s: State, step: Step)
    requires Inv(opts, s) && Enabled(opts, s, step)
    ensures Inv(opts, Do(opts, s, step))
  {
    hide Inv, Do;
    match step
    case Append(_, _, _) => AppendKeeps(opts, s, step);
    case Acknowledge => AcknowledgeKeeps(opts, s);
    case Rotate => RotateKeeps(opts, s);
    case BeginFlush => BeginFlushKeeps(opts, s);
    case BeginCompaction => BeginCompactionKeeps(opts, s);
    case SwitchManifest => SwitchKeeps(opts, s);
    case AppendEdit => AppendEditKeeps(opts, s);
    case UnlinkInput => UnlinkInputKeeps(opts, s);
    case RemoveObsolete(_) => RemoveObsoleteKeeps(opts, s, step);
    case Crash(_, _) => CrashKeeps(opts, s, step);
    case Open(_) => OpenKeeps(opts, s, step);
    case ReplayLog => ReplayLogKeeps(opts, s);
    case DropEmptyLog => DropEmptyLogKeeps(opts, s);
    case UnlinkLog => UnlinkLogKeeps(opts, s);
    case CreateLog => CreateLogKeeps(opts, s);
  }

  // ---- Runs ----

  /** States joined by steps. */
  ghost predicate IsPath(opts: Options, path: seq<State>, steps: seq<Step>) {
    && |path| == |steps| + 1
    && forall i :: 0 <= i < |steps| ==> Enabled(opts, path[i], steps[i]) && path[i + 1] == Do(opts, path[i], steps[i])
  }

  /** Any finite run of a new database, with any crashes and reopenings. */
  ghost predicate IsRun(opts: Options, run: seq<State>, steps: seq<Step>) {
    IsPath(opts, run, steps) && Init(run[0])
  }

  lemma {:induction false} RunKeeps(opts: Options, run: seq<State>, steps: seq<Step>, i: nat)
    requires IsRun(opts, run, steps) && i < |run|
    ensures Inv(opts, run[i])
  {
    hide Inv, Do, Init;
    if i == 0 {
      InitHolds(opts, run[0]);
    } else {
      RunKeeps(opts, run, steps, i - 1);
      StepKeeps(opts, run[i - 1], steps[i - 1]);
    }
  }

  // ---- Writes that took effect ----

  /** The write that step `m` completes: the acknowledged one, or the one in flight when a crash comes
      after its record reached the log. */
  function Completed(steps: seq<Step>, m: nat, seqno: nat): seq<Entry>
    requires m < |steps|
  {
    if 0 < m && steps[m - 1].Append? && (steps[m] == Acknowledge || (steps[m].Crash? && steps[m].survives))
    then [Entry(steps[m - 1].key, seqno, steps[m - 1].kind, steps[m - 1].value)]
    else []
  }

  /** The writes that the steps from `i` up to `j` complete, numbered after `last`. */
  function Taken(steps: seq<Step>, i: nat, j: nat, last: nat): seq<Entry>
    requires i <= j <= |steps|
  {
    if i == j then []
    else
      var ws := Taken(steps, i, j - 1, last);
      ws + Completed(steps, j - 1, last + |ws| + 1)
  }

  lemma {:induction false} StepHistory(opts: Options, s: State, step: Step)
    requires Enabled(opts, s, step)
    ensures var s' := Do(opts, s, step);
            s'.hist ==
            if s.pc.Writing? && (step == Acknowledge || (step.Crash? && step.survives)) then s.hist + [s.pc.e]
            else s.hist
  {
    hide AddSorted, WithTables, Apply, Outputs, Reloaded, SortedLog, Snapshot, Readable, ReadBack;
  }

  lemma {:induction false} StepWriting(opts: Options, s: State, step: Step)
    requires Enabled(opts, s, step)
    ensures var s' := Do(opts, s, step);
            && (s'.pc.Writing? <==> step.Append?)
            && (step.Append? ==> s'.pc.e == Entry(step.key, s.vs.lastSeq + 1, step.kind, step.value))
  {
    hide AddSorted, WithTables, Apply, Outputs, Reloaded, SortedLog, Snapshot, Readable, ReadBack;
  }

  lemma {:induction false} WritingNext(opts: Options, s: State)
    requires Inv(opts, s) && s.pc.Writing?
    ensures s.pc.e.seqno == |s.hist| + 1
  {
    hide Running, Base, Settled;
  }

  /** A record is in flight exactly after an append. */
  lemma {:induction false} WritingIs(opts: Options, run: seq<State>, steps: seq<Step>, m: nat)
    requires IsRun(opts, run, steps) && m < |run|
    ensures run[m].pc.Writing? <==> 0 < m && steps[m - 1].Append?
    ensures run[m].pc.Writing? ==>
              run[m].pc.e == Entry(steps[m - 1].key, |run[m].hist| + 1, steps[m - 1].kind, steps[m - 1].value)
  {
    hide Inv, Do, Enabled, Restarted;
    if 0 < m {
      StepWriting(opts, run[m - 1], steps[m - 1]);
      RunKeeps(opts, run, steps, m);
      if run[m].pc.Writing? { WritingNext(opts, run[m]); }
    }
  }

  /** The history is what the completed writes add up to, from any state of the run on. */
  lemma {:induction false} HistoryIs(opts: Options, run: seq<State>, steps: seq<Step>, i: nat, j: nat)
    requires IsRun(opts, run, steps) && i <= j < |run|
    ensures run[j].hist == run[i].hist + Taken(steps, i, j, |run[i].hist|)
  {
    hide Do, Init, Enabled;
    if i < j {
      HistoryIs(opts, run, steps, i, j - 1);
      StepHistory(opts, run[j - 1], steps[j - 1]);
      WritingIs(opts, run, steps, j - 1);
    }
  }

  // ---- Reading ----

  /** The process is up: it may be writing, flushing or compacting, but not recovering. */
  predicate Serving(s: State) {
    match s.pc
    case Idle => true
    case Writing(_) => true
    case Unlinking(_) => true
    case Committing(_, after) => after.FlushDone? || after.CompactDone?
    case _ => false
  }

  /** What `Get` and `NewIterator` capture under the mutex. */
  datatype Snap = Snap(mem: nat, imm: Option<nat>, version: Version, seqno: nat)

  function Capture(s: State): Snap {
    Snap(s.mem, s.imm, s.vs.current, s.vs.lastSeq)
  }

  ghost function MemSources(snap: Snap, mems: map<nat, seq<Entry>>): Stack
    requires snap.mem in mems && (snap.imm.Some? ==> snap.imm.value in mems)
  {
    [mems[snap.mem]] + (if snap.imm.Some? then [mems[snap.imm.value]] else [])
  }

  ghost function Sources(snap: Snap, mems: map<nat, seq<Entry>>): Stack
    requires snap.mem in mems && (snap.imm.Some? ==> snap.imm.value in mems)
  {
    MemSources(snap, mems) + StackOf(snap.version)
  }

  lemma {:induction false} SourcesHold(snap: Snap, mems: map<nat, seq<Entry>>, x: Entry)
    requires snap.mem in mems && (snap.imm.Some? ==> snap.imm.value in mems)
    ensures Holds(Sources(snap, mems), x) <==>
            x in mems[snap.mem] || (snap.imm.Some? && x in mems[snap.imm.value]) || Holds(StackOf(snap.version), x)
  {
    hide StackOf;
    var st, ts := Sources(snap, mems), StackOf(snap.version);
    var k := if snap.imm.Some? then 2 else 1;
    assert st[0] == mems[snap.mem] && (snap.imm.Some? ==> st[1] == mems[snap.imm.value]);
    if i :| 0 <= i < |st| && x in st[i] {
      if i >= k { assert x in ts[i - k]; }
    }
    if i :| 0 <= i < |ts| && x in ts[i] { assert x in st[i + k]; }
  }

  lemma {:induction false} ServingRuns(opts: Options, s: State)
    requires Inv(opts, s) && Serving(s)
    ensures Running(Base(s)) && Base(s).vs == s.vs && Base(s).mems == s.mems && Base(s).mem == s.mem
            && Base(s).imm == s.imm && Base(s).hist == s.hist
  {
    hide Running, Ready, FlushEdit, Represents, Apply, StackOf, IsLive, Settled;
  }

  lemma {:induction false} RunningSources(s: State)
    requires Running(s)
    ensures s.mem in s.mems && (s.imm.Some? ==> s.imm.value in s.mems)
    ensures Represents(Sources(Capture(s), s.mems), s.hist) && AllSorted(Sources(Capture(s), s.mems))
    ensures s.vs.lastSeq == |s.hist|
  {
    hide SortedLog, StackOf, Represents, SeqKnown, Reloaded, SoundDisk, Sorted;
    RunningFacts(s);
    assert s.mem in Live(s) && (s.imm.Some? ==> s.imm.value in Live(s));
    CoreLive(s, Live(s));
    RunningValid(s);
    StackSorted(s.vs.current);
    LiveStack(s.disk.logs, s);
    var st, st' := LogStack(s.disk.logs, Live(s)) + StackOf(s.vs.current), Sources(Capture(s), s.mems);
    forall i | 0 <= i < |st| ensures SameMembers(st[i], st'[i]) { }
    RepresentsMembers(st, st', s.hist);
  }

  lemma {:induction false} RunningValid(s: State)
    requires Running(s)
    ensures ValidVersion(s.vs.current)
  {
    hide ValidVersion, Reloaded, Recoverable, DistinctFiles, NumbersBelow, ValidLog, ReplayAll;
  }

  /** Get returns what a plain map holds after the same writes, in every reachable state. */
  lemma {:induction false} GetIsMap(opts: Options, run: seq<State>, steps: seq<Step>, i: nat, k: Key)
    requires IsRun(opts, run, steps) && i < |run| && Serving(run[i])
    ensures var s := run[i];
            && s.mem in s.mems && (s.imm.Some? ==> s.imm.value in s.mems)
            && Outcome(FirstHit(Sources(Capture(s), s.mems), k, s.vs.lastSeq)) == Expected(s.hist, k)
  {
    hide Inv, IsRun, Running, Represents, Sources, Base, AllSorted;
    var s := run[i];
    RunKeeps(opts, run, steps, i);
    ServingRuns(opts, s);
    RunningSources(Base(s));
    ReadsLastWrite(Sources(Capture(s), s.mems), s.hist, k, s.vs.lastSeq);
  }

  /** Durability: what is read in any later state, after any crashes, is the map of the earlier
      writes followed by the writes completed since. */
  lemma {:induction false} Durable(opts: Options, run: seq<State>, steps: seq<Step>, i: nat, j: nat, k: Key)
    requires IsRun(opts, run, steps) && i <= j < |run| && Serving(run[j])
    ensures var s := run[j];
            && s.mem in s.mems && (s.imm.Some? ==> s.imm.value in s.mems)
            && Outcome(FirstHit(Sources(Capture(s), s.mems), k, s.vs.lastSeq)) ==
               Expected(run[i].hist + Taken(steps, i, j, |run[i].hist|), k)
  {
    hide IsRun, Taken, Sources, Expected, FirstHit;
    GetIsMap(opts, run, steps, j, k);
    HistoryIs(opts, run, steps, i, j);
  }

  /** A write acknowledged by step `m` is read until a later write to its key completes. */
  lemma {:induction false} AcknowledgedStays(opts: Options, run: seq<State>, steps: seq<Step>, m: nat, j: nat)
    requires IsRun(opts, run, steps) && 0 < m < j < |run| && Serving(run[j])
    requires steps[m] == Acknowledge && steps[m - 1].Append?
    requires forall e :: e in Taken(steps, m + 1, j, |run[m + 1].hist|) ==> e.key != steps[m - 1].key
    ensures var s, w := run[j], steps[m - 1];
            && s.mem in s.mems && (s.imm.Some? ==> s.imm.value in s.mems)
            && Outcome(FirstHit(Sources(Capture(s), s.mems), w.key, s.vs.lastSeq)) ==
               if w.kind == VALUE then Found(w.value) else Missing
  {
    hide Init, Do, Enabled, Sources, FirstHit, Serving, Expected;
    var k := steps[m - 1].key;
    Durable(opts, run, steps, m + 1, j, k);
    HistoryIs(opts, run, steps, m, m + 1);
    assert Taken(steps, m, m + 1, |run[m].hist|) == Completed(steps, m, |run[m].hist| + 1);
    ExpectedLast(run[m].hist, Completed(steps, m, |run[m].hist| + 1)[0], Taken(steps, m + 1, j, |run[m + 1].hist|));
  }
}
