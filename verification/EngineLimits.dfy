/** Everything a run has written is within the limits under which it was written. */
module EngineLimits {
  import opened Entries
  import opened Records
  import opened Versions
  import opened Edits
  import opened Compactions
  import opened CompactionCorrect
  import opened Manifest
  import opened Engine
  import opened EngineInvariant
  import opened EngineCommit
  import opened EngineSteps
  import opened EngineRecover
  import opened EngineTheorems

  /** A file that fits and whose metadata are true: the size of its table, and the first and the last
      key of its entries. */
  ghost predicate Recorded(opts: Options, f: File) {
    var es := Content(f);
    && opts.tableFits(es) && f.size == opts.fileBytes(es)
    && (if es == [] then f.smallest == [] && f.largest == []
        else f.smallest == es[0].key && f.largest == es[|es| - 1].key)
  }

  ghost predicate VersionFits(opts: Options, v: Version) {
    forall l, f :: 0 <= l < NUM_LEVELS && f in v[l] ==> Recorded(opts, f)
  }

  ghost predicate AddedFit(opts: Options, e: Edit) {
    forall a :: a in e.added ==> Recorded(opts, a.1)
  }

  /** Every manifest record fits, every live table and every table about to become live fits and is
      recorded truly, and sequence numbers fit 64 bits. */
  ghost predicate Within(opts: Options, s: State) {
    && (forall e :: e in s.disk.records ==> opts.editFits(e))
    && VersionFits(opts, Reloaded(s.disk).current)
    && (s.pc.Committing? ==> AddedFit(opts, s.pc.edit))
    && |s.hist| < SEQNO_END
  }

  // ---- The version ----

  lemma {:induction false} MatchesMemory(opts: Options, s: State)
    requires Inv(opts, s) && s.pc != Down
    ensures Reloaded(s.disk).current == s.vs.current
  {
    hide Core, Reloaded, InFlight, MemsMatch, Settled, Apply, Ready, FlushEdit, IsLive;
    if s.pc.Writing? {
      SameReload(Base(s).disk, s.disk);
      CoreMatches(Base(s), Live(Base(s)));
    } else {
      var p := SomeCore(opts, s);
      CoreMatches(s, p);
    }
  }

  lemma {:induction false} CoreMatches(s: State, p: seq<nat>)
    requires Core(s, p)
    ensures Reloaded(s.disk).current == s.vs.current && SoundDisk(s.disk)
  {
    hide SoundDisk, Recoverable, Reloaded;
  }

  /** A crash does not change what the manifest denotes. */
  lemma {:induction false} CrashSame(opts: Options, s: State, step: Step)
    requires Inv(opts, s) && step.Crash? && Enabled(opts, s, step)
    ensures Reloaded(Do(opts, s, step).disk) == Reloaded(s.disk)
  {
    hide Core, Reloaded, InFlight, MemsMatch, Settled, Apply, Ready, FlushEdit, IsLive, Inv;
    var d := SoundSomewhere(opts, s);
    SameReload(d, s.disk);
    ReloadedIgnores(d, step.tables);
    SameReload(d.(tables := step.tables), Do(opts, s, step).disk);
  }

  /** The disk, or the disk without the record in flight. */
  lemma {:induction false} SoundSomewhere(opts: Options, s: State) returns (d: Disk)
    requires Inv(opts, s)
    ensures SoundDisk(d) && d.records == s.disk.records && d.tables == s.disk.tables
  {
    hide Core, Reloaded, InFlight, MemsMatch, Settled, Apply, Ready, FlushEdit, IsLive, SoundDisk, Recoverable;
    if s.pc == Down {
      d := s.disk;
    } else if s.pc.Writing? {
      CoreMatches(Base(s), Live(Base(s)));
      d := Base(s).disk;
    } else {
      var p := SomeCore(opts, s);
      CoreMatches(s, p);
      d := s.disk;
    }
  }

  lemma {:induction false} AppliedFits(opts: Options, v: Version, e: Edit)
    requires VersionFits(opts, v) && AddedFit(opts, e)
    ensures VersionFits(opts, Apply(v, e))
  {
    hide SortFiles, Retained, AddedAt, Recorded;
    var w := Apply(v, e);
    forall l, f | 0 <= l < NUM_LEVELS && f in w[l] ensures Recorded(opts, f) {
      assert f in Retained(v[l], l, e.deleted) + AddedAt(e.added, l);
      assert f in v[l] || (l, f) in e.added;
    }
  }

  /** In memory only a commit and a reopening change the version. */
  lemma {:induction false} SameCurrent(opts: Options, s: State, step: Step)
    requires Enabled(opts, s, step) && !step.AppendEdit? && !step.Open? && !step.Crash?
    ensures Do(opts, s, step).vs.current == s.vs.current && Do(opts, s, step).pc != Down && s.pc != Down
  {
    hide Outputs, WithTables, Reloaded, SortedLog, Snapshot, Picked, Readable, ReadBack, AddSorted, Level0File,
         WithDefaults;
  }

  lemma {:induction false} VersionStep(opts: Options, s: State, step: Step)
    requires Inv(opts, s) && Enabled(opts, s, step) && Within(opts, s)
    ensures VersionFits(opts, Reloaded(Do(opts, s, step).disk).current)
  {
    hide Inv, Reloaded, VersionFits, Enabled;
    var s' := Do(opts, s, step);
    StepKeeps(opts, s, step);
    if step.Crash? {
      CrashSame(opts, s, step);
    } else if step.Open? {
      OpenDisk(opts, s, step);
    } else if step.AppendEdit? {
      CommitVersion(opts, s);
    } else {
      hide Do;
      SameCurrent(opts, s, step);
      MatchesMemory(opts, s);
      MatchesMemory(opts, s');
    }
  }

  lemma {:induction false} OpenDisk(opts: Options, s: State, step: Step)
    requires Enabled(opts, s, step) && step.Open?
    ensures Do(opts, s, step).disk == s.disk
  {
    hide Reloaded, LiveLogs;
  }

  lemma {:induction false} CommitVersion(opts: Options, s: State)
    requires Inv(opts, s) && Enabled(opts, s, AppendEdit) && Within(opts, s)
    ensures VersionFits(opts, Reloaded(Do(opts, s, AppendEdit).disk).current)
  {
    hide Inv, Reloaded, VersionFits, Apply, EraseEdit, AddedFit;
    StepKeeps(opts, s, AppendEdit);
    MatchesMemory(opts, s);
    MatchesMemory(opts, Do(opts, s, AppendEdit));
    AppliedFits(opts, s.vs.current, s.pc.edit);
  }

  // ---- Records, tables in flight, numbers ----

  lemma {:induction false} RecordStep(opts: Options, s: State, step: Step)
    requires Enabled(opts, s, step) && forall e :: e in s.disk.records ==> opts.editFits(e)
    ensures forall e :: e in Do(opts, s, step).disk.records ==> opts.editFits(e)
  {
    hide Outputs, WithTables, Reloaded, SortedLog, Snapshot, Picked, Readable, ReadBack, AddSorted, Level0File,
         EraseEdit, Apply, WithDefaults;
  }

  lemma {:induction false} EditStep(opts: Options, s: State, step: Step)
    requires Enabled(opts, s, step) && (s.pc.Committing? ==> AddedFit(opts, s.pc.edit))
    ensures var s' := Do(opts, s, step); s'.pc.Committing? ==> AddedFit(opts, s'.pc.edit)
  {
    hide Outputs, WithTables, Reloaded, SortedLog, Snapshot, Picked, Readable, ReadBack, AddSorted, EraseEdit, Apply;
    if step.BeginCompaction? { CompactionFits(opts, s); }
  }

  lemma {:induction false} CompactionFits(opts: Options, s: State)
    requires Enabled(opts, s, BeginCompaction)
    ensures AddedFit(opts, Do(opts, s, BeginCompaction).pc.edit)
  {
    hide Outputs, WithTables, Picked;
    var c := Picked(opts, s.vs.current).value;
    var outs := Outputs(opts, s.vs.current, c, s.vs.nextFile);
    OutputsSized(opts, s.vs.current, c, s.vs.nextFile);
    assert forall a :: a in AllAt(c.level + 1, outs) ==> a.1 in outs;
  }

  lemma {:induction false} NumberStep(opts: Options, s: State, step: Step)
    requires Inv(opts, s) && Enabled(opts, s, step) && |s.hist| < SEQNO_END
    ensures |Do(opts, s, step).hist| < SEQNO_END
  {
    hide Do, Enabled, Running, Base, Settled;
    StepHistory(opts, s, step);
  }

  lemma {:induction false} StepWithin(opts: Options, s: State, step: Step)
    requires Inv(opts, s) && Enabled(opts, s, step) && Within(opts, s)
    ensures Within(opts, Do(opts, s, step))
  {
    hide Inv, Do, Enabled, VersionFits, AddedFit, Reloaded;
    VersionStep(opts, s, step);
    RecordStep(opts, s, step);
    EditStep(opts, s, step);
    NumberStep(opts, s, step);
  }

  lemma {:induction false} InitWithin(opts: Options, s: State)
    requires Init(s) && forall e :: e in s.disk.records ==> opts.editFits(e)
    ensures Within(opts, s)
  {
    hide Reloaded, Restarted;
    InitReload();
    forall l | 0 <= l < NUM_LEVELS ensures EMPTY_VERSION[l] == [] { EmptyLevels(l); }
  }

  /** Limits hold in every state of every run. */
  lemma {:induction false} RunWithin(opts: Options, run: seq<State>, steps: seq<Step>, i: nat)
    requires IsRun(opts, run, steps) && i < |run| && forall e :: e in run[0].disk.records ==> opts.editFits(e)
    ensures Within(opts, run[i])
  {
    hide Inv, Do, Init, Enabled, Within;
    if i == 0 {
      InitWithin(opts, run[0]);
    } else {
      RunWithin(opts, run, steps, i - 1);
      RunKeeps(opts, run, steps, i - 1);
      StepWithin(opts, run[i - 1], steps[i - 1]);
    }
  }
}
