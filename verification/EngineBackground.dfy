/** The engine's steps put together as the threads run them: a write, a rotation, a flush, a
    compaction, and the background loop, which comes to rest. */
module EngineBackground {
  import opened Keys
  import opened Entries
  import opened Records
  import opened History
  import opened Recency
  import opened Versions
  import opened Edits
  import opened Compactions
  import opened CompactionCorrect
  import opened CompactionTermination
  import opened Manifest
  import opened Engine
  import opened EngineInvariant
  import opened EngineSteps
  import opened EngineCompact
  import opened EngineTheorems

  /** Up, and between two operations. */
  ghost predicate AtPeace(opts: Options, s: State) {
    s.pc == Idle && Inv(opts, s)
  }

  lemma {:induction false} IdleFacts(opts: Options, s: State)
    requires AtPeace(opts, s)
    ensures s.mem in s.disk.logs && s.mem in s.mems && s.vs.lastSeq == |s.hist| && s.vs.open
    ensures s.imm.Some? ==> s.imm.value in s.mems
  {
    hide Running, Settled;
    RunningFacts(s);
  }

  /** An edit in flight can be logged once the manifest is open. */
  lemma {:induction false} CommittingReady(opts: Options, s: State, edit: Edit, after: After)
    requires Inv(opts, s) && s.pc == Committing(edit, after) && s.vs.open && opts.editFits(EraseEdit(edit))
    ensures Enabled(opts, s, AppendEdit)
  {
    hide Running, Restarting, GoodVersion, FlushEdit, Represents, Apply, StackOf, IsLive, Settled;
  }

  lemma {:induction false} InputsExist(opts: Options, v: Version, c: Compaction)
    requires Picked(opts, v) == Some(c)
    ensures Numbers(c.inputs0 + c.inputs1) != []
  {
    hide Picked, WithOverlap;
    PickedIsWell(opts, v);
  }

  // ---- Whole operations ----

  /** `Put` and `Delete` once there is room. */
  ghost function Wrote(opts: Options, s: State, e: Entry): (s': State)
    requires AtPeace(opts, s) && Readable(e) && e.seqno == s.vs.lastSeq + 1 && (e.kind == VALUE || e.kind == DELETION)
    ensures AtPeace(opts, s') && s'.hist == s.hist + [e] && s'.mem == s.mem && s'.imm == s.imm
    ensures s'.vs.current == s.vs.current
  {
    hide Inv, Readable, AddSorted;
    IdleFacts(opts, s);
    var step := Append(e.key, e.kind, e.value);
    StepKeeps(opts, s, step);
    var s1 := Do(opts, s, step);
    StepKeeps(opts, s1, Acknowledge);
    Do(opts, s1, Acknowledge)
  }

  lemma {:induction false} RotationKeeps(opts: Options, s: State)
    requires AtPeace(opts, s) && s.imm.None?
    ensures AtPeace(opts, Rotated(s))
  {
    hide Inv;
    StepKeeps(opts, s, Rotate);
  }

  /** What is read between two operations. */
  lemma {:induction false} IdleReads(opts: Options, s: State, k: Key)
    requires AtPeace(opts, s)
    ensures s.mem in s.mems && (s.imm.Some? ==> s.imm.value in s.mems)
    ensures Outcome(FirstHit(Sources(Capture(s), s.mems), k, s.vs.lastSeq)) == Expected(s.hist, k)
  {
    hide Running, Settled, Represents, Sources, AllSorted, Expected, FirstHit;
    RunningSources(s);
    ReadsLastWrite(Sources(Capture(s), s.mems), s.hist, k, s.vs.lastSeq);
  }

  /** A flush is possible: one is waiting, and its table and its edit are within the limits. */
  ghost predicate CanFlush(opts: Options, s: State) {
    Enabled(opts, s, BeginFlush) && Enabled(opts, Do(opts, s, BeginFlush), AppendEdit)
  }

  /** A compaction is possible: one is due, and its tables and its edit are within the limits. */
  ghost predicate CanCompact(opts: Options, s: State) {
    Enabled(opts, s, BeginCompaction) && Enabled(opts, Do(opts, s, BeginCompaction), AppendEdit)
  }

  lemma {:induction false} FlushIs(opts: Options, s: State)
    requires CanFlush(opts, s)
    ensures var s' := Do(opts, Do(opts, s, BeginFlush), AppendEdit);
            s'.pc == Idle && s'.hist == s.hist && s'.mem == s.mem && s'.imm.None?
  {
    hide Level0File, WithTables, Apply, EraseEdit;
  }

  /** A flush is possible exactly when the table and the edit fit. */
  lemma {:induction false} CanFlushIff(opts: Options, s: State)
    requires AtPeace(opts, s) && s.imm.Some?
    ensures s.imm.value in s.mems
    ensures CanFlush(opts, s) <==>
            var f := Level0File(opts, s.mems[s.imm.value], s.vs.nextFile);
            && opts.tableFits(s.mems[s.imm.value])
            && opts.editFits(EraseEdit(WithDefaults(s.vs.(nextFile := s.vs.nextFile + 1), TableEdit(f, s.mem))))
  {
    hide Inv, Level0File, WithTables, EraseEdit;
    IdleFacts(opts, s);
    if opts.tableFits(s.mems[s.imm.value]) {
      StepKeeps(opts, s, BeginFlush);
      var s1 := Do(opts, s, BeginFlush);
      if opts.editFits(EraseEdit(s1.pc.edit)) { CommittingReady(opts, s1, s1.pc.edit, s1.pc.after); }
    }
  }

  /** A compaction that is due is possible exactly when its tables and its edit fit. */
  lemma {:induction false} CanCompactIff(opts: Options, s: State)
    requires AtPeace(opts, s) && Picked(opts, s.vs.current).Some?
    ensures CanCompact(opts, s) <==>
            var c := Picked(opts, s.vs.current).value;
            var outs := Outputs(opts, s.vs.current, c, s.vs.nextFile);
            && AllFit(opts, outs)
            && opts.editFits(
                 EraseEdit(WithDefaults(s.vs.(nextFile := s.vs.nextFile + |outs|), CompactionEdit(c, outs))))
  {
    hide Inv, Outputs, WithTables, Picked, EraseEdit, CompactionEdit, AllFit, Numbers;
    IdleFacts(opts, s);
    var c := Picked(opts, s.vs.current).value;
    if AllFit(opts, Outputs(opts, s.vs.current, c, s.vs.nextFile)) {
      StepKeeps(opts, s, BeginCompaction);
      var s1 := Do(opts, s, BeginCompaction);
      if opts.editFits(EraseEdit(s1.pc.edit)) { CommittingReady(opts, s1, s1.pc.edit, s1.pc.after); }
    }
  }

  /** The flush of the immutable memtable. */
  ghost function Flushed(opts: Options, s: State): (s': State)
    requires AtPeace(opts, s) && CanFlush(opts, s)
    ensures AtPeace(opts, s') && s'.hist == s.hist && s'.mem == s.mem && s'.imm.None?
  {
    hide Inv, Do, Enabled;
    StepKeeps(opts, s, BeginFlush);
    StepKeeps(opts, Do(opts, s, BeginFlush), AppendEdit);
    FlushIs(opts, s);
    Do(opts, Do(opts, s, BeginFlush), AppendEdit)
  }

  lemma {:induction false} UnlinkStep(opts: Options, s: State)
    requires s.pc.Unlinking? && s.pc.numbers != []
    ensures Enabled(opts, s, UnlinkInput)
    ensures var s', ns := Do(opts, s, UnlinkInput), s.pc.numbers;
            && s'.pc == (if |ns| == 1 then Idle else Unlinking(ns[1..]))
            && s'.hist == s.hist && s'.mem == s.mem && s'.imm == s.imm && s'.vs == s.vs
  {
  }

  /** Unlinking the inputs of a compaction. */
  ghost function Unlinked(opts: Options, s: State): (s': State)
    requires s.pc.Unlinking? && s.pc.numbers != [] && Inv(opts, s)
    ensures AtPeace(opts, s') && s'.hist == s.hist && s'.mem == s.mem && s'.imm == s.imm && s'.vs == s.vs
    decreases if s.pc.Unlinking? then |s.pc.numbers| else 0
  {
    hide Inv, Do, Enabled;
    UnlinkStep(opts, s);
    StepKeeps(opts, s, UnlinkInput);
    var s1 := Do(opts, s, UnlinkInput);
    if s1.pc == Idle then s1 else Unlinked(opts, s1)
  }

  lemma {:induction false} CompactionStarts(opts: Options, s: State)
    requires Enabled(opts, s, BeginCompaction)
    ensures Picked(opts, s.vs.current).Some?
    ensures var s', c := Do(opts, s, BeginCompaction), Picked(opts, s.vs.current).value;
            && s'.pc.Committing? && s'.pc.after == CompactDone(Numbers(c.inputs0 + c.inputs1))
            && s'.hist == s.hist && s'.mem == s.mem && s'.imm == s.imm
            && s'.vs.current == s.vs.current && OutputsWrittenFor(opts, s, c, s')
  {
    hide Outputs, WithTables, CompactionEdit, Picked, WithDefaults, Numbers;
  }

  lemma {:induction false} CompactionCommits(opts: Options, s: State, ns: seq<nat>)
    requires s.pc.Committing? && s.pc.after == CompactDone(ns) && Enabled(opts, s, AppendEdit)
    ensures var s' := Do(opts, s, AppendEdit);
            && s'.pc == Unlinking(ns) && s'.vs.current == Apply(s.vs.current, s.pc.edit)
            && s'.hist == s.hist && s'.mem == s.mem && s'.imm == s.imm
  {
    hide Apply, EraseEdit;
  }

  /** One compaction: outputs written, edit logged, inputs unlinked. */
  ghost function CompactedOnce(opts: Options, s: State): (s': State)
    requires AtPeace(opts, s) && CanCompact(opts, s) && Picked(opts, s.vs.current).Some?
    ensures AtPeace(opts, s') && s'.hist == s.hist && s'.mem == s.mem && s'.imm == s.imm
    ensures s'.vs.current == Compacted(opts, s.vs.current, Picked(opts, s.vs.current).value, s.vs.nextFile)
  {
    hide Inv, Picked, Apply, Compacted, Numbers, Enabled, Do, EraseEdit, OutputsWrittenFor;
    CompactionStarts(opts, s);
    StepKeeps(opts, s, BeginCompaction);
    var s1, c := Do(opts, s, BeginCompaction), Picked(opts, s.vs.current).value;
    CompactionApplied(opts, s, c, s1);
    StepKeeps(opts, s1, AppendEdit);
    CompactionCommits(opts, s1, s1.pc.after.inputs);
    InputsExist(opts, s.vs.current, c);
    Unlinked(opts, Do(opts, s1, AppendEdit))
  }

  /** Compaction makes the version lighter. */
  lemma {:induction false} IdleLightens(opts: Options, s: State)
    requires AtPeace(opts, s) && Picked(opts, s.vs.current).Some?
    ensures var v := s.vs.current;
            var v' := Compacted(opts, v, Picked(opts, v).value, s.vs.nextFile);
            Weight(v') < Weight(v) || (Weight(v') == Weight(v) && |v'[0]| < |v[0]|)
  {
    hide Inv, Picked, Weight, Compacted, Represents, ValidVersion, NumbersBelow, WellPicked, StackOf, Sources;
    var v := s.vs.current;
    PickedIsWell(opts, v);
    IdleVersion(opts, s);
    SettleStep(MemSources(Capture(s), s.mems), opts, v, Picked(opts, v).value, s.vs.nextFile, s.hist);
  }

  lemma {:induction false} IdleVersion(opts: Options, s: State)
    requires AtPeace(opts, s)
    ensures s.mem in s.mems && (s.imm.Some? ==> s.imm.value in s.mems)
    ensures ValidVersion(s.vs.current) && NumbersBelow(s.vs.current, s.vs.nextFile)
    ensures Represents(MemSources(Capture(s), s.mems) + StackOf(s.vs.current), s.hist)
  {
    hide Core, Settled, Represents, MemSources, AllSorted, ValidVersion, MemsMatch, MemsSane, NumbersBelow, StackOf;
    RunningSources(s);
    CoreVersion(s, Live(s));
  }

  // ---- The background loop ----

  /** Nothing to flush and nothing to compact. */
  ghost predicate AtRest(opts: Options, s: State) {
    s.imm.None? && Picked(opts, s.vs.current).None?
  }

  /** At rest no memtable waits, level 0 is below its trigger and no deeper level is over its size. */
  lemma {:induction false} AtRestIff(opts: Options, s: State)
    ensures var v := s.vs.current;
            AtRest(opts, s) <==>
            && s.imm.None?
            && (if |v[0]| >= opts.maxLevel0Files then v[0] == [] else forall l :: 1 <= l <= 5 ==> !Over(v, l))
  {
    hide Picked, Over;
    PickedIsDue(opts, s.vs.current);
  }

  /** `RemoveObsoleteFiles`: the tables that the current version has. */
  ghost function Cleaned(s: State): State {
    s.(disk := s.disk.(tables := map n | n in s.disk.tables && IsLive(s.vs.current, n) :: s.disk.tables[n]))
  }

  lemma {:induction false} CleanedKeeps(opts: Options, s: State)
    requires AtPeace(opts, s)
    ensures AtPeace(opts, Cleaned(s))
  {
    hide AtPeace, IsLive;
    var dead := set n | n in s.disk.tables && !IsLive(s.vs.current, n);
    DeadRemoved(opts, s, dead);
    assert s.disk.tables - dead == Cleaned(s).disk.tables;
  }

  lemma {:induction false} DeadRemoved(opts: Options, s: State, dead: set<nat>)
    requires AtPeace(opts, s) && forall n :: n in dead ==> !IsLive(s.vs.current, n)
    ensures AtPeace(opts, s.(disk := s.disk.(tables := s.disk.tables - dead)))
    decreases |dead|
  {
    hide Inv, IsLive;
    if dead == {} {
      assert s.disk.tables - dead == s.disk.tables;
    } else {
      var n :| n in dead;
      StepKeeps(opts, s, RemoveObsolete(n));
      DeadRemoved(opts, Do(opts, s, RemoveObsolete(n)), dead - {n});
      assert s.disk.tables - {n} - (dead - {n}) == s.disk.tables - dead;
    }
  }

  /** Everything that a turn from here writes is within the limits. */
  ghost predicate CanTurn(opts: Options, s: State) {
    && AtPeace(opts, s)
    && (s.imm.Some? ==> CanFlush(opts, s))
    && var s1 := if s.imm.Some? then Flushed(opts, s) else s;
       Picked(opts, s1.vs.current).Some? ==> CanCompact(opts, s1)
  }

  /** One turn: flush what is waiting, run one compaction if one is due, and remove what is obsolete. */
  ghost function Turn(opts: Options, s: State): (s': State)
    requires CanTurn(opts, s)
    ensures AtPeace(opts, s') && s'.hist == s.hist && s'.mem == s.mem && s'.imm.None?
  {
    hide AtPeace, Picked, CanFlush, CanCompact, IsLive;
    var s1 := if s.imm.Some? then Flushed(opts, s) else s;
    var s2 := if Picked(opts, s1.vs.current).Some? then CompactedOnce(opts, s1) else s1;
    CleanedKeeps(opts, s2);
    Cleaned(s2)
  }

  /** A turn that does not flush compacts. */
  lemma {:induction false} TurnLightens(opts: Options, s: State)
    requires CanTurn(opts, s) && s.imm.None? && Picked(opts, s.vs.current).Some?
    ensures var v, v' := s.vs.current, Turn(opts, s).vs.current;
            Weight(v') < Weight(v) || (Weight(v') == Weight(v) && |v'[0]| < |v[0]|)
  {
    hide AtPeace, Picked, CanFlush, CanCompact, Weight, Compacted;
    IdleLightens(opts, s);
  }

  /** So is everything that turn after turn writes. */
  ghost predicate CanRest(opts: Options, s: State)
    decreases if s.imm.Some? then 1 else 0, Weight(s.vs.current), |s.vs.current[0]|
  {
    hide Picked, Weight, CanTurn, AtPeace, Turn;
    AtRest(opts, s) ||
    (CanTurn(opts, s) &&
     if s.imm.None? then TurnLightens(opts, s); CanRest(opts, Turn(opts, s)) else CanRest(opts, Turn(opts, s)))
  }

  /** Turn after turn the background thread gets to where it has nothing to do. */
  ghost function Rest(opts: Options, s: State): (s': State)
    requires AtPeace(opts, s) && CanRest(opts, s)
    ensures AtPeace(opts, s') && s'.hist == s.hist && s'.mem == s.mem && AtRest(opts, s')
    decreases if s.imm.Some? then 1 else 0, Weight(s.vs.current), |s.vs.current[0]|
  {
    hide AtPeace, Picked, Weight, CanTurn, Turn;
    if AtRest(opts, s) then s
    else if s.imm.None? then TurnLightens(opts, s); Rest(opts, Turn(opts, s))
    else Rest(opts, Turn(opts, s))
  }

  /** Coming to rest from a state that is not at rest starts with a turn. */
  lemma {:induction false} RestStep(opts: Options, s: State)
    requires AtPeace(opts, s) && !AtRest(opts, s)
    ensures CanRest(opts, s) <==> CanTurn(opts, s) && CanRest(opts, Turn(opts, s))
    ensures CanRest(opts, s) ==> Rest(opts, s) == Rest(opts, Turn(opts, s))
    ensures s.imm.None? && CanTurn(opts, s) ==>
              var v, v' := s.vs.current, Turn(opts, s).vs.current;
              Weight(v') < Weight(v) || (Weight(v') == Weight(v) && |v'[0]| < |v[0]|)
  {
    hide AtPeace, Picked, Weight, CanTurn, Turn;
    if s.imm.None? && CanTurn(opts, s) { TurnLightens(opts, s); }
  }
}
