/** The compaction step of the engine. */
module EngineCompact {
  import opened Keys
  import opened Entries
  import opened Recency
  import opened Versions
  import opened Edits
  import opened Compactions
  import opened CompactionCorrect
  import opened Manifest
  import opened Engine
  import opened EngineInvariant
  import opened EngineCommit
  import opened EngineTables

  /** A file after the compaction: an untouched file of its level or an output. */
  lemma {:induction false} AfterFile(opts: Options, v: Version, c: Compaction, next: nat, l: nat, f: File)
    requires c.level < NUM_LEVELS - 1 && l < NUM_LEVELS
    requires GoodVersion(v, next) && WellPicked(v, c) && Agree(Flatten(Inputs(c)))
    requires f in Compacted(opts, v, c, next)[l]
    ensures (f in v[l] && f !in Inputs(c)) || (l == c.level + 1 && f in Outputs(opts, v, c, next))
  {
    hide Less, Flatten, Outputs, Apply, ValidVersion, NumbersBelow, DistinctNumbers, Agree, ValidLevel, InOrder,
         WellPicked;
    var outs := Outputs(opts, v, c, next);
    if l == c.level {
      InputLevel(v, c, outs);
    } else if l == c.level + 1 {
      OutputLevel(opts, v, c, next, Compacted(opts, v, c, next)[l]);
      UntouchedFiles(v, c);
    } else {
      OtherLevels(v, c, outs, l);
    }
    InputsPlaced(v, c, next, l, f);
  }

  /** An input file is in the input level or in the output level, and nowhere else. */
  lemma {:induction false} InputsPlaced(v: Version, c: Compaction, next: nat, l: nat, f: File)
    requires c.level < NUM_LEVELS - 1 && l < NUM_LEVELS
    requires GoodVersion(v, next) && WellPicked(v, c)
    ensures f in c.inputs0 && f in v[l] ==> l == c.level
    ensures f in c.inputs1 && f in v[l] ==> l == c.level + 1
  {
    hide Less, Flatten, ValidVersion, NumbersBelow, WellPicked;
    InputLevels(v, c);
  }

  lemma {:induction false} InputLevels(v: Version, c: Compaction)
    requires WellPicked(v, c)
    ensures c.level < NUM_LEVELS - 1
    ensures forall f :: f in c.inputs0 ==> f in v[c.level]
    ensures forall f :: f in c.inputs1 ==> f in v[c.level + 1]
  {
    hide Less, Lowest, Highest;
  }

  lemma {:induction false} AfterDistinct(opts: Options, v: Version, c: Compaction, next: nat)
    requires GoodVersion(v, next) && WellPicked(v, c) && Agree(Flatten(Inputs(c)))
    ensures DistinctFiles(Compacted(opts, v, c, next))
  {
    hide Less, Flatten, Outputs, Compacted, ValidVersion, Agree, WellPicked, Inputs, ValidFile;
    var v', outs := Compacted(opts, v, c, next), Outputs(opts, v, c, next);
    OutputsNumbered(opts, v, c, next);
    OutputsValid(opts, v, c, next);
    forall l, m, f, g | 0 <= l < NUM_LEVELS && 0 <= m < NUM_LEVELS && f in v'[l] && g in v'[m] && f.number == g.number
      ensures l == m && f == g
    {
      InputLevels(v, c);
      AfterFile(opts, v, c, next, l, f);
      AfterFile(opts, v, c, next, m, g);
      assert f in v[l] ==> f.number < next;
      assert g in v[m] ==> g.number < next;
    }
  }

  /** The inputs are gone, so unlinking them by number is safe. */
  lemma {:induction false} InputsGone(opts: Options, v: Version, c: Compaction, next: nat, f: File)
    requires GoodVersion(v, next) && WellPicked(v, c) && Agree(Flatten(Inputs(c)))
    requires f in Inputs(c)
    ensures !IsLive(Compacted(opts, v, c, next), f.number)
  {
    hide Less, Flatten, Outputs, Compacted, ValidVersion, Agree, WellPicked;
    var v' := Compacted(opts, v, c, next);
    OutputsNumbered(opts, v, c, next);
    InputLevels(v, c);
    if l, g :| 0 <= l < NUM_LEVELS && g in v'[l] && g.number == f.number {
      AfterFile(opts, v, c, next, l, g);
    }
  }

  lemma {:induction false} ApplyDefaults(v: Version, vs: VersionSet, e: Edit)
    ensures Apply(v, WithDefaults(vs, e)) == Apply(v, e)
  {
  }

  /** The state in which the outputs have been written and the edit is about to be logged. */
  ghost predicate OutputsWrittenFor(opts: Options, s: State, c: Compaction, s': State) {
    var outs := Outputs(opts, s.vs.current, c, s.vs.nextFile);
    && s'.disk == s.disk.(tables := WithTables(s.disk.tables, outs)) && s'.hist == s.hist
    && s'.vs == s.vs.(nextFile := s.vs.nextFile + |outs|)
    && s'.pc.Committing? && s'.pc.edit == WithDefaults(s'.vs, CompactionEdit(c, outs))
  }

  lemma {:induction false} CompactionCore(opts: Options, s: State, pending: seq<nat>, c: Compaction, s': State)
    requires Core(s, pending) && OutputsWrittenFor(opts, s, c, s')
    ensures Core(s', pending) && Reloaded(s'.disk) == Reloaded(s.disk)
  {
    hide Core, Reloaded, Outputs, WithTables;
    var outs := Outputs(opts, s.vs.current, c, s.vs.nextFile);
    OutputsNumbered(opts, s.vs.current, c, s.vs.nextFile);
    forall i | 0 <= i < |outs| ensures outs[i].number >= s.vs.nextFile { assert outs[i] in outs; }
    NewTablesKeep(s, pending, outs, s');
  }

  lemma {:induction false} CompactionApplied(opts: Options, s: State, c: Compaction, s': State)
    requires OutputsWrittenFor(opts, s, c, s')
    ensures Apply(s.vs.current, s'.pc.edit) == Compacted(opts, s.vs.current, c, s.vs.nextFile)
  {
    hide Outputs, WithTables, Apply, WithDefaults, CompactionEdit;
    ApplyDefaults(s.vs.current, s'.vs, CompactionEdit(c, Outputs(opts, s.vs.current, c, s.vs.nextFile)));
  }

  lemma {:induction false} CompactionReady(opts: Options, s: State, c: Compaction, s': State)
    requires GoodVersion(s.vs.current, s.vs.nextFile) && WellPicked(s.vs.current, c) && Agree(Flatten(Inputs(c)))
    requires OutputsWrittenFor(opts, s, c, s')
    ensures Ready(s', s'.pc.edit) && s'.pc.edit.logNumber.None?
  {
    hide Reloaded, GoodVersion, Outputs, Apply, WithTables, WellPicked, Agree, Flatten, Inputs, Compacted;
    var v, outs := s.vs.current, Outputs(opts, s.vs.current, c, s.vs.nextFile);
    CompactionApplied(opts, s, c, s');
    CompactionGood(opts, v, c, s.vs.nextFile);
    OutputsNumbered(opts, v, c, s.vs.nextFile);
    OutputsWritten(opts, v, c, s.vs.nextFile, s.disk.tables);
    assert forall a :: a in s'.pc.edit.added ==> a.1 in outs;
  }

  lemma {:induction false} CoreVersion(s: State, pending: seq<nat>)
    requires Core(s, pending)
    ensures GoodVersion(s.vs.current, s.vs.nextFile)
    ensures forall n :: n in pending ==> n in s.disk.logs
    ensures Represents(LogStack(s.disk.logs, pending) + StackOf(s.vs.current), s.hist)
  {
    hide GoodVersion, Reloaded, Represents, SeqKnown, StackOf, ReplayAll, ValidLog;
    GoodVersionGrows(s.vs.current, Reloaded(s.disk).nextFile, s.vs.nextFile);
  }

  lemma {:induction false} CompactionGood(opts: Options, v: Version, c: Compaction, next: nat)
    requires GoodVersion(v, next) && WellPicked(v, c) && Agree(Flatten(Inputs(c)))
    ensures GoodVersion(Compacted(opts, v, c, next), next + |Outputs(opts, v, c, next)|)
  {
    hide ValidVersion, DistinctFiles, NumbersBelow, Outputs, Compacted, WellPicked, Agree;
    CompactionKeepsValid(opts, v, c, next);
    AfterDistinct(opts, v, c, next);
  }

  lemma {:induction false} OutputsWritten(opts: Options, v: Version, c: Compaction, next: nat,
      tables: map<nat, seq<Entry>>)
    ensures var outs := Outputs(opts, v, c, next);
            forall f :: f in outs ==>
              f.number in WithTables(tables, outs) && f.reader == Some(WithTables(tables, outs)[f.number])
  {
    hide WithTables, Split, Survive, MergedInputs, Flatten;
    var outs := Outputs(opts, v, c, next);
    SplitParts(opts, [], Survive(v, c.level, None, MergedInputs(c)), next);
    forall f | f in outs
      ensures f.number in WithTables(tables, outs) && f.reader == Some(WithTables(tables, outs)[f.number])
    {
      var i :| 0 <= i < |outs| && outs[i] == f;
      TableWritten(tables, outs, i);
    }
  }

  lemma {:induction false} CompactionInputsGone(opts: Options, v: Version, c: Compaction, next: nat)
    requires GoodVersion(v, next) && WellPicked(v, c) && Agree(Flatten(Inputs(c)))
    ensures forall n :: n in Numbers(c.inputs0 + c.inputs1) ==> !IsLive(Compacted(opts, v, c, next), n)
  {
    hide GoodVersion, WellPicked, Agree, Flatten, Compacted, IsLive;
    var ns := Numbers(c.inputs0 + c.inputs1);
    forall n | n in ns ensures !IsLive(Compacted(opts, v, c, next), n) {
      var i :| 0 <= i < |ns| && ns[i] == n;
      InputsGone(opts, v, c, next, Inputs(c)[i]);
    }
  }

  lemma {:induction false} CompactionStarts(opts: Options, s: State, c: Compaction, s': State)
    requires Running(s) && WellPicked(s.vs.current, c) && OutputsWrittenFor(opts, s, c, s')
    requires s'.mem == s.mem && s'.imm == s.imm && s'.mems == s.mems
    ensures Running(s') && Ready(s', s'.pc.edit) && s'.pc.edit.logNumber.None?
    ensures Represents(LogStack(s'.disk.logs, Live(s')) + StackOf(Apply(s'.vs.current, s'.pc.edit)), s'.hist)
    ensures forall n :: n in Numbers(c.inputs0 + c.inputs1) ==> !IsLive(Apply(s'.vs.current, s'.pc.edit), n)
  {
    hide Core, Reloaded, Apply, Ready, Outputs, Represents, GoodVersion, WellPicked, StackOf, IsLive, Agree, Flatten,
         CompactionEdit, Compacted, Inputs;
    var v := s.vs.current;
    CoreVersion(s, Live(s));
    CompactionMeans(LogStack(s.disk.logs, Live(s)), opts, v, c, s.vs.nextFile, s.hist);
    CompactionCore(opts, s, Live(s), c, s');
    CompactionReady(opts, s, c, s');
    CompactionApplied(opts, s, c, s');
    CompactionInputsGone(opts, v, c, s.vs.nextFile);
  }

  lemma {:induction false} BeginCompactionKeeps(opts: Options, s: State)
    requires Inv(opts, s) && Enabled(opts, s, BeginCompaction)
    ensures Inv(opts, Do(opts, s, BeginCompaction))
  {
    hide Running, Apply, Ready, Outputs, Represents, Picked, WellPicked, StackOf, IsLive, CompactionEdit;
    var s', v := Do(opts, s, BeginCompaction), s.vs.current;
    PickedIsWell(opts, v);
    CompactionStarts(opts, s, Picked(opts, v).value, s');
  }

  lemma {:induction false} CompactionMeans(above: Stack, opts: Options, v: Version, c: Compaction, next: nat,
      h: seq<Entry>)
    requires GoodVersion(v, next) && WellPicked(v, c) && Represents(above + StackOf(v), h)
    ensures Represents(above + StackOf(Compacted(opts, v, c, next)), h) && Agree(Flatten(Inputs(c)))
  {
    hide ValidVersion, DistinctFiles, NumbersBelow, Compacted, WellPicked, Agree, Represents;
    CompactionKeepsMeaning(above, opts, v, c, next, h);
  }
}
