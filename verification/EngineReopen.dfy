/** Recovery as a whole: exactly when it succeeds, and what it leads to. */
module EngineReopen {
  import opened Entries
  import opened Recency
  import opened Versions
  import opened Edits
  import opened Compactions
  import opened Manifest
  import opened Engine
  import opened EngineInvariant
  import opened EngineTheorems
  import opened EngineBackground

  /** The edit in flight can be logged: it fits, and so does the snapshot if the manifest is still to
      be created. */
  ghost predicate CanCommit(opts: Options, s: State) {
    && s.pc.Committing?
    && (s.vs.open || opts.editFits(EraseEdit(Snapshot(Switched(s.vs)))))
    && opts.editFits(EraseEdit(s.pc.edit))
  }

  // ---- What single steps do ----

  lemma {:induction false} SwitchStep(opts: Options, s: State)
    requires s.pc.Committing? && !s.vs.open && opts.editFits(EraseEdit(Snapshot(Switched(s.vs))))
    ensures Enabled(opts, s, SwitchManifest)
    ensures var s' := Do(opts, s, SwitchManifest); s'.vs == Switched(s.vs) && s'.hist == s.hist && s'.pc == s.pc
  {
    hide Snapshot, EraseEdit;
  }

  lemma {:induction false} CommitStep(opts: Options, s: State)
    requires Enabled(opts, s, AppendEdit)
    ensures var s' := Do(opts, s, AppendEdit);
            && s'.hist == s.hist
            && (s.pc.after.LogReplayed? ==> s'.pc == Replayed(s.pc.after.pending))
            && (s.pc.after.Reopened? ==>
                  s'.pc == Idle && s'.mem == s.pc.after.log && s'.imm == None && s'.mems == map[s.pc.after.log := []])
  {
    hide EraseEdit, Apply;
  }

  lemma {:induction false} CreateStep(opts: Options, s: State)
    requires s.pc == Recovering([])
    ensures Enabled(opts, s, CreateLog)
    ensures var s', n := Do(opts, s, CreateLog), s.vs.nextFile;
            && s'.vs == s.vs.(nextFile := n + 1) && s'.hist == s.hist
            && s'.disk == s.disk.(logs := s.disk.logs[n := []])
            && s'.pc == Committing(
                 EMPTY_EDIT.(logNumber := Some(n), nextFile := Some(n + 1), lastSeq := Some(s.vs.lastSeq)), Reopened(n))
  {
  }

  /** The oldest pending log holds nothing, or is committed. */
  ghost predicate Droppable(s: State, step: Step) {
    || (&& step == DropEmptyLog && s.pc.Recovering? && s.pc.pending != []
        && s.pc.pending[0] in s.disk.logs && NextLog(s) == [])
    || (step == UnlinkLog && s.pc.Replayed? && s.pc.pending != [])
  }

  lemma {:induction false} DropStep(opts: Options, s: State, step: Step)
    requires Droppable(s, step)
    ensures Enabled(opts, s, step)
    ensures var s' := Do(opts, s, step); s'.hist == s.hist && s'.pc == Recovering(s.pc.pending[1..])
  {
    hide NextLog;
  }

  // ---- Whole stages ----

  /** `LogAndApply` with the manifest open. */
  ghost function CommitOpen(opts: Options, s: State): (s': State)
    requires Inv(opts, s) && s.pc.Committing? && s.vs.open && opts.editFits(EraseEdit(s.pc.edit))
    ensures Enabled(opts, s, AppendEdit) && s' == Do(opts, s, AppendEdit) && Inv(opts, s')
  {
    hide Inv, Do, Enabled, EraseEdit;
    CommittingReady(opts, s, s.pc.edit, s.pc.after);
    StepKeeps(opts, s, AppendEdit);
    Do(opts, s, AppendEdit)
  }

  /** The manifest, created if this is the first `LogAndApply` of the process. */
  ghost function WithManifest(opts: Options, s: State): (s': State)
    requires Inv(opts, s) && CanCommit(opts, s)
    ensures Inv(opts, s') && s'.hist == s.hist && s'.pc == s.pc && s'.vs.open
  {
    hide Inv, Do, Enabled, EraseEdit, Snapshot;
    if s.vs.open then s
    else
      SwitchStep(opts, s);
      StepKeeps(opts, s, SwitchManifest);
      Do(opts, s, SwitchManifest)
  }

  ghost function Commit(opts: Options, s: State): (s': State)
    requires Inv(opts, s) && CanCommit(opts, s)
    ensures Inv(opts, s') && s'.hist == s.hist
    ensures s.pc.after.LogReplayed? ==> s'.pc == Replayed(s.pc.after.pending)
    ensures s.pc.after.Reopened? ==> s'.pc == Idle && s'.imm == None
  {
    hide Inv, Do, Enabled, EraseEdit, Snapshot, WithManifest;
    var s1 := WithManifest(opts, s);
    var s2 := CommitOpen(opts, s1);
    CommitStep(opts, s1);
    s2
  }

  lemma {:induction false} PendingLog(opts: Options, s: State)
    requires Inv(opts, s) && s.pc.Recovering? && s.pc.pending != []
    ensures s.pc.pending[0] in s.disk.logs
  {
    hide SoundDisk, Reloaded, StackOf, Represents, SeqKnown, Settled;
    assert s.pc.pending[0] in s.pc.pending;
  }

  /** The oldest pending log in a table that is about to be committed. */
  ghost function LogWritten(opts: Options, s: State): (s': State)
    requires Inv(opts, s) && s.pc.Recovering? && s.pc.pending != [] && s.pc.pending[0] in s.disk.logs
    requires NextLog(s) != [] && opts.tableFits(SortedLog(NextLog(s)))
    ensures Inv(opts, s') && s'.hist == s.hist && s'.pc.Committing? && s'.pc.after == LogReplayed(s.pc.pending)
  {
    hide Inv, SortedLog, NextLog, Level0File, WithTables, MaxSeq;
    StepKeeps(opts, s, ReplayLog);
    Do(opts, s, ReplayLog)
  }

  /** The new log, about to be committed. */
  ghost function LogCreated(opts: Options, s: State): (s': State)
    requires Inv(opts, s) && s.pc == Recovering([])
    ensures Inv(opts, s') && s'.hist == s.hist && s'.pc.Committing? && s'.pc.after.Reopened?
  {
    hide Inv, Do, Enabled;
    CreateStep(opts, s);
    StepKeeps(opts, s, CreateLog);
    Do(opts, s, CreateLog)
  }

  /** A log that is not needed any more, gone. */
  ghost function LogDropped(opts: Options, s: State, step: Step): (s': State)
    requires Droppable(s, step) && Inv(opts, s)
    ensures Inv(opts, s') && s'.hist == s.hist && s'.pc == Recovering(s.pc.pending[1..])
  {
    hide Inv, NextLog, Do, Enabled;
    DropStep(opts, s, step);
    StepKeeps(opts, s, step);
    Do(opts, s, step)
  }

  /** The oldest pending log needs no table, or its table and its edit fit. */
  ghost predicate CanReplay(opts: Options, s: State)
    requires Inv(opts, s) && s.pc.Recovering? && s.pc.pending != [] && s.pc.pending[0] in s.disk.logs
  {
    hide Inv, SortedLog, NextLog, CanCommit;
    NextLog(s) == [] || (opts.tableFits(SortedLog(NextLog(s))) && CanCommit(opts, LogWritten(opts, s)))
  }

  /** One turn of the log loop. */
  ghost function LogReplayedBy(opts: Options, s: State): (s': State)
    requires Inv(opts, s) && s.pc.Recovering? && s.pc.pending != [] && s.pc.pending[0] in s.disk.logs
    requires CanReplay(opts, s)
    ensures Inv(opts, s') && s'.hist == s.hist && s'.pc == Recovering(s.pc.pending[1..])
  {
    hide Inv, SortedLog, NextLog, CanCommit, Commit, LogWritten, LogDropped;
    if NextLog(s) == [] then LogDropped(opts, s, DropEmptyLog)
    else LogDropped(opts, Commit(opts, LogWritten(opts, s)), UnlinkLog)
  }

  /** Every log that is still pending can be replayed, and the new log be installed. */
  ghost predicate CanFinish(opts: Options, s: State)
    requires Inv(opts, s) && s.pc.Recovering?
    decreases if s.pc.Recovering? then |s.pc.pending| else 0
  {
    hide Inv, CanReplay, CanCommit;
    if s.pc.pending == [] then CanCommit(opts, LogCreated(opts, s))
    else
      PendingLog(opts, s);
      CanReplay(opts, s) && CanFinish(opts, LogReplayedBy(opts, s))
  }

  /** The process at the end of recovery. */
  ghost function Finish(opts: Options, s: State): (s': State)
    requires Inv(opts, s) && s.pc.Recovering? && CanFinish(opts, s)
    ensures AtPeace(opts, s') && s'.hist == s.hist && s'.imm.None?
    decreases if s.pc.Recovering? then |s.pc.pending| else 0
  {
    hide Inv, CanReplay, CanCommit;
    if s.pc.pending == [] then Commit(opts, LogCreated(opts, s))
    else
      PendingLog(opts, s);
      Finish(opts, LogReplayedBy(opts, s))
  }

  /** The manifest read and the logs listed. */
  ghost function Scanned(opts: Options, s: State, pending: seq<nat>): (s': State)
    requires Inv(opts, s) && s.pc == Down && LiveLogs(s.disk.logs, Reloaded(s.disk).logNumber, pending)
    ensures Inv(opts, s') && s'.hist == s.hist && s'.pc == Recovering(pending)
  {
    hide Inv, Reloaded, LiveLogs;
    StepKeeps(opts, s, Open(pending));
    Do(opts, s, Open(pending))
  }

  /** Recovery succeeds: every replayed table, the snapshot and every edit fit. */
  ghost predicate CanRecover(opts: Options, s: State)
    requires Inv(opts, s) && s.pc == Down
  {
    hide Inv, Reloaded, LiveLogs, CanFinish;
    forall pending :: LiveLogs(s.disk.logs, Reloaded(s.disk).logNumber, pending) ==>
      CanFinish(opts, Scanned(opts, s, pending))
  }

  /** There is one list of live logs only. */
  lemma {:induction false} CanRecoverIff(opts: Options, s: State, pending: seq<nat>)
    requires Inv(opts, s) && s.pc == Down && LiveLogs(s.disk.logs, Reloaded(s.disk).logNumber, pending)
    ensures CanRecover(opts, s) <==> CanFinish(opts, Scanned(opts, s, pending))
  {
    hide Inv, Reloaded, LiveLogs, CanFinish, Scanned;
    forall p | LiveLogs(s.disk.logs, Reloaded(s.disk).logNumber, p) ensures p == pending {
      LiveUnique(s.disk.logs, Reloaded(s.disk).logNumber, p, pending);
    }
  }
}
