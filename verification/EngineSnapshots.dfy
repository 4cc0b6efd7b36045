/** Readers that hold no lock: a captured snapshot keeps answering as the map did at capture time. */
module EngineSnapshots {
  import opened Keys
  import opened Entries
  import opened History
  import opened Recency
  import opened Versions
  import opened Edits
  import opened Compactions
  import opened Manifest
  import opened Engine
  import opened EngineInvariant
  import opened EngineSteps
  import opened EngineTheorems

  /** Memtables only gain entries newer than `bound`. */
  ghost predicate MemsGrow(mems: map<nat, seq<Entry>>, mems': map<nat, seq<Entry>>, bound: nat) {
    forall n :: n in mems ==> n in mems' && Sorted(mems[n]) && Sorted(mems'[n]) && SameUpTo(mems[n], mems'[n], bound)
  }

  lemma {:induction false} MemsStay(s: State)
    requires MemsSane(s)
    ensures MemsGrow(s.mems, s.mems, s.vs.lastSeq)
  {
    hide Sorted;
  }

  lemma {:induction false} AcknowledgeGrows(opts: Options, s: State)
    requires Inv(opts, s) && Enabled(opts, s, Acknowledge)
    ensures MemsGrow(s.mems, Do(opts, s, Acknowledge).mems, s.vs.lastSeq)
    ensures Do(opts, s, Acknowledge).vs.lastSeq >= s.vs.lastSeq
  {
    hide Core, Reloaded, Sorted, AddSorted, MemsMatch, SortedLog;
    InFlightIsPending(s);
    RunningFacts(Base(s));
    PendingSorted(Base(s), s, s.pc.e);
  }

  lemma {:induction false} RotateGrows(opts: Options, s: State)
    requires Inv(opts, s) && Enabled(opts, s, Rotate)
    ensures MemsGrow(s.mems, Do(opts, s, Rotate).mems, s.vs.lastSeq)
    ensures Do(opts, s, Rotate).vs.lastSeq == s.vs.lastSeq
  {
    hide Core, Reloaded, Sorted, MemsMatch;
  }

  lemma {:induction false} ServingSane(opts: Options, s: State)
    requires Inv(opts, s) && Serving(s)
    ensures MemsSane(s)
  {
    hide Core, Reloaded, Sorted, MemsMatch, Ready, FlushEdit, Represents, Apply, StackOf, IsLive, Settled;
  }

  lemma {:induction false} StepGrows(opts: Options, s: State, step: Step)
    requires Inv(opts, s) && Enabled(opts, s, step)
    requires Serving(s) && Serving(Do(opts, s, step))
    ensures var s' := Do(opts, s, step);
            MemsGrow(s.mems, s'.mems, s.vs.lastSeq) && s'.vs.lastSeq >= s.vs.lastSeq
  {
    hide Inv, Do, Enabled, Serving, MemsGrow, MemsSane;
    ServingSane(opts, s);
    MemsStay(s);
    match step {
      case Acknowledge => AcknowledgeGrows(opts, s);
      case Rotate => RotateGrows(opts, s);
      case AppendEdit => CommittedSeq(opts, s);
      case _ => OtherGrows(opts, s, step);
    }
  }

  lemma {:induction false} CommittedSeq(opts: Options, s: State)
    requires Inv(opts, s) && Enabled(opts, s, AppendEdit) && Serving(s)
    ensures Do(opts, s, AppendEdit).vs.lastSeq == s.vs.lastSeq && Do(opts, s, AppendEdit).mems == s.mems
  {
    hide Running, GoodVersion, FlushEdit, Represents, Apply, StackOf, IsLive, Settled;
  }

  lemma {:induction false} OtherGrows(opts: Options, s: State, step: Step)
    requires Enabled(opts, s, step) && Serving(s) && Serving(Do(opts, s, step))
    requires !step.Acknowledge? && !step.Rotate? && !step.AppendEdit?
    ensures Do(opts, s, step).mems == s.mems && Do(opts, s, step).vs.lastSeq == s.vs.lastSeq
  {
    hide Outputs, WithTables, Reloaded, SortedLog, Snapshot, Picked;
  }

  lemma {:induction false} GrowsTransitive(a: map<nat, seq<Entry>>, b: map<nat, seq<Entry>>, c: map<nat, seq<Entry>>,
      bound: nat, bound': nat)
    requires MemsGrow(a, b, bound) && MemsGrow(b, c, bound') && bound <= bound'
    ensures MemsGrow(a, c, bound)
  {
    hide Sorted;
  }

  ghost predicate ServingFrom(run: seq<State>, i: nat, j: nat) {
    i <= j < |run| && forall m :: i <= m <= j ==> Serving(run[m])
  }

  lemma {:induction false} RunGrows(opts: Options, run: seq<State>, steps: seq<Step>, i: nat, j: nat)
    requires IsRun(opts, run, steps) && ServingFrom(run, i, j)
    ensures MemsGrow(run[i].mems, run[j].mems, run[i].vs.lastSeq) && run[j].vs.lastSeq >= run[i].vs.lastSeq
  {
    hide Inv, Do, Init, MemsGrow, Serving;
    if i == j {
      RunKeeps(opts, run, steps, i);
      ServingSane(opts, run[i]);
      MemsStay(run[i]);
    } else {
      RunGrows(opts, run, steps, i, j - 1);
      RunKeeps(opts, run, steps, j - 1);
      assert Serving(run[j - 1]) && run[j - 1 + 1] == Do(opts, run[j - 1], steps[j - 1]);
      StepGrows(opts, run[j - 1], steps[j - 1]);
      GrowsTransitive(run[i].mems, run[j - 1].mems, run[j].mems, run[i].vs.lastSeq, run[j - 1].vs.lastSeq);
    }
  }

  /** The sources a reader meets when it looks into the memtable at one time and into the immutable
      memtable at another. */
  ghost function LateSources(snap: Snap, mems1: map<nat, seq<Entry>>, mems2: map<nat, seq<Entry>>): Stack
    requires snap.mem in mems1 && (snap.imm.Some? ==> snap.imm.value in mems2)
  {
    [mems1[snap.mem]] + (if snap.imm.Some? then [mems2[snap.imm.value]] else []) + StackOf(snap.version)
  }

  lemma {:induction false} LateReads(snap: Snap, mems: map<nat, seq<Entry>>, mems1: map<nat, seq<Entry>>,
      mems2: map<nat, seq<Entry>>, k: Key)
    requires snap.mem in mems && (snap.imm.Some? ==> snap.imm.value in mems)
    requires MemsGrow(mems, mems1, snap.seqno) && MemsGrow(mems, mems2, snap.seqno)
    ensures FirstHit(LateSources(snap, mems1, mems2), k, snap.seqno) == FirstHit(Sources(snap, mems), k, snap.seqno)
  {
    hide Visible, StackOf, Sorted, FirstHit;
    VisibleIgnoresNewer(mems[snap.mem], mems1[snap.mem], k, snap.seqno);
    if snap.imm.Some? { VisibleIgnoresNewer(mems[snap.imm.value], mems2[snap.imm.value], k, snap.seqno); }
    var a, b := LateSources(snap, mems1, mems2), Sources(snap, mems);
    assert |a| == |b| && forall i :: 2 <= i < |a| ==> a[i] == b[i];
    FirstHitSame(a, b, k, snap.seqno);
  }

  /** However many writes, flushes and compactions happen meanwhile, a reader that captured its
      snapshot in state `i` gets what the map held in state `i`. */
  lemma {:induction false} SnapshotStable(opts: Options, run: seq<State>, steps: seq<Step>, i: nat, j1: nat, j2: nat,
      k: Key)
    requires IsRun(opts, run, steps) && ServingFrom(run, i, j1) && ServingFrom(run, i, j2)
    ensures var snap := Capture(run[i]);
            && snap.mem in run[j1].mems && (snap.imm.Some? ==> snap.imm.value in run[j2].mems)
            && Outcome(FirstHit(LateSources(snap, run[j1].mems, run[j2].mems), k, snap.seqno)) ==
                Expected(run[i].hist, k)
  {
    hide IsRun, Serving, FirstHit, Sources, LateSources, Expected;
    GetIsMap(opts, run, steps, i, k);
    RunGrows(opts, run, steps, i, j1);
    RunGrows(opts, run, steps, i, j2);
    LateReads(Capture(run[i]), run[i].mems, run[j1].mems, run[j2].mems, k);
  }

  /** Nothing in the tables of a captured version is newer than the captured sequence number, and
      its levels are sorted, disjoint and newest first. */
  lemma {:induction false} SnapshotShape(opts: Options, run: seq<State>, steps: seq<Step>, i: nat)
    requires IsRun(opts, run, steps) && i < |run| && Serving(run[i])
    ensures var s := run[i];
            && ValidVersion(s.vs.current)
            && s.mem in s.mems && (s.imm.Some? ==> s.imm.value in s.mems)
            && NewestFirst(Sources(Capture(s), s.mems))
            && forall e :: Holds(Sources(Capture(s), s.mems), e) ==> 1 <= e.seqno <= s.vs.lastSeq
  {
    hide IsRun, Serving, Sources, Running, ValidVersion, Inv, Base, Covers, NewestFirst;
    var s := run[i];
    RunKeeps(opts, run, steps, i);
    ServingRuns(opts, s);
    RunningValid(Base(s));
    RunningSources(Base(s));
  }
}
