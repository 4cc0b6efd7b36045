/** Reads as the table readers do them, one block per file: in every reachable state they give what
    the map holds. */
module EngineReads {
  import opened Keys
  import opened Entries
  import opened History
  import opened Recency
  import opened BlockSearch
  import opened Versions
  import opened Compactions
  import opened Engine
  import opened EngineTheorems
  import opened EngineSnapshots

  /** The captured tables hold nothing newer than the captured sequence number. */
  lemma {:induction false} ServingCurrent(opts: Options, run: seq<State>, steps: seq<Step>, i: nat, k: Key)
    requires IsRun(opts, run, steps) && i < |run| && Serving(run[i])
    ensures ValidVersion(run[i].vs.current) && Current(run[i].vs.current, k, run[i].vs.lastSeq)
  {
    hide IsRun, Serving, ValidVersion, Sources, StackOf, NewestFirst;
    var s := run[i];
    SnapshotShape(opts, run, steps, i);
    forall l, f, e | 0 <= l < NUM_LEVELS && f in s.vs.current[l] && e in Content(f) ensures e.seqno <= s.vs.lastSeq {
      StackHolds(s.vs.current, e);
      SourcesHold(Capture(s), s.mems, e);
    }
  }

  /** The memtables, then the one block of each file that is searched for `k`. */
  ghost function BlockSources(cut: Cutter, snap: Snap, mems: map<nat, seq<Entry>>, k: Key): Stack
    requires snap.mem in mems && (snap.imm.Some? ==> snap.imm.value in mems)
  {
    MemSources(snap, mems) + StackOf(NarrowedVersion(cut, snap.version, k))
  }

  lemma {:induction false} BlockReads(cut: Cutter, snap: Snap, mems: map<nat, seq<Entry>>, k: Key)
    requires snap.mem in mems && (snap.imm.Some? ==> snap.imm.value in mems)
    requires ValidVersion(snap.version) && Current(snap.version, k, snap.seqno)
    ensures FirstHit(BlockSources(cut, snap, mems, k), k, snap.seqno) == FirstHit(Sources(snap, mems), k, snap.seqno)
  {
    hide ValidVersion, StackOf, FirstHit, Current, MemSources, NarrowedVersion;
    CurrentVersion(cut, snap.version, k, snap.seqno);
    FirstHitUnder(MemSources(snap, mems), StackOf(NarrowedVersion(cut, snap.version, k)), StackOf(snap.version), k,
                  snap.seqno);
  }

  /** `Get` in any reachable state, with any cutting of the tables into blocks. */
  lemma {:induction false} BlockGetIsMap(cut: Cutter, opts: Options, run: seq<State>, steps: seq<Step>, i: nat, k: Key)
    requires IsRun(opts, run, steps) && i < |run| && Serving(run[i])
    ensures var s := run[i];
            && s.mem in s.mems && (s.imm.Some? ==> s.imm.value in s.mems)
            && Outcome(FirstHit(BlockSources(cut, Capture(s), s.mems, k), k, s.vs.lastSeq)) == Expected(s.hist, k)
  {
    hide IsRun, Serving, ValidVersion, FirstHit, Expected, Current, BlockSources, Sources;
    GetIsMap(opts, run, steps, i, k);
    ServingCurrent(opts, run, steps, i, k);
    BlockReads(cut, Capture(run[i]), run[i].mems, k);
  }

  /** The sources of a reader that looks into the memtables later, with one block per table. */
  ghost function LateBlockSources(cut: Cutter, snap: Snap, mems1: map<nat, seq<Entry>>, mems2: map<nat, seq<Entry>>,
      k: Key): Stack
    requires snap.mem in mems1 && (snap.imm.Some? ==> snap.imm.value in mems2)
  {
    [mems1[snap.mem]] + (if snap.imm.Some? then [mems2[snap.imm.value]] else [])
    + StackOf(NarrowedVersion(cut, snap.version, k))
  }

  lemma {:induction false} LateBlockReads(cut: Cutter, snap: Snap, mems1: map<nat, seq<Entry>>,
      mems2: map<nat, seq<Entry>>, k: Key)
    requires snap.mem in mems1 && (snap.imm.Some? ==> snap.imm.value in mems2)
    requires ValidVersion(snap.version) && Current(snap.version, k, snap.seqno)
    ensures FirstHit(LateBlockSources(cut, snap, mems1, mems2, k), k, snap.seqno) ==
            FirstHit(LateSources(snap, mems1, mems2), k, snap.seqno)
  {
    hide ValidVersion, StackOf, FirstHit, Current, NarrowedVersion;
    CurrentVersion(cut, snap.version, k, snap.seqno);
    FirstHitUnder([mems1[snap.mem]] + (if snap.imm.Some? then [mems2[snap.imm.value]] else []),
                  StackOf(NarrowedVersion(cut, snap.version, k)), StackOf(snap.version), k, snap.seqno);
  }

  /** `SnapshotStable` with every table read one block at a time. */
  lemma {:induction false} BlockSnapshotStable(cut: Cutter, opts: Options, run: seq<State>, steps: seq<Step>, i: nat,
      j1: nat, j2: nat, k: Key)
    requires IsRun(opts, run, steps) && ServingFrom(run, i, j1) && ServingFrom(run, i, j2)
    ensures var snap := Capture(run[i]);
            && snap.mem in run[j1].mems && (snap.imm.Some? ==> snap.imm.value in run[j2].mems)
            && Outcome(FirstHit(LateBlockSources(cut, snap, run[j1].mems, run[j2].mems, k), k, snap.seqno)) ==
               Expected(run[i].hist, k)
  {
    hide IsRun, Serving, ValidVersion, FirstHit, Expected, Current, LateBlockSources, LateSources;
    SnapshotStable(opts, run, steps, i, j1, j2, k);
    assert Serving(run[i]);
    ServingCurrent(opts, run, steps, i, k);
    LateBlockReads(cut, Capture(run[i]), run[j1].mems, run[j2].mems, k);
  }

  /** Whatever blocks a table of the captured version is cut into, the one block that is searched
      answers for all of it. */
  lemma {:induction false} TableReadsAgree(opts: Options, run: seq<State>, steps: seq<Step>, i: nat, l: nat, f: File,
      blocks: seq<seq<Entry>>, k: Key)
    requires IsRun(opts, run, steps) && i < |run| && Serving(run[i])
    requires l < NUM_LEVELS && f in run[i].vs.current[l] && IsCut(blocks, Content(f))
    ensures Visible(BlockFor(blocks, k), k, run[i].vs.lastSeq) == Visible(Content(f), k, run[i].vs.lastSeq)
  {
    hide IsRun, Serving, Visible, Less, Concat, Sorted, BlockFor;
    ServingCurrent(opts, run, steps, i, k);
    assert CurrentLevel(run[i].vs.current[l], k, run[i].vs.lastSeq);
    assert ValidFile(f) by { assert l > 0 ==> ValidLevel(run[i].vs.current[l]); }
    CurrentReadsAgree(blocks, k, run[i].vs.lastSeq);
  }
}
