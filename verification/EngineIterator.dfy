/** `NewIterator` in every reachable state: the cursor runs over the map that reads see. */
module EngineIterator {
  import opened Entries
  import opened Records
  import opened History
  import opened Recency
  import opened Versions
  import opened Compactions
  import opened Merging
  import opened Engine
  import opened EngineInvariant
  import opened EngineTheorems
  import opened EngineSnapshots
  import DBIterators
  import IteratorRuns

  /** One iterator per table, level by level. */
  function TableChildren(v: Version, l: nat): seq<Child>
    requires l <= NUM_LEVELS
    decreases NUM_LEVELS - l
  {
    if l == NUM_LEVELS then [] else FileChildren(v[l]) + TableChildren(v, l + 1)
  }

  /** `AddIterators`. */
  method AddIterators(v: Version) returns (iters: seq<Child>)
    ensures iters == TableChildren(v, 0)
  {
    hide Content, TableChildren;
    iters := [];
    for level := 0 to NUM_LEVELS
      invariant iters + TableChildren(v, level) == TableChildren(v, 0)
    {
      ghost var before := iters;
      for i := 0 to |v[level]|
        invariant iters == before + FileChildren(v[level])[..i]
      {
        iters := iters + [Child(Content(v[level][i]), 0)];
      }
      NextLevel(before, v, level);
    }
    NoLevels(v);
  }

  lemma {:induction false} NextLevel(before: seq<Child>, v: Version, l: nat)
    requires l < NUM_LEVELS
    ensures FileChildren(v[l])[..|v[l]|] == FileChildren(v[l])
    ensures before + FileChildren(v[l]) + TableChildren(v, l + 1) == before + TableChildren(v, l)
  {
    hide Content;
  }

  lemma {:induction false} NoLevels(v: Version)
    ensures TableChildren(v, NUM_LEVELS) == []
  {
  }

  lemma {:induction false} FileChildrenHold(fs: seq<File>, x: Entry)
    ensures DBIterators.Within(FileChildren(fs), x) <==> exists f :: f in fs && x in Content(f)
  {
    hide Content;
    var cs := FileChildren(fs);
    if i :| 0 <= i < |cs| && x in cs[i].entries { assert fs[i] in fs && x in Content(fs[i]); }
    if f :| f in fs && x in Content(f) {
      var i :| 0 <= i < |fs| && fs[i] == f;
      assert x in cs[i].entries;
    }
  }

  lemma {:induction false} WithinConcat(a: seq<Child>, b: seq<Child>, x: Entry)
    ensures DBIterators.Within(a + b, x) <==> DBIterators.Within(a, x) || DBIterators.Within(b, x)
  {
    if i :| 0 <= i < |a + b| && x in (a + b)[i].entries { assert i < |a| || x in b[i - |a|].entries; }
    if i :| 0 <= i < |a| && x in a[i].entries { assert x in (a + b)[i].entries; }
    if i :| 0 <= i < |b| && x in b[i].entries { assert x in (a + b)[|a| + i].entries; }
  }

  lemma {:induction false} TableChildrenHold(v: Version, l: nat, x: Entry)
    requires l <= NUM_LEVELS
    ensures DBIterators.Within(TableChildren(v, l), x) <==>
            exists m, f :: l <= m < NUM_LEVELS && f in v[m] && x in Content(f)
    decreases NUM_LEVELS - l
  {
    hide Content, FileChildren;
    if l < NUM_LEVELS {
      TableChildrenHold(v, l + 1, x);
      FileChildrenHold(v[l], x);
      WithinConcat(FileChildren(v[l]), TableChildren(v, l + 1), x);
    }
  }

  lemma {:induction false} TableChildrenSorted(v: Version, l: nat)
    requires ValidVersion(v) && l <= NUM_LEVELS
    ensures AllChildrenSorted(TableChildren(v, l))
    decreases NUM_LEVELS - l
  {
    hide Sorted, Content;
    if l < NUM_LEVELS {
      TableChildrenSorted(v, l + 1);
      forall i | 0 <= i < |v[l]| ensures ValidFile(v[l][i]) { assert v[l][i] in v[l]; }
    }
  }

  /** The children of an iterator: the memtables it captured, as they are by now, and the tables of
      the version it captured. */
  ghost function IteratorChildren(snap: Snap, mems1: map<nat, seq<Entry>>, mems2: map<nat, seq<Entry>>): seq<Child>
    requires snap.mem in mems1 && (snap.imm.Some? ==> snap.imm.value in mems2)
  {
    [Mem(mems1[snap.mem], 0)] + (if snap.imm.Some? then [Mem(mems2[snap.imm.value], 0)] else [])
    + TableChildren(snap.version, 0)
  }

  lemma {:induction false} ChildrenHold(snap: Snap, mems1: map<nat, seq<Entry>>, mems2: map<nat, seq<Entry>>, x: Entry)
    requires snap.mem in mems1 && (snap.imm.Some? ==> snap.imm.value in mems2)
    ensures DBIterators.Within(IteratorChildren(snap, mems1, mems2), x) <==>
            x in mems1[snap.mem] || (snap.imm.Some? && x in mems2[snap.imm.value]) || Holds(StackOf(snap.version), x)
  {
    hide StackOf, TableChildren, Holds;
    var cs, ts := IteratorChildren(snap, mems1, mems2), TableChildren(snap.version, 0);
    var k := if snap.imm.Some? then 2 else 1;
    TableChildrenHold(snap.version, 0, x);
    StackHolds(snap.version, x);
    assert cs[0] == Mem(mems1[snap.mem], 0) && (snap.imm.Some? ==> cs[1] == Mem(mems2[snap.imm.value], 0));
    if i :| 0 <= i < |cs| && x in cs[i].entries {
      if i >= k { assert x in ts[i - k].entries; }
    }
    if i :| 0 <= i < |ts| && x in ts[i].entries { assert x in cs[i + k].entries; }
  }

  lemma {:induction false} ChildrenSorted(snap: Snap, mems: map<nat, seq<Entry>>, mems1: map<nat, seq<Entry>>,
      mems2: map<nat, seq<Entry>>)
    requires snap.mem in mems && (snap.imm.Some? ==> snap.imm.value in mems) && ValidVersion(snap.version)
    requires MemsGrow(mems, mems1, snap.seqno) && MemsGrow(mems, mems2, snap.seqno)
    ensures AllChildrenSorted(IteratorChildren(snap, mems1, mems2))
  {
    hide Sorted, ValidVersion, TableChildren;
    TableChildrenSorted(snap.version, 0);
  }

  lemma {:induction false} SameBelow(snap: Snap, mems: map<nat, seq<Entry>>, mems1: map<nat, seq<Entry>>,
      mems2: map<nat, seq<Entry>>)
    requires snap.mem in mems && (snap.imm.Some? ==> snap.imm.value in mems)
    requires MemsGrow(mems, mems1, snap.seqno) && MemsGrow(mems, mems2, snap.seqno)
    ensures SameUpTo(Merged(DBIterators.Children(Sources(snap, mems))), Merged(IteratorChildren(snap, mems1, mems2)),
                     snap.seqno)
  {
    hide Sorted, Merged, StackOf, Holds;
    var st, cs := Sources(snap, mems), IteratorChildren(snap, mems1, mems2);
    forall e: Entry | e.seqno <= snap.seqno ensures e in Merged(DBIterators.Children(st)) <==> e in Merged(cs) {
      DBIterators.MergedHolds(st, e);
      SourcesHold(snap, mems, e);
      ChildrenHold(snap, mems1, mems2, e);
      TableChildrenFresh(snap.version, 0);
      AtFirstHold(cs, e);
    }
  }

  lemma {:induction false} AtFirstHold(cs: seq<Child>, e: Entry)
    requires forall i :: 0 <= i < |cs| ==> cs[i].pos == 0
    ensures e in Merged(cs) <==> DBIterators.Within(cs, e)
  {
    hide Merged;
    MergedMember(cs, e);
    assert forall i :: 0 <= i < |cs| ==> cs[i].Rest() == cs[i].entries;
  }

  lemma {:induction false} TableChildrenFresh(v: Version, l: nat)
    requires l <= NUM_LEVELS
    ensures forall i :: 0 <= i < |TableChildren(v, l)| ==> TableChildren(v, l)[i].pos == 0
    decreases NUM_LEVELS - l
  {
    if l < NUM_LEVELS { TableChildrenFresh(v, l + 1); }
  }

  /** An iterator created in state `i` runs, whenever it is positioned and whatever was written,
      flushed or compacted since, over exactly the bindings that the map had in state `i`, in
      strictly ascending key order. */
  lemma {:induction false} IteratorIsMap(opts: Options, run: seq<State>, steps: seq<Step>, i: nat, j1: nat, j2: nat)
    requires IsRun(opts, run, steps) && ServingFrom(run, i, j1) && ServingFrom(run, i, j2)
    ensures var snap := Capture(run[i]);
            && snap.mem in run[j1].mems && (snap.imm.Some? ==> snap.imm.value in run[j2].mems)
            && var ps := DBIterators.Live(Merged(IteratorChildren(snap, run[j1].mems, run[j2].mems)), snap.seqno);
               && DBIterators.StrictlyUp(ps)
               && forall k, v :: (k, v) in ps <==> k in MapOf(run[i].hist) && MapOf(run[i].hist)[k] == v
  {
    hide IsRun, Inv, Running, Base, Sources, Represents, AllSorted, Merged, MapOf, DBIterators.Live, IteratorChildren,
         ValidVersion, MemsGrow;
    var s, snap := run[i], Capture(run[i]);
    assert Serving(s);
    RunKeeps(opts, run, steps, i);
    ServingRuns(opts, s);
    RunningSources(Base(s));
    RunningValid(Base(s));
    RunGrows(opts, run, steps, i, j1);
    RunGrows(opts, run, steps, i, j2);
    SameLive(snap, s.mems, run[j1].mems, run[j2].mems, s.hist);
    DBIterators.LiveIsMap(Sources(snap, s.mems), s.hist, snap.seqno);
  }

  lemma {:induction false} SameLive(snap: Snap, mems: map<nat, seq<Entry>>, mems1: map<nat, seq<Entry>>,
      mems2: map<nat, seq<Entry>>, h: seq<Entry>)
    requires snap.mem in mems && (snap.imm.Some? ==> snap.imm.value in mems) && ValidVersion(snap.version)
    requires MemsGrow(mems, mems1, snap.seqno) && MemsGrow(mems, mems2, snap.seqno)
    requires Represents(Sources(snap, mems), h) && AllSorted(Sources(snap, mems))
    ensures snap.mem in mems1 && (snap.imm.Some? ==> snap.imm.value in mems2)
    ensures DBIterators.Live(Merged(DBIterators.Children(Sources(snap, mems))), snap.seqno)
         == DBIterators.Live(Merged(IteratorChildren(snap, mems1, mems2)), snap.seqno)
  {
    hide Sorted, Sources, AllSorted, Merged, DBIterators.Live, IteratorChildren, ValidVersion, Ascending,
         DBIterators.WellKinded, DBIterators.Unambiguous, SameUpTo, Covers, Genuine, NewestFirst, AllChildrenSorted;
    DBIterators.MergedShape(Sources(snap, mems), h, snap.seqno);
    ChildrenSorted(snap, mems, mems1, mems2);
    MergedAscends(IteratorChildren(snap, mems1, mems2));
    SameBelow(snap, mems, mems1, mems2);
    DBIterators.LiveIgnoresNewer(
      Merged(DBIterators.Children(Sources(snap, mems))), Merged(IteratorChildren(snap, mems1, mems2)), snap.seqno);
  }

  // ---- The iterator at work ----

  /** What an iterator starts from is fit for inserts to arrive while it runs. */
  lemma {:induction false} ChildrenClean(opts: Options, run: seq<State>, steps: seq<Step>, i: nat)
    requires IsRun(opts, run, steps) && i < |run| && Serving(run[i])
    ensures var s := run[i];
            && s.mem in s.mems && (s.imm.Some? ==> s.imm.value in s.mems)
            && DBIterators.Clean(IteratorChildren(Capture(s), s.mems, s.mems), s.vs.lastSeq)
  {
    hide IsRun, Inv, Running, Base, Represents, Sources, AllSorted, IteratorChildren, ValidVersion, MemsGrow,
         DBIterators.Clean;
    var s := run[i];
    RunKeeps(opts, run, steps, i);
    ServingRuns(opts, s);
    RunningSources(Base(s));
    RunningValid(Base(s));
    ServingSane(opts, s);
    MemsStay(s);
    ChildrenSorted(Capture(s), s.mems, s.mems, s.mems);
    GenuineClean(Capture(s), s.mems, s.hist);
  }

  lemma {:induction false} GenuineClean(snap: Snap, mems: map<nat, seq<Entry>>, h: seq<Entry>)
    requires snap.mem in mems && (snap.imm.Some? ==> snap.imm.value in mems)
    requires Represents(Sources(snap, mems), h) && AllChildrenSorted(IteratorChildren(snap, mems, mems))
    ensures DBIterators.Clean(IteratorChildren(snap, mems, mems), snap.seqno)
  {
    hide Sources, IteratorChildren, AllChildrenSorted, NewestFirst, Covers, Holds, StackOf, DBIterators.Within;
    var cs := IteratorChildren(snap, mems, mems);
    forall e | DBIterators.Within(cs, e) ensures Holds(Sources(snap, mems), e) {
      ChildrenHold(snap, mems, mems, e);
      SourcesHold(snap, mems, e);
    }
  }

  /** A write that the engine acknowledges is such an insert for every iterator created before it. */
  lemma {:induction false} AcknowledgeInserts(opts: Options, s: State, c: Child, bound: nat)
    requires Inv(opts, s) && Enabled(opts, s, Acknowledge) && c.entries == s.mems[s.mem] && bound <= s.vs.lastSeq
    ensures DBIterators.IsNew(c, s.pc.e, bound)
    ensures DBIterators.Grown(c, s.pc.e).entries == Do(opts, s, Acknowledge).mems[s.mem]
  {
    hide Running, Base, Settled, Sources, AllSorted, NewestFirst, Covers, AddSorted, Readable, Holds, StackOf;
    ServingRuns(opts, s);
    RunningSources(Base(s));
    forall x | x in c.entries ensures x.seqno <= |s.hist| { SourcesHold(Capture(s), s.mems, x); }
  }

  /** An iterator created in state `i`, through any operations and with inserts at any point of them:
      whenever no operation is under way it shows the binding of the map of state `i` that a cursor over
      the sorted bindings would show.  With a sequence number beyond the memtables' probe this holds as
      long as no seek is led astray. */
  lemma {:induction false} IteratorRunIsMap(opts: Options, run: seq<State>, steps: seq<Step>, i: nat,
      cursors: seq<IteratorRuns.Cursor>, moves: seq<IteratorRuns.Step>, n: nat)
    requires IsRun(opts, run, steps) && i < |run| && Serving(run[i])
    requires IteratorRuns.IsUse(run[i].vs.lastSeq, cursors, moves) && n < |cursors|
    requires run[i].vs.lastSeq <= MAX_SEQNO || IteratorRuns.AllSighted(run[i].vs.lastSeq, cursors, moves)
    requires cursors[n].pc == IteratorRuns.Resting
    requires run[i].mem in run[i].mems && (run[i].imm.Some? ==> run[i].imm.value in run[i].mems)
    requires cursors[0].cs == IteratorChildren(Capture(run[i]), run[i].mems, run[i].mems)
    ensures var s, c := run[i], cursors[n];
            var ps := IteratorRuns.Pairs(s.vs.lastSeq, cursors[0]);
            var at := IteratorRuns.Place(ps, moves, n);
            && DBIterators.StrictlyUp(ps)
            && (forall k, v :: (k, v) in ps <==> k in MapOf(s.hist) && MapOf(s.hist)[k] == v)
            && (c.valid <==> at.Some?)
            && (at.Some? ==> at.value < |ps| && ps[at.value] == (c.key, c.value))
  {
    hide IsRun, IteratorRuns.IsUse, IteratorRuns.Place, Merged, MapOf, DBIterators.Live, DBIterators.StrictlyUp,
         TableChildren, IteratorRuns.AllSighted, DBIterators.Clean;
    var s := run[i];
    assert ServingFrom(run, i, i);
    IteratorIsMap(opts, run, steps, i, i, i);
    ChildrenClean(opts, run, steps, i);
    TableChildrenFresh(s.vs.current, 0);
    assert AllAtFirst(cursors[0].cs) == cursors[0].cs;
    if s.vs.lastSeq <= MAX_SEQNO { IteratorRuns.LowIsSighted(s.vs.lastSeq, cursors, moves); }
    IteratorRuns.RunsAsList(s.vs.lastSeq, cursors, moves, n);
  }
}
