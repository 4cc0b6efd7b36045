/** What recovery reads out of a directory, said of the disk alone. */
module EngineRecovered {
  import opened Keys
  import opened Entries
  import opened Records
  import opened History
  import opened Recency
  import opened Versions
  import opened Compactions
  import opened Manifest
  import opened Engine
  import opened EngineInvariant
  import opened EngineSteps
  import opened EngineRecover

  /** What replay makes of a log: the records before the first that is refused, sorted. */
  function ReplayedLog(log: seq<Entry>): Source {
    SortedLog(ReadBack(log))
  }

  /** What it makes of the live logs, newest first. */
  ghost function ReplayStack(logs: map<nat, seq<Entry>>, pending: seq<nat>): (st: Stack)
    requires forall n :: n in pending ==> n in logs
    ensures |st| == |pending|
    ensures forall i :: 0 <= i < |pending| ==> st[i] == ReplayedLog(LogStack(logs, pending)[i])
  {
    hide ReplayedLog;
    var logged := LogStack(logs, pending);
    seq(|pending|, i requires 0 <= i < |pending| => ReplayedLog(logged[i]))
  }

  /** What is read of `k` once the manifest has been replayed and the live logs lie on top. */
  ghost function RecoveredRead(d: Disk, pending: seq<nat>, last: nat, k: Key): Answer
    requires forall n :: n in pending ==> n in d.logs
  {
    Outcome(FirstHit(ReplayStack(d.logs, pending) + StackOf(Reloaded(d).current), k, last))
  }

  /** Recovery from this disk brings back the map of `h`. */
  ghost predicate RecoversTo(d: Disk, h: seq<Entry>) {
    forall pending, k :: LiveLogs(d.logs, Reloaded(d).logNumber, pending) ==>
      RecoveredRead(d, pending, |h|, k) == Expected(h, k)
  }

  lemma {:induction false} ReplayMeans(d: Disk, pending: seq<nat>, h: seq<Entry>)
    requires LiveLogs(d.logs, Reloaded(d).logNumber, pending) && ValidVersion(Reloaded(d).current)
    requires forall n :: n in pending ==> ValidLog(d.logs[n])
    requires Represents(LogStack(d.logs, pending) + StackOf(Reloaded(d).current), h)
    ensures var st := ReplayStack(d.logs, pending) + StackOf(Reloaded(d).current);
            Represents(st, h) && AllSorted(st)
  {
    hide Reloaded, StackOf, Represents, ValidVersion, ReplayedLog, Sorted, ValidLog, LiveLogs;
    assert forall n :: n in pending ==> n in d.logs by { LiveExist(d.logs, Reloaded(d).logNumber, pending); }
    var v := StackOf(Reloaded(d).current);
    var a, b := LogStack(d.logs, pending), ReplayStack(d.logs, pending);
    StackSorted(Reloaded(d).current);
    forall i | 0 <= i < |a| ensures SameMembers(a[i], b[i]) && Sorted(b[i]) {
      var n := pending[|pending| - 1 - i];
      assert n in pending;
      LogSorted(d.logs[n]);
    }
    forall i | 0 <= i < |a + v| ensures SameMembers((a + v)[i], (b + v)[i]) && Sorted((b + v)[i]) {
      assert i >= |a| ==> (a + v)[i] == v[i - |a|] && (b + v)[i] == v[i - |a|];
    }
    RepresentsMembers(a + v, b + v, h);
  }

  lemma {:induction false} LiveExist(logs: map<nat, seq<Entry>>, logNumber: nat, pending: seq<nat>)
    requires LiveLogs(logs, logNumber, pending)
    ensures forall n :: n in pending ==> n in logs
  {
  }

  lemma {:induction false} LogSorted(log: seq<Entry>)
    requires ValidLog(log)
    ensures SameMembers(log, ReplayedLog(log)) && Sorted(ReplayedLog(log))
  {
    hide Sorted, Readable, SortedLog;
    AllKept(log);
    SortedLogIsSorted(log);
  }

  /** A disk whose live logs and version represent a history recovers to it. */
  lemma {:induction false} DiskRecovers(d: Disk, pending: seq<nat>, h: seq<Entry>)
    requires LiveLogs(d.logs, Reloaded(d).logNumber, pending) && ValidVersion(Reloaded(d).current)
    requires forall n :: n in pending ==> ValidLog(d.logs[n])
    requires Represents(LogStack(d.logs, pending) + StackOf(Reloaded(d).current), h)
    ensures RecoversTo(d, h)
  {
    hide Reloaded, StackOf, Represents, ValidVersion, ValidLog, LiveLogs, AllSorted, FirstHit, Expected;
    forall p, k | LiveLogs(d.logs, Reloaded(d).logNumber, p)
      ensures (forall n :: n in p ==> n in d.logs) && RecoveredRead(d, p, |h|, k) == Expected(h, k)
    {
      LiveExist(d.logs, Reloaded(d).logNumber, p);
      LiveUnique(d.logs, Reloaded(d).logNumber, p, pending);
      ReplayMeans(d, pending, h);
      ReadsLastWrite(ReplayStack(d.logs, p) + StackOf(Reloaded(d).current), h, k, |h|);
    }
  }

  lemma {:induction false} CoreRecovers(s: State, pending: seq<nat>)
    requires Core(s, pending)
    ensures RecoversTo(s.disk, s.hist)
  {
    hide Represents, StackOf, Reloaded, SeqKnown, ValidVersion, ReplayAll, ValidLog, DistinctFiles, NumbersBelow,
         RecoversTo;
    DiskRecovers(s.disk, pending, s.hist);
  }

  /** In every reachable state with no record in flight, what is on disk is the map. */
  lemma {:induction false} StateRecovers(opts: Options, s: State)
    requires Inv(opts, s) && !s.pc.Writing?
    ensures RecoversTo(s.disk, s.hist)
  {
    hide Core, RecoversTo, Running, Restarting, Ready, FlushEdit, Represents, StackOf, IsLive, Settled, SameMembers,
         Reloaded, SoundDisk, Recoverable;
    if s.pc == Down {
      DownRecovers(opts, s);
    } else {
      var p := SomeCore(opts, s);
      CoreRecovers(s, p);
    }
  }

  lemma {:induction false} DownRecovers(opts: Options, s: State)
    requires Inv(opts, s) && s.pc == Down
    ensures RecoversTo(s.disk, s.hist)
  {
    hide Represents, StackOf, Reloaded, SeqKnown, ValidVersion, ReplayAll, ValidLog, DistinctFiles, NumbersBelow,
         LiveLogs, RecoveredRead, Expected;
    forall p, k | LiveLogs(s.disk.logs, Reloaded(s.disk).logNumber, p)
      ensures (forall n :: n in p ==> n in s.disk.logs)
              && RecoveredRead(s.disk, p, |s.hist|, k) == Expected(s.hist, k)
    {
      LiveExist(s.disk.logs, Reloaded(s.disk).logNumber, p);
      DiskRecovers(s.disk, p, s.hist);
    }
  }

  /** Only what replay gets out of the logs matters. */
  lemma {:induction false} ReplaySame(d: Disk, logs: map<nat, seq<Entry>>, h: seq<Entry>)
    requires RecoversTo(d, h) && logs.Keys == d.logs.Keys
    requires forall n :: n in logs ==> ReadBack(logs[n]) == ReadBack(d.logs[n])
    ensures RecoversTo(d.(logs := logs), h)
  {
    hide Reloaded, StackOf, FirstHit, Expected, ReadBack, SortedLog;
    var d' := d.(logs := logs);
    SameReload(d, d');
    forall p, k | LiveLogs(logs, Reloaded(d').logNumber, p)
      ensures (forall n :: n in p ==> n in logs) && RecoveredRead(d', p, |h|, k) == Expected(h, k)
    {
      assert LiveLogs(d.logs, Reloaded(d).logNumber, p);
      forall i | 0 <= i < |p| ensures ReplayStack(logs, p)[i] == ReplayStack(d.logs, p)[i] {
        assert p[|p| - 1 - i] in p;
      }
      assert ReplayStack(logs, p) == ReplayStack(d.logs, p);
    }
  }

  // ---- The live logs, listed ----

  lemma {:induction false} Largest(ns: set<nat>) returns (m: nat)
    requires ns != {}
    ensures m in ns && forall n :: n in ns ==> n <= m
  {
    m :| m in ns;
    var rest := ns - {m};
    if rest != {} {
      var first := m;
      var r := Largest(rest);
      if r > m { m := r; }
      forall n | n in ns ensures n <= m { assert n == first || n in rest; }
    } else {
      assert ns == {m};
    }
  }

  lemma {:induction false} Ascending(ns: set<nat>) returns (p: seq<nat>)
    ensures forall i, j :: 0 <= i < j < |p| ==> p[i] < p[j]
    ensures forall n :: n in p <==> n in ns
    decreases |ns|
  {
    if ns == {} {
      p := [];
    } else {
      var m := Largest(ns);
      var q := Ascending(ns - {m});
      p := q + [m];
      forall i, j | 0 <= i < j < |p| ensures p[i] < p[j] { assert p[i] in q; }
    }
  }

  /** There is a list of the live logs. */
  lemma {:induction false} LiveList(logs: map<nat, seq<Entry>>, logNumber: nat) returns (p: seq<nat>)
    ensures LiveLogs(logs, logNumber, p)
  {
    p := Ascending(set n | n in logs && n >= logNumber);
  }

  /** Everything in the live tables is one of the writes. */
  lemma {:induction false} TablesHold(opts: Options, s: State, e: Entry)
    requires Inv(opts, s) && Holds(StackOf(Reloaded(s.disk).current), e)
    ensures 1 <= e.seqno <= |s.hist|
  {
    hide Core, Ready, FlushEdit, StackOf, IsLive, Settled, SameMembers, Reloaded, SoundDisk, Covers, NewestFirst,
         MemsMatch, MemsSane, Holds;
    var p;
    if s.pc == Down {
      p := LiveList(s.disk.logs, Reloaded(s.disk).logNumber);
      CoreHold(s.disk, p, s.hist, e);
    } else if s.pc.Writing? {
      SameReload(Base(s).disk, s.disk);
      CoreRecoverable(Base(s), Live(Base(s)));
      CoreHold(Base(s).disk, Live(Base(s)), s.hist, e);
    } else {
      p := SomeCore(opts, s);
      CoreRecoverable(s, p);
      CoreHold(s.disk, p, s.hist, e);
    }
  }

  lemma {:induction false} CoreRecoverable(s: State, p: seq<nat>)
    requires Core(s, p)
    ensures Recoverable(s.disk, p, s.hist)
  {
    hide Recoverable, SoundDisk, Matches;
  }

  lemma {:induction false} CoreHold(d: Disk, p: seq<nat>, h: seq<Entry>, e: Entry)
    requires Recoverable(d, p, h) && Holds(StackOf(Reloaded(d).current), e)
    ensures 1 <= e.seqno <= |h|
  {
    hide Reloaded, StackOf, Covers, NewestFirst;
    var st, a := StackOf(Reloaded(d).current), LogStack(d.logs, p);
    var i :| 0 <= i < |st| && e in st[i];
    assert (a + st)[|a| + i] == st[i];
    assert Holds(a + st, e);
  }
}
