/** Every step keeps the invariant. */
module EngineSteps {
  import opened Entries
  import opened Records
  import opened Recency
  import opened Versions
  import opened Compactions
  import opened Manifest
  import opened Engine
  import opened EngineInvariant

  // ---- Memtables ----

  lemma {:induction false} SortedLogIsSorted(log: seq<Entry>)
    requires ValidLog(log)
    ensures Sorted(SortedLog(log))
  {
    if log != [] {
      var n := |log| - 1;
      SortedLogIsSorted(log[..n]);
      AddSortedKeeps(SortedLog(log[..n]), log[n]);
    }
  }

  // ---- Writing ----

  lemma {:induction false} SameReload(d: Disk, d': Disk)
    requires d.records == d'.records && d.tables == d'.tables
    ensures Reloaded(d') == Reloaded(d)
  {
  }

  lemma {:induction false} RunningFacts(s: State)
    requires Running(s)
    ensures s.vs.lastSeq == |s.hist| && s.vs.open && s.mem < s.vs.nextFile
    ensures s.mem in s.disk.logs && s.mem in s.mems
    ensures s.imm.Some? ==> s.imm.value in s.disk.logs && s.imm.value in s.mems
  {
    hide Core;
    assert s.mem in Live(s) && (s.imm.Some? ==> s.imm.value in Live(s));
  }

  lemma {:induction false} BaseOfAppend(s: State, s': State, e: Entry)
    requires s.pc == Idle && s.mem in s.disk.logs
    requires s' == s.(disk := s.disk.(logs := s.disk.logs[s.mem := s.disk.logs[s.mem] + [e]]), pc := Writing(e))
    ensures Base(s') == s
  {
    var log := s.disk.logs[s.mem];
    assert (log + [e])[..|log|] == log;
    assert Base(s').disk.logs == s.disk.logs;
  }

  lemma {:induction false} AppendKeeps(opts: Options, s: State, step: Step)
    requires Inv(opts, s) && step.Append? && Enabled(opts, s, step)
    ensures Inv(opts, Do(opts, s, step))
  {
    hide Running, Reloaded, Base;
    var s' := Do(opts, s, step);
    RunningFacts(s);
    BaseOfAppend(s, s', s'.pc.e);
    SameReload(s.disk, s'.disk);
  }

  /** The top source of a running process is its memtable's log. */
  lemma {:induction false} LiveStack(logs: map<nat, seq<Entry>>, s: State)
    requires forall n :: n in Live(s) ==> n in logs
    ensures s.mem in logs && LogStack(logs, Live(s)) == [logs[s.mem]] + OlderLog(logs, s)
  {
    assert s.mem in Live(s);
  }

  ghost function OlderLog(logs: map<nat, seq<Entry>>, s: State): Stack {
    if s.imm.Some? && s.imm.value in logs then [logs[s.imm.value]] else []
  }

  lemma {:induction false} LoggedSeqs(d: Disk, pending: seq<nat>, h: seq<Entry>, n: nat, e: Entry)
    requires Recoverable(d, pending, h) && n in pending && e in d.logs[n]
    ensures 1 <= e.seqno <= |h| && h[e.seqno - 1] == e
  {
    hide Reloaded, StackOf, Covers, NewestFirst;
    var st := LogStack(d.logs, pending) + StackOf(Reloaded(d).current);
    var i :| 0 <= i < |pending| && pending[i] == n;
    assert st[|pending| - 1 - i] == d.logs[n];
    assert Holds(st, e);
  }

  /** What is known while a record is in flight, in terms of the acknowledged state. */
  ghost predicate Pending(b: State, s: State, e: Entry) {
    && Running(b) && s.vs == b.vs && s.mem == b.mem && s.imm == b.imm && s.mems == b.mems && s.hist == b.hist
    && b.mem in b.disk.logs && s.disk == b.disk.(logs := b.disk.logs[b.mem := b.disk.logs[b.mem] + [e]])
    && e.seqno == |b.hist| + 1 && (e.kind == VALUE || e.kind == DELETION) && Readable(e)
  }

  lemma {:induction false} InFlightIsPending(s: State)
    requires Running(Base(s)) && InFlight(s)
    ensures Pending(Base(s), s, s.pc.e) && Reloaded(s.disk) == Reloaded(Base(s).disk)
  {
    hide Running, Reloaded;
    var b := Base(s);
    var log := s.disk.logs[s.mem];
    assert log == log[..|log| - 1] + [s.pc.e];
    assert s.disk.logs == b.disk.logs[s.mem := b.disk.logs[s.mem] + [s.pc.e]];
    SameReload(b.disk, s.disk);
  }

  lemma {:induction false} PendingLog(b: State, s: State, e: Entry)
    requires Pending(b, s, e)
    ensures ValidLog(b.disk.logs[b.mem] + [e])
  {
    hide GoodVersion, ReplayAll, Reloaded, Recoverable, MemsMatch;
    var log := b.disk.logs[b.mem];
    assert b.mem in Live(b);
    assert ValidLog(log);
    forall x | x in log ensures x.seqno <= |b.hist| { LoggedSeqs(b.disk, Live(b), b.hist, b.mem, x); }
  }

  lemma {:induction false} PendingDisk(b: State, s: State, e: Entry)
    requires Pending(b, s, e)
    ensures SoundDisk(s.disk) && Matches(s.vs, s.disk)
    ensures LiveLogs(s.disk.logs, s.vs.logNumber, Live(s))
  {
    hide GoodVersion, ReplayAll, Reloaded, MemsMatch, ValidLog, Represents, SeqKnown, LiveLogs;
    SameReload(b.disk, s.disk);
    PendingLog(b, s, e);
    PendingLive(b.disk, s.disk, b.vs.logNumber, Live(b));
  }

  lemma {:induction false} PendingLive(d: Disk, d': Disk, logNumber: nat, p: seq<nat>)
    requires LiveLogs(d.logs, logNumber, p) && d'.logs.Keys == d.logs.Keys
    ensures LiveLogs(d'.logs, logNumber, p)
  {
    forall n ensures n in d'.logs <==> n in d.logs { assert n in d'.logs.Keys <==> n in d.logs.Keys; }
  }

  lemma {:induction false} PendingLogs(b: State, s: State, e: Entry)
    requires Pending(b, s, e)
    ensures LiveLogs(b.disk.logs, b.vs.logNumber, Live(b)) && LiveLogs(s.disk.logs, s.vs.logNumber, Live(s))
    ensures LogStack(b.disk.logs, Live(b)) == [b.disk.logs[b.mem]] + OlderLog(b.disk.logs, b)
    ensures LogStack(s.disk.logs, Live(s)) == [b.disk.logs[b.mem] + [e]] + OlderLog(b.disk.logs, b)
  {
    hide Reloaded, StackOf, Represents, SoundDisk, MemsMatch, SeqKnown;
    PendingDisk(b, s, e);
    ImmIsOther(b);
    LiveStack(b.disk.logs, b);
    LiveStack(s.disk.logs, s);
    assert OlderLog(s.disk.logs, s) == OlderLog(b.disk.logs, b);
  }

  lemma {:induction false} Assoc<T>(a: seq<T>, b: seq<T>, c: seq<T>)
    ensures a + b + c == a + (b + c)
  {
  }

  lemma {:induction false} PendingStack(b: State, s: State, e: Entry, rest: Stack)
    requires Pending(b, s, e) && rest == OlderLog(b.disk.logs, b) + StackOf(b.vs.current)
    ensures LiveLogs(b.disk.logs, b.vs.logNumber, Live(b)) && LiveLogs(s.disk.logs, s.vs.logNumber, Live(s))
    ensures LogStack(b.disk.logs, Live(b)) + StackOf(b.vs.current) == [b.disk.logs[b.mem]] + rest
    ensures LogStack(s.disk.logs, Live(s)) + StackOf(s.vs.current) == [b.disk.logs[b.mem] + [e]] + rest
  {
    hide StackOf, Running, LiveLogs, OlderLog, LogStack, Live;
    PendingLogs(b, s, e);
    Assoc([b.disk.logs[b.mem]], OlderLog(b.disk.logs, b), StackOf(b.vs.current));
    Assoc([b.disk.logs[b.mem] + [e]], OlderLog(b.disk.logs, b), StackOf(b.vs.current));
  }

  lemma {:induction false} ImmIsOther(s: State)
    requires Running(s)
    ensures s.imm.Some? ==> s.imm.value < s.mem
  {
    hide Reloaded, StackOf, Represents, SoundDisk, MemsMatch, SeqKnown;
    assert LiveLogs(s.disk.logs, Reloaded(s.disk).logNumber, Live(s));
    if s.imm.Some? { assert Live(s)[0] < Live(s)[1]; }
  }

  lemma {:induction false} WriteMeaning(log: Source, rest: Stack, h: seq<Entry>, e: Entry)
    requires Represents([log] + rest, h)
    requires e.seqno == |h| + 1 && (e.kind == VALUE || e.kind == DELETION)
    ensures Represents([log + [e]] + rest, h + [e])
  {
    hide Genuine, NewestFirst, Covers;
    RepresentsWrite(log, rest, log + [e], h, e);
  }

  lemma {:induction false} PendingMeaning(b: State, s: State, e: Entry)
    requires Pending(b, s, e)
    ensures Recoverable(s.disk, Live(s), s.hist + [e])
  {
    hide Reloaded, StackOf, Represents, SoundDisk, MemsMatch;
    SameReload(b.disk, s.disk);
    var rest := OlderLog(b.disk.logs, b) + StackOf(b.vs.current);
    PendingStack(b, s, e, rest);
    WriteMeaning(b.disk.logs[b.mem], rest, b.hist, e);
    assert s.mem in Live(s) && e in s.disk.logs[s.mem];
    assert |s.hist + [e]| == e.seqno;
  }

  lemma {:induction false} PendingSorted(b: State, s: State, e: Entry)
    requires Pending(b, s, e) && b.mem in b.mems
    ensures Sorted(AddSorted(b.mems[b.mem], e))
  {
    hide Reloaded, SoundDisk, Recoverable, SortedLog;
    assert b.mem in Live(b);
    forall x | x in b.mems[b.mem] ensures x.seqno != e.seqno { LoggedSeqs(b.disk, Live(b), b.hist, b.mem, x); }
    AddSortedKeeps(b.mems[b.mem], e);
  }

  lemma {:induction false} PendingRuns(b: State, s: State, e: Entry, s': State)
    requires Pending(b, s, e) && b.mem in b.mems
    requires s' == s.(mems := s.mems[s.mem := AddSorted(s.mems[s.mem], e)],
                      vs := s.vs.(lastSeq := Max(s.vs.lastSeq, e.seqno)),
                      pc := Idle, hist := s.hist + [e])
    ensures Running(s')
  {
    hide Reloaded, SoundDisk, Recoverable, AddSorted, Sorted;
    SameReload(b.disk, s.disk);
    PendingDisk(b, s, e);
    PendingMeaning(b, s, e);
    ImmIsOther(b);
    PendingSorted(b, s, e);
    var log := b.disk.logs[b.mem];
    assert (log + [e])[..|log|] == log;
    assert SortedLog(log + [e]) == AddSorted(SortedLog(log), e);
    assert b.mem in Live(b) && Live(s') == Live(b);
  }

  lemma {:induction false} AcknowledgeKeeps(opts: Options, s: State)
    requires Inv(opts, s) && Enabled(opts, s, Acknowledge)
    ensures Inv(opts, Do(opts, s, Acknowledge))
  {
    hide Running, Reloaded, Base;
    InFlightIsPending(s);
    RunningFacts(Base(s));
    var s' := Do(opts, s, Acknowledge);
    PendingRuns(Base(s), s, s.pc.e, s');
    SameReload(s.disk, s'.disk);
  }

  // ---- Rotating ----

  lemma {:induction false} EmptyOnTop(a: Stack, b: Stack, h: seq<Entry>)
    requires Represents(a + b, h)
    ensures Represents([[]] + a + b, h)
  {
    hide Represents;
    assert [] + (a + b) == a + b;
    RepresentsInsert([], [], a + b, h);
    assert [] + [[]] + (a + b) == [[]] + a + b;
  }

  /** A fresh empty log with the next file number changes nothing. */
  lemma {:induction false} NewLogLive(d: Disk, logNumber: nat, pending: seq<nat>, n: nat, d': Disk)
    requires LiveLogs(d.logs, logNumber, pending) && n !in d.logs && n >= logNumber
    requires forall p :: p in pending ==> p < n
    requires d' == d.(logs := d.logs[n := []])
    ensures LiveLogs(d'.logs, logNumber, pending + [n])
    ensures LogStack(d'.logs, pending + [n]) == [[]] + LogStack(d.logs, pending)
  {
    forall i, j | 0 <= i < j < |pending + [n]| ensures (pending + [n])[i] < (pending + [n])[j] {
      assert j == |pending| ==> pending[i] in pending;
    }
  }

  lemma {:induction false} SeqKnownGrows(bound: nat, logs: map<nat, seq<Entry>>, pending: seq<nat>, last: nat,
      logs': map<nat, seq<Entry>>, pending': seq<nat>)
    requires forall n :: n in pending ==> n in logs
    requires SeqKnown(bound, logs, pending, last)
    requires forall n :: n in pending' ==> n in logs'
    requires forall n :: n in pending && logs[n] != [] ==> n in pending' && n in logs' && logs'[n] == logs[n]
    ensures SeqKnown(bound, logs', pending', last)
  {
  }

  lemma {:induction false} NewLogKeeps(s: State, pending: seq<nat>, n: nat, s': State)
    requires Core(s, pending) && n == s.vs.nextFile && Settled(s) && n !in s.disk.logs
    requires s'.disk == s.disk.(logs := s.disk.logs[n := []]) && s'.hist == s.hist
    requires s'.vs == s.vs.(nextFile := n + 1)
    requires forall p :: p in pending ==> p < n
    ensures Core(s', pending + [n])
  {
    hide GoodVersion, ReplayAll, Represents, StackOf, Reloaded, SeqKnown, ValidLog;
    SameReload(s.disk, s'.disk);
    NewLogLive(s.disk, s.vs.logNumber, pending, n, s'.disk);
    EmptyOnTop(LogStack(s.disk.logs, pending), StackOf(s.vs.current), s.hist);
    NewLogSeq(s.disk, pending, n, s'.disk, Reloaded(s.disk).lastSeq, |s.hist|, s.vs.logNumber);
    assert ValidLog([]) by { EmptyLogValid(); }
  }

  lemma {:induction false} NewLogSeq(d: Disk, pending: seq<nat>, n: nat, d': Disk, bound: nat, last: nat,
      logNumber: nat)
    requires LiveLogs(d.logs, logNumber, pending) && n !in d.logs && d' == d.(logs := d.logs[n := []])
    requires SeqKnown(bound, d.logs, pending, last)
    ensures (forall p :: p in pending + [n] ==> p in d'.logs) && SeqKnown(bound, d'.logs, pending + [n], last)
  {
    SeqKnownGrows(bound, d.logs, pending, last, d'.logs, pending + [n]);
  }

  lemma {:induction false} NextLogIsNew(s: State, pending: seq<nat>)
    requires Core(s, pending) && Settled(s)
    requires forall p :: p in pending ==> p < s.vs.nextFile
    ensures s.vs.nextFile !in s.disk.logs
  {
    hide GoodVersion, ReplayAll, Represents, StackOf, Reloaded, SeqKnown, ValidLog;
  }

  lemma {:induction false} RotateKeeps(opts: Options, s: State)
    requires Inv(opts, s) && Enabled(opts, s, Rotate)
    ensures Inv(opts, Do(opts, s, Rotate))
  {
    hide Core, Reloaded, SortedLog;
    var s', n := Do(opts, s, Rotate), s.vs.nextFile;
    RunningFacts(s);
    NextLogIsNew(s, [s.mem]);
    NewLogKeeps(s, [s.mem], n, s');
    assert Live(s') == [s.mem] + [n] && s.mem in Live(s);
    EmptySorted();
  }

  lemma {:induction false} EmptyLogValid()
    ensures ValidLog([])
  {
  }

  lemma {:induction false} EmptySorted()
    ensures SortedLog([]) == []
  {
  }
}
