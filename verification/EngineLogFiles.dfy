/** The engine's logs as files: what a crash leaves of them is what some step of the engine leaves. */
module EngineLogFiles {
  import opened Keys
  import opened Entries
  import opened Records
  import opened History
  import opened Compactions
  import opened Engine
  import opened EngineInvariant
  import opened EngineSteps
  import opened EngineRecover
  import opened EngineTheorems
  import opened EngineRecovered
  import opened EngineLimits
  import opened Wal

  lemma {:induction false} DiskSound(opts: Options, s: State)
    requires Inv(opts, s)
    ensures SoundDisk(s.disk)
  {
    hide Core, Reloaded, MemsMatch, Settled, Ready, FlushEdit, IsLive, SoundDisk, Recoverable;
    if s.pc.Writing? {
      InFlightIsPending(s);
      PendingDisk(Base(s), s, s.pc.e);
    } else if s.pc != Down {
      var p := SomeCore(opts, s);
      CoreMatches(s, p);
    }
  }

  /** In every reachable state every log reads back whole. */
  lemma {:induction false} LogReads(opts: Options, run: seq<State>, steps: seq<Step>, i: nat, n: nat)
    requires IsRun(opts, run, steps) && i < |run| && n in run[i].disk.logs
    ensures AllReadable(run[i].disk.logs[n])
    ensures ReadAll(Frames(run[i].disk.logs[n])) == (run[i].disk.logs[n], NotFound)
  {
    hide Inv, IsRun, SoundDisk, Frames, ReadAll, AllReadable;
    RunKeeps(opts, run, steps, i);
    DiskSound(opts, run[i]);
    LogReadsBack(run[i].disk, n);
    WholeLog(run[i].disk.logs[n]);
  }

  /** What the file of log `n` may hold: all its frames, or, for a record in flight, any part of the
      last one. */
  ghost predicate LogFile(s: State, n: nat, bytes: Bytes)
    requires n in s.disk.logs
  {
    var log := s.disk.logs[n];
    if s.pc.Writing? && n == s.mem && log != [] then
      exists cut :: |Frames(log[..|log| - 1])| <= cut <= |Frames(log)| && bytes == Frames(log)[..cut]
    else bytes == Frames(log)
  }

  /** Wherever the last append was interrupted, reading the files gives the logs that a crash of the
      engine leaves. */
  lemma {:induction false} CrashLeaves(opts: Options, run: seq<State>, steps: seq<Step>, i: nat, files: map<nat, Bytes>)
    returns (survives: bool)
    requires IsRun(opts, run, steps) && i < |run| && files.Keys == run[i].disk.logs.Keys
    requires forall n :: n in files ==> LogFile(run[i], n, files[n])
    ensures Enabled(opts, run[i], Crash(survives, run[i].disk.tables))
    ensures var logs := Do(opts, run[i], Crash(survives, run[i].disk.tables)).disk.logs;
            logs.Keys == files.Keys && forall n :: n in files ==> ReadAll(files[n]) == (logs[n], NotFound)
  {
    hide Inv, IsRun, Frames, ReadAll, AllReadable, Reloaded, IsLive, LogFile;
    var s := run[i];
    survives := true;
    if s.pc.Writing? && s.mem in files { survives := TornRead(opts, run, steps, i, files[s.mem]); }
    var step := Crash(survives, s.disk.tables);
    var logs := Do(opts, s, step).disk.logs;
    forall n | n in files ensures ReadAll(files[n]) == (logs[n], NotFound) {
      if !(s.pc.Writing? && n == s.mem) {
        LogReads(opts, run, steps, i, n);
        QuietLog(s, n, files[n]);
      }
    }
  }

  lemma {:induction false} QuietLog(s: State, n: nat, bytes: Bytes)
    requires n in s.disk.logs && LogFile(s, n, bytes) && !(s.pc.Writing? && n == s.mem)
    ensures bytes == Frames(s.disk.logs[n])
  {
    hide Frames;
  }

  lemma {:induction false} TornRead(opts: Options, run: seq<State>, steps: seq<Step>, i: nat, bytes: Bytes)
    returns (survives: bool)
    requires IsRun(opts, run, steps) && i < |run| && run[i].pc.Writing? && run[i].mem in run[i].disk.logs
    requires LogFile(run[i], run[i].mem, bytes)
    ensures var s, log := run[i], run[i].disk.logs[run[i].mem];
            && log != []
            && ReadAll(bytes) == (if survives then log else log[..|log| - 1], NotFound)
  {
    hide Inv, IsRun, Frames, ReadAll, AllReadable;
    var s, log := run[i], run[i].disk.logs[run[i].mem];
    RunKeeps(opts, run, steps, i);
    WritingLog(opts, s);
    LogReads(opts, run, steps, i, s.mem);
    var cut :| |Frames(log[..|log| - 1])| <= cut <= |Frames(log)| && bytes == Frames(log)[..cut];
    assert log == log[..|log| - 1] + [log[|log| - 1]];
    TornAppend(log[..|log| - 1], log[|log| - 1], cut);
    survives := cut == |Frames(log)|;
  }

  lemma {:induction false} WritingLog(opts: Options, s: State)
    requires Inv(opts, s) && s.pc.Writing?
    ensures s.mem in s.disk.logs && s.disk.logs[s.mem] != []
  {
    hide Running, Base, Settled, Readable;
  }

  // ---- A put that is too large ----

  /** A record over the limit is accepted like any other.  Whatever is appended behind it, replay finds
      the log as it was before it, so recovery brings back the map without that write and without
      everything later. */
  lemma {:induction false} OversizedForgotten(opts: Options, run: seq<State>, steps: seq<Step>, i: nat, e: Entry,
      later: seq<Entry>)
    requires IsRun(opts, run, steps) && i < |run| && run[i].pc == Idle
    requires Writable(e) && !Readable(e) && forall x :: x in later ==> Writable(x)
    ensures run[i].mem in run[i].disk.logs
    ensures var d, log := run[i].disk, run[i].disk.logs[run[i].mem];
            && ReadAll(Frames(log + [e] + later)).0 == log
            && RecoversTo(d.(logs := d.logs[run[i].mem := log + [e] + later]), run[i].hist)
    ensures (forall x :: x in later ==> x.key != e.key) ==>
              Expected(run[i].hist + [e] + later, e.key) == if e.kind == VALUE then Found(e.value) else Missing
  {
    hide Inv, Init, Frames, ReadAll, Readable, Writable, Reloaded, IsLive, Expected, Running, RecoversTo, ReadBack;
    var s := run[i];
    RunKeeps(opts, run, steps, i);
    IdleLog(opts, s);
    LogReads(opts, run, steps, i, s.mem);
    var log := s.disk.logs[s.mem];
    AllWritable(log);
    ReplayIsReadBack(log + [e] + later);
    OversizedEnds(log, e, later);
    AllKept(log);
    StateRecovers(opts, s);
    ReplaySame(s.disk, s.disk.logs[s.mem := log + [e] + later], s.hist);
    if forall x :: x in later ==> x.key != e.key { ExpectedLast(s.hist, e, later); }
  }

  lemma {:induction false} IdleLog(opts: Options, s: State)
    requires Inv(opts, s) && s.pc == Idle
    ensures s.mem in s.disk.logs
  {
    hide Running, Settled;
    RunningFacts(s);
  }

  lemma {:induction false} AllWritable(log: seq<Entry>)
    requires AllReadable(log)
    ensures forall x :: x in log ==> Writable(x)
  {
  }
}
