/** The mutex and the two condition variables: writers that wait for room, and the background thread
    that makes it.  Everything done to the engine while holding the mutex is one step. */
module Threads {
  import opened Keys
  import opened Entries
  import opened Records
  import opened History
  import opened Recency
  import opened Versions
  import opened Compactions
  import opened CompactionTermination
  import Engine
  import EngineInvariant
  import EngineSteps
  import opened EngineTheorems
  import opened EngineBackground

  /** A writer: not in a write, wanting the mutex, or waiting on `write_cv`. */
  datatype Writer = Away | Ready | Asleep

  /** The background thread: wanting the mutex, holding it, or waiting on `bg_cv`. */
  datatype Background = BgReady | BgHolding | BgAsleep

  /** `usage` is the size of the active memtable; `rotated` and `flushed` are the memtables that left
      the active slot and those that were written to a table. */
  datatype System = System(
    writers: seq<Writer>, bg: Background, db: Engine.State, usage: nat, rotated: set<nat>, flushed: set<nat>)

  datatype Step =
    | Call(w: nat)                                                   // a client starts a write
    | Enter(w: nat, key: Key, kind: byte, value: Bytes, cost: nat)   // a writer runs until it has written or waits
    | WakeSpuriously(w: nat)
    | BgWakeSpuriously
    | BgAcquire
    | BgTurn                                                         // one turn of the background loop

  function NextEntry(s: System, key: Key, kind: byte, value: Bytes): Entry {
    Entry(key, s.db.vs.lastSeq + 1, kind, value)
  }

  /** A turn that would write something over a reader's limit is not modelled. */
  ghost predicate Enabled(opts: Options, s: System, step: Step) {
    match step
    case Call(w) => w < |s.writers| && s.writers[w] == Away
    case Enter(w, key, kind, value, _) =>
      && w < |s.writers| && s.writers[w] == Ready && s.bg != BgHolding
      && (kind == VALUE || kind == DELETION) && Readable(NextEntry(s, key, kind, value))
    case WakeSpuriously(w) => w < |s.writers| && s.writers[w] == Asleep
    case BgWakeSpuriously => s.bg == BgAsleep
    case BgAcquire => s.bg == BgReady
    case BgTurn => s.bg == BgHolding && (AtRest(opts, s.db) || CanTurn(opts, s.db))
  }

  function NotifyAll(ws: seq<Writer>): (r: seq<Writer>)
    ensures |r| == |ws| && forall i :: 0 <= i < |ws| ==> r[i] == if ws[i] == Asleep then Ready else ws[i]
  {
    seq(|ws|, i requires 0 <= i < |ws| => if ws[i] == Asleep then Ready else ws[i])
  }

  /** `MakeRoomForWrite`, and the write itself if there is room. */
  ghost function Entered(opts: Options, buffer: nat, s: System, w: nat, e: Entry, cost: nat): System
    requires AtPeace(opts, s.db) && w < |s.writers|
    requires Readable(e) && e.seqno == s.db.vs.lastSeq + 1 && (e.kind == VALUE || e.kind == DELETION)
  {
    if s.usage < buffer then s.(writers := s.writers[w := Away], usage := s.usage + cost, db := Wrote(opts, s.db, e))
    else if s.db.imm.Some? then s.(writers := s.writers[w := Asleep])
    else
      RotationKeeps(opts, s.db);
      s.(writers := s.writers[w := Away], usage := cost, rotated := s.rotated + {s.db.mem},
         db := Wrote(opts, Engine.Rotated(s.db), e), bg := if s.bg == BgAsleep then BgReady else s.bg)
  }

  /** One turn of `BackgroundThread`: wait, or flush and compact and stay. */
  ghost function Turned(opts: Options, s: System): System
    requires AtRest(opts, s.db) || CanTurn(opts, s.db)
  {
    if AtRest(opts, s.db) then s.(bg := BgAsleep)
    else if s.db.imm.Some? then
      s.(db := Turn(opts, s.db), flushed := s.flushed + {s.db.imm.value}, writers := NotifyAll(s.writers))
    else s.(db := Turn(opts, s.db))
  }

  ghost function Do(opts: Options, buffer: nat, s: System, step: Step): System
    requires AtPeace(opts, s.db) && Enabled(opts, s, step)
  {
    match step
    case Call(w) => s.(writers := s.writers[w := Ready])
    case Enter(w, key, kind, value, cost) => Entered(opts, buffer, s, w, NextEntry(s, key, kind, value), cost)
    case WakeSpuriously(w) => s.(writers := s.writers[w := Ready])
    case BgWakeSpuriously => s.(bg := BgReady)
    case BgAcquire => s.(bg := BgHolding)
    case BgTurn => Turned(opts, s)
  }

  /** The engine is sound, nobody sleeps while there is something to do for them or something they
      wait for, and no rotated memtable has been dropped. */
  ghost predicate Inv(opts: Options, s: System) {
    && AtPeace(opts, s.db)
    && (s.bg == BgAsleep ==> AtRest(opts, s.db))
    && (forall w :: 0 <= w < |s.writers| && s.writers[w] == Asleep ==> s.db.imm.Some?)
    && (forall m :: m in s.rotated ==> m in s.flushed || s.db.imm == Some(m))
    && forall m :: m in s.rotated ==> m < s.db.mem
  }

  /** As `Recover` leaves it when it starts the background thread. */
  ghost predicate Init(opts: Options, s: System) {
    && AtPeace(opts, s.db) && s.db.imm.None?
    && s.bg == BgReady && s.usage == 0 && s.rotated == s.flushed == {}
    && forall w :: 0 <= w < |s.writers| ==> s.writers[w] == Away
  }

  lemma {:induction false} StepKeeps(opts: Options, buffer: nat, s: System, step: Step)
    requires Inv(opts, s) && Enabled(opts, s, step)
    ensures Inv(opts, Do(opts, buffer, s, step))
  {
    hide AtPeace, Readable, Picked, CanTurn, Turn, Wrote;
    var s' := Do(opts, buffer, s, step);
    MemIsOld(opts, s.db);
    if step.BgTurn? && !AtRest(opts, s.db) {
      assert s.db.imm.Some? ==> forall w :: 0 <= w < |s'.writers| ==> s'.writers[w] != Asleep;
    }
  }

  lemma {:induction false} MemIsOld(opts: Options, s: Engine.State)
    requires AtPeace(opts, s)
    ensures s.mem < s.vs.nextFile
  {
    hide EngineInvariant.Running, EngineInvariant.Settled;
    EngineSteps.RunningFacts(s);
  }

  // ---- When a writer writes, rotates or waits ----

  /** A writer falls asleep exactly when it finds the memtable full and another one still waiting. */
  lemma {:induction false} SleepsWhen(opts: Options, buffer: nat, s: System, step: Step, w: nat)
    requires Inv(opts, s) && Enabled(opts, s, step) && w < |s.writers| && s.writers[w] != Asleep
    ensures var s' := Do(opts, buffer, s, step);
            && |s'.writers| == |s.writers|
            && (s'.writers[w] == Asleep <==> step.Enter? && step.w == w && s.usage >= buffer && s.db.imm.Some?)
            && (s'.writers[w] == Asleep ==> s'.db == s.db && s'.usage == s.usage && s'.rotated == s.rotated)
  {
    hide AtPeace, Readable, Picked, CanTurn, Turn, Wrote;
  }

  /** The memtable is rotated exactly when a writer finds it full and the slot free; then it is what
      waits to be flushed, and the write goes to the new one. */
  lemma {:induction false} RotatesWhen(opts: Options, buffer: nat, s: System, step: Step)
    requires Inv(opts, s) && Enabled(opts, s, step)
    ensures var s' := Do(opts, buffer, s, step);
            if step.Enter? && s.usage >= buffer && s.db.imm.None? then
              && s.db.mem !in s.rotated && s'.rotated == s.rotated + {s.db.mem} && s'.db.imm == Some(s.db.mem)
              && s'.db.mem != s.db.mem && s'.usage == step.cost && s'.writers[step.w] == Away
              && s'.db.hist == s.db.hist + [NextEntry(s, step.key, step.kind, step.value)] && s'.bg != BgAsleep
            else s'.rotated == s.rotated && s'.db.mem == s.db.mem
  {
    hide AtPeace, Readable, Picked, CanTurn, Turn, Wrote;
    MemIsOld(opts, s.db);
  }

  /** With room in the memtable a writer writes at once, and nothing else happens. */
  lemma {:induction false} WritesWhen(opts: Options, buffer: nat, s: System, step: Step)
    requires Inv(opts, s) && Enabled(opts, s, step) && step.Enter? && s.usage < buffer
    ensures var s' := Do(opts, buffer, s, step);
            && s'.db.mem == s.db.mem && s'.db.imm == s.db.imm && s'.rotated == s.rotated && s'.bg == s.bg
            && s'.usage == s.usage + step.cost && s'.writers == s.writers[step.w := Away]
            && s'.db.hist == s.db.hist + [NextEntry(s, step.key, step.kind, step.value)]
  {
    hide AtPeace, Readable, Picked, CanTurn, Turn, Wrote;
  }

  ghost predicate IsRun(opts: Options, buffer: nat, run: seq<System>, steps: seq<Step>) {
    && |run| == |steps| + 1 && Init(opts, run[0])
    && forall i :: 0 <= i < |steps| ==>
         AtPeace(opts, run[i].db) && Enabled(opts, run[i], steps[i]) && run[i + 1] == Do(opts, buffer, run[i], steps[i])
  }

  lemma {:induction false} RunKeeps(opts: Options, buffer: nat, run: seq<System>, steps: seq<Step>, i: nat)
    requires IsRun(opts, buffer, run, steps) && i < |run|
    ensures Inv(opts, run[i])
  {
    hide Do, Inv, Enabled, AtPeace;
    if i == 0 {
      InitHolds(opts, run[0]);
    } else {
      RunKeeps(opts, buffer, run, steps, i - 1);
      StepKeeps(opts, buffer, run[i - 1], steps[i - 1]);
    }
  }

  lemma {:induction false} InitHolds(opts: Options, s: System)
    requires Init(opts, s)
    ensures Inv(opts, s)
  {
    hide AtPeace;
  }

  /** What the last completed write of the run added to the memtable. */
  function LastCost(run: seq<System>, steps: seq<Step>, i: nat): nat
    requires i <= |steps| < |run|
  {
    if i == 0 then 0
    else if steps[i - 1].Enter? && run[i].db.hist != run[i - 1].db.hist then steps[i - 1].cost
    else LastCost(run, steps, i - 1)
  }

  /** A memtable never grows by more than one write beyond the buffer size. */
  lemma {:induction false} UsageBounded(opts: Options, buffer: nat, run: seq<System>, steps: seq<Step>, i: nat)
    requires IsRun(opts, buffer, run, steps) && i < |run|
    ensures buffer > 0 ==> run[i].usage < buffer + LastCost(run, steps, i)
    ensures buffer == 0 ==> run[i].usage <= LastCost(run, steps, i)
  {
    hide Do, Inv, Enabled, AtPeace;
    if i > 0 {
      UsageBounded(opts, buffer, run, steps, i - 1);
      RunKeeps(opts, buffer, run, steps, i - 1);
      UsageStep(opts, buffer, run[i - 1], steps[i - 1]);
    }
  }

  /** The usage changes with a write only. */
  lemma {:induction false} UsageStep(opts: Options, buffer: nat, s: System, step: Step)
    requires Inv(opts, s) && Enabled(opts, s, step)
    ensures var s' := Do(opts, buffer, s, step);
            if step.Enter? && s'.db.hist != s.db.hist then
              s'.usage == step.cost || (s.usage < buffer && s'.usage == s.usage + step.cost)
            else s'.usage == s.usage
  {
    hide AtPeace, Readable, Picked, CanTurn, Turn, Wrote;
  }

  /** No rotated memtable is ever lost: it is waiting to be flushed or has been. */
  lemma {:induction false} RotationNeverOverwrites(opts: Options, buffer: nat, run: seq<System>, steps: seq<Step>,
      i: nat, m: nat)
    requires IsRun(opts, buffer, run, steps) && i < |run| && m in run[i].rotated
    ensures m in run[i].flushed || run[i].db.imm == Some(m)
  {
    hide AtPeace, IsRun;
    RunKeeps(opts, buffer, run, steps, i);
  }

  /** Whatever the threads have done to each other, a read gives what the map holds. */
  lemma {:induction false} ReadsAreMap(opts: Options, buffer: nat, run: seq<System>, steps: seq<Step>, i: nat, k: Key)
    requires IsRun(opts, buffer, run, steps) && i < |run|
    ensures var s := run[i].db;
            && s.mem in s.mems && (s.imm.Some? ==> s.imm.value in s.mems)
            && Outcome(FirstHit(Sources(Capture(s), s.mems), k, s.vs.lastSeq)) == Expected(s.hist, k)
  {
    hide AtPeace, IsRun, Sources, FirstHit, Expected;
    RunKeeps(opts, buffer, run, steps, i);
    IdleReads(opts, run[i].db, k);
  }

  /** A waiting writer is never alone: the background thread holds the mutex or is about to take it,
      and there is something for it to flush. */
  lemma {:induction false} WaiterHasHelp(opts: Options, buffer: nat, run: seq<System>, steps: seq<Step>, i: nat, w: nat)
    requires IsRun(opts, buffer, run, steps) && i < |run| && w < |run[i].writers| && run[i].writers[w] == Asleep
    ensures run[i].db.imm.Some? && (run[i].bg == BgHolding || Enabled(opts, run[i], BgAcquire))
  {
    hide AtPeace, IsRun, Picked;
    RunKeeps(opts, buffer, run, steps, i);
  }

  function Level0Count(v: Version): nat { |v[0]| }

  function Rank(bg: Background): nat {
    match bg case BgReady => 2 case BgHolding => 1 case BgAsleep => 0
  }

  /** Left to itself the background thread finishes: it goes to sleep with nothing left to flush or to
      compact, everybody awake and the map unchanged. */
  ghost function Rested(opts: Options, buffer: nat, s: System): (r: System)
    requires Inv(opts, s) && CanRest(opts, s.db)
    ensures Inv(opts, r) && r.bg == BgAsleep && AtRest(opts, r.db) && r.db.hist == s.db.hist && r.usage == s.usage
    ensures r.writers == NotifyAll(s.writers)
    decreases if s.db.imm.Some? then 1 else 0, Weight(s.db.vs.current), Level0Count(s.db.vs.current), Rank(s.bg)
  {
    hide AtPeace, Picked, CanTurn, CanRest, Weight, Inv, Turned, AtRest, Do, Enabled;
    if s.bg == BgAsleep then SleepsAtRest(opts, s); s
    else if s.bg == BgReady then AcquireKeeps(opts, buffer, s); Rested(opts, buffer, s.(bg := BgHolding))
    else
      TurnKeeps(opts, buffer, s);
      TurnedIs(opts, s);
      Rested(opts, buffer, Turned(opts, s))
  }

  lemma {:induction false} AcquireKeeps(opts: Options, buffer: nat, s: System)
    requires Inv(opts, s) && s.bg == BgReady
    ensures Inv(opts, s.(bg := BgHolding))
  {
    hide AtPeace, Picked, CanTurn;
    StepKeeps(opts, buffer, s, BgAcquire);
  }

  lemma {:induction false} TurnKeeps(opts: Options, buffer: nat, s: System)
    requires Inv(opts, s) && CanRest(opts, s.db) && s.bg == BgHolding
    ensures AtRest(opts, s.db) || CanTurn(opts, s.db)
    ensures Inv(opts, Turned(opts, s)) && CanRest(opts, Turned(opts, s).db)
  {
    hide AtPeace, Picked, CanTurn, Turn;
    StepKeeps(opts, buffer, s, BgTurn);
  }

  lemma {:induction false} SleepsAtRest(opts: Options, s: System)
    requires Inv(opts, s) && s.bg == BgAsleep
    ensures AtRest(opts, s.db) && NotifyAll(s.writers) == s.writers
  {
    hide AtPeace, Picked;
  }

  /** A turn goes to sleep, or flushes and wakes everybody, or makes the version lighter. */
  lemma {:induction false} TurnedIs(opts: Options, s: System)
    requires Inv(opts, s) && (AtRest(opts, s.db) || CanTurn(opts, s.db)) && s.bg == BgHolding
    ensures var r, v, v' := Turned(opts, s), s.db.vs.current, Turned(opts, s).db.vs.current;
            && r.db.hist == s.db.hist && r.usage == s.usage && NotifyAll(r.writers) == NotifyAll(s.writers)
            && if s.db.imm.Some? then r.db.imm.None?
               else
                 && r.db.imm.None?
                 && ((r.db == s.db && r.bg == BgAsleep)
                     || (r.bg == BgHolding
                         && (Weight(v') < Weight(v)
                             || (Weight(v') == Weight(v) && Level0Count(v') < Level0Count(v)))))
  {
    hide AtPeace, Picked, CanTurn, Weight, Turn;
    if s.db.imm.None? && !AtRest(opts, s.db) { TurnLightens(opts, s.db); }
  }

  /** Then a writer that was waiting gets through: when it leaves the mutex its write is in the map. */
  lemma {:induction false} WaiterGetsThrough(opts: Options, buffer: nat, s: System, step: Step)
    returns (r: System, r': System)
    requires Inv(opts, s) && CanRest(opts, s.db)
    requires step.Enter? && step.w < |s.writers| && s.writers[step.w] == Asleep
    requires step.kind == VALUE || step.kind == DELETION
    requires Readable(Entry(step.key, |s.db.hist| + 1, step.kind, step.value))
    ensures r == Rested(opts, buffer, s) && AtPeace(opts, r.db) && Enabled(opts, r, step)
    ensures r' == Do(opts, buffer, r, step) && step.w < |r'.writers| && r'.writers[step.w] == Away
    ensures r'.db.hist == s.db.hist + [Entry(step.key, |s.db.hist| + 1, step.kind, step.value)]
  {
    hide Rested, AtPeace, Readable, CanRest, Inv, AtRest, NotifyAll, Do;
    r := Rested(opts, buffer, s);
    RestedReady(opts, s, r, step.w);
    IdleFacts(opts, r.db);
    r' := Do(opts, buffer, r, step);
    EnteredIs(opts, buffer, r, step);
  }

  lemma {:induction false} RestedReady(opts: Options, s: System, r: System, w: nat)
    requires Inv(opts, r) && AtRest(opts, r.db) && r.writers == NotifyAll(s.writers)
    requires w < |s.writers| && s.writers[w] == Asleep
    ensures AtPeace(opts, r.db) && r.db.imm.None? && w < |r.writers| && r.writers[w] == Ready
  {
    hide AtPeace, Picked;
  }

  /** With the slot free a writer does not wait. */
  lemma {:induction false} EnteredIs(opts: Options, buffer: nat, s: System, step: Step)
    requires AtPeace(opts, s.db) && s.db.imm.None? && step.Enter? && Enabled(opts, s, step)
    ensures var s' := Do(opts, buffer, s, step);
            && step.w < |s'.writers| && s'.writers[step.w] == Away
            && s'.db.hist == s.db.hist + [NextEntry(s, step.key, step.kind, step.value)]
  {
    hide AtPeace, Readable, Wrote;
    RotationKeeps(opts, s.db);
  }
}
