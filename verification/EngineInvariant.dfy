/** What every reachable state of the engine satisfies. */
module EngineInvariant {
  import opened Keys
  import opened Entries
  import opened Records
  import opened Recency
  import opened Versions
  import opened Edits
  import opened Compactions
  import opened CompactionCorrect
  import opened Manifest
  import opened Engine

  /** File numbers are unique across all levels, so unlinking by number hits one file. */
  ghost predicate DistinctFiles(v: Version) {
    forall l, m, f, g ::
      0 <= l < NUM_LEVELS && 0 <= m < NUM_LEVELS && f in v[l] && g in v[m] && f.number == g.number ==> l == m && f == g
  }

  ghost predicate GoodVersion(v: Version, bound: nat) {
    ValidVersion(v) && DistinctFiles(v) && NumbersBelow(v, bound)
  }

  /** Ascending numbers, puts and deletes only, and nothing that replay would stop at. */
  ghost predicate ValidLog(log: seq<Entry>) {
    && (forall i, j :: 0 <= i < j < |log| ==> log[i].seqno < log[j].seqno)
    && (forall e :: e in log ==> e.kind == VALUE || e.kind == DELETION)
    && AllReadable(log)
  }

  /** The disk reloads to a good version, and no log is numbered above the next file number. */
  ghost predicate SoundDisk(d: Disk) {
    var r := Reloaded(d);
    && ReplayAll(d.records).maxFile > 0
    && (forall e :: e in d.records ==> e == EraseEdit(e))
    && GoodVersion(r.current, r.nextFile)
    && r.logNumber < r.nextFile
    && forall n :: n in d.logs ==> n <= r.nextFile && ValidLog(d.logs[n])
  }

  /** The last sequence number is known from `bound` or from a live log. */
  ghost predicate SeqKnown(bound: nat, logs: map<nat, seq<Entry>>, pending: seq<nat>, last: nat)
    requires forall n :: n in pending ==> n in logs
  {
    bound == last || (bound < last && exists p, e :: p in pending && e in logs[p] && e.seqno == last)
  }

  /** Manifest version plus live logs represent the history. */
  ghost predicate Recoverable(d: Disk, pending: seq<nat>, h: seq<Entry>) {
    var r := Reloaded(d);
    && LiveLogs(d.logs, r.logNumber, pending)
    && Represents(LogStack(d.logs, pending) + StackOf(r.current), h)
    && SeqKnown(r.lastSeq, d.logs, pending, |h|)
  }

  /** The in-memory version set agrees with the disk; numbers handed out since the last manifest
      record are not yet on disk. */
  ghost predicate Matches(vs: VersionSet, d: Disk) {
    var r := Reloaded(d);
    vs.current == r.current && vs.logNumber == r.logNumber && vs.nextFile >= r.nextFile && vs.lastSeq >= r.lastSeq
  }

  ghost predicate Core(s: State, pending: seq<nat>) {
    SoundDisk(s.disk) && Matches(s.vs, s.disk) && Recoverable(s.disk, pending, s.hist)
  }

  function Live(s: State): seq<nat> {
    if s.imm.Some? then [s.imm.value, s.mem] else [s.mem]
  }

  ghost predicate MemsMatch(s: State) {
    forall n :: n in Live(s) ==> n in s.disk.logs && n in s.mems && s.mems[n] == SortedLog(s.disk.logs[n])
  }

  /** Memtable names are file numbers already handed out, so a new memtable never reuses one. */
  ghost predicate MemsSane(s: State) {
    forall n :: n in s.mems ==> n < s.vs.nextFile && Sorted(s.mems[n])
  }

  /** A process that serves requests. */
  ghost predicate Running(s: State) {
    && Core(s, Live(s)) && MemsMatch(s) && MemsSane(s)
    && s.vs.open && s.vs.lastSeq == |s.hist|
  }

  /** A process that is replaying logs. */
  ghost predicate Restarting(s: State, pending: seq<nat>) {
    Core(s, pending) && SeqKnown(s.vs.lastSeq, s.disk.logs, pending, |s.hist|)
  }

  /** Every number handed out is on disk, so the next log may take the next number. */
  ghost predicate Settled(s: State) {
    s.vs.nextFile == Reloaded(s.disk).nextFile
  }

  /** The state without the record that is still in flight. */
  ghost function Base(s: State): State {
    if s.pc.Writing? && s.mem in s.disk.logs && s.disk.logs[s.mem] != [] then
      s.(disk := s.disk.(logs := s.disk.logs[s.mem := s.disk.logs[s.mem][..|s.disk.logs[s.mem]| - 1]]), pc := Idle)
    else s
  }

  ghost predicate InFlight(s: State) {
    && s.pc.Writing? && s.mem in s.disk.logs && s.disk.logs[s.mem] != []
    && s.disk.logs[s.mem][|s.disk.logs[s.mem]| - 1] == s.pc.e
    && s.pc.e.seqno == |s.hist| + 1
    && (s.pc.e.kind == VALUE || s.pc.e.kind == DELETION)
    && Readable(s.pc.e)
  }

  /** An edit that may be appended: its tables exist and the version it makes is good. */
  ghost predicate Ready(s: State, edit: Edit) {
    && edit.lastSeq == Some(s.vs.lastSeq)
    && edit.nextFile.Some? && edit.nextFile.value <= s.vs.nextFile
    && (edit.nextFile.value == s.vs.nextFile || Settled(s))
    && (edit.logNumber.Some? ==> s.vs.logNumber <= edit.logNumber.value < edit.nextFile.value)
    && GoodVersion(Apply(s.vs.current, edit), s.vs.nextFile)
    && (forall a :: a in edit.added ==>
          && a.1.number < edit.nextFile.value
          && a.1.number in s.disk.tables && a.1.reader == Some(s.disk.tables[a.1.number]))
  }

  /** A new level 0 table that repeats the entries of a log. */
  ghost predicate FlushEdit(s: State, edit: Edit, from: nat, log: nat) {
    && edit.added != [] && edit.deleted == {} && edit.logNumber == Some(log)
    && edit.added == [(0, edit.added[0].1)]
    && from in s.disk.logs && SameMembers(s.disk.logs[from], Content(edit.added[0].1))
    && Apply(s.vs.current, edit)[0] == [edit.added[0].1] + s.vs.current[0]
    && forall l :: 1 <= l < NUM_LEVELS ==> Apply(s.vs.current, edit)[l] == s.vs.current[l]
  }

  ghost predicate Inv(opts: Options, s: State) {
    match s.pc
    case Down =>
      && SoundDisk(s.disk)
      && forall p :: LiveLogs(s.disk.logs, Reloaded(s.disk).logNumber, p) ==> Recoverable(s.disk, p, s.hist)
    case Idle => Running(s) && (s.imm.None? ==> Settled(s))
    case Writing(_) => Running(Base(s)) && InFlight(s) && (s.imm.None? ==> Settled(s))
    case Unlinking(ns) => Running(s) && Settled(s) && forall n :: n in ns ==> !IsLive(s.vs.current, n)
    case Recovering(p) => Restarting(s, p) && Settled(s)
    case Replayed(p) =>
      && Restarting(s, p) && Settled(s) && p != [] && p[0] in s.disk.logs
      && s.vs.current[0] != [] && SameMembers(s.disk.logs[p[0]], Content(s.vs.current[0][0]))
      && (forall e :: e in s.disk.logs[p[0]] ==> e.seqno <= Reloaded(s.disk).lastSeq)
    case Committing(edit, after) =>
      && Ready(s, edit)
      && (match after
          case FlushDone => Running(s) && s.imm.Some? && FlushEdit(s, edit, s.imm.value, s.mem)
          case CompactDone(ns) =>
            && Running(s) && edit.logNumber.None?
            && Represents(LogStack(s.disk.logs, Live(s)) + StackOf(Apply(s.vs.current, edit)), s.hist)
            && forall n :: n in ns ==> !IsLive(Apply(s.vs.current, edit), n)
          case Created =>
            && Restarting(s, []) && Apply(s.vs.current, edit) == s.vs.current
            && edit.logNumber == Some(s.vs.logNumber)
          case LogReplayed(p) =>
            && Restarting(s, p) && p != [] && FlushEdit(s, edit, p[0], p[0])
            && (forall e :: e in s.disk.logs[p[0]] ==> e.seqno <= s.vs.lastSeq)
          case Reopened(n) =>
            && Restarting(s, [n]) && n in s.disk.logs && s.disk.logs[n] == []
            && Apply(s.vs.current, edit) == s.vs.current && edit.logNumber == Some(n))
  }

  // ---- The live logs ----

  lemma {:induction false} LiveUnique(logs: map<nat, seq<Entry>>, logNumber: nat, p: seq<nat>, q: seq<nat>)
    requires LiveLogs(logs, logNumber, p) && LiveLogs(logs, logNumber, q)
    ensures p == q
  {
    AscendingUnique(p, q);
  }

  lemma {:induction false} AscendingUnique(p: seq<nat>, q: seq<nat>)
    requires forall i, j :: 0 <= i < j < |p| ==> p[i] < p[j]
    requires forall i, j :: 0 <= i < j < |q| ==> q[i] < q[j]
    requires forall n :: n in p <==> n in q
    ensures p == q
  {
    assert q != [] ==> q[0] in p;
    if p != [] {
      assert p[0] in q;
      assert p[0] == q[0];
      forall n ensures n in p[1..] <==> n in q[1..] {
        assert n in p[1..] ==> n in p && n != p[0];
        assert n in q[1..] ==> n in q && n != q[0];
      }
      AscendingUnique(p[1..], q[1..]);
    }
  }

  /** Replay gets every record of a log. */
  lemma {:induction false} LogReadsBack(d: Disk, n: nat)
    requires SoundDisk(d) && n in d.logs
    ensures AllReadable(d.logs[n]) && ReadBack(d.logs[n]) == d.logs[n]
  {
    hide Reloaded, ReplayAll, GoodVersion, Readable;
    AllKept(d.logs[n]);
  }

  // ---- What a crash leaves ----

  /** Tables that no manifest record names do not matter. */
  lemma {:induction false} ReloadedIgnores(d: Disk, tables: map<nat, seq<Entry>>)
    requires SoundDisk(d)
    requires forall n :: n in d.tables && IsLive(Reloaded(d).current, n) ==> n in tables && tables[n] == d.tables[n]
    ensures Reloaded(d.(tables := tables)) == Reloaded(d)
  {
    hide Recovered, ValidVersion, DistinctFiles, NumbersBelow;
    var r := Recovered(d.records);
    forall l, i | 0 <= l < NUM_LEVELS && 0 <= i < |r.current[l]|
      ensures OpenFile(r.current[l][i], tables) == OpenFile(r.current[l][i], d.tables)
    {
      OpenedFile(d, l, i);
    }
    forall l | 0 <= l < NUM_LEVELS ensures OpenLevel(r.current[l], tables) == OpenLevel(r.current[l], d.tables) { }
    assert OpenVersion(r.current, tables) == OpenVersion(r.current, d.tables);
  }

  /** Every file of the reloaded version was opened. */
  lemma {:induction false} OpenedFile(d: Disk, l: nat, i: nat)
    requires SoundDisk(d) && l < NUM_LEVELS && i < |Recovered(d.records).current[l]|
    ensures var f := Recovered(d.records).current[l][i];
            IsLive(Reloaded(d).current, f.number) && f.number in d.tables
  {
    hide Recovered, Sorted, Less;
    var v := Reloaded(d).current;
    assert v[l][i] in v[l];
    LevelInOrder(v, l);
  }

  /** Whatever the process was doing, what it had acknowledged can be recovered. */
  lemma {:induction false} CoreSurvives(opts: Options, s: State, pending: seq<nat>, s': State)
    requires Core(s, pending)
    requires s'.pc == Down && s'.hist == s.hist && s'.disk == s.disk.(tables := s'.disk.tables)
    requires forall n :: n in s.disk.tables && IsLive(Reloaded(s.disk).current, n) ==>
                n in s'.disk.tables && s'.disk.tables[n] == s.disk.tables[n]
    ensures Inv(opts, s')
  {
    hide Reloaded, GoodVersion, ValidLog, Represents, SeqKnown, IsLive;
    ReloadedIgnores(s.disk, s'.disk.tables);
    forall p | LiveLogs(s'.disk.logs, Reloaded(s'.disk).logNumber, p) ensures Recoverable(s'.disk, p, s'.hist) {
      LiveUnique(s.disk.logs, Reloaded(s.disk).logNumber, p, pending);
    }
  }
}
