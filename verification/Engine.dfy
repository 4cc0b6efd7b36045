/** The engine as a machine over its atomic effects: every append, file creation, manifest record
    and unlink is one step, and the process may crash between any two of them. */
module Engine {
  import opened Keys
  import opened Entries
  import opened Records
  import opened Recency
  import opened Versions
  import opened Edits
  import opened Compactions
  import opened CompactionCorrect
  import opened Manifest

  // ---- State ----

  /** What survives a crash: the records of the manifest that CURRENT names, the finished table
      files and the write-ahead logs, the latter two by file number. */
  datatype Disk = Disk(records: seq<Edit>, tables: map<nat, seq<Entry>>, logs: map<nat, seq<Entry>>)

  /** What remains to be done once an edit is in the manifest. */
  datatype After =
    | FlushDone
    | CompactDone(inputs: seq<nat>)
    | Created
    | LogReplayed(pending: seq<nat>)
    | Reopened(log: nat)

  datatype Pc =
    | Down
    | Idle
    | Writing(e: Entry)                       // in the log, not yet in the memtable
    | Committing(edit: Edit, after: After)    // inside LogAndApply
    | Unlinking(numbers: seq<nat>)            // compaction inputs still to be unlinked
    | Recovering(pending: seq<nat>)           // logs still to be replayed, oldest first
    | Replayed(pending: seq<nat>)             // the first of them is committed but not yet unlinked

  /** A memtable is named by the number of the log that backs it.  `mems` also keeps memtables that
      only readers still hold.  `hist` is the list of writes that took effect. */
  datatype State = State(
    disk: Disk, vs: VersionSet, mem: nat, imm: Option<nat>, mems: map<nat, seq<Entry>>,
    pc: Pc, hist: seq<Entry>)

  // ---- Memtables and level 0 tables ----

  function SortedLog(log: seq<Entry>): (r: seq<Entry>)
    ensures forall x :: x in r <==> x in log
  {
    if log == [] then []
    else
      assert forall x :: x in log <==> x in log[..|log| - 1] || x == log[|log| - 1];
      AddSorted(SortedLog(log[..|log| - 1]), log[|log| - 1])
  }

  function MaxSeq(bound: nat, log: seq<Entry>): (r: nat)
    ensures bound <= r && (forall e :: e in log ==> e.seqno <= r)
    ensures r == bound || exists e :: e in log && e.seqno == r
  {
    if log == [] then bound
    else
      assert forall x :: x in log <==> x in log[..|log| - 1] || x == log[|log| - 1];
      Max(MaxSeq(bound, log[..|log| - 1]), log[|log| - 1].seqno)
  }

  /** `WriteLevel0Table`: all entries in order; an empty table has empty bounds. */
  function Level0File(opts: Options, es: seq<Entry>, number: nat): File {
    if es == [] then File(number, opts.fileBytes(es), [], [], Some(es)) else MakeFile(opts, es, number)
  }

  function Numbers(fs: seq<File>): (r: seq<nat>)
    ensures |r| == |fs| && forall i :: 0 <= i < |fs| ==> r[i] == fs[i].number
  {
    seq(|fs|, i requires 0 <= i < |fs| => fs[i].number)
  }

  /** Writing finished table files. */
  function WithTables(tables: map<nat, seq<Entry>>, fs: seq<File>): map<nat, seq<Entry>> {
    if fs == [] then tables
    else WithTables(tables, fs[..|fs| - 1])[fs[|fs| - 1].number := Content(fs[|fs| - 1])]
  }

  lemma {:induction false} TableKept(tables: map<nat, seq<Entry>>, fs: seq<File>, n: nat)
    requires n in tables && forall i :: 0 <= i < |fs| ==> fs[i].number != n
    ensures n in WithTables(tables, fs) && WithTables(tables, fs)[n] == tables[n]
  {
    if fs != [] {
      TableKept(tables, fs[..|fs| - 1], n);
    }
  }

  lemma {:induction false} TableWritten(tables: map<nat, seq<Entry>>, fs: seq<File>, i: nat)
    requires i < |fs| && forall j, k :: 0 <= j < k < |fs| ==> fs[j].number != fs[k].number
    ensures fs[i].number in WithTables(tables, fs) && WithTables(tables, fs)[fs[i].number] == Content(fs[i])
  {
    if i < |fs| - 1 {
      TableWritten(tables, fs[..|fs| - 1], i);
    }
  }

  // ---- What the disk denotes ----

  function OpenFile(f: File, tables: map<nat, seq<Entry>>): File {
    f.(reader := if f.number in tables then Some(tables[f.number]) else None)
  }

  function OpenLevel(fs: seq<File>, tables: map<nat, seq<Entry>>): (r: seq<File>)
    ensures |r| == |fs| && forall i :: 0 <= i < |fs| ==> r[i] == OpenFile(fs[i], tables)
  {
    seq(|fs|, i requires 0 <= i < |fs| => OpenFile(fs[i], tables))
  }

  function OpenVersion(v: Version, tables: map<nat, seq<Entry>>): (r: Version)
    ensures forall l :: 0 <= l < NUM_LEVELS ==> r[l] == OpenLevel(v[l], tables)
  {
    seq(NUM_LEVELS, l requires 0 <= l < NUM_LEVELS => OpenLevel(v[l], tables))
  }

  /** The version set a process starts with: the manifest replayed, the tables opened. */
  function Reloaded(d: Disk): VersionSet {
    var r := Recovered(d.records);
    r.(current := OpenVersion(r.current, d.tables))
  }

  /** The logs that recovery replays: all numbers at or above the log number, ascending. */
  ghost predicate LiveLogs(logs: map<nat, seq<Entry>>, logNumber: nat, pending: seq<nat>) {
    && (forall i, j :: 0 <= i < j < |pending| ==> pending[i] < pending[j])
    && (forall n :: n in pending <==> n in logs && n >= logNumber)
  }

  /** The live logs as sources, newest first. */
  ghost function LogStack(logs: map<nat, seq<Entry>>, pending: seq<nat>): (st: Stack)
    requires forall n :: n in pending ==> n in logs
    ensures |st| == |pending|
    ensures forall i :: 0 <= i < |pending| ==> st[i] == logs[pending[|pending| - 1 - i]]
  {
    seq(|pending|, i requires 0 <= i < |pending| => logs[pending[|pending| - 1 - i]])
  }

  // ---- Steps ----

  datatype Step =
    | Append(key: Key, kind: byte, value: Bytes)
    | Acknowledge
    | Rotate
    | BeginFlush
    | BeginCompaction
    | SwitchManifest
    | AppendEdit
    | UnlinkInput
    | RemoveObsolete(number: nat)
    | Crash(survives: bool, tables: map<nat, seq<Entry>>)
    | Open(pending: seq<nat>)
    | ReplayLog
    | DropEmptyLog
    | UnlinkLog
    | CreateLog

  ghost predicate IsLive(v: Version, n: nat) {
    exists l, f :: 0 <= l < NUM_LEVELS && f in v[l] && f.number == n
  }

  /** What recovery gets out of the oldest pending log. */
  function NextLog(s: State): seq<Entry>
    requires s.pc.Recovering? && s.pc.pending != [] && s.pc.pending[0] in s.disk.logs
  {
    ReadBack(s.disk.logs[s.pc.pending[0]])
  }

  /** When a step can be taken.  The writers check no sizes, so these are the runs in which every
      put, every table and every manifest record stays within what the readers accept. */
  ghost predicate Enabled(opts: Options, s: State, step: Step) {
    match step
    case Append(key, kind, value) =>
      && s.pc == Idle && (kind == VALUE || kind == DELETION) && s.mem in s.disk.logs
      && Readable(Entry(key, s.vs.lastSeq + 1, kind, value))
    case Acknowledge => s.pc.Writing? && s.mem in s.mems
    case Rotate => s.pc == Idle && s.imm.None?
    case BeginFlush =>
      && s.pc == Idle && s.imm.Some? && s.imm.value in s.mems
      && opts.tableFits(s.mems[s.imm.value])
    case BeginCompaction =>
      && s.pc == Idle && Picked(opts, s.vs.current).Some?
      && AllFit(opts, Outputs(opts, s.vs.current, Picked(opts, s.vs.current).value, s.vs.nextFile))
    case SwitchManifest => s.pc.Committing? && !s.vs.open && opts.editFits(EraseEdit(Snapshot(Switched(s.vs))))
    case AppendEdit =>
      && s.pc.Committing? && s.vs.open
      && s.pc.edit.lastSeq.Some?
      && (s.pc.edit.logNumber.Some? ==> s.pc.edit.logNumber.value >= s.vs.logNumber)
      && opts.editFits(EraseEdit(s.pc.edit))
    case UnlinkInput => s.pc.Unlinking? && s.pc.numbers != []
    case RemoveObsolete(n) => s.pc == Idle && !IsLive(s.vs.current, n)
    case Crash(_, tables) =>
      forall n :: n in s.disk.tables && IsLive(Reloaded(s.disk).current, n) ==>
        n in tables && tables[n] == s.disk.tables[n]
    case Open(pending) => s.pc == Down && LiveLogs(s.disk.logs, Reloaded(s.disk).logNumber, pending)
    case ReplayLog =>
      && s.pc.Recovering? && s.pc.pending != [] && s.pc.pending[0] in s.disk.logs
      && NextLog(s) != [] && opts.tableFits(SortedLog(NextLog(s)))
    case DropEmptyLog =>
      && s.pc.Recovering? && s.pc.pending != [] && s.pc.pending[0] in s.disk.logs
      && NextLog(s) == []
    case UnlinkLog => s.pc.Replayed? && s.pc.pending != []
    case CreateLog => s.pc == Recovering([])
  }

  predicate AllFit(opts: Options, fs: seq<File>) {
    forall f :: f in fs ==> opts.tableFits(Content(f))
  }

  /** A new memtable with a new log; the old one becomes the immutable one. */
  function Rotated(s: State): State {
    var n := s.vs.nextFile;
    s.(disk := s.disk.(logs := s.disk.logs[n := []]), vs := s.vs.(nextFile := n + 1),
       mem := n, imm := Some(s.mem), mems := s.mems[n := []])
  }

  /** Allocating file numbers and writing tables, up to the call of `LogAndApply`. */
  function Committed(s: State, files: seq<File>, edit: Edit, after: After): State {
    var vs := s.vs.(nextFile := s.vs.nextFile + |files|);
    s.(disk := s.disk.(tables := WithTables(s.disk.tables, files)), vs := vs,
       pc := Committing(WithDefaults(vs, edit), after))
  }

  /** The edit of a flush or of a replayed log. */
  function TableEdit(f: File, log: nat): Edit {
    EMPTY_EDIT.(logNumber := Some(log), added := [(0, f)])
  }

  ghost function Do(opts: Options, s: State, step: Step): State
    requires Enabled(opts, s, step)
  {
    var d, vs := s.disk, s.vs;
    match step
    case Append(key, kind, value) =>
      var e := Entry(key, vs.lastSeq + 1, kind, value);
      s.(disk := d.(logs := d.logs[s.mem := d.logs[s.mem] + [e]]), pc := Writing(e))
    case Acknowledge =>
      var e := s.pc.e;
      s.(mems := s.mems[s.mem := AddSorted(s.mems[s.mem], e)], vs := vs.(lastSeq := Max(vs.lastSeq, e.seqno)),
         pc := Idle, hist := s.hist + [e])
    case Rotate => Rotated(s)
    case BeginFlush =>
      var f := Level0File(opts, s.mems[s.imm.value], vs.nextFile);
      Committed(s, [f], TableEdit(f, s.mem), FlushDone)
    case BeginCompaction =>
      var c := Picked(opts, vs.current).value;
      var outs := Outputs(opts, vs.current, c, vs.nextFile);
      Committed(s, outs, CompactionEdit(c, outs), CompactDone(Numbers(c.inputs0 + c.inputs1)))
    case SwitchManifest =>
      s.(disk := d.(records := [EraseEdit(Snapshot(Switched(vs)))]), vs := Switched(vs))
    case AppendEdit =>
      var s' := s.(disk := d.(records := d.records + [EraseEdit(s.pc.edit)]), vs := Installed(vs, s.pc.edit));
      (match s.pc.after
       case FlushDone => s'.(imm := None, pc := Idle)
       case CompactDone(inputs) => s'.(pc := Unlinking(inputs))
       case Created => s'.(pc := Recovering([]))
       case LogReplayed(pending) => s'.(pc := Replayed(pending))
       case Reopened(log) => s'.(mem := log, imm := None, mems := map[log := []], pc := Idle))
    case UnlinkInput =>
      var ns := s.pc.numbers;
      s.(disk := d.(tables := d.tables - {ns[0]}), pc := if |ns| == 1 then Idle else Unlinking(ns[1..]))
    case RemoveObsolete(n) => s.(disk := d.(tables := d.tables - {n}))
    case Crash(survives, tables) =>
      var lost := s.pc.Writing? && !survives && s.mem in d.logs && d.logs[s.mem] != [];
      var logs := if lost then d.logs[s.mem := d.logs[s.mem][..|d.logs[s.mem]| - 1]] else d.logs;
      s.(disk := d.(tables := tables, logs := logs), pc := Down,
         hist := if s.pc.Writing? && survives then s.hist + [s.pc.e] else s.hist)
    case Open(pending) => s.(vs := Reloaded(d), pc := Recovering(pending))
    case ReplayLog =>
      var log := NextLog(s);
      var s' := s.(vs := vs.(lastSeq := MaxSeq(vs.lastSeq, log)));
      var f := Level0File(opts, SortedLog(log), vs.nextFile);
      Committed(s', [f], TableEdit(f, s.pc.pending[0]), LogReplayed(s.pc.pending))
    case DropEmptyLog => s.(disk := d.(logs := d.logs - {s.pc.pending[0]}), pc := Recovering(s.pc.pending[1..]))
    case UnlinkLog => s.(disk := d.(logs := d.logs - {s.pc.pending[0]}), pc := Recovering(s.pc.pending[1..]))
    case CreateLog =>
      var n := vs.nextFile;
      var s' := s.(disk := d.(logs := d.logs[n := []]), vs := vs.(nextFile := n + 1));
      Committed(s', [], EMPTY_EDIT.(logNumber := Some(n)), Reopened(n))
  }
}
