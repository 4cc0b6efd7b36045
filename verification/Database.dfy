/** `DBImpl` as an object: its methods run the engine's steps in the order of the source and keep
    the engine's invariant, so each does to the database what it does to a plain map.

    Operations that write return whether everything stayed within what the readers accept.  The code
    does not check: where `ok` is false it goes on, and the model promises nothing. */
module Database {
  import opened Keys
  import opened Entries
  import opened Records
  import opened History
  import opened Recency
  import opened BlockSearch
  import opened Versions
  import opened Edits
  import opened Compactions
  import opened CompactionCorrect
  import opened CompactionTermination
  import opened Manifest
  import VersionBuilding
  import opened Engine
  import opened EngineInvariant
  import opened EngineCommit
  import opened EngineTheorems
  import opened EngineSnapshots
  import opened EngineIterator
  import opened EngineBackground
  import opened EngineReopen
  import opened Merging
  import DBIterators

  class DBImpl {
    const opts: Options
    const cut: Cutter
    var disk: Disk
    var vs: VersionSet
    var mem: nat
    var imm: Option<nat>
    var mems: map<nat, seq<Entry>>
    ghost var pc: Pc
    ghost var hist: seq<Entry>

    ghost function Abs(): State
      reads this
    {
      State(disk, vs, mem, imm, mems, pc, hist)
    }

    /** The object is up and idle. */
    ghost predicate Ready()
      reads this
    {
      pc == Idle && Inv(opts, Abs())
    }

    /** What the database holds. */
    ghost function Contents(): map<Key, Bytes>
      reads this
    {
      MapOf(hist)
    }

    /** An object on a directory that a process, crashed or not, left behind. */
    constructor (opts: Options, cut: Cutter, disk: Disk, ghost hist: seq<Entry>)
      requires Inv(opts, State(disk, NEW_VERSION_SET, 0, None, map[], Down, hist))
      ensures this.opts == opts && this.cut == cut && this.disk == disk && this.hist == hist && this.pc == Down
      ensures Inv(opts, Abs())
    {
      this.opts, this.cut, this.disk, this.vs := opts, cut, disk, NEW_VERSION_SET;
      this.mem, this.imm, this.mems := 0, None, map[];
      this.pc, this.hist := Down, hist;
    }

    // ---- Reading ----

    /** `Get`: memtable, immutable memtable, version. */
    method Get(key: Key) returns (r: Answer)
      requires Ready()
      ensures r == if key in Contents() then Found(Contents()[key]) else Missing
    {
      hide Inv, StackOf, Visible, FirstHit, ValidVersion, MapOf, Current, NarrowedVersion, Sources;
      IdleReads(opts, Abs(), key);
      ReadOrder(Capture(Abs()), mems, key);
      var hit := Visible(mems[mem], key, vs.lastSeq);
      if hit.Some? { return Outcome(AnswerOf(hit.value)); }
      if imm.Some? {
        hit := Visible(mems[imm.value], key, vs.lastSeq);
        if hit.Some? { return Outcome(AnswerOf(hit.value)); }
      }
      IdleCurrent(opts, Abs(), key);
      var a := Versions.Get(cut, vs.current, key, vs.lastSeq);
      return Outcome(a);
    }

    /** `NewIterator`: a cursor over the bindings, in ascending key order. */
    method NewIterator() returns (it: DBIterators.DBIterator)
      requires Ready()
      ensures fresh(it) && fresh(it.iter) && !it.valid && it.sequence == |hist| && it.Sorted()
      ensures DBIterators.Clean(it.iter.children, it.sequence)
      ensures |hist| <= MAX_SEQNO ==> forall target :: DBIterators.SeeksRight(it.iter.children, target, it.sequence)
      ensures DBIterators.StrictlyUp(it.Pairs())
      ensures forall k, v :: (k, v) in it.Pairs() <==> k in Contents() && Contents()[k] == v
    {
      hide Inv, StackOf, Represents, AllSorted, ValidVersion, MapOf, Merged, DBIterators.Live, TableChildren,
           DBIterators.Clean, DBIterators.SeeksRight;
      ghost var snap := Capture(Abs());
      IdleSources(opts, Abs());
      var iters := [Mem(mems[mem], 0)];
      if imm.Some? { iters := iters + [Mem(mems[imm.value], 0)]; }
      var tables := AddIterators(vs.current);
      iters := iters + tables;
      assert iters == IteratorChildren(snap, mems, mems);
      IdleIterator(opts, Abs());
      var merging := new MergingIterator(iters);
      it := new DBIterators.DBIterator(merging, vs.lastSeq);
      assert AllAtFirst(iters) == iters;
      if |hist| <= MAX_SEQNO {
        forall target ensures DBIterators.SeeksRight(iters, target, |hist|) { LowSeeks(iters, target, |hist|); }
      }
    }

    // ---- Writing ----

    /** There is room for a write, or a turn of the background thread makes it. */
    ghost predicate RoomFor(full: bool)
      reads this
    {
      full && imm.Some? ==> CanTurn(opts, Abs())
    }

    method Put(key: Key, value: Bytes, full: bool) returns (ok: bool)
      requires Ready()
      modifies this
      ensures ok <==> old(RoomFor(full)) && Readable(Entry(key, |old(hist)| + 1, VALUE, value))
      ensures ok ==> Ready() && Contents() == old(Contents())[key := value]
      ensures ok ==> |hist| == |old(hist)| + 1 && old(hist) <= hist
    {
      hide Inv, CanTurn, Readable;
      ok := MakeRoomForWrite(full);
      if ok { ok := Write(key, VALUE, value); }
    }

    method Delete(key: Key, full: bool) returns (ok: bool)
      requires Ready()
      modifies this
      ensures ok <==> old(RoomFor(full)) && Readable(Entry(key, |old(hist)| + 1, DELETION, []))
      ensures ok ==> Ready() && Contents() == old(Contents()) - {key}
      ensures ok ==> |hist| == |old(hist)| + 1 && old(hist) <= hist
    {
      hide Inv, CanTurn, Readable;
      ok := MakeRoomForWrite(full);
      if ok { ok := Write(key, DELETION, []); }
    }

    /** Log append, memtable insert, sequence number. */
    method Write(key: Key, kind: byte, value: Bytes) returns (ok: bool)
      requires Ready() && (kind == VALUE || kind == DELETION)
      modifies this
      ensures ok == Readable(Entry(key, |old(hist)| + 1, kind, value))
      ensures ok ==> Ready() && hist == old(hist) + [Entry(key, |old(hist)| + 1, kind, value)]
      ensures ok ==> MapOf(hist) == if kind == VALUE then MapOf(old(hist))[key := value] else MapOf(old(hist)) - {key}
    {
      hide Inv, AddSorted, Readable;
      ghost var s0 := Abs();
      IdleFacts(opts, s0);
      var e := Entry(key, vs.lastSeq + 1, kind, value);
      ok := Readable(e);
      if !ok { return; }
      disk := disk.(logs := disk.logs[mem := disk.logs[mem] + [e]]);
      pc := Writing(e);
      assert Abs() == Do(opts, s0, Append(key, kind, value));
      StepKeeps(opts, s0, Append(key, kind, value));
      ghost var s1 := Abs();
      mems := mems[mem := AddSorted(mems[mem], e)];
      vs := vs.(lastSeq := Max(vs.lastSeq, e.seqno));
      hist := hist + [e];
      pc := Idle;
      assert Abs() == Do(opts, s1, Acknowledge);
      StepKeeps(opts, s1, Acknowledge);
      assert hist[..|hist| - 1] == s0.hist;
    }

    /** `full` tells whether the memtable has reached the write buffer size.  Waiting for the
        background thread is a call to what that thread does. */
    method MakeRoomForWrite(full: bool) returns (ok: bool)
      requires Ready()
      modifies this
      ensures ok <==> old(RoomFor(full))
      ensures ok ==> Ready() && hist == old(hist)
      ensures ok && full ==> mem in mems && mems[mem] == []
    {
      hide Inv, CanTurn, Turn;
      ok := true;
      if !full { return; }
      if imm.Some? {
        ok := BackgroundCompaction();
        if !ok { return; }
      }
      RotateMemtable();
    }

    method RotateMemtable()
      requires Ready() && imm.None?
      modifies this
      ensures Ready() && hist == old(hist) && mem in mems && mems[mem] == []
    {
      hide Inv;
      ghost var s := Abs();
      imm := Some(mem);
      mem := vs.nextFile;
      vs := vs.(nextFile := mem + 1);
      mems := mems[mem := []];
      disk := disk.(logs := disk.logs[mem := []]);
      assert Abs() == Do(opts, s, Rotate);
      StepKeeps(opts, s, Rotate);
    }

    // ---- The background thread ----

    /** `BackgroundThread` until it would wait: it comes to a state with nothing to flush and nothing
        to compact, and has not changed the map. */
    method BackgroundThread() returns (ok: bool)
      requires Ready()
      modifies this
      ensures ok <==> CanRest(opts, old(Abs()))
      ensures ok ==> Ready() && Abs() == Rest(opts, old(Abs()))
      ensures ok ==> hist == old(hist) && imm.None? && Picked(opts, vs.current).None?
    {
      hide Inv, Picked, Weight, CanTurn, Turn;
      ghost var s0 := Abs();
      ok := true;
      var c := PickCompaction(opts, vs.current);
      while imm.Some? || c.Some?
        invariant ok && Ready() && c == Picked(opts, vs.current)
        invariant CanRest(opts, s0) == CanRest(opts, Abs())
        invariant CanRest(opts, s0) ==> Rest(opts, s0) == Rest(opts, Abs())
        decreases if imm.Some? then 1 else 0, Weight(vs.current), |vs.current[0]|
      {
        ghost var s := Abs();
        RestStep(opts, s);
        ok := BackgroundCompaction();
        if !ok { return; }
        c := PickCompaction(opts, vs.current);
      }
    }

    /** One round: flush the immutable memtable, run one compaction if one is due, remove the tables
        that are obsolete. */
    method BackgroundCompaction() returns (ok: bool)
      requires Ready()
      modifies this
      ensures ok <==> CanTurn(opts, old(Abs()))
      ensures ok ==> Ready() && Abs() == Turn(opts, old(Abs()))
      ensures ok ==> hist == old(hist) && imm.None? && forall n :: n in disk.tables ==> IsLive(vs.current, n)
    {
      hide Inv, Picked, IsLive, Compacted, CanFlush, CanCompact, Flushed, CompactedOnce;
      ok := true;
      if imm.Some? {
        ok := FlushImmutable();
        if !ok { return; }
      }
      var c := PickCompaction(opts, vs.current);
      if c.Some? {
        ok := RunCompaction(c.value);
        if !ok { return; }
      }
      ghost var s := Abs();
      RemoveObsoleteFiles();
      assert disk.tables == Cleaned(s).disk.tables;
    }

    /** Unlinks exactly the table files that the current version does not have. */
    method RemoveObsoleteFiles()
      requires Ready()
      modifies this
      ensures Ready() && hist == old(hist) && imm == old(imm) && vs == old(vs) && mem == old(mem) && mems == old(mems)
      ensures disk == old(disk).(tables := disk.tables)
      ensures forall n :: n in disk.tables <==> n in old(disk.tables) && IsLive(vs.current, n)
      ensures forall n :: n in disk.tables ==> disk.tables[n] == old(disk.tables)[n]
    {
      hide Inv;
      var live := AddLiveFiles(vs.current);
      var todo := disk.tables.Keys;
      while todo != {}
        invariant Ready() && hist == old(hist) && imm == old(imm) && vs == old(vs) && mem == old(mem)
                  && mems == old(mems)
        invariant disk == old(disk).(tables := disk.tables) && todo <= old(disk.tables.Keys)
        invariant forall n :: n in disk.tables <==> n in old(disk.tables) && (n in todo || IsLive(vs.current, n))
        invariant forall n :: n in disk.tables ==> disk.tables[n] == old(disk.tables)[n]
        decreases todo
      {
        var n :| n in todo;
        if n !in live { Unlink(n); }
        todo := todo - {n};
      }
    }

    method Unlink(n: nat)
      requires Ready() && !IsLive(vs.current, n)
      modifies this
      ensures Ready() && hist == old(hist) && imm == old(imm) && vs == old(vs) && mem == old(mem) && mems == old(mems)
      ensures disk == old(disk).(tables := old(disk.tables) - {n})
    {
      hide Inv, IsLive;
      ghost var s := Abs();
      disk := disk.(tables := disk.tables - {n});
      assert Abs() == Do(opts, s, RemoveObsolete(n));
      StepKeeps(opts, s, RemoveObsolete(n));
    }

    method FlushImmutable() returns (ok: bool)
      requires Ready() && imm.Some?
      modifies this
      ensures ok <==> CanFlush(opts, old(Abs()))
      ensures ok ==> Ready() && Abs() == Flushed(opts, old(Abs())) && hist == old(hist) && imm.None?
    {
      hide Inv, Level0File, WithTables, EraseEdit, Apply;
      ghost var s := Abs();
      IdleFacts(opts, s);
      var es := mems[imm.value];
      ok := opts.tableFits(es);
      if !ok { return; }
      var f := Level0File(opts, es, vs.nextFile);
      vs := vs.(nextFile := vs.nextFile + 1);
      disk := disk.(tables := WithTables(disk.tables, [f]));
      var edit := WithDefaults(vs, TableEdit(f, mem));
      pc := Committing(edit, FlushDone);
      assert Abs() == Do(opts, s, BeginFlush);
      StepKeeps(opts, s, BeginFlush);
      ok := LogAndApply(edit, FlushDone);
      imm := None;
    }

    /** `LogAndApply` once the manifest is open: append the record, install the version. */
    method LogAndApply(edit: Edit, ghost after: After) returns (ok: bool)
      requires pc == Committing(edit, after) && Inv(opts, Abs()) && vs.open
      modifies this`disk, this`vs, this`pc
      ensures ok == opts.editFits(EraseEdit(edit))
      ensures ok ==> Enabled(opts, old(Abs()), AppendEdit) && Inv(opts, Do(opts, old(Abs()), AppendEdit))
      ensures ok ==> edit.lastSeq.Some? && vs == Installed(old(vs), edit) && disk == Logged(old(disk), edit)
      ensures ok ==> pc == Do(opts, old(Abs()), AppendEdit).pc
      ensures ok && (after.CompactDone? || after.LogReplayed?) ==> Abs() == Do(opts, old(Abs()), AppendEdit)
    {
      hide Inv, Apply, EraseEdit;
      ghost var s := Abs();
      ok := opts.editFits(EraseEdit(edit));
      if !ok { return; }
      CommittingReady(opts, s, edit, after);
      var v := VersionBuilding.BuildVersion(vs.current, edit);
      disk := disk.(records := disk.records + [EraseEdit(edit)]);
      vs := vs.(current := v,
                logNumber := if edit.logNumber.Some? then edit.logNumber.value else vs.logNumber,
                lastSeq := edit.lastSeq.value);
      pc := Do(opts, s, AppendEdit).pc;
      StepKeeps(opts, s, AppendEdit);
    }

    /** `DoCompaction`: write the outputs, log the edit, unlink the inputs. */
    method RunCompaction(c: Compaction) returns (ok: bool)
      requires Ready() && Picked(opts, vs.current) == Some(c)
      modifies this
      ensures ok <==> CanCompact(opts, old(Abs()))
      ensures ok ==> Ready() && Abs() == CompactedOnce(opts, old(Abs()))
      ensures ok ==> hist == old(hist) && imm == old(imm)
      ensures ok ==> vs.current == Compacted(opts, old(vs.current), c, old(vs.nextFile))
    {
      hide Inv, Compacted, Picked, Apply, Numbers, Enabled, Do, EraseEdit, Unlinked;
      var edit;
      ok, edit := WriteOutputs(c);
      if !ok { return; }
      var inputs := Numbers(c.inputs0 + c.inputs1);
      InputsExist(opts, vs.current, c);
      ghost var s := Abs();
      CommitEnabled(opts, s);
      ok := LogAndApply(edit, CompactDone(inputs));
      if !ok { return; }
      CompactionCommits(opts, s, inputs);
      UnlinkTables(inputs);
    }

    /** The output files of a compaction, and its edit. */
    method WriteOutputs(c: Compaction) returns (ok: bool, edit: Edit)
      requires Ready() && Picked(opts, vs.current) == Some(c)
      modifies this
      ensures ok <==> Enabled(opts, old(Abs()), BeginCompaction)
      ensures ok ==> Abs() == Do(opts, old(Abs()), BeginCompaction) && Inv(opts, Abs()) && vs.open
      ensures ok ==> pc == Committing(edit, CompactDone(Numbers(c.inputs0 + c.inputs1)))
      ensures ok ==> vs.current == old(vs.current)
    {
      hide Inv, Outputs, WithTables, CompactionEdit, Picked, Numbers;
      ghost var s := Abs();
      IdleFacts(opts, s);
      var outputs, next := DoCompaction(opts, vs.current, c, vs.nextFile);
      ok := AllFit(opts, outputs);
      if !ok { return ok, EMPTY_EDIT; }
      vs := vs.(nextFile := next);
      disk := disk.(tables := WithTables(disk.tables, outputs));
      edit := WithDefaults(vs, CompactionEdit(c, outputs));
      pc := Committing(edit, CompactDone(Numbers(c.inputs0 + c.inputs1)));
      assert Abs() == Do(opts, s, BeginCompaction);
      StepKeeps(opts, s, BeginCompaction);
    }

    method UnlinkTables(numbers: seq<nat>)
      requires pc == Unlinking(numbers) && numbers != [] && Inv(opts, Abs())
      modifies this`disk, this`pc
      ensures Ready() && Abs() == Unlinked(opts, old(Abs()))
    {
      hide Inv;
      ghost var s0 := Abs();
      var i := 0;
      while i < |numbers|
        invariant 0 <= i <= |numbers|
        invariant pc == if i == |numbers| then Idle else Unlinking(numbers[i..])
        invariant Inv(opts, Abs())
        invariant Unlinked(opts, s0) == if i == |numbers| then Abs() else Unlinked(opts, Abs())
      {
        ghost var s := Abs();
        disk := disk.(tables := disk.tables - {numbers[i]});
        pc := if i + 1 == |numbers| then Idle else Unlinking(numbers[i + 1..]);
        assert numbers[i..][1..] == numbers[i + 1..];
        assert Abs() == Do(opts, s, UnlinkInput);
        StepKeeps(opts, s, UnlinkInput);
        i := i + 1;
      }
    }

    // ---- Opening ----

    /** `Recover` on an existing database: it brings back every write. */
    method Recover() returns (ok: bool)
      requires pc == Down && Inv(opts, Abs())
      modifies this
      ensures ok <==> CanRecover(opts, old(Abs()))
      ensures ok ==> Ready() && hist == old(hist) && imm.None?
    {
      hide Inv, Reloaded, CanReplay, CanCommit, LogReplayedBy;
      ghost var s := Abs();
      vs := Reloaded(disk);
      var pending := ListLogs(disk.logs, vs.logNumber);
      pc := Recovering(pending);
      assert Abs() == Scanned(opts, s, pending);
      CanRecoverIff(opts, s, pending);
      while pending != []
        invariant pc == Recovering(pending) && Inv(opts, Abs()) && hist == old(hist)
        invariant CanRecover(opts, s) <==> CanFinish(opts, Abs())
        decreases |pending|
      {
        PendingLog(opts, Abs());
        ok := ReplayOne(pending);
        if !ok { return; }
        pending := pending[1..];
      }
      ok := StartNewLog();
    }

    /** One turn of the log loop: replay, commit, unlink; a log without records is only unlinked. */
    method ReplayOne(pending: seq<nat>) returns (ok: bool)
      requires pending != [] && pc == Recovering(pending) && pending[0] in disk.logs && Inv(opts, Abs())
      modifies this
      ensures ok <==> CanReplay(opts, old(Abs()))
      ensures ok ==> Inv(opts, Abs()) && Abs() == LogReplayedBy(opts, old(Abs()))
      ensures ok ==> pc == Recovering(pending[1..]) && hist == old(hist)
    {
      hide Inv, ReadBack, SortedLog, CanCommit, Commit, LogWritten;
      ok := true;
      var empty := ReadBack(disk.logs[pending[0]]) == [];
      if !empty {
        ok := CommitLog(pending);
        if !ok { return; }
      }
      ghost var s := Abs();
      disk := disk.(logs := disk.logs - {pending[0]});
      pc := Recovering(pending[1..]);
      ghost var step := if empty then DropEmptyLog else UnlinkLog;
      assert Abs() == Do(opts, s, step);
      StepKeeps(opts, s, step);
    }

    method CommitLog(pending: seq<nat>) returns (ok: bool)
      requires pending != [] && pc == Recovering(pending) && Inv(opts, Abs())
      requires pending[0] in disk.logs && ReadBack(disk.logs[pending[0]]) != []
      modifies this
      ensures ok <==> CanReplay(opts, old(Abs()))
      ensures ok ==> Abs() == Commit(opts, LogWritten(opts, old(Abs())))
    {
      hide Inv, Apply, ReadBack, SortedLog, CanCommit, Commit, LogWritten;
      var edit;
      ok, edit := WriteReplayed(pending);
      if !ok { return; }
      ok := CommitEdit(edit, LogReplayed(pending));
    }

    /** The manifest if it is still to be created, then the edit. */
    method CommitEdit(edit: Edit, ghost after: After) returns (ok: bool)
      requires pc == Committing(edit, after) && Inv(opts, Abs())
      requires after.LogReplayed?
      modifies this`disk, this`vs, this`pc
      ensures ok <==> CanCommit(opts, old(Abs()))
      ensures ok ==> Abs() == Commit(opts, old(Abs()))
    {
      hide Inv, Apply, Snapshot, EraseEdit;
      ok := EnsureManifest();
      if !ok { return; }
      CommitEnabled(opts, Abs());
      ok := LogAndApply(edit, after);
    }

    /** The table file of a replayed log, and its edit. */
    method WriteReplayed(pending: seq<nat>) returns (ok: bool, edit: Edit)
      requires pending != [] && pc == Recovering(pending) && Inv(opts, Abs())
      requires pending[0] in disk.logs && ReadBack(disk.logs[pending[0]]) != []
      modifies this
      ensures ok <==> opts.tableFits(SortedLog(ReadBack(old(disk).logs[pending[0]])))
      ensures ok ==> pc == Committing(edit, LogReplayed(pending)) && Abs() == LogWritten(opts, old(Abs()))
    {
      hide Inv, Level0File, WithTables, SortedLog, MaxSeq, ReadBack;
      ghost var s := Abs();
      var n := pending[0];
      var es, last := ReadRecords(disk.logs[n], vs.lastSeq);
      ok := opts.tableFits(es);
      if !ok { return ok, EMPTY_EDIT; }
      var f := Level0File(opts, es, vs.nextFile);
      vs := vs.(lastSeq := last, nextFile := vs.nextFile + 1);
      disk := disk.(tables := WithTables(disk.tables, [f]));
      edit := WithDefaults(vs, TableEdit(f, n));
      pc := Committing(edit, LogReplayed(pending));
      assert Abs() == Do(opts, s, ReplayLog);
    }

    /** The first `LogAndApply` of a process creates its manifest. */
    method EnsureManifest() returns (ok: bool)
      requires pc.Committing? && Inv(opts, Abs())
      modifies this`disk, this`vs
      ensures ok <==> old(vs).open || opts.editFits(EraseEdit(Snapshot(Switched(old(vs)))))
      ensures ok ==> Inv(opts, Abs()) && vs.open
      ensures ok && old(vs).open ==> Abs() == old(Abs())
      ensures ok && !old(vs).open ==>
                Enabled(opts, old(Abs()), SwitchManifest) && Abs() == Do(opts, old(Abs()), SwitchManifest)
    {
      hide Inv, EraseEdit;
      ok := true;
      if !vs.open {
        ghost var s := Abs();
        vs := vs.(nextFile := vs.nextFile + 1, open := true);
        var snapshot := VersionBuilding.BuildSnapshot(vs);
        ok := opts.editFits(EraseEdit(snapshot));
        if !ok { return; }
        disk := disk.(records := [EraseEdit(snapshot)]);
        assert Abs() == Do(opts, s, SwitchManifest);
        StepKeeps(opts, s, SwitchManifest);
      }
    }

    method StartNewLog() returns (ok: bool)
      requires pc == Recovering([]) && Inv(opts, Abs())
      modifies this
      ensures ok <==> CanFinish(opts, old(Abs()))
      ensures ok ==> Ready() && hist == old(hist) && imm.None?
    {
      hide Inv, Apply, Snapshot, EraseEdit;
      ghost var s := Abs();
      var n, edit := CreateNewLog();
      assert CanFinish(opts, s) == CanCommit(opts, Abs());
      ok := EnsureManifest();
      if !ok { return; }
      ok := LogAndApply(edit, Reopened(n));
      mem, imm, mems := n, None, map[n := []];
    }

    /** The new log file, and the edit that will make it the oldest live one. */
    method CreateNewLog() returns (n: nat, edit: Edit)
      requires pc == Recovering([]) && Inv(opts, Abs())
      modifies this
      ensures pc == Committing(edit, Reopened(n)) && Inv(opts, Abs()) && hist == old(hist)
      ensures Abs() == LogCreated(opts, old(Abs()))
    {
      hide Inv;
      ghost var s := Abs();
      n := vs.nextFile;
      vs := vs.(nextFile := n + 1);
      disk := disk.(logs := disk.logs[n := []]);
      edit := WithDefaults(vs, EMPTY_EDIT.(logNumber := Some(n)));
      pc := Committing(edit, Reopened(n));
      assert Abs() == Do(opts, s, CreateLog);
      StepKeeps(opts, s, CreateLog);
    }
  }

  // ---- Helpers without state ----

  /** The record loop of `Recover`: a memtable and the largest sequence number.  It ends at the first
      record that the reader refuses. */
  method ReadRecords(log: seq<Entry>, last: nat) returns (es: seq<Entry>, maxSeq: nat)
    ensures es == SortedLog(ReadBack(log)) && maxSeq == MaxSeq(last, ReadBack(log))
  {
    hide Readable, SortedLog, MaxSeq, AllReadable, ReadBack;
    es, maxSeq := [], last;
    ReadNone(last);
    var i := 0;
    while i < |log| && Readable(log[i])
      invariant 0 <= i <= |log| && AllReadable(log[..i])
      invariant es == SortedLog(log[..i]) && maxSeq == MaxSeq(last, log[..i])
    {
      ReadOne(log, i, last);
      es := AddSorted(es, log[i]);
      if log[i].seqno > maxSeq { maxSeq := log[i].seqno; }
      i := i + 1;
    }
    if i < |log| {
      OversizedEnds(log[..i], log[i], log[i + 1..]);
      assert log == log[..i] + [log[i]] + log[i + 1..];
    } else {
      assert log[..i] == log;
      AllKept(log);
    }
  }

  lemma {:induction false} ReadNone(last: nat)
    ensures SortedLog([]) == [] && MaxSeq(last, []) == last && AllReadable([])
  {
  }

  lemma {:induction false} ReadOne(log: seq<Entry>, i: nat, last: nat)
    requires i < |log| && AllReadable(log[..i]) && Readable(log[i])
    ensures SortedLog(log[..i + 1]) == AddSorted(SortedLog(log[..i]), log[i])
    ensures MaxSeq(last, log[..i + 1]) == Max(MaxSeq(last, log[..i]), log[i].seqno)
    ensures AllReadable(log[..i + 1])
  {
    hide Readable, AddSorted;
    assert log[..i + 1][..i] == log[..i];
  }

  /** The directory scan: live log numbers in ascending order. */
  method ListLogs(logs: map<nat, seq<Entry>>, logNumber: nat) returns (pending: seq<nat>)
    ensures LiveLogs(logs, logNumber, pending)
  {
    var left := set n | n in logs && n >= logNumber;
    pending := [];
    while left != {}
      invariant forall n :: n in logs && n >= logNumber <==> n in left || n in pending
      invariant forall i, j :: 0 <= i < j < |pending| ==> pending[i] < pending[j]
      invariant forall m, n :: m in pending && n in left ==> m < n
      decreases |left|
    {
      var least := Least(left);
      assert forall i :: 0 <= i < |pending| ==> pending[i] in pending;
      left := left - {least};
      pending := pending + [least];
    }
  }

  method Least(ns: set<nat>) returns (least: nat)
    requires ns != {}
    ensures least in ns && forall n :: n in ns ==> least <= n
  {
    least :| least in ns;
    var left := ns - {least};
    while left != {}
      invariant left <= ns && least in ns
      invariant forall n :: n in ns && n !in left ==> least <= n
      decreases |left|
    {
      var n :| n in left;
      if n < least { least := n; }
      left := left - {n};
    }
  }

  /** A fresh iterator of an idle database lists the map. */
  lemma {:induction false} IdleIterator(opts: Options, s: State)
    requires Inv(opts, s) && s.pc == Idle
    ensures s.mem in s.mems && (s.imm.Some? ==> s.imm.value in s.mems)
    ensures var cs := IteratorChildren(Capture(s), s.mems, s.mems);
            var ps := DBIterators.Live(Merged(cs), s.vs.lastSeq);
            && AllChildrenSorted(cs) && AllAtFirst(cs) == cs && DBIterators.StrictlyUp(ps)
            && DBIterators.Clean(cs, s.vs.lastSeq)
            && forall k, v :: (k, v) in ps <==> k in MapOf(s.hist) && MapOf(s.hist)[k] == v
  {
    hide Inv, StackOf, Represents, AllSorted, ValidVersion, MapOf, Merged, DBIterators.Live, TableChildren, Sorted,
         MemsGrow, DBIterators.Clean;
    IdleSources(opts, s);
    ServingSane(opts, s);
    MemsStay(s);
    SameLive(Capture(s), s.mems, s.mems, s.mems, s.hist);
    DBIterators.LiveIsMap(Sources(Capture(s), s.mems), s.hist, s.vs.lastSeq);
    ChildrenSorted(Capture(s), s.mems, s.mems, s.mems);
    GenuineClean(Capture(s), s.mems, s.hist);
    TableChildrenFresh(s.vs.current, 0);
  }

  lemma {:induction false} LowSeeks(cs: seq<Child>, target: Key, s: nat)
    requires DBIterators.Clean(cs, s) && s <= MAX_SEQNO
    ensures DBIterators.SeeksRight(cs, target, s)
  {
    hide DBIterators.Clean, DBIterators.SeekSees;
    DBIterators.LowSees(cs, target, s);
  }

  lemma {:induction false} IdleSources(opts: Options, s: State)
    requires Inv(opts, s) && s.pc == Idle
    ensures s.mem in s.mems && (s.imm.Some? ==> s.imm.value in s.mems)
    ensures Represents(Sources(Capture(s), s.mems), s.hist) && AllSorted(Sources(Capture(s), s.mems))
    ensures s.vs.lastSeq == |s.hist| && ValidVersion(s.vs.current)
  {
    hide Running, Settled, Represents, Sources, AllSorted, ValidVersion;
    RunningSources(s);
    RunningValid(s);
  }

  /** The tables hold nothing newer than the last sequence number. */
  lemma {:induction false} IdleCurrent(opts: Options, s: State, k: Key)
    requires Inv(opts, s) && s.pc == Idle
    ensures Current(s.vs.current, k, s.vs.lastSeq) && ValidVersion(s.vs.current)
  {
    RunningValid(s);
    hide Running, Settled, ValidVersion, Sources, StackOf, NewestFirst, Covers, AllSorted;
    RunningSources(s);
    forall l, f, e | 0 <= l < NUM_LEVELS && f in s.vs.current[l] && e in Content(f) ensures e.seqno <= s.vs.lastSeq {
      StackHolds(s.vs.current, e);
      SourcesHold(Capture(s), s.mems, e);
    }
  }

  lemma {:induction false} CommitEnabled(opts: Options, s: State)
    requires Inv(opts, s) && s.pc.Committing? && s.vs.open
    ensures Enabled(opts, s, AppendEdit) <==> opts.editFits(EraseEdit(s.pc.edit))
  {
    hide Inv, EraseEdit;
    if opts.editFits(EraseEdit(s.pc.edit)) { CommittingReady(opts, s, s.pc.edit, s.pc.after); }
  }

  /** The memtables come first, then the version. */
  lemma {:induction false} ReadOrder(snap: Snap, mems: map<nat, seq<Entry>>, k: Key)
    requires snap.mem in mems && (snap.imm.Some? ==> snap.imm.value in mems)
    ensures FirstHit(Sources(snap, mems), k, snap.seqno) ==
            if Visible(mems[snap.mem], k, snap.seqno).Some? then AnswerOf(Visible(mems[snap.mem], k, snap.seqno).value)
            else if snap.imm.Some? && Visible(mems[snap.imm.value], k, snap.seqno).Some? then
              AnswerOf(Visible(mems[snap.imm.value], k, snap.seqno).value)
            else FirstHit(StackOf(snap.version), k, snap.seqno)
  {
    hide Visible, StackOf;
    var st := Sources(snap, mems);
    if snap.imm.Some? {
      assert st[1..] == [mems[snap.imm.value]] + StackOf(snap.version);
      assert st[1..][1..] == StackOf(snap.version);
    } else {
      assert st[1..] == StackOf(snap.version);
    }
  }

  /** `AddLiveFiles`: the numbers of all files of a version. */
  method AddLiveFiles(v: Version) returns (live: set<nat>)
    ensures forall n :: n in live <==> IsLive(v, n)
  {
    live := {};
    for level := 0 to NUM_LEVELS
      invariant forall n :: n in live <==> exists l, f :: 0 <= l < level && f in v[l] && f.number == n
    {
      ghost var before := live;
      for i := 0 to |v[level]|
        invariant forall n :: n in live <==> n in before || exists j :: 0 <= j < i && v[level][j].number == n
      {
        live := live + {v[level][i].number};
      }
      forall n ensures n in live <==> exists l, f :: 0 <= l < level + 1 && f in v[l] && f.number == n {
        if j :| 0 <= j < |v[level]| && v[level][j].number == n { assert v[level][j] in v[level]; }
        if l, f :| 0 <= l < level + 1 && f in v[l] && f.number == n {
          if l == level { var j :| 0 <= j < |v[level]| && v[level][j] == f; }
        }
      }
    }
  }
}
