/** The manifest file: version edits in the frames of a log, and `VersionSet::Recover` over them. */
module ManifestLog {
  import opened Keys
  import opened Entries
  import opened Records
  import opened Versions
  import opened Edits
  import opened Manifest
  import opened VersionBuilding
  import opened EditCodec
  import opened Wal

  /** The key of every manifest record. */
  const MANIFEST_ENTRY: Bytes := [77, 65, 78, 73, 70, 69, 83, 84, 95, 69, 78, 84, 82, 89]

  function RecordOf(bytes: Bytes): Entry { Entry(MANIFEST_ENTRY, 0, VALUE, bytes) }

  /** The records hold these edits, one each. */
  ghost predicate Holds(records: seq<Entry>, edits: seq<Edit>) {
    |records| == |edits| && forall i :: 0 <= i < |edits| ==> Encodes(records[i].value, edits[i])
  }

  /** What `LogAndApply` and `WriteSnapshot` append for an edit. */
  method AppendEdit(writer: WalWriter, e: Edit) returns (ghost record: Entry)
    modifies writer
    ensures writer.file == old(writer.file) + Frame(record) && record == RecordOf(record.value)
    ensures EditFits(e) ==> Encodes(record.value, EraseEdit(e))
    ensures |record.value| == EditSize(e)
  {
    hide Encodes, EditFits, EraseEdit, Frame, EditSize;
    var bytes := EncodeTo(e);
    writer.AppendRecord(RecordOf(bytes));
    record := RecordOf(bytes);
  }

  /** One turn of the replay loop: counters, deletions level by level, additions.  A file for a level
      that does not exist is left out. */
  method ReplayRecord(r: Replay, e: Edit) returns (r': Replay)
    ensures r' == ReplayStep(r, e)
  {
    hide Retained, AddedAt, MaxNumber;
    var maxFile, maxSeq, logNumber := r.maxFile, r.maxSeq, r.logNumber;
    if e.nextFile.Some? && e.nextFile.value > maxFile { maxFile := e.nextFile.value; }
    if e.lastSeq.Some? && e.lastSeq.value > maxSeq { maxSeq := e.lastSeq.value; }
    if e.logNumber.Some? { logNumber := e.logNumber.value; }
    var raw := RetainLevels(r.raw, e.deleted);
    var raw', maxFile' := AddFiles(raw, maxFile, e.added);
    assert raw' == RawApply(r.raw, e);
    return Replay(raw', maxFile', maxSeq, logNumber);
  }

  /** `VersionSet::Recover` from the manifest's bytes.  A record that is no edit is a Corruption. */
  method Recover(file: Bytes) returns (r: Option<VersionSet>, ghost edits: seq<Edit>)
    ensures r.Some? ==> Holds(ReadAll(file).0, edits) && r.value == Recovered(edits)
    ensures r.None? ==> forall es :: !Holds(ReadAll(file).0, es)
  {
    hide Encodes, ReplayStep, SortFiles, ReadNext, Recovered;
    var reader := new WalReader(file);
    assert file[0..] == file;
    var replay := Replay(EMPTY_VERSION, 0, 0, 0);
    edits := [];
    ghost var done: seq<Entry> := [];
    ReplayNothing();
    while true
      invariant reader.Ok() && reader.file == file
      invariant done + ReadAll(file[reader.position..]).0 == ReadAll(file).0
      invariant Holds(done, edits) && replay == ReplayAll(edits)
      decreases |file| - reader.position
    {
      ghost var before := reader.position;
      var record := reader.ReadRecord(true);
      if !record.Record? { break; }
      TakenSize(file[before..]);
      assert file[before..][record.size..] == file[reader.position..];
      var e := DecodeFrom(record.entry.value);
      ghost var all := ReadAll(file).0;
      assert all[|done|] == record.entry;
      if e.None? { return None, edits; }
      replay := ReplayRecord(replay, e.value);
      assert (edits + [e.value])[..|edits|] == edits;
      done, edits := done + [record.entry], edits + [e.value];
    }
    assert done == ReadAll(file).0;
    var v := SortAll(replay.raw);
    r := Some(VersionSet(v, if replay.maxFile > 0 then replay.maxFile else 2, replay.maxSeq, replay.logNumber, false));
    RecoveredIs(edits, v);
  }

  lemma {:induction false} ReplayNothing()
    ensures ReplayAll([]) == Replay(EMPTY_VERSION, 0, 0, 0)
  {
  }

  lemma {:induction false} RecoveredIs(edits: seq<Edit>, v: Version)
    requires v == SortLevels(ReplayAll(edits).raw)
    ensures var r := ReplayAll(edits);
            Recovered(edits) == VersionSet(v, if r.maxFile > 0 then r.maxFile else 2, r.maxSeq, r.logNumber, false)
  {
    hide SortFiles, ReplayAll;
  }

  /** A manifest cut off after any number of bytes recovers as the edits whose records are complete. */
  method RecoverTorn(records: seq<Entry>, ghost edits: seq<Edit>, n: nat) returns (r: Option<VersionSet>)
    requires AllReadable(records) && Holds(records, edits) && n <= |Frames(records)|
    ensures r == Some(Recovered(edits[..Complete(records, n)]))
  {
    hide Encodes, Recovered, Readable, Frames, Complete, ReadAll;
    ghost var es;
    TornTail(records, n);
    ghost var k := Complete(records, n);
    assert Holds(records[..k], edits[..k]);
    r, es := Recover(Frames(records)[..n]);
    if r.Some? { HoldsOne(records[..k], edits[..k], es); }
  }

  lemma {:induction false} HoldsOne(records: seq<Entry>, es: seq<Edit>, es': seq<Edit>)
    requires Holds(records, es) && Holds(records, es')
    ensures es == es'
  {
    hide Encodes;
    forall i | 0 <= i < |es| ensures es[i] == es'[i] { EncodesOne(records[i].value, es[i], es'[i]); }
  }
}
