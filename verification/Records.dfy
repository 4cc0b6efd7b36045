/** How large a log record may be, and what replay makes of one that is larger. */
module Records {
  import opened Entries

  /** The largest payload a reader accepts: 64 MB. */
  const MAX_RECORD: nat := 64 * 1024 * 1024

  /** The first sequence number that eight bytes cannot hold. */
  const SEQNO_END: nat := 0x1_0000_0000_0000_0000

  /** The bytes of a record's payload: kind, sequence number, two lengths, key and value. */
  function RecordSize(e: Entry): nat {
    17 + |e.key| + |e.value|
  }

  /** What the writer can store; it does not check. */
  predicate Writable(e: Entry) {
    e.seqno < SEQNO_END && RecordSize(e) < 0x1_0000_0000
  }

  /** What the reader takes back. */
  predicate Readable(e: Entry) {
    e.seqno < SEQNO_END && RecordSize(e) <= MAX_RECORD
  }

  predicate AllReadable(es: seq<Entry>) {
    forall i :: 0 <= i < |es| ==> Readable(es[i])
  }

  /** How many records come before the first that the reader refuses. */
  function Kept(es: seq<Entry>): (k: nat)
    ensures k <= |es|
  {
    if es == [] || !Readable(es[0]) then 0 else 1 + Kept(es[1..])
  }

  /** What replaying a log of these records yields. */
  function ReadBack(es: seq<Entry>): seq<Entry> {
    es[..Kept(es)]
  }

  /** Replay reaches a record exactly when no record up to it is refused. */
  lemma {:induction false} KeptIff(es: seq<Entry>, i: nat)
    requires i < |es|
    ensures i < Kept(es) <==> forall j :: 0 <= j <= i ==> Readable(es[j])
  {
    hide Readable;
    if i > 0 && Readable(es[0]) {
      KeptIff(es[1..], i - 1);
      assert forall j :: 1 <= j <= i ==> es[j] == es[1..][j - 1];
      assert forall j :: 0 <= j <= i - 1 ==> es[1..][j] == es[j + 1];
    }
  }

  lemma {:induction false} AllKept(es: seq<Entry>)
    requires AllReadable(es)
    ensures ReadBack(es) == es
  {
    hide Readable;
    if es != [] {
      KeptIff(es, |es| - 1);
    }
  }

  /** A record that is refused ends what is read back. */
  lemma {:induction false} OversizedEnds(before: seq<Entry>, e: Entry, after: seq<Entry>)
    requires AllReadable(before) && !Readable(e)
    ensures ReadBack(before + [e] + after) == before
  {
    hide Readable;
    var es := before + [e] + after;
    KeptIff(es, |before|);
    assert es[|before|] == e;
    assert Kept(es) <= |before|;
    if before != [] {
      assert forall j :: 0 <= j <= |before| - 1 ==> es[j] == before[j];
      KeptIff(es, |before| - 1);
    }
    assert es[..|before|] == before;
  }
}
