/** The write-ahead log: one checksummed frame per write. */
module Wal {
  import opened Keys
  import opened Entries
  import opened Coding
  import opened Checksums
  import opened Records

  function Payload(e: Entry): Bytes {
    [e.kind] + (Fixed(e.seqno, 8) + (Sized(e.key) + Sized(e.value)))
  }

  function Header(payload: Bytes): Bytes {
    Fixed(Crc(payload, 0), 4) + Fixed(|payload|, 4)
  }

  function Frame(e: Entry): Bytes {
    Header(Payload(e)) + Payload(e)
  }

  function Frames(es: seq<Entry>): Bytes {
    if es == [] then [] else Frame(es[0]) + Frames(es[1..])
  }

  /** `ReadRecord`: a record and the bytes it took, a clean end, or a damaged log. */
  datatype ReadResult = Record(entry: Entry, size: nat) | NotFound | Corruption

  function ParsePayload(p: Bytes): Option<Entry> {
    if |p| < 17 then None
    else
      var klen := Value(p[9..13]);
      if |p| < 17 + klen then None
      else
        var vlen := Value(p[13 + klen..17 + klen]);
        if |p| < 17 + klen + vlen then None
        else Some(Entry(p[13..13 + klen], Value(p[1..9]), p[0], p[17 + klen..17 + klen + vlen]))
  }

  /** Reading from what is left of the file.  With `partialOk`, damage that reaches the end of the
      file counts as the end. */
  function ReadNext(rest: Bytes, partialOk: bool): ReadResult {
    var atEnd := if partialOk then NotFound else Corruption;
    if rest == [] then NotFound
    else if |rest| < 8 then atEnd
    else
      var crc, length := Value(rest[..4]), Value(rest[4..8]);
      if length > MAX_RECORD then (if 8 + length > |rest| then atEnd else Corruption)
      else if |rest| - 8 < length then atEnd
      else
        var payload := rest[8..8 + length];
        if Crc(payload, 0) != crc then (if 8 + length >= |rest| then atEnd else Corruption)
        else
          match ParsePayload(payload)
          case None => Corruption
          case Some(e) => Record(e, 8 + length)
  }

  /** All records up to the first result that is not one. */
  function ReadAll(rest: Bytes): (seq<Entry>, ReadResult)
    decreases |rest|
  {
    match ReadNext(rest, true)
    case Record(e, n) => var (es, end) := ReadAll(rest[n..]); ([e] + es, end)
    case NotFound => ([], NotFound)
    case Corruption => ([], Corruption)
  }

  // ---- One frame ----

  lemma {:induction false} PayloadParts(e: Entry)
    ensures var p, k, v := Payload(e), |e.key|, |e.value|;
            && |p| == 17 + k + v && p[0] == e.kind && p[1..9] == Fixed(e.seqno, 8)
            && p[9..13] == Fixed(k, 4) && p[13..13 + k] == e.key
            && p[13 + k..17 + k] == Fixed(v, 4) && p[17 + k..17 + k + v] == e.value
  {
    hide Fixed;
  }

  lemma {:induction false} PayloadRoundTrip(e: Entry)
    requires Writable(e)
    ensures ParsePayload(Payload(e)) == Some(e)
  {
    hide Fixed, Value, Pow256, Payload;
    PayloadParts(e);
    Widths();
    FixedRoundTrip(e.seqno, 8);
    FixedRoundTrip(|e.key|, 4);
    FixedRoundTrip(|e.value|, 4);
  }

  /** Where everything is in a frame: checksum, length, kind, sequence number, key and value behind their
      lengths, all numbers least significant byte first. */
  lemma {:induction false} FrameLayout(e: Entry)
    ensures var f, k, v := Frame(e), |e.key|, |e.value|;
            && |f| == 25 + k + v
            && (forall i :: 0 <= i < 4 ==> f[i] == Crc(f[8..], 0) / Pow256(i) % 256)
            && (forall i :: 0 <= i < 4 ==> f[4 + i] == (17 + k + v) / Pow256(i) % 256)
            && f[8] == e.kind && (e.kind == DELETION ==> f[8] == 0) && (e.kind == VALUE ==> f[8] == 1)
            && (forall i :: 0 <= i < 8 ==> f[9 + i] == e.seqno / Pow256(i) % 256)
            && (forall i :: 0 <= i < 4 ==> f[17 + i] == k / Pow256(i) % 256)
            && f[21..21 + k] == e.key
            && (forall i :: 0 <= i < 4 ==> f[21 + k + i] == v / Pow256(i) % 256)
            && f[25 + k..] == e.value
  {
    hide Fixed, Crc, Pow256, Payload;
    var f, p, k, v := Frame(e), Payload(e), |e.key|, |e.value|;
    PayloadParts(e);
    assert f[8..] == p && f[..4] == Fixed(Crc(p, 0), 4) && f[4..8] == Fixed(17 + k + v, 4);
    forall i | 0 <= i < 4
      ensures f[i] == Crc(p, 0) / Pow256(i) % 256 && f[4 + i] == (17 + k + v) / Pow256(i) % 256
    {
      FixedByte(Crc(p, 0), 4, i);
      FixedByte(17 + k + v, 4, i);
      assert f[i] == f[..4][i] && f[4 + i] == f[4..8][i];
    }
    assert f[9..17] == p[1..9] && f[17..21] == p[9..13] && f[21 + k..25 + k] == p[13 + k..17 + k];
    forall i | 0 <= i < 8 ensures f[9 + i] == e.seqno / Pow256(i) % 256 {
      FixedByte(e.seqno, 8, i);
      assert f[9 + i] == f[9..17][i];
    }
    forall i | 0 <= i < 4 ensures f[17 + i] == k / Pow256(i) % 256 && f[21 + k + i] == v / Pow256(i) % 256 {
      FixedByte(k, 4, i);
      FixedByte(v, 4, i);
      assert f[17 + i] == f[17..21][i] && f[21 + k + i] == f[21 + k..25 + k][i];
    }
  }

  lemma {:induction false} CrcFits(payload: Bytes)
    ensures Value(Fixed(Crc(payload, 0), 4)) == Crc(payload, 0)
  {
    hide Fixed, Value, Crc;
    CrcBound(payload, 0);
    FixedRoundTrip(Crc(payload, 0), 4);
  }

  /** How a header with any checksum field, a length and a payload of that length is read. */
  lemma {:induction false} ReadFrame(crc: Bytes, payload: Bytes, r: Bytes, partialOk: bool)
    requires |crc| == 4 && |payload| <= MAX_RECORD
    ensures ReadNext(crc + Fixed(|payload|, 4) + payload + r, partialOk) ==
            if Crc(payload, 0) != Value(crc) then (if r == [] && partialOk then NotFound else Corruption)
            else match ParsePayload(payload) case None => Corruption case Some(e) => Record(e, 8 + |payload|)
  {
    hide Fixed, Value, Crc, ParsePayload;
    var rest := crc + Fixed(|payload|, 4) + payload + r;
    assert rest[..4] == crc && rest[4..8] == Fixed(|payload|, 4) && rest[8..8 + |payload|] == payload;
    LengthFits(|payload|);
  }

  lemma {:induction false} LengthFits(n: nat)
    requires n <= MAX_RECORD
    ensures Value(Fixed(n, 4)) == n
  {
    hide Fixed, Value, Pow256;
    Widths();
    FixedRoundTrip(n, 4);
  }

  /** A written frame is read back, whatever follows it. */
  lemma {:induction false} FrameRoundTrip(e: Entry, r: Bytes, partialOk: bool)
    requires Readable(e)
    ensures ReadNext(Frame(e) + r, partialOk) == Record(e, |Frame(e)|)
  {
    hide Fixed, Value, Crc, ParsePayload, Payload, ReadNext;
    CrcFits(Payload(e));
    PayloadParts(e);
    PayloadRoundTrip(e);
    ReadFrame(Fixed(Crc(Payload(e), 0), 4), Payload(e), r, partialOk);
  }

  /** The writer accepts records that the reader refuses.  Such a frame ends the reading, whatever
      follows it. */
  lemma {:induction false} OversizedStops(e: Entry, r: Bytes, partialOk: bool)
    requires Writable(e) && !Readable(e)
    ensures ReadNext(Frame(e) + r, partialOk) == Corruption
  {
    hide Fixed, Value, Crc, ParsePayload, Payload, Pow256;
    PayloadParts(e);
    Widths();
    var rest := Frame(e) + r;
    assert rest[4..8] == Fixed(|Payload(e)|, 4);
    FixedRoundTrip(|Payload(e)|, 4);
  }

  /** A frame cut short anywhere reads as the end of the log, or is reported if partial records are not
      accepted. */
  lemma {:induction false} TornFrame(e: Entry, n: nat, partialOk: bool)
    requires Readable(e) && n < |Frame(e)|
    ensures ReadNext(Frame(e)[..n], partialOk) == if n == 0 || partialOk then NotFound else Corruption
  {
    hide Fixed, Value, Crc, ParsePayload, Payload;
    var rest := Frame(e)[..n];
    if n >= 8 {
      assert rest[4..8] == Fixed(|Payload(e)|, 4);
      PayloadParts(e);
      LengthFits(|Payload(e)|);
    }
  }

  // ---- Whole logs ----

  /** How many frames lie completely within the first `n` bytes. */
  function Complete(es: seq<Entry>, n: nat): (k: nat)
    ensures k <= |es|
  {
    if es == [] || |Frame(es[0])| > n then 0 else 1 + Complete(es[1..], n - |Frame(es[0])|)
  }

  lemma {:induction false} CompleteIsMost(es: seq<Entry>, n: nat, k: nat)
    requires k <= |es|
    ensures |Frames(es[..k])| <= n <==> k <= Complete(es, n)
  {
    hide Frame;
    if es != [] && k > 0 {
      assert es[..k][1..] == es[1..][..k - 1];
      if |Frame(es[0])| <= n {
        CompleteIsMost(es[1..], n - |Frame(es[0])|, k - 1);
      }
    }
  }

  /** Record `i` of a written log comes back exactly when no record up to it is too large. */
  lemma {:induction false} ReadBackIff(es: seq<Entry>, i: nat)
    requires i < |es| && forall e :: e in es ==> Writable(e)
    ensures var back := ReadAll(Frames(es)).0;
            && back <= es
            && (i < |back| <==> forall j :: 0 <= j <= i ==> 17 + |es[j].key| + |es[j].value| <= 67108864)
  {
    hide Frame, ReadNext, Frames, ReadAll;
    ReplayIsReadBack(es);
    KeptIff(es, i);
    assert forall j :: 0 <= j < |es| ==> es[j] in es;
  }

  /** Replay of any written log gives the records before the first that is too large. */
  lemma {:induction false} ReplayIsReadBack(es: seq<Entry>)
    requires forall e :: e in es ==> Writable(e)
    ensures ReadAll(Frames(es)).0 == ReadBack(es)
  {
    hide Frame, ReadNext, Readable, Writable;
    if es == [] {
      ReadNothing();
    } else {
      var f, more := Frame(es[0]), Frames(es[1..]);
      if Readable(es[0]) {
        FrameRoundTrip(es[0], more, true);
        assert (f + more)[|f|..] == more;
        FrameNonEmpty(es[0]);
        ReplayIsReadBack(es[1..]);
        assert ReadBack(es) == [es[0]] + ReadBack(es[1..]);
      } else {
        OversizedStops(es[0], more, true);
      }
    }
  }

  /** A put of a 64 MB value: it and everything behind it is gone after replay. */
  lemma {:induction false} OversizedExample(e: Entry, before: seq<Entry>, after: seq<Entry>)
    requires e == Entry([], 1, VALUE, seq(MAX_RECORD, _ => 0))
    requires AllReadable(before) && forall e :: e in after ==> Writable(e)
    ensures Writable(e) && ReadAll(Frames(before + [e] + after)).0 == before
  {
    hide Frames, ReadAll;
    var es := before + [e] + after;
    ReplayIsReadBack(es);
    OversizedEnds(before, e, after);
  }

  /** A log cut off after any number of bytes reads as the records whose frames are complete and
      then a clean end: never damage, never a record that was not written. */
  lemma {:induction false} TornTail(es: seq<Entry>, n: nat)
    requires AllReadable(es) && n <= |Frames(es)|
    ensures ReadAll(Frames(es)[..n]) == (es[..Complete(es, n)], NotFound)
  {
    hide Frame, ReadNext, Readable;
    var rest := Frames(es)[..n];
    if es == [] {
      ReadNothing();
    } else {
      var f := Frame(es[0]);
      if |f| > n {
        assert rest == f[..n];
        TornFrame(es[0], n, true);
      } else {
        var more := Frames(es[1..])[..n - |f|];
        assert rest == f + more;
        FrameRoundTrip(es[0], more, true);
        assert rest[|f|..] == more;
        TornTail(es[1..], n - |f|);
        FrameNonEmpty(es[0]);
        assert es[..Complete(es, n)] == [es[0]] + es[1..][..Complete(es, n) - 1];
      }
    }
  }

  lemma {:induction false} FrameNonEmpty(e: Entry)
    ensures |Frame(e)| == 8 + |Payload(e)|
  {
    hide Payload, Crc, Fixed;
  }

  lemma {:induction false} ReadNothing()
    ensures ReadNext([], true) == NotFound
  {
  }

  /** A log that was written to its end reads back whole. */
  lemma {:induction false} WholeLog(es: seq<Entry>)
    requires AllReadable(es)
    ensures ReadAll(Frames(es)) == (es, NotFound)
  {
    hide Frame, ReadNext, Readable, ReadAll;
    TornTail(es, |Frames(es)|);
    assert es[..|es|] == es && Frames(es)[..|Frames(es)|] == Frames(es);
    CompleteIsMost(es, |Frames(es)|, |es|);
  }

  /** A crash while the last record is being appended: the log reads as before it, or with it. */
  lemma {:induction false} TornAppend(log: seq<Entry>, e: Entry, n: nat)
    requires AllReadable(log + [e]) && |Frames(log)| <= n <= |Frames(log + [e])|
    ensures ReadAll(Frames(log + [e])[..n]) == (if n == |Frames(log + [e])| then log + [e] else log, NotFound)
  {
    hide Frame, ReadNext, Readable, ReadAll;
    var es := log + [e];
    TornTail(es, n);
    assert es[..|log|] == log && es[..|es|] == es;
    CompleteIsMost(es, n, |log|);
    CompleteIsMost(es, n, |es|);
  }

  // ---- Damage ----

  /** `bad` is the frame of `e` with its checksum field changed, or with its payload changed within
      four adjacent bytes. */
  ghost predicate Damaged(e: Entry, bad: Bytes) {
    var p := Payload(e);
    || (exists crc: Bytes :: |crc| == 4 && crc != Fixed(Crc(p, 0), 4) && bad == crc + Fixed(|p|, 4) + p)
    || exists pre: Bytes, a: Bytes, b: Bytes, post: Bytes ::
         |a| == |b| <= 4 && a != b && p == pre + a + post && bad == Header(p) + (pre + b + post)
  }

  /** Such a frame is never read as a record: in the middle of a log it is reported, at the end it
      counts as a torn write. */
  lemma {:induction false} DamageFound(e: Entry, bad: Bytes, r: Bytes)
    requires Readable(e) && Damaged(e, bad)
    ensures ReadNext(bad + r, true) == if r == [] then NotFound else Corruption
  {
    hide Fixed, Value, Crc, ParsePayload, Payload, ReadNext;
    var p := Payload(e);
    PayloadParts(e);
    if crc: Bytes :| |crc| == 4 && crc != Fixed(Crc(p, 0), 4) && bad == crc + Fixed(|p|, 4) + p {
      ReadFrame(crc, p, r, true);
      CrcFits(p);
      if Value(crc) == Crc(p, 0) { ValueInjective(crc, Fixed(Crc(p, 0), 4)); }
    } else {
      var pre: Bytes, a: Bytes, b: Bytes, post: Bytes :|
        |a| == |b| <= 4 && a != b && p == pre + a + post && bad == Header(p) + (pre + b + post);
      var p' := pre + b + post;
      CrcSeparates(pre, a, b, post, 0);
      CrcFits(p);
      ReadFrame(Fixed(Crc(p, 0), 4), p', r, true);
    }
  }

  /** In a log with one damaged frame that is not the last, the records before it are read and then
      the damage is reported; when it is the last, the log ends before it. */
  lemma {:induction false} DamageStops(es: seq<Entry>, e: Entry, bad: Bytes, r: Bytes)
    requires AllReadable(es) && Readable(e) && Damaged(e, bad)
    ensures ReadAll(Frames(es) + (bad + r)) == (es, if r == [] then NotFound else Corruption)
  {
    hide Frame, ReadNext, Readable, Damaged;
    if es == [] {
      assert Frames(es) + (bad + r) == bad + r;
      DamageFound(e, bad, r);
    } else {
      var rest := Frames(es[1..]) + (bad + r);
      assert Frames(es) + (bad + r) == Frame(es[0]) + rest;
      FrameRoundTrip(es[0], rest, true);
      FrameNonEmpty(es[0]);
      assert (Frame(es[0]) + rest)[|Frame(es[0])|..] == rest;
      DamageStops(es[1..], e, bad, r);
      assert ReadAll(Frame(es[0]) + rest) == ([es[0]] + ReadAll(rest).0, ReadAll(rest).1);
      assert es == [es[0]] + es[1..];
    }
  }

  // ---- The writer and the reader as objects ----

  class WalWriter {
    var file: Bytes

    constructor (file: Bytes)
      ensures this.file == file
    {
      this.file := file;
    }

    /** `AppendRecord`: header, then payload. */
    method AppendRecord(e: Entry)
      modifies this
      ensures file == old(file) + Frame(e)
    {
      hide Fixed, Crc;
      var payload := [e.kind];
      payload := payload + Fixed(e.seqno, 8);
      payload := payload + Fixed(|e.key|, 4);
      payload := payload + e.key;
      payload := payload + Fixed(|e.value|, 4);
      payload := payload + e.value;
      assert payload == Payload(e);
      var crc := Crc32(payload, 0);
      var header := Fixed(crc, 4) + Fixed(|payload|, 4);
      file := file + header;
      file := file + payload;
    }
  }

  class WalReader {
    const file: Bytes
    var position: nat

    ghost predicate Ok()
      reads this
    {
      position <= |file|
    }

    constructor (file: Bytes)
      ensures this.file == file && position == 0
    {
      this.file := file;
      position := 0;
    }

    /** `ReadRecord`. */
    method ReadRecord(partialOk: bool) returns (r: ReadResult)
      requires Ok()
      modifies this
      ensures Ok() && r == ReadNext(old(file[position..]), partialOk)
      ensures r.Record? ==> position == old(position) + r.size
    {
      hide Fixed, Value, Crc, ParsePayload;
      ghost var rest := file[position..];
      if |file| - position < 8 {
        var empty := position == |file|;
        position := |file|;
        return if empty || partialOk then NotFound else Corruption;
      }
      var header := file[position..position + 8];
      assert header == rest[..8] && header[..4] == rest[..4] && header[4..8] == rest[4..8];
      position := position + 8;
      var expected, length := Value(header[..4]), Value(header[4..8]);
      if length > MAX_RECORD {
        return if partialOk && position + length > |file| then NotFound else Corruption;
      }
      if |file| - position < length {
        position := |file|;
        return if partialOk then NotFound else Corruption;
      }
      var payload := file[position..position + length];
      assert payload == rest[8..8 + length];
      position := position + length;
      var actual := Crc32(payload, 0);
      if actual != expected {
        return if partialOk && position >= |file| then NotFound else Corruption;
      }
      var e := ParsePayload(payload);
      return if e.None? then Corruption else Record(e.value, 8 + length);
    }

    /** The replay loop of recovery: records until something else comes. */
    method Replay() returns (es: seq<Entry>)
      requires Ok()
      modifies this
      ensures es == ReadAll(old(file[position..])).0
    {
      hide ReadNext;
      es := [];
      while true
        invariant Ok() && es + ReadAll(file[position..]).0 == ReadAll(old(file[position..])).0
        decreases |file| - position
      {
        ghost var before := position;
        var r := ReadRecord(true);
        if !r.Record? { return; }
        TakenSize(file[before..]);
        assert file[before..][r.size..] == file[position..];
        es := es + [r.entry];
      }
    }
  }

  lemma {:induction false} TakenSize(rest: Bytes)
    ensures var r := ReadNext(rest, true); r.Record? ==> 8 <= r.size <= |rest|
  {
    hide Fixed, Value, Crc, ParsePayload;
  }
}
