/** Version edits as bytes: a list of tagged fields. */
module EditCodec {
  import opened Keys
  import opened Entries
  import opened Coding
  import opened Versions
  import opened Edits
  import opened Manifest

  /** One tagged field, with the tag it is written under. */
  datatype Field =
    | Comparator(name: Bytes)              // 1
    | LogNumber(log: nat)                  // 2
    | NextFile(next: nat)                  // 3
    | LastSequence(seqno: nat)             // 4
    | DeletedFile(dlevel: nat, dnumber: nat)  // 5
    | NewFile(level: nat, file: File)      // 6

  function FileBytes(level: nat, f: File): Bytes {
    Fixed(level, 4) + (Fixed(f.number, 8) + (Fixed(f.size, 8) + (Sized(f.smallest) + Sized(f.largest))))
  }

  function FieldBytes(f: Field): Bytes {
    match f
    case Comparator(name) => [1] + Sized(name)
    case LogNumber(n) => [2] + Fixed(n, 8)
    case NextFile(n) => [3] + Fixed(n, 8)
    case LastSequence(n) => [4] + Fixed(n, 8)
    case DeletedFile(l, n) => [5] + (Fixed(l, 4) + Fixed(n, 8))
    case NewFile(l, file) => [6] + FileBytes(l, file)
  }

  /** Integers and lengths fit their widths, and a file carries no reader. */
  predicate Fits(f: Field) {
    match f
    case Comparator(name) => |name| < Pow256(4)
    case LogNumber(n) => n < Pow256(8)
    case NextFile(n) => n < Pow256(8)
    case LastSequence(n) => n < Pow256(8)
    case DeletedFile(l, n) => l < Pow256(4) && n < Pow256(8)
    case NewFile(l, file) =>
      && l < Pow256(4) && file.number < Pow256(8) && file.size < Pow256(8)
      && |file.smallest| < Pow256(4) && |file.largest| < Pow256(4) && file.reader == None
  }

  /** Reads one file description; `None` is a Corruption. */
  function TakeFile(b: Bytes): Option<(Field, Bytes)> {
    if |b| < 20 then None
    else
      match TakeSized(b[20..])
      case None => None
      case Some((smallest, b1)) =>
        match TakeSized(b1)
        case None => None
        case Some((largest, b2)) =>
          Some((NewFile(Value(b[..4]), File(Value(b[4..12]), Value(b[12..20]), smallest, largest, None)), b2))
  }

  /** Reads one field of a non-empty input; `None` is a Corruption. */
  function TakeField(b: Bytes): Option<(Field, Bytes)>
    requires b != []
  {
    var tag, input := b[0], b[1..];
    if tag == 1 then
      match TakeSized(input) case None => None case Some((name, r)) => Some((Comparator(name), r))
    else if tag == 2 then
      match TakeFixed(8, input) case None => None case Some((n, r)) => Some((LogNumber(n), r))
    else if tag == 3 then
      match TakeFixed(8, input) case None => None case Some((n, r)) => Some((NextFile(n), r))
    else if tag == 4 then
      match TakeFixed(8, input) case None => None case Some((n, r)) => Some((LastSequence(n), r))
    else if tag == 5 then
      if |input| < 12 then None else Some((DeletedFile(Value(input[..4]), Value(input[4..12])), input[12..]))
    else if tag == 6 then TakeFile(input)
    else None
  }

  /** `TakeFile` as a chain of reads. */
  lemma {:induction false} TakeFileChain(l: nat, f: File, r: Bytes)
    requires Fits(NewFile(l, f))
    ensures TakeFile(FileBytes(l, f) + r) == Some((NewFile(l, f), r))
  {
    hide Fixed, Value, Pow256, TakeSized, Sized;
    var a, b, c := Fixed(l, 4), Fixed(f.number, 8), Fixed(f.size, 8);
    var tail := Sized(f.smallest) + (Sized(f.largest) + r);
    var all := FileBytes(l, f) + r;
    assert all == a + (b + (c + tail));
    assert all[..4] == a && all[4..12] == b && all[12..20] == c && all[20..] == tail;
    FixedRoundTrip(l, 4);
    FixedRoundTrip(f.number, 8);
    FixedRoundTrip(f.size, 8);
    TakeSizedRoundTrip(f.smallest, Sized(f.largest) + r);
    TakeSizedRoundTrip(f.largest, r);
  }

  /** Reading a written field gives it back and leaves the rest. */
  lemma {:induction false} FieldRoundTrip(f: Field, r: Bytes)
    requires Fits(f)
    ensures TakeField(FieldBytes(f) + r) == Some((f, r))
  {
    hide Fixed, Value, Pow256, TakeSized, TakeFixed, Sized, TakeFile, FileBytes;
    var all := FieldBytes(f) + r;
    match f {
      case Comparator(name) => assert all[1..] == Sized(name) + r; TakeSizedRoundTrip(name, r);
      case LogNumber(n) => assert all[1..] == Fixed(n, 8) + r; TakeFixedRoundTrip(n, 8, r);
      case NextFile(n) => assert all[1..] == Fixed(n, 8) + r; TakeFixedRoundTrip(n, 8, r);
      case LastSequence(n) => assert all[1..] == Fixed(n, 8) + r; TakeFixedRoundTrip(n, 8, r);
      case DeletedFile(l, n) => DeletedRoundTrip(l, n, r);
      case NewFile(l, file) => assert all[1..] == FileBytes(l, file) + r; TakeFileChain(l, file, r);
    }
  }

  lemma {:induction false} DeletedRoundTrip(l: nat, n: nat, r: Bytes)
    requires Fits(DeletedFile(l, n))
    ensures TakeField(FieldBytes(DeletedFile(l, n)) + r) == Some((DeletedFile(l, n), r))
  {
    hide Fixed, Value, Pow256;
    var input := (FieldBytes(DeletedFile(l, n)) + r)[1..];
    assert input[..4] == Fixed(l, 4) && input[4..12] == Fixed(n, 8) && input[12..] == r;
    FixedRoundTrip(l, 4);
    FixedRoundTrip(n, 8);
  }

  lemma {:induction false} TakeFileExact(b: Bytes)
    requires TakeFile(b).Some?
    ensures var (f, r) := TakeFile(b).value; f.NewFile? && Fits(f) && b == FileBytes(f.level, f.file) + r
  {
    hide Fixed, Value, Pow256, TakeSized, Sized;
    var (f, r) := TakeFile(b).value;
    TakeSizedExact(b[20..]);
    TakeSizedExact(TakeSized(b[20..]).value.1);
    ValueRoundTrip(b[..4]);
    ValueRoundTrip(b[4..12]);
    ValueRoundTrip(b[12..20]);
    ValueBound(b[..4]);
    ValueBound(b[4..12]);
    ValueBound(b[12..20]);
    assert b == b[..4] + (b[4..12] + (b[12..20] + b[20..]));
    assert b[20..] == Sized(f.file.smallest) + (Sized(f.file.largest) + r);
    assert FileBytes(f.level, f.file) + r == b[..4] +
           (b[4..12] + (b[12..20] + (Sized(f.file.smallest) + (Sized(f.file.largest) + r))));
  }

  /** A field that is read is the one whose encoding was there. */
  lemma {:induction false} TakeFieldExact(b: Bytes)
    requires b != [] && TakeField(b).Some?
    ensures var (f, r) := TakeField(b).value; Fits(f) && b == FieldBytes(f) + r && |r| < |b|
  {
    hide Fixed, Value, Pow256, TakeSized, TakeFixed, Sized, TakeFile, FileBytes;
    var input := b[1..];
    assert b == [b[0]] + input;
    if b[0] == 1 { TakeSizedExact(input); }
    else if b[0] == 2 || b[0] == 3 || b[0] == 4 { TakeFixedExact(8, input); }
    else if b[0] == 5 { DeletedExact(b); }
    else { TakeFileExact(input); }
  }

  lemma {:induction false} DeletedExact(b: Bytes)
    requires b != [] && b[0] == 5 && TakeField(b).Some?
    ensures var (f, r) := TakeField(b).value; Fits(f) && b == FieldBytes(f) + r && |r| < |b|
  {
    hide Fixed, Value, Pow256;
    var input := b[1..];
    ValueRoundTrip(input[..4]);
    ValueRoundTrip(input[4..12]);
    ValueBound(input[..4]);
    ValueBound(input[4..12]);
    assert b == [b[0]] + (input[..4] + (input[4..12] + input[12..]));
  }

  // ---- Whole edits ----

  function FieldsBytes(fs: seq<Field>): Bytes {
    if fs == [] then [] else FieldBytes(fs[0]) + FieldsBytes(fs[1..])
  }

  predicate AllFit(fs: seq<Field>) {
    forall i :: 0 <= i < |fs| ==> Fits(fs[i])
  }

  function WithField(e: Edit, f: Field): Edit {
    match f
    case Comparator(name) => e.(comparator := Some(name))
    case LogNumber(n) => e.(logNumber := Some(n))
    case NextFile(n) => e.(nextFile := Some(n))
    case LastSequence(n) => e.(lastSeq := Some(n))
    case DeletedFile(l, n) => e.(deleted := e.deleted + {(l, n)})
    case NewFile(l, file) => e.(added := e.added + [(l, file)])
  }

  function WithFields(e: Edit, fs: seq<Field>): Edit
    decreases |fs|
  {
    if fs == [] then e else WithFields(WithField(e, fs[0]), fs[1..])
  }

  lemma {:induction false} WithFieldsConcat(e: Edit, fs: seq<Field>, gs: seq<Field>)
    ensures WithFields(e, fs + gs) == WithFields(WithFields(e, fs), gs)
    ensures FieldsBytes(fs + gs) == FieldsBytes(fs) + FieldsBytes(gs)
    decreases |fs|
  {
    hide WithField, FieldBytes;
    if fs == [] {
      assert fs + gs == gs;
    } else {
      WithFieldsConcat(WithField(e, fs[0]), fs[1..], gs);
      assert (fs + gs)[1..] == fs[1..] + gs;
    }
  }

  /** `bytes` is a list of fields, and `e` what they add up to. */
  ghost predicate Encodes(bytes: Bytes, e: Edit) {
    exists fs :: AllFit(fs) && FieldsBytes(fs) == bytes && WithFields(EMPTY_EDIT, fs) == e
  }

  /** The fields of an input that continues after `done` are those that follow. */
  lemma {:induction false} Continues(fs: seq<Field>, done: seq<Field>, input: Bytes)
    requires AllFit(fs) && AllFit(done) && FieldsBytes(fs) == FieldsBytes(done) + input
    ensures |done| <= |fs| && fs[..|done|] == done && FieldsBytes(fs[|done|..]) == input
  {
    hide Fits, FieldBytes, TakeField;
    if done == [] {
      assert fs[0..] == fs;
    } else {
      SameFirst(fs, done, input);
      Continues(fs[1..], done[1..], input);
      assert fs[|done|..] == fs[1..][|done| - 1..];
      assert fs[..|done|] == [fs[0]] + fs[1..][..|done| - 1];
    }
  }

  lemma {:induction false} SameFirst(fs: seq<Field>, done: seq<Field>, input: Bytes)
    requires AllFit(fs) && AllFit(done) && done != [] && FieldsBytes(fs) == FieldsBytes(done) + input
    ensures fs != [] && fs[0] == done[0] && FieldsBytes(fs[1..]) == FieldsBytes(done[1..]) + input
  {
    hide Fits, FieldBytes, TakeField;
    var more := FieldsBytes(done[1..]) + input;
    assert FieldsBytes(fs) == FieldBytes(done[0]) + more;
    NonEmpty(done[0]);
    FieldRoundTrip(done[0], more);
    FieldRoundTrip(fs[0], FieldsBytes(fs[1..]));
  }

  lemma {:induction false} NonEmpty(f: Field)
    ensures FieldBytes(f) != []
  {
    hide Fixed, Sized, FileBytes;
  }

  /** `DecodeFrom`: succeeds exactly on lists of fields, with the edit they add up to; anything else,
      truncated or with an unknown tag, is a Corruption. */
  method DecodeFrom(src: Bytes) returns (r: Option<Edit>)
    ensures r.Some? ==> Encodes(src, r.value)
    ensures r.None? ==> !exists e :: Encodes(src, e)
  {
    hide Fits, FieldBytes, TakeField, WithField;
    var edit, input := EMPTY_EDIT, src;
    ghost var done: seq<Field> := [];
    while input != []
      invariant AllFit(done) && src == FieldsBytes(done) + input && edit == WithFields(EMPTY_EDIT, done)
      decreases |input|
    {
      var field := TakeField(input);
      if field.None? {
        Stuck(src, done, input);
        return None;
      }
      TakeFieldExact(input);
      var (f, rest) := field.value;
      WithFieldsConcat(EMPTY_EDIT, done, [f]);
      One(WithFields(EMPTY_EDIT, done), f);
      assert src == FieldsBytes(done) + (FieldBytes(f) + rest) == FieldsBytes(done + [f]) + rest;
      edit, input, done := WithField(edit, f), rest, done + [f];
    }
    return Some(edit);
  }

  lemma {:induction false} One(e: Edit, f: Field)
    ensures WithFields(e, [f]) == WithField(e, f) && FieldsBytes([f]) == FieldBytes(f)
  {
    hide WithField, FieldBytes;
    assert FieldsBytes([f][1..]) == [];
    assert WithFields(WithField(e, f), [f][1..]) == WithField(e, f);
  }

  lemma {:induction false} Stuck(src: Bytes, done: seq<Field>, input: Bytes)
    requires AllFit(done) && src == FieldsBytes(done) + input && input != [] && TakeField(input).None?
    ensures !exists e :: Encodes(src, e)
  {
    hide Fits, FieldBytes, TakeField, WithField;
    forall fs | AllFit(fs) ensures FieldsBytes(fs) != src {
      if FieldsBytes(fs) == src {
        Continues(fs, done, input);
        var g := fs[|done|..];
        FieldRoundTrip(g[0], FieldsBytes(g[1..]));
      }
    }
  }

  /** No bytes stand for two edits. */
  lemma {:induction false} EncodesOne(b: Bytes, e: Edit, e': Edit)
    requires Encodes(b, e) && Encodes(b, e')
    ensures e == e'
  {
    hide Fits, FieldBytes, WithField;
    var fs :| AllFit(fs) && FieldsBytes(fs) == b && WithFields(EMPTY_EDIT, fs) == e;
    var gs :| AllFit(gs) && FieldsBytes(gs) == b && WithFields(EMPTY_EDIT, gs) == e';
    assert FieldsBytes(fs) == FieldsBytes(gs) + [];
    Continues(fs, gs, []);
    Continues(gs, fs, []);
    assert fs[..|gs|] == fs;
  }

  /** The widths an edit needs: 64-bit numbers, 32-bit levels and key lengths. */
  predicate EditFits(e: Edit) {
    && (e.comparator.Some? ==> |e.comparator.value| < Pow256(4))
    && (e.logNumber.Some? ==> e.logNumber.value < Pow256(8))
    && (e.nextFile.Some? ==> e.nextFile.value < Pow256(8))
    && (e.lastSeq.Some? ==> e.lastSeq.value < Pow256(8))
    && (forall d :: d in e.deleted ==> Fits(DeletedFile(d.0, d.1)))
    && forall a :: a in e.added ==> Fits(NewFile(a.0, Erase(a.1)))
  }

  // ---- Sizes ----

  /** The bytes of the optional fields, each written at most once. */
  function HeaderSize(e: Edit): nat {
    (if e.comparator.Some? then 5 + |e.comparator.value| else 0)
    + (if e.logNumber.Some? then 9 else 0)
    + (if e.nextFile.Some? then 9 else 0)
    + (if e.lastSeq.Some? then 9 else 0)
  }

  function AddedSize(added: seq<(nat, File)>): nat {
    if added == [] then 0
    else
      var f := added[|added| - 1].1;
      AddedSize(added[..|added| - 1]) + 29 + |f.smallest| + |f.largest|
  }

  /** How many bytes an edit takes: each optional field, each deleted file and each new file once. */
  function EditSize(e: Edit): nat {
    HeaderSize(e) + 13 * |e.deleted| + AddedSize(e.added)
  }

  lemma {:induction false} FieldSize(f: Field)
    ensures |FieldBytes(f)| ==
            match f
            case Comparator(name) => 5 + |name|
            case DeletedFile(_, _) => 13
            case NewFile(_, file) => 29 + |file.smallest| + |file.largest|
            case _ => 9
  {
    hide Fixed;
  }

  lemma {:induction false} ErasedSize(e: Edit)
    ensures EditSize(EraseEdit(e)) == EditSize(e)
  {
    AddedErased(e.added);
  }

  lemma {:induction false} AddedErased(added: seq<(nat, File)>)
    ensures AddedSize(EraseAdded(added)) == AddedSize(added)
  {
    if added != [] {
      AddedErased(added[..|added| - 1]);
      assert EraseAdded(added)[..|added| - 1] == EraseAdded(added[..|added| - 1]);
    }
  }

  // ---- Writing ----

  /** The optional fields in the order in which they are written. */
  function HeaderFields(e: Edit): seq<Field> {
    (if e.comparator.Some? then [Comparator(e.comparator.value)] else [])
    + (if e.logNumber.Some? then [LogNumber(e.logNumber.value)] else [])
    + (if e.nextFile.Some? then [NextFile(e.nextFile.value)] else [])
    + (if e.lastSeq.Some? then [LastSequence(e.lastSeq.value)] else [])
  }

  function DeletedFields(ds: seq<(nat, nat)>): (fs: seq<Field>)
    ensures |fs| == |ds| && forall i :: 0 <= i < |ds| ==> fs[i] == DeletedFile(ds[i].0, ds[i].1)
  {
    seq(|ds|, i requires 0 <= i < |ds| => DeletedFile(ds[i].0, ds[i].1))
  }

  function AddedFields(added: seq<(nat, File)>): (fs: seq<Field>)
    ensures |fs| == |added| && forall i :: 0 <= i < |added| ==> fs[i] == NewFile(added[i].0, Erase(added[i].1))
  {
    seq(|added|, i requires 0 <= i < |added| => NewFile(added[i].0, Erase(added[i].1)))
  }

  /** What is written: the optional fields, each deleted file once, each new file in order. */
  ghost predicate InOrderOf(e: Edit, fs: seq<Field>) {
    exists ds :: |ds| == |e.deleted| && (forall d :: d in ds <==> d in e.deleted)
                 && fs == HeaderFields(e) + DeletedFields(ds) + AddedFields(e.added)
  }

  /** The bytes are those of fields that add up to the edit and, if `fit`, all have their widths. */
  ghost predicate Written(fit: bool, dst: Bytes, e: Edit, fs: seq<Field>) {
    (fit ==> AllFit(fs)) && FieldsBytes(fs) == dst && WithFields(EMPTY_EDIT, fs) == e
  }

  lemma {:induction false} WriteField(fit: bool, dst: Bytes, e: Edit, fs: seq<Field>, f: Field)
    requires Written(fit, dst, e, fs) && (fit ==> Fits(f))
    ensures Written(fit, dst + FieldBytes(f), WithField(e, f), fs + [f])
  {
    hide Fits, FieldBytes, WithField;
    WithFieldsConcat(EMPTY_EDIT, fs, [f]);
    One(e, f);
  }

  /** The optional fields, then the deleted files in some order, then the new files. */
  method EncodeTo(e: Edit) returns (dst: Bytes)
    ensures exists fs :: Written(EditFits(e), dst, EraseEdit(e), fs) && InOrderOf(e, fs)
    ensures EditFits(e) ==> Encodes(dst, EraseEdit(e))
    ensures |dst| == EditSize(e)
  {
    hide Fits, FieldBytes, Written, HeaderSize, HeaderFields, AddedSize;
    ghost var fit := EditFits(e);
    ghost var fs, ds;
    dst, fs := EncodeHeader(e);
    ghost var w := EMPTY_EDIT.(comparator := e.comparator, logNumber := e.logNumber, nextFile := e.nextFile,
                               lastSeq := e.lastSeq);
    dst, ds := EncodeDeleted(e.deleted, dst, fit, w, fs);
    dst := EncodeAdded(e.added, dst, fit, w.(deleted := e.deleted), fs + DeletedFields(ds));
    fs := fs + DeletedFields(ds) + AddedFields(e.added);
    assert Written(fit, dst, EraseEdit(e), fs) && InOrderOf(e, fs);
    if fit { WrittenEncodes(dst, EraseEdit(e), fs); }
  }

  /** Appends the deleted files, in the order in which they are visited. */
  method EncodeDeleted(deleted: set<(nat, nat)>, dst0: Bytes, ghost fit: bool, ghost w: Edit, ghost fs0: seq<Field>)
    returns (dst: Bytes, ghost ds: seq<(nat, nat)>)
    requires Written(fit, dst0, w, fs0) && w.deleted == {}
    requires fit ==> forall d :: d in deleted ==> Fits(DeletedFile(d.0, d.1))
    ensures Written(fit, dst, w.(deleted := deleted), fs0 + DeletedFields(ds)) && |dst| == |dst0| + 13 * |deleted|
    ensures |ds| == |deleted| && forall d :: d in ds <==> d in deleted
  {
    hide Fits, FieldBytes, Written;
    dst, ds := dst0, [];
    var todo := deleted;
    assert w.(deleted := deleted - todo) == w && fs0 + DeletedFields([]) == fs0;
    while todo != {}
      invariant todo <= deleted && Written(fit, dst, w.(deleted := deleted - todo), fs0 + DeletedFields(ds))
      invariant |dst| == |dst0| + 13 * (|deleted| - |todo|) && |ds| == |deleted| - |todo|
      invariant forall d :: d in ds <==> d in deleted && d !in todo
      decreases |todo|
    {
      var d :| d in todo;
      ghost var f := DeletedFile(d.0, d.1);
      FieldSize(f);
      WriteField(fit, dst, w.(deleted := deleted - todo), fs0 + DeletedFields(ds), f);
      assert deleted - todo + {d} == deleted - (todo - {d});
      assert fs0 + DeletedFields(ds) + [f] == fs0 + DeletedFields(ds + [d]);
      dst := dst + FieldBytes(DeletedFile(d.0, d.1));
      ds := ds + [d];
      todo := todo - {d};
    }
    assert deleted - {} == deleted;
  }

  /** Appends the new files in order. */
  method EncodeAdded(added: seq<(nat, File)>, dst0: Bytes, ghost fit: bool, ghost w: Edit, ghost fs0: seq<Field>)
    returns (dst: Bytes)
    requires Written(fit, dst0, w, fs0) && w.added == []
    requires fit ==> forall a :: a in added ==> Fits(NewFile(a.0, Erase(a.1)))
    ensures Written(fit, dst, w.(added := EraseAdded(added)), fs0 + AddedFields(added))
    ensures |dst| == |dst0| + AddedSize(added)
  {
    hide Fits, FieldBytes, Written;
    dst := dst0;
    ghost var erased, fs := EraseAdded(added), AddedFields(added);
    assert fs0 + fs[..0] == fs0 && w.(added := erased[..0]) == w;
    for i := 0 to |added|
      invariant Written(fit, dst, w.(added := erased[..i]), fs0 + fs[..i])
      invariant |dst| == |dst0| + AddedSize(added[..i])
    {
      var a := added[i];
      assert a in added;
      ghost var f := NewFile(a.0, Erase(a.1));
      FieldSize(f);
      WriteField(fit, dst, w.(added := erased[..i]), fs0 + fs[..i], f);
      assert erased[..i] + [(a.0, Erase(a.1))] == erased[..i + 1];
      assert fs0 + fs[..i] + [f] == fs0 + fs[..i + 1];
      assert added[..i + 1][..i] == added[..i];
      dst := dst + FieldBytes(NewFile(a.0, Erase(a.1)));
    }
    assert erased[..|added|] == erased && fs[..|added|] == fs && added[..|added|] == added;
  }

  lemma {:induction false} WrittenEncodes(dst: Bytes, e: Edit, fs: seq<Field>)
    requires Written(true, dst, e, fs)
    ensures Encodes(dst, e)
  {
    hide Fits, FieldBytes, WithField;
  }

  method EncodeHeader(e: Edit) returns (dst: Bytes, ghost fs: seq<Field>)
    ensures Written(
              EditFits(e),
              dst,
              EMPTY_EDIT.(comparator := e.comparator, logNumber := e.logNumber, nextFile := e.nextFile,
                          lastSeq := e.lastSeq),
              fs)
    ensures |dst| == HeaderSize(e) && fs == HeaderFields(e)
  {
    hide FieldBytes, WithFields, FieldsBytes;
    ghost var fit := EditFits(e);
    dst, fs := [], [];
    ghost var w := EMPTY_EDIT;
    WrittenNothing(fit);
    if e.comparator.Some? {
      FieldSize(Comparator(e.comparator.value));
      WriteField(fit, dst, w, fs, Comparator(e.comparator.value));
      dst, fs := dst + FieldBytes(Comparator(e.comparator.value)), fs + [Comparator(e.comparator.value)];
      w := w.(comparator := e.comparator);
    }
    if e.logNumber.Some? {
      FieldSize(LogNumber(e.logNumber.value));
      WriteField(fit, dst, w, fs, LogNumber(e.logNumber.value));
      dst, fs := dst + FieldBytes(LogNumber(e.logNumber.value)), fs + [LogNumber(e.logNumber.value)];
      w := w.(logNumber := e.logNumber);
    }
    if e.nextFile.Some? {
      FieldSize(NextFile(e.nextFile.value));
      WriteField(fit, dst, w, fs, NextFile(e.nextFile.value));
      dst, fs := dst + FieldBytes(NextFile(e.nextFile.value)), fs + [NextFile(e.nextFile.value)];
      w := w.(nextFile := e.nextFile);
    }
    if e.lastSeq.Some? {
      FieldSize(LastSequence(e.lastSeq.value));
      WriteField(fit, dst, w, fs, LastSequence(e.lastSeq.value));
      dst, fs := dst + FieldBytes(LastSequence(e.lastSeq.value)), fs + [LastSequence(e.lastSeq.value)];
    }
  }

  lemma {:induction false} WrittenNothing(fit: bool)
    ensures Written(fit, [], EMPTY_EDIT, [])
  {
  }

  /** Decoding what was encoded gives the edit back without its readers, exactly when its numbers
      and lengths have their widths. */
  method RoundTrip(e: Edit) returns (r: Option<Edit>)
    ensures r == Some(EraseEdit(e)) <==> EditFits(e)
  {
    hide *;
    var bytes := EncodeTo(e);
    r := DecodeFrom(bytes);
    if EditFits(e) {
      if r.Some? { EncodesOne(bytes, r.value, EraseEdit(e)); }
    } else if r.Some? {
      EncodedFits(bytes, r.value);
      EraseFits(e);
    }
  }

  /** What any bytes stand for has its widths. */
  lemma {:induction false} EncodedFits(b: Bytes, e: Edit)
    requires Encodes(b, e)
    ensures EditFits(e)
  {
    hide Fits, FieldBytes, WithField, FieldsBytes, EditFits;
    var fs :| AllFit(fs) && FieldsBytes(fs) == b && WithFields(EMPTY_EDIT, fs) == e;
    EmptyFits();
    FieldsFit(EMPTY_EDIT, fs);
  }

  lemma {:induction false} EmptyFits()
    ensures EditFits(EMPTY_EDIT)
  {
    hide Pow256, Fits;
  }

  lemma {:induction false} FieldsFit(e: Edit, fs: seq<Field>)
    requires EditFits(e) && AllFit(fs)
    ensures EditFits(WithFields(e, fs))
    decreases |fs|
  {
    hide Fits, WithField, EditFits;
    if fs != [] {
      FieldFits(e, fs[0]);
      FieldsFit(WithField(e, fs[0]), fs[1..]);
    }
  }

  lemma {:induction false} FieldFits(e: Edit, f: Field)
    requires EditFits(e) && Fits(f)
    ensures EditFits(WithField(e, f))
  {
    hide Pow256;
  }

  lemma {:induction false} EraseFits(e: Edit)
    ensures EditFits(EraseEdit(e)) <==> EditFits(e)
  {
    hide Pow256, Fits;
    var added := EraseAdded(e.added);
    assert forall i :: 0 <= i < |added| ==> Erase(added[i].1) == Erase(e.added[i].1) && added[i] in added;
    assert forall i :: 0 <= i < |added| ==> added[i].0 == e.added[i].0 && e.added[i] in e.added;
  }

  // ---- Layout ----

  /** The tags, and where the parts of a field are. */
  lemma {:induction false} FieldLayout(f: Field)
    requires Fits(f)
    ensures var b := FieldBytes(f);
            match f
            case Comparator(name) => |b| >= 5 && b[0] == 1 && Value(b[1..5]) == |name| && b[5..] == name
            case LogNumber(n) => |b| == 9 && b[0] == 2 && Value(b[1..9]) == n
            case NextFile(n) => |b| == 9 && b[0] == 3 && Value(b[1..9]) == n
            case LastSequence(n) => |b| == 9 && b[0] == 4 && Value(b[1..9]) == n
            case DeletedFile(l, n) => |b| == 13 && b[0] == 5 && Value(b[1..5]) == l && Value(b[5..13]) == n
            case NewFile(l, file) =>
              && |b| == 29 + |file.smallest| + |file.largest|
              && b[0] == 6 && Value(b[1..5]) == l && Value(b[5..13]) == file.number && Value(b[13..21]) == file.size
              && Value(b[21..25]) == |file.smallest| && b[25..25 + |file.smallest|] == file.smallest
              && Value(b[25 + |file.smallest|..29 + |file.smallest|]) == |file.largest|
              && b[29 + |file.smallest|..] == file.largest
  {
    hide Fixed, Value, Pow256, FileBytes;
    var b := FieldBytes(f);
    FieldSize(f);
    match f
    case Comparator(name) =>
      assert b[1..5] == Fixed(|name|, 4);
      FixedRoundTrip(|name|, 4);
    case LogNumber(n) => assert b[1..9] == Fixed(n, 8); FixedRoundTrip(n, 8);
    case NextFile(n) => assert b[1..9] == Fixed(n, 8); FixedRoundTrip(n, 8);
    case LastSequence(n) => assert b[1..9] == Fixed(n, 8); FixedRoundTrip(n, 8);
    case DeletedFile(l, n) =>
      assert b[1..5] == Fixed(l, 4) && b[5..13] == Fixed(n, 8);
      FixedRoundTrip(l, 4);
      FixedRoundTrip(n, 8);
    case NewFile(l, file) => FileLayout(l, file);
  }

  lemma {:induction false} FileLayout(l: nat, file: File)
    requires Fits(NewFile(l, file))
    ensures var b, s := [6] + FileBytes(l, file), |file.smallest|;
            && |b| == 29 + s + |file.largest|
            && Value(b[1..5]) == l && Value(b[5..13]) == file.number && Value(b[13..21]) == file.size
            && Value(b[21..25]) == s && b[25..25 + s] == file.smallest
            && Value(b[25 + s..29 + s]) == |file.largest| && b[29 + s..] == file.largest
  {
    hide Fixed, Value, Pow256;
    var b, s := [6] + FileBytes(l, file), |file.smallest|;
    assert b[1..5] == Fixed(l, 4) && b[5..13] == Fixed(file.number, 8) && b[13..21] == Fixed(file.size, 8);
    assert b[21..25] == Fixed(s, 4) && b[25 + s..29 + s] == Fixed(|file.largest|, 4);
    FixedRoundTrip(l, 4);
    FixedRoundTrip(file.number, 8);
    FixedRoundTrip(file.size, 8);
    FixedRoundTrip(s, 4);
    FixedRoundTrip(|file.largest|, 4);
  }
}
