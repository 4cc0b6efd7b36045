/** The user iterator turn by turn: every turn of its loops is one step, and writers insert into the
    memtables it runs over between any two of them. */
module IteratorRuns {
  import opened Keys
  import opened Entries
  import opened Merging
  import opened DBIterators

  /** Where an operation goes on once a live pair, or none, has been found. */
  datatype After =
    | Return
    | PrevLoop(target: Key, found: bool, key: Key, value: Bytes)
    | LastLoop(found: bool, key: Key, value: Bytes)

  datatype Pc =
    | Resting              // between two operations
    | Skipping(past: Key)  // moving on past the entries of a key
    | Finding              // at the head of the loop of `FindNextUserEntry`
    | Landed               // `FindNextUserEntry` has returned

  /** The current child is always the one that `Pick` names. */
  datatype Cursor = Cursor(cs: seq<Child>, valid: bool, key: Key, value: Bytes, pc: Pc, after: After)

  datatype Step =
    | SeekToFirst
    | Seek(target: Key)
    | Next
    | Prev
    | SeekToLast
    | Turn                         // one turn of the loop the cursor is in
    | Insert(child: nat, e: Entry)

  ghost predicate Enabled(s: nat, c: Cursor, step: Step) {
    match step
    case SeekToFirst => c.pc == Resting
    case Seek(_) => c.pc == Resting
    case Next => c.pc == Resting && c.valid
    case Prev => c.pc == Resting && c.valid
    case SeekToLast => c.pc == Resting
    case Turn => c.pc != Resting
    case Insert(i, e) => i < |c.cs| && IsNew(c.cs[i], e, s)
  }

  function Advance(c: Cursor): Cursor {
    var p := Pick(c.cs);
    if p < 0 then c else c.(cs := c.cs[p := c.cs[p].Advanced()])
  }

  function Turned(s: nat, c: Cursor): Cursor {
    var p := Pick(c.cs);
    match c.pc
    case Resting => c
    case Skipping(k) =>
      if p >= 0 && c.cs[p].Current().key == k then Advance(c) else c.(valid := false, pc := Finding)
    case Finding =>
      if p < 0 then c.(valid := false, pc := Landed)
      else
        var e := c.cs[p].Current();
        if e.seqno > s then Advance(c)
        else if e.kind == VALUE then c.(key := e.key, value := e.value, valid := true, pc := Landed)
        else if e.kind == DELETION then c.(pc := Skipping(e.key))
        else Advance(c)
    case Landed =>
      match c.after
      case Return => c.(pc := Resting)
      case PrevLoop(target, found, key, value) =>
        if c.valid && Less(c.key, target) then
          c.(after := PrevLoop(target, true, c.key, c.value), pc := Skipping(c.key))
        else if found then c.(key := key, value := value, valid := true, pc := Resting, after := Return)
        else c.(valid := false, pc := Resting, after := Return)
      case LastLoop(found, key, value) =>
        if c.valid then c.(after := LastLoop(true, c.key, c.value), pc := Skipping(c.key))
        else if found then c.(key := key, value := value, valid := true, pc := Resting, after := Return)
        else c.(pc := Resting, after := Return)
  }

  ghost function Do(s: nat, c: Cursor, step: Step): Cursor
    requires Enabled(s, c, step)
  {
    match step
    case SeekToFirst => c.(cs := AllAtFirst(c.cs), valid := false, pc := Finding)
    case Seek(target) => c.(cs := AllAtTarget(c.cs, target), valid := false, pc := Finding)
    case Next => c.(pc := Skipping(c.key))
    case Prev => c.(cs := AllAtFirst(c.cs), valid := false, pc := Finding, after := PrevLoop(c.key, false, [], []))
    case SeekToLast => c.(cs := AllAtFirst(c.cs), valid := false, pc := Finding, after := LastLoop(false, [], []))
    case Turn => Turned(s, c)
    case Insert(i, e) => c.(cs := c.cs[i := Grown(c.cs[i], e)])
  }

  // ---- The cursor it should be ----

  function OnOrOff(ps: seq<Pair>, i: nat): Option<nat> {
    if i < |ps| then Some(i) else None
  }

  /** Where a cursor over the list of pairs itself is after an operation. */
  function Moved(ps: seq<Pair>, at: Option<nat>, step: Step): Option<nat> {
    match step
    case SeekToFirst => OnOrOff(ps, 0)
    case Seek(target) => OnOrOff(ps, PairsFrom(ps, target))
    case Next => if at.Some? then OnOrOff(ps, at.value + 1) else None
    case Prev => if at.Some? && at.value > 0 then Some(at.value - 1) else None
    case SeekToLast => if ps == [] then None else Some(|ps| - 1)
    case Turn => at
    case Insert(_, _) => at
  }

  function Pairs(s: nat, c: Cursor): seq<Pair> {
    Live(Merged(AllAtFirst(c.cs)), s)
  }

  /** A seek that the memtables' probes do not lead astray. */
  ghost predicate Sighted(s: nat, c: Cursor, step: Step) {
    step.Seek? ==> SeekSees(c.cs, step.target, s)
  }

  // ---- What holds at every point ----

  /** The next live pair to be found, or just found, is number `i`. */
  ghost predicate Heading(s: nat, c: Cursor, ps: seq<Pair>, i: nat)
    requires i <= |ps|
  {
    var m := Merged(c.cs);
    match c.pc
    case Resting => false
    case Skipping(k) => (m != [] ==> AtMost(k, m[0].key)) && Live(SkipKey(m, k), s) == ps[i..]
    case Finding => Live(m, s) == ps[i..]
    case Landed => JustAt(c.cs, Pick(c.cs), s, c.valid, c.key, c.value, i)
  }

  /** Where that leads: the operation will end at `goal`. */
  ghost predicate Leads(ps: seq<Pair>, after: After, goal: Option<nat>, i: nat)
    requires i <= |ps|
  {
    match after
    case Return => goal == OnOrOff(ps, i)
    case PrevLoop(target, found, key, value) =>
      var t := if goal.Some? then goal.value + 1 else 0;
      i <= t < |ps| && ps[t].0 == target && found == (i > 0) && (i > 0 ==> ps[i - 1] == (key, value))
    case LastLoop(found, key, value) =>
      goal == (if ps == [] then None else Some(|ps| - 1)) && found == (i > 0) && (i > 0 ==> ps[i - 1] == (key, value))
  }

  ghost predicate Inv(s: nat, c: Cursor, ps: seq<Pair>, goal: Option<nat>) {
    && Clean(c.cs, s) && Pairs(s, c) == ps
    && if c.pc == Resting then
         c.after == Return
         && if goal.Some? then CursorAt(c.cs, Pick(c.cs), s, c.valid, c.key, c.value, goal.value) else !c.valid
       else exists i :: 0 <= i <= |ps| && Heading(s, c, ps, i) && Leads(ps, c.after, goal, i)
  }

  lemma {:induction false} InvIs(s: nat, c: Cursor, ps: seq<Pair>, goal: Option<nat>, i: nat)
    requires Clean(c.cs, s) && Pairs(s, c) == ps && c.pc != Resting && i <= |ps|
    requires Heading(s, c, ps, i) && Leads(ps, c.after, goal, i)
    ensures Inv(s, c, ps, goal)
  {
    hide Clean, Pairs, Heading, Leads;
  }

  // ---- Starting an operation ----

  lemma {:induction false} Repositioned(s: nat, cs: seq<Child>, cs': seq<Child>)
    requires Clean(cs, s) && |cs'| == |cs| && forall i :: 0 <= i < |cs| ==> cs'[i] == cs[i].(pos := cs'[i].pos)
    ensures Clean(cs', s) && AllAtFirst(cs') == AllAtFirst(cs)
  {
    hide Sorted;
    forall x ensures Within(cs', x) <==> Within(cs, x) {
      if i :| 0 <= i < |cs| && x in cs[i].entries { assert x in cs'[i].entries; }
      if i :| 0 <= i < |cs| && x in cs'[i].entries { assert x in cs[i].entries; }
    }
    forall i | 0 <= i < |cs| ensures AllAtFirst(cs')[i] == AllAtFirst(cs)[i] { }
  }

  /** Operations that start over from the first entry. */
  lemma {:induction false} FirstKeeps(s: nat, c: Cursor, c': Cursor, ps: seq<Pair>, goal: Option<nat>)
    requires Clean(c.cs, s) && Pairs(s, c) == ps
    requires c'.cs == AllAtFirst(c.cs) && c'.pc == Finding && Leads(ps, c'.after, goal, 0)
    ensures Inv(s, c', ps, goal)
  {
    hide Clean, Merged, Live, Leads;
    Repositioned(s, c.cs, c'.cs);
    assert AllAtFirst(c'.cs) == c'.cs && ps[0..] == ps;
    InvIs(s, c', ps, goal, 0);
  }

  lemma {:induction false} SeekKeeps(s: nat, c: Cursor, target: Key, ps: seq<Pair>)
    requires Clean(c.cs, s) && Pairs(s, c) == ps && c.after == Return && SeekSees(c.cs, target, s)
    ensures Inv(s, c.(cs := AllAtTarget(c.cs, target), valid := false, pc := Finding), ps,
                OnOrOff(ps, PairsFrom(ps, target)))
  {
    hide Clean, Merged, Live, Ascending, PairsFrom, From, SeekSees;
    var c', fs := c.(cs := AllAtTarget(c.cs, target), valid := false, pc := Finding), AllAtFirst(c.cs);
    Repositioned(s, c.cs, c'.cs);
    Repositioned(s, c.cs, fs);
    CleanMerged(fs, s);
    LiveFrom(Merged(fs), s, target);
    SeekIff(c.cs, target, s);
    InvIs(s, c', ps, OnOrOff(ps, PairsFrom(ps, target)), PairsFrom(ps, target));
  }

  lemma {:induction false} NextKeeps(s: nat, c: Cursor, ps: seq<Pair>, i: nat)
    requires Clean(c.cs, s) && Pairs(s, c) == ps && c.after == Return
    requires CursorAt(c.cs, Pick(c.cs), s, c.valid, c.key, c.value, i)
    ensures Inv(s, c.(pc := Skipping(c.key)), ps, OnOrOff(ps, i + 1))
  {
    hide Clean, Merged, Live, SkipKey, Pick, Less, CursorAt, Heading, AllAtFirst, Inv;
    OnPair(c.cs, Pick(c.cs), s, c.valid, c.key, c.value, i);
    GoOn(s, c, ps, i, c.after);
    InvIs(s, c.(pc := Skipping(c.key)), ps, OnOrOff(ps, i + 1), i + 1);
  }

  lemma {:induction false} PrevKeeps(s: nat, c: Cursor, ps: seq<Pair>, i: nat)
    requires Clean(c.cs, s) && Pairs(s, c) == ps
    requires CursorAt(c.cs, Pick(c.cs), s, c.valid, c.key, c.value, i)
    ensures Inv(s, c.(cs := AllAtFirst(c.cs), valid := false, pc := Finding, after := PrevLoop(c.key, false, [], [])),
                ps,
                if i > 0 then Some(i - 1) else None)
  {
    hide Clean, Merged, Live, SkipKey, Pick, Less, CursorAt, AllAtFirst, Inv;
    OnPair(c.cs, Pick(c.cs), s, c.valid, c.key, c.value, i);
    FirstKeeps(s, c, c.(cs := AllAtFirst(c.cs), valid := false, pc := Finding, after := PrevLoop(c.key, false, [], [])),
               ps,
               if i > 0 then Some(i - 1) else None);
  }

  /** Starting an operation sets the goal. */
  lemma {:induction false} StartKeeps(s: nat, c: Cursor, ps: seq<Pair>, at: Option<nat>, step: Step)
    requires Inv(s, c, ps, at) && c.pc == Resting && Enabled(s, c, step) && !step.Insert? && Sighted(s, c, step)
    ensures Inv(s, Do(s, c, step), ps, Moved(ps, at, step))
  {
    hide Clean, Pairs, CursorAt, PairsFrom, Pick, SeekSees;
    match step {
      case SeekToFirst => FirstKeeps(s, c, Do(s, c, step), ps, OnOrOff(ps, 0));
      case Seek(target) => SeekKeeps(s, c, target, ps);
      case Next => NextKeeps(s, c, ps, at.value);
      case Prev => PrevKeeps(s, c, ps, at.value);
      case SeekToLast => FirstKeeps(s, c, Do(s, c, step), ps, if ps == [] then None else Some(|ps| - 1));
    }
  }

  // ---- Turning ----

  lemma {:induction false} AdvanceIs(s: nat, c: Cursor)
    requires Clean(c.cs, s) && Pick(c.cs) >= 0
    ensures var c' := Advance(c);
            && Clean(c'.cs, s) && AllAtFirst(c'.cs) == AllAtFirst(c.cs)
            && Merged(c.cs) == [c.cs[Pick(c.cs)].Current()] + Merged(c'.cs) && Merged(c'.cs) == Merged(c.cs)[1..]
  {
    hide Clean, Merged, Pick;
    Repositioned(s, c.cs, Advance(c).cs);
    MergedStep(c.cs, Pick(c.cs));
  }

  lemma {:induction false} SkipTurn(s: nat, c: Cursor, ps: seq<Pair>, i: nat)
    requires Clean(c.cs, s) && Pairs(s, c) == ps && c.pc.Skipping? && i <= |ps| && Heading(s, c, ps, i)
    ensures var c' := Turned(s, c);
            Clean(c'.cs, s) && Pairs(s, c') == ps && c'.pc != Resting && c'.after == c.after && Heading(s, c', ps, i)
  {
    hide Clean, Merged, Live, SkipKey, Pick, Less, Advance, AllAtFirst, Heading;
    var p := Pick(c.cs);
    if p >= 0 && c.cs[p].Current().key == c.pc.past {
      AdvanceIs(s, c);
      SkipsOn(s, c, ps, i);
    } else {
      SkipsNoMore(s, c, ps, i);
    }
  }

  lemma {:induction false} SkipsOn(s: nat, c: Cursor, ps: seq<Pair>, i: nat)
    requires Clean(c.cs, s) && c.pc.Skipping? && i <= |ps| && Heading(s, c, ps, i)
    requires Pick(c.cs) >= 0 && c.cs[Pick(c.cs)].Current().key == c.pc.past
    ensures Advance(c).pc == c.pc && Advance(c).after == c.after && Heading(s, Advance(c), ps, i)
  {
    hide Clean, Merged, Live, SkipKey, Pick, Less, Ascending, WellKinded, Unambiguous, Within;
    AdvanceIs(s, c);
    CleanMerged(c.cs, s);
    SkipOne(Merged(c.cs));
  }

  lemma {:induction false} SkipsNoMore(s: nat, c: Cursor, ps: seq<Pair>, i: nat)
    requires c.pc.Skipping? && i <= |ps| && Heading(s, c, ps, i)
    requires Pick(c.cs) < 0 || c.cs[Pick(c.cs)].Current().key != c.pc.past
    ensures Heading(s, c.(valid := false, pc := Finding), ps, i)
  {
    hide Merged, Live, SkipKey, Pick, Less;
    MergedStep(c.cs, Pick(c.cs));
    SkipDone(Merged(c.cs), c.pc.past);
  }

  lemma {:induction false} SkipOne(m: seq<Entry>)
    requires Ascending(m) && m != []
    ensures SkipKey(m[1..], m[0].key) == SkipKey(m, m[0].key)
    ensures m[1..] != [] ==> AtMost(m[0].key, m[1..][0].key)
  {
    hide SkipKey, Less, Ascending;
    SkipFirst(m);
    TailAscends(m);
    assert m[1..] != [] ==> m[1..][0] in m;
  }

  lemma {:induction false} FindTurn(s: nat, c: Cursor, ps: seq<Pair>, i: nat)
    requires Clean(c.cs, s) && Pairs(s, c) == ps && c.pc == Finding && i <= |ps| && Heading(s, c, ps, i)
    ensures var c' := Turned(s, c);
            Clean(c'.cs, s) && Pairs(s, c') == ps && c'.pc != Resting && c'.after == c.after && Heading(s, c', ps, i)
  {
    hide Clean, Merged, SkipKey, Pick, Less, AllAtFirst, Live, LandedOn, JustAt;
    var p, m := Pick(c.cs), Merged(c.cs);
    MergedStep(c.cs, p);
    if p < 0 {
      NothingLanded(s, c.key, c.value);
      Lands(c.cs, p, s, false, c.key, c.value, i);
    } else {
      LiveHead(m, s);
      AdvanceIs(s, c);
      var e := c.cs[p].Current();
      if e.seqno <= s && e.kind == VALUE { Lands(c.cs, p, s, true, e.key, e.value, i); }
    }
  }

  lemma {:induction false} NothingLanded(s: nat, key: Key, value: Bytes)
    ensures LandedOn([], s, false, key, value, Live([], s))
  {
  }

  /** What the first entry decides. */
  lemma {:induction false} LiveHead(m: seq<Entry>, s: nat)
    requires m != []
    ensures m[0].seqno > s || (m[0].kind != VALUE && m[0].kind != DELETION) ==> Live(m[1..], s) == Live(m, s)
    ensures m[0].seqno <= s && m[0].kind == DELETION ==> Live(SkipKey(m, m[0].key), s) == Live(m, s)
    ensures m[0].seqno <= s && m[0].kind == VALUE ==> LandedOn(m, s, true, m[0].key, m[0].value, Live(m, s))
  {
    hide SkipKey, Less;
    SkipFirst(m);
  }

  /** A pair has been found: the operation ends or goes on. */
  lemma {:induction false} LandTurn(s: nat, c: Cursor, ps: seq<Pair>, goal: Option<nat>, i: nat)
    requires Clean(c.cs, s) && Pairs(s, c) == ps && c.pc == Landed && i <= |ps|
    requires Heading(s, c, ps, i) && Leads(ps, c.after, goal, i)
    ensures Inv(s, Turned(s, c), ps, goal)
  {
    hide Clean, Merged, Live, SkipKey, Pick, Less, AllAtFirst, CursorAt, JustAt, Heading;
    FoundIs(s, c, ps, i);
    match c.after {
      case Return =>
      case PrevLoop(target, _, key, value) => PrevTurn(s, c, ps, goal, i);
      case LastLoop(_, key, value) => LastTurn(s, c, ps, goal, i);
    }
  }

  lemma {:induction false} FoundIs(s: nat, c: Cursor, ps: seq<Pair>, i: nat)
    requires Pairs(s, c) == ps && c.pc == Landed && i <= |ps| && Heading(s, c, ps, i)
    ensures JustAt(c.cs, Pick(c.cs), s, c.valid, c.key, c.value, i)
    ensures if i < |ps| then c.valid && ps[i] == (c.key, c.value)
            && CursorAt(c.cs, Pick(c.cs), s, c.valid, c.key, c.value, i)
            else !c.valid
  {
    hide Merged, Live, SkipKey, Pick, Less, AllAtFirst;
  }

  /** Going on past the pair that was found. */
  lemma {:induction false} GoOn(s: nat, c: Cursor, ps: seq<Pair>, i: nat, after: After)
    requires Pairs(s, c) == ps && i < |ps| && CursorAt(c.cs, Pick(c.cs), s, c.valid, c.key, c.value, i)
    ensures Heading(s, c.(after := after, pc := Skipping(c.key)), ps, i + 1)
  {
    hide Merged, Live, SkipKey, Pick, Less;
  }

  lemma {:induction false} PrevTurn(s: nat, c: Cursor, ps: seq<Pair>, goal: Option<nat>, i: nat)
    requires Clean(c.cs, s) && Pairs(s, c) == ps && c.pc == Landed && c.after.PrevLoop? && i <= |ps|
    requires Heading(s, c, ps, i) && Leads(ps, c.after, goal, i)
    ensures Inv(s, Turned(s, c), ps, goal)
  {
    hide Clean, Merged, Live, SkipKey, Pick, Less, AllAtFirst, CursorAt, JustAt, Heading, StrictlyUp;
    FoundIs(s, c, ps, i);
    var t := if goal.Some? then goal.value + 1 else 0;
    FirstSorted(s, c);
    PairsAscend(c.cs, s);
    KeyOrder(ps, t, i);
    if i < t {
      var after := PrevLoop(c.after.target, true, c.key, c.value);
      GoOn(s, c, ps, i, after);
      InvIs(s, Turned(s, c), ps, goal, i + 1);
    } else if i > 0 {
      ShowsPrevious(c.cs, Pick(c.cs), s, c.key, c.value, c.after.key, c.after.value, i);
    }
  }

  lemma {:induction false} FirstSorted(s: nat, c: Cursor)
    requires Clean(c.cs, s)
    ensures AllChildrenSorted(AllAtFirst(c.cs))
  {
    hide Sorted, Within;
  }

  lemma {:induction false} LastTurn(s: nat, c: Cursor, ps: seq<Pair>, goal: Option<nat>, i: nat)
    requires Clean(c.cs, s) && Pairs(s, c) == ps && c.pc == Landed && c.after.LastLoop? && i <= |ps|
    requires Heading(s, c, ps, i) && Leads(ps, c.after, goal, i)
    ensures Inv(s, Turned(s, c), ps, goal)
  {
    hide Clean, Merged, Live, SkipKey, Pick, Less, AllAtFirst, CursorAt, JustAt, Heading;
    FoundIs(s, c, ps, i);
    if i < |ps| {
      var after := LastLoop(true, c.key, c.value);
      GoOn(s, c, ps, i, after);
      InvIs(s, Turned(s, c), ps, goal, i + 1);
    } else if i > 0 {
      ShowsLast(c.cs, Pick(c.cs), s, c.key, c.value, c.after.key, c.after.value);
    }
  }

  lemma {:induction false} TurnKeeps(s: nat, c: Cursor, ps: seq<Pair>, goal: Option<nat>)
    requires Inv(s, c, ps, goal) && c.pc != Resting
    ensures Inv(s, Turned(s, c), ps, goal)
  {
    hide Clean, Pairs, Heading, Leads, Turned;
    var i :| 0 <= i <= |ps| && Heading(s, c, ps, i) && Leads(ps, c.after, goal, i);
    if c.pc == Landed {
      LandTurn(s, c, ps, goal, i);
    } else {
      if c.pc == Finding { FindTurn(s, c, ps, i); } else { SkipTurn(s, c, ps, i); }
      InvIs(s, Turned(s, c), ps, goal, i);
    }
  }

  // ---- Inserting ----

  /** What is still to be merged keeps its live pairs. */
  lemma {:induction false} InsertKeepsRest(cs: seq<Child>, c: nat, e: Entry, s: nat)
    requires c < |cs| && Clean(cs, s) && IsNew(cs[c], e, s)
    ensures var cs' := cs[c := Grown(cs[c], e)];
            && Pick(cs') == Pick(cs) && Live(Merged(cs'), s) == Live(Merged(cs), s)
            && (Merged(cs) == [] ==> Merged(cs') == [])
  {
    hide Before, AddSorted, Within, Merged, Live, Ascending, Clean, Pick, Grown;
    var cs' := cs[c := Grown(cs[c], e)];
    GrownRemaining(cs, c, e);
    GrownClean(cs, c, e, s);
    CleanMerged(cs, s);
    CleanMerged(cs', s);
    LiveIgnoresNewer(Merged(cs'), Merged(cs), s);
    MergedStep(cs, Pick(cs));
    MergedStep(cs', Pick(cs));
  }

  /** And so does what lies beyond a key. */
  lemma {:induction false} InsertKeepsBeyond(cs: seq<Child>, c: nat, e: Entry, s: nat, k: Key)
    requires c < |cs| && Clean(cs, s) && IsNew(cs[c], e, s) && (Merged(cs) != [] ==> AtMost(k, Merged(cs)[0].key))
    ensures var cs' := cs[c := Grown(cs[c], e)];
            && (Merged(cs') != [] ==> AtMost(k, Merged(cs')[0].key))
            && Live(SkipKey(Merged(cs'), k), s) == Live(SkipKey(Merged(cs), k), s)
  {
    hide Before, AddSorted, Within, Merged, Live, Ascending, Clean, Pick, SkipKey, Grown, Less;
    var cs' := cs[c := Grown(cs[c], e)];
    GrownRemaining(cs, c, e);
    GrownClean(cs, c, e, s);
    NotBelow(cs, cs', c, e, s, k);
    SameBeyond(cs, cs', e, s, k);
  }

  lemma {:induction false} InsertHeading(s: nat, c: Cursor, ps: seq<Pair>, i: nat, child: nat, e: Entry)
    requires Clean(c.cs, s) && Pairs(s, c) == ps && i <= |ps| && Heading(s, c, ps, i)
    requires child < |c.cs| && IsNew(c.cs[child], e, s)
    ensures var c' := c.(cs := c.cs[child := Grown(c.cs[child], e)]);
            Clean(c'.cs, s) && Pairs(s, c') == ps && Heading(s, c', ps, i)
  {
    hide Clean, Merged, Live, SkipKey, Pick, Less, AllAtFirst, Grown, IsNew, CursorAt;
    InsertKeepsPairs(c.cs, child, e, s);
    InsertKeepsRest(c.cs, child, e, s);
    if c.pc.Skipping? { InsertKeepsBeyond(c.cs, child, e, s, c.pc.past); }
    if c.pc == Landed && i < |ps| {
      InsertKeepsCursor(c.cs, Pick(c.cs), s, c.valid, c.key, c.value, i, child, e);
    }
  }

  lemma {:induction false} InsertKeeps(s: nat, c: Cursor, ps: seq<Pair>, goal: Option<nat>, child: nat, e: Entry)
    requires Inv(s, c, ps, goal) && child < |c.cs| && IsNew(c.cs[child], e, s)
    ensures Inv(s, c.(cs := c.cs[child := Grown(c.cs[child], e)]), ps, goal)
  {
    hide Clean, Heading, Leads, Grown, IsNew, CursorAt, Pick, Merged, Live, AllAtFirst;
    var c' := c.(cs := c.cs[child := Grown(c.cs[child], e)]);
    if c.pc == Resting {
      InsertKeepsPairs(c.cs, child, e, s);
      InsertKeepsRest(c.cs, child, e, s);
      if goal.Some? {
        InsertKeepsCursor(c.cs, Pick(c.cs), s, c.valid, c.key, c.value, goal.value, child, e);
      }
    } else {
      var i :| 0 <= i <= |ps| && Heading(s, c, ps, i) && Leads(ps, c.after, goal, i);
      InsertHeading(s, c, ps, i, child, e);
      InvIs(s, c', ps, goal, i);
    }
  }

  // ---- Runs ----

  lemma {:induction false} StepKeeps(s: nat, c: Cursor, ps: seq<Pair>, at: Option<nat>, step: Step)
    requires Inv(s, c, ps, at) && Enabled(s, c, step) && Sighted(s, c, step)
    ensures Inv(s, Do(s, c, step), ps, Moved(ps, at, step))
  {
    hide Inv, Turned, Grown, IsNew, Sighted;
    if step.Insert? {
      InsertKeeps(s, c, ps, at, step.child, step.e);
    } else if step.Turn? {
      TurnKeeps(s, c, ps, at);
    } else {
      StartKeeps(s, c, ps, at, step);
    }
  }

  /** A new cursor and what is done with it, inserts included. */
  ghost predicate IsUse(s: nat, run: seq<Cursor>, steps: seq<Step>) {
    && |run| == |steps| + 1
    && run[0].pc == Resting && run[0].after == Return && !run[0].valid
    && forall i :: 0 <= i < |steps| ==> Enabled(s, run[i], steps[i]) && run[i + 1] == Do(s, run[i], steps[i])
  }

  /** The same over entries such as the engine writes. */
  ghost predicate IsRun(s: nat, run: seq<Cursor>, steps: seq<Step>) {
    IsUse(s, run, steps) && Clean(run[0].cs, s)
  }

  /** The place of a cursor over the list of pairs after the first `n` steps. */
  function Place(ps: seq<Pair>, steps: seq<Step>, n: nat): Option<nat>
    requires n <= |steps|
  {
    if n == 0 then None else Moved(ps, Place(ps, steps, n - 1), steps[n - 1])
  }

  /** Every seek of the run is sighted. */
  ghost predicate AllSighted(s: nat, run: seq<Cursor>, steps: seq<Step>) {
    |steps| < |run| && forall i :: 0 <= i < |steps| ==> Sighted(s, run[i], steps[i])
  }

  lemma {:induction false} RunKeeps(s: nat, run: seq<Cursor>, steps: seq<Step>, n: nat)
    requires IsRun(s, run, steps) && AllSighted(s, run, steps) && n < |run|
    ensures Inv(s, run[n], Pairs(s, run[0]), Place(Pairs(s, run[0]), steps, n))
  {
    hide Do, Enabled, Clean, Pairs, Moved, CursorAt, Pick, Sighted;
    if n > 0 {
      RunKeeps(s, run, steps, n - 1);
      StepKeeps(s, run[n - 1], Pairs(s, run[0]), Place(Pairs(s, run[0]), steps, n - 1), steps[n - 1]);
    }
  }

  /** For every sequence of operations, with inserts between any two turns of any loop: the pairs stay
      the same, and whenever no operation is under way the cursor shows the pair that a cursor over
      the list would show, and is invalid when that one is. */
  lemma {:induction false} RunsAsList(s: nat, run: seq<Cursor>, steps: seq<Step>, n: nat)
    requires IsRun(s, run, steps) && AllSighted(s, run, steps) && n < |run| && run[n].pc == Resting
    ensures var ps, at := Pairs(s, run[0]), Place(Pairs(s, run[0]), steps, n);
            && Pairs(s, run[n]) == ps
            && (run[n].valid <==> at.Some?)
            && (at.Some? ==> at.value < |ps| && ps[at.value] == (run[n].key, run[n].value))
  {
    hide IsRun, Clean, Pick, Live, Merged, SkipKey, Less, AllAtFirst, AllSighted;
    RunKeeps(s, run, steps, n);
  }

  /** A cursor with a sequence number that the probes reach is never led astray. */
  lemma {:induction false} LowIsSighted(s: nat, run: seq<Cursor>, steps: seq<Step>)
    requires IsRun(s, run, steps) && s <= MAX_SEQNO
    ensures AllSighted(s, run, steps)
  {
    hide Do, Enabled, Clean, Sighted;
    forall i | 0 <= i < |steps| ensures Sighted(s, run[i], steps[i]) {
      RunClean(s, run, steps, i);
      StepSighted(s, run[i], steps[i]);
    }
  }

  lemma {:induction false} StepSighted(s: nat, c: Cursor, step: Step)
    requires Clean(c.cs, s) && s <= MAX_SEQNO
    ensures Sighted(s, c, step)
  {
    hide Clean, SeekSees;
    if step.Seek? { LowSees(c.cs, step.target, s); }
  }

  lemma {:induction false} RunClean(s: nat, run: seq<Cursor>, steps: seq<Step>, n: nat)
    requires IsRun(s, run, steps) && n < |run|
    ensures Clean(run[n].cs, s)
  {
    hide Do, Enabled, Clean;
    if n > 0 {
      RunClean(s, run, steps, n - 1);
      StepClean(s, run[n - 1], steps[n - 1]);
    }
  }

  lemma {:induction false} StepClean(s: nat, c: Cursor, step: Step)
    requires Clean(c.cs, s) && Enabled(s, c, step)
    ensures Clean(Do(s, c, step).cs, s)
  {
    hide Clean, Pick, Grown, IsNew, AllAtTarget, Less;
    var c' := Do(s, c, step);
    if step.Insert? {
      GrownClean(c.cs, step.child, step.e, s);
    } else {
      forall i | 0 <= i < |c.cs| ensures |c'.cs| == |c.cs| && c'.cs[i] == c.cs[i].(pos := c'.cs[i].pos) { }
      Repositioned(s, c.cs, c'.cs);
    }
  }
}
