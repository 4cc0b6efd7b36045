/** Why a compaction keeps the meaning of a stack, free of files and ranges. */
module CompactionMeaning {
  import opened Keys
  import opened Entries
  import opened History
  import opened Recency

  ghost predicate NoKey(s: Source, k: Key) {
    forall e :: e in s ==> e.key != k
  }

  ghost predicate NewestIn(ins: Source, e: Entry) {
    forall f :: f in ins && f.key == e.key ==> f.seqno <= e.seqno
  }

  /** Of every key of `ins`, `outs` holds the newest entry, or nothing when that is a delete and
      `deep` has nothing of the key. */
  ghost predicate Survivors(ins: Source, outs: Source, deep: Stack) {
    && (forall e :: e in outs ==> e in ins && NewestIn(ins, e))
    && forall e :: e in ins && NewestIn(ins, e) ==>
        e in outs || (e.kind == DELETION && !HasKey(deep, e.key))
  }

  /** The sources `mid` and the source `low` under them lose the entries `ins`, which leaves `kept`
      and `rest`; `outs` joins `rest` to make `low2`.  `top` and `deep` stay. */
  datatype Plan = Plan(
    top: Stack, mid: Stack, low: Source, deep: Stack,
    ins: Source, outs: Source, kept: Stack, rest: Source, low2: Source)
  {
    function Old(): Stack { top + mid + [low] + deep }

    function New(): Stack { top + kept + [low2] + deep }

    ghost predicate Sound() {
      && (kept == [] || (|mid| == 1 && |kept| == 1 && forall e :: e in kept[0] ==> e in mid[0]))
      && (forall e :: e in ins ==> e in low || (Holds(mid, e) && !HasKey(kept, e.key)))
      && (forall e :: Holds(mid, e) ==> Holds(kept, e) || (e in ins && !HasKey(kept, e.key)))
      && (forall e :: e in low ==> e in ins || e in rest)
      && (forall e :: e in rest ==> e in low)
      && (forall e :: e in low2 <==> e in rest || e in outs)
      && (forall e :: e in ins ==> NoKey(rest, e.key))
      && Survivors(ins, outs, deep)
    }

    /** Where an entry of the compacted sources sits; an input of `mid` shares no key with `kept`. */
    lemma {:induction false} InputAt(e: Entry) returns (i: nat)
      requires e in low || Holds(mid, e)
      ensures |top| <= i <= |top| + |mid| && e in Old()[i]
      ensures e in low ==> i == |top| + |mid|
    {
      if e in low {
        i := |top| + |mid|;
        assert Old()[i] == low;
      } else {
        var j :| 0 <= j < |mid| && e in mid[j];
        i := |top| + j;
        assert Old()[i] == mid[j];
      }
    }

    lemma {:induction false} NothingNew(e: Entry)
      requires Sound() && Holds(New(), e)
      ensures Holds(Old(), e)
    {
      var i :| 0 <= i < |New()| && e in New()[i];
      var t, m, m' := |top|, |mid|, |kept|;
      if i < t {
        assert Old()[i] == top[i] == New()[i];
      } else if i < t + m' {
        assert New()[i] == kept[0] && Old()[t] == mid[0];
      } else if i == t + m' {
        assert New()[i] == low2 && Old()[t + m] == low;
        if e !in rest {
          var j := InputAt(e);
        }
      } else {
        assert New()[i] == deep[i - t - m' - 1] == Old()[i - m' + m];
      }
    }

    /** A source above the compaction is not older than an entry that went through it. */
    lemma {:induction false} AboveInputs(i: nat, e: Entry, f: Entry)
      requires NewestFirst(Old())
      requires i < |top| && e in top[i] && (f in low || Holds(mid, f)) && e.key == f.key
      ensures e.seqno >= f.seqno || f in top[i]
    {
      var j := InputAt(f);
      assert NotOlder(Old()[i], Old()[j]) && Old()[i] == top[i];
    }

    /** An output is not older than an entry of the same key below the compaction. */
    lemma {:induction false} BelowOutputs(d: nat, e: Entry, f: Entry)
      requires NewestFirst(Old()) && Sound()
      requires d < |deep| && e in outs && f in deep[d] && e.key == f.key
      ensures e.seqno >= f.seqno
    {
      var i := InputAt(e);
      var j := |top| + |mid| + 1 + d;
      assert Old()[j] == deep[d] && NotOlder(Old()[i], Old()[j]);
      if f in Old()[i] {
        assert NoKey(rest, f.key) && NewestIn(ins, e);
        if i < |top| + |mid| {
          assert Old()[i] == mid[i - |top|];
          assert Holds(mid, f);
          assert Holds(kept, f) ==> HasKey(kept, e.key);
        } else {
          assert Old()[i] == low;
        }
      }
    }

    lemma {:induction false} PairAboveDeep(i: nat, d: nat, e: Entry, f: Entry)
      requires NewestFirst(Old()) && Sound()
      requires i < |New()| - |deep| + d && d < |deep| && e in New()[i] && f in deep[d] && e.key == f.key
      ensures e.seqno >= f.seqno || f in New()[i]
    {
      var t, m, m' := |top|, |mid|, |kept|;
      assert Old()[t + m + 1 + d] == deep[d];
      if i < t {
        assert Old()[i] == New()[i] && NotOlder(Old()[i], Old()[t + m + 1 + d]);
      } else if i < t + m' {
        assert New()[i] == kept[0] && Old()[t] == mid[0] && NotOlder(Old()[t], Old()[t + m + 1 + d]);
        assert HasKey(kept, f.key) by { assert Holds(kept, e); }
        if f in mid[0] { assert Holds(mid, f); }
      } else if i == t + m' {
        assert New()[i] == low2 && Old()[t + m] == low;
        if e in outs {
          BelowOutputs(d, e, f);
        } else {
          assert NotOlder(Old()[t + m], Old()[t + m + 1 + d]);
          assert f in ins ==> NoKey(rest, f.key);
        }
      } else {
        var i' := i - t - m' - 1;
        assert New()[i] == deep[i'] == Old()[t + m + 1 + i'] && NotOlder(Old()[t + m + 1 + i'], Old()[t + m + 1 + d]);
      }
    }

    lemma {:induction false} PairAboveLow(i: nat, j: nat, e: Entry, f: Entry)
      requires NewestFirst(Old()) && Sound()
      requires i < j <= |top| + |kept| && e in New()[i] && f in New()[j] && e.key == f.key
      ensures e.seqno >= f.seqno || f in New()[i]
    {
      var t, m, m' := |top|, |mid|, |kept|;
      if j < t {
        assert Old()[i] == New()[i] && Old()[j] == New()[j] && NotOlder(Old()[i], Old()[j]);
      } else if i < t {
        assert New()[i] == top[i];
        if j < t + m' {
          assert New()[j] == kept[0];
          assert Holds(mid, f);
        } else {
          assert New()[j] == low2;
        }
        AboveInputs(i, e, f);
      } else {
        assert New()[i] == kept[0] && Old()[t] == mid[0] && New()[j] == low2 && Old()[t + m] == low;
        assert HasKey(kept, f.key) by { assert Holds(kept, e); }
        assert f in low;
        assert NotOlder(Old()[t], Old()[t + m]);
        if f in mid[0] { assert Holds(mid, f); }
      }
    }

    lemma {:induction false} KeepsOrder()
      requires NewestFirst(Old()) && Sound()
      ensures NewestFirst(New())
    {
      hide Sound;
      forall i, j | 0 <= i < j < |New()| ensures NotOlder(New()[i], New()[j]) {
        var low := |top| + |kept|;
        forall e: Entry, f: Entry | e in New()[i] && f in New()[j] && e.key == f.key
          ensures e.seqno >= f.seqno || f in New()[i]
        {
          if j <= low {
            PairAboveLow(i, j, e, f);
          } else {
            assert New()[j] == deep[j - low - 1];
            PairAboveDeep(i, j - low - 1, e, f);
          }
        }
      }
    }

    lemma {:induction false} LastIsNewestIn(h: seq<Entry>, n: Entry)
      requires Genuine(Old(), h) && ValidHistory(h) && Sound()
      requires Newest(h, n.key) == Some(n)
      ensures NewestIn(ins, n)
    {
      hide Newest, Survivors, HasKey;
      forall f | f in ins && f.key == n.key ensures f.seqno <= n.seqno {
        var i := InputAt(f);
        assert Holds(Old(), f) && h[f.seqno - 1] == f;
      }
    }

    /** What the outputs made of an input that is the last write to its key. */
    lemma {:induction false} Output(h: seq<Entry>, n: Entry)
      requires Genuine(Old(), h) && ValidHistory(h) && Sound()
      requires n in ins && Newest(h, n.key) == Some(n)
      ensures Holds(New(), n) || (n.kind == DELETION && !HasKey(deep, n.key) && NoKey(low2, n.key))
    {
      hide Newest, HasKey;
      LastIsNewestIn(h, n);
      assert New()[|top| + |kept|] == low2;
      if n !in outs {
        forall x | x in low2 ensures x.key != n.key {
          if x in outs && x.key == n.key { SameSeqno(h, n, x); }
        }
      }
    }

    lemma {:induction false} SameSeqno(h: seq<Entry>, n: Entry, x: Entry)
      requires Genuine(Old(), h) && Sound() && n in ins && x in outs && x.key == n.key && NewestIn(ins, n)
      ensures x == n
    {
      hide HasKey;
      var i := InputAt(n);
      var j := InputAt(x);
      assert Holds(Old(), n) && Holds(Old(), x);
    }

    /** The last write to a key, when it was among the inputs. */
    lemma {:induction false} KeepsInput(h: seq<Entry>, n: Entry)
      requires Represents(Old(), h) && Sound()
      requires n in ins && Newest(h, n.key) == Some(n)
      ensures Holds(New(), n) || (n.kind == DELETION && !HasKey(New(), n.key))
    {
      hide Newest, Survivors, Covers, Genuine, NewestFirst, Sound;
      Output(h, n);
      if !Holds(New(), n) && HasKey(New(), n.key) {
        var x :| Holds(New(), x) && x.key == n.key;
        Shadowed(h, n, x);
      }
    }

    lemma {:induction false} Shadowed(h: seq<Entry>, n: Entry, x: Entry)
      requires Represents(Old(), h) && Sound()
      requires n in ins && Newest(h, n.key) == Some(n) && Holds(New(), x) && x.key == n.key
      requires NoKey(low2, n.key) && !HasKey(deep, n.key)
      ensures Holds(New(), n)
    {
      hide Newest, Survivors, Covers;
      var t, m' := |top|, |kept|;
      var i :| 0 <= i < |New()| && x in New()[i];
      FromBelow(i, x);
      if i < t {
        assert New()[i] == top[i] && Old()[i] == top[i];
        assert Holds(Old(), x) && h[x.seqno - 1] == x;
        AboveInputs(i, x, n);
        var j := InputAt(n);
        assert Holds(Old(), n) && h[n.seqno - 1] == n;
      } else if i < t + m' {
        assert New()[i] == kept[0];
        KeptCovers(h, n, x);
      }
    }

    lemma {:induction false} FromBelow(i: nat, x: Entry)
      requires i < |New()| && x in New()[i]
      ensures i >= |top| + |kept| ==> x in low2 || HasKey(deep, x.key)
    {
      var t, m' := |top|, |kept|;
      if i > t + m' {
        assert New()[i] == deep[i - t - m' - 1];
        assert Holds(deep, x);
      }
    }

    /** A newer entry that stays in the input level is the last write itself. */
    lemma {:induction false} KeptCovers(h: seq<Entry>, n: Entry, x: Entry)
      requires Represents(Old(), h) && Sound()
      requires n in ins && Newest(h, n.key) == Some(n)
      requires kept != [] && x in kept[0] && x.key == n.key
      ensures Holds(New(), n)
    {
      hide Newest, Survivors, Covers;
      var t := |top|;
      assert HasKey(kept, n.key) by { assert Holds(kept, x); }
      assert n in low;
      assert Old()[t] == mid[0] && Old()[t + 1] == low && New()[t] == kept[0];
      assert x.seqno <= n.seqno && x in h by { assert Holds(Old(), x) && h[x.seqno - 1] == x; }
      assert x.seqno >= n.seqno || n in mid[0] by { assert NotOlder(Old()[t], Old()[t + 1]); }
      if n in mid[0] {
        assert Holds(kept, n) by { assert Holds(mid, n); }
      }
    }

    lemma {:induction false} KeepsOther(n: Entry)
      requires Sound() && Holds(Old(), n) && n !in ins
      ensures Holds(New(), n)
    {
      hide Survivors, HasKey;
      var t, m, m' := |top|, |mid|, |kept|;
      var i :| 0 <= i < |Old()| && n in Old()[i];
      if i < t {
        assert New()[i] == Old()[i];
      } else if i < t + m {
        assert Old()[i] == mid[i - t];
        assert Holds(mid, n);
        assert New()[t] == kept[0];
      } else if i == t + m {
        assert Old()[i] == low && New()[t + m'] == low2;
      } else {
        assert Old()[i] == deep[i - t - m - 1] == New()[i - m + m'];
      }
    }

    lemma {:induction false} KeepsCover(h: seq<Entry>, k: Key)
      requires Represents(Old(), h) && Sound()
      ensures CoversKey(New(), h, k)
    {
      hide Newest, Sound, Holds, NewestFirst, Genuine;
      assert CoversKey(Old(), h, k);
      if Newest(h, k).Some? {
        var n := Newest(h, k).value;
        if !Holds(Old(), n) {
          if x :| Holds(New(), x) && x.key == k { NothingNew(x); }
        } else if n in ins {
          KeepsInput(h, n);
        } else {
          KeepsOther(n);
        }
      }
    }

    /** The stack still represents the same history. */
    lemma {:induction false} KeepsMeaning(h: seq<Entry>)
      requires Represents(Old(), h) && Sound()
      ensures Represents(New(), h)
    {
      KeepsOrder();
      forall e | Holds(New(), e) ensures 1 <= e.seqno <= |h| && h[e.seqno - 1] == e { NothingNew(e); }
      forall k ensures CoversKey(New(), h, k) { KeepsCover(h, k); }
    }
  }
}
