/**
  The mirrored order book and the delta applier: merging one change message into
  the periods of the current snapshot.
*/
module OrderBook {
  import opened JsonValues
  import opened PriceLevels

  /** The `(start, end)` pair that identifies a delivery period. */
  datatype PeriodKey = PeriodKey(start: string, end: string)

  /**
    A period of the snapshot. A list or the statistics may be absent; `rest` holds
    the keys the delta applier never touches.
  */
  datatype Period = Period(
    key: PeriodKey,
    statistics: Option<Blob>,
    buyList: Option<seq<PriceLevel>>,
    sellList: Option<seq<PriceLevel>>,
    rest: map<string, Blob>)

  /** One entry of a change message: the period it addresses and the sub-changes present. */
  datatype PeriodChange = PeriodChange(
    key: PeriodKey,
    statistics: Option<Blob>,
    buyChanges: Option<seq<IndexedOp>>,
    sellChanges: Option<seq<IndexedOp>>)

  /** The stored snapshot: the sequence number it was sent with and its periods. */
  datatype Book = Book(seqNo: Option<int>, periods: seq<Period>)

  /** The store before any snapshot has arrived. */
  const Empty: Book := Book(None, [])

  /** No period after position `i` shares its key, so a key lookup resolves to `i`. */
  predicate IsLastOfKey(ps: seq<Period>, i: nat)
    requires i < |ps|
  {
    forall j :: i < j < |ps| ==> ps[j].key != ps[i].key
  }

  /** The periods' keys, in order. */
  function Keys(ps: seq<Period>): (ks: seq<PeriodKey>)
    ensures |ks| == |ps|
  {
    seq(|ps|, i requires 0 <= i < |ps| => ps[i].key)
  }

  /** The keys of each period that the delta applier never touches, in order. */
  function Rests(ps: seq<Period>): (rs: seq<map<string, Blob>>)
    ensures |rs| == |ps|
  {
    seq(|ps|, i requires 0 <= i < |ps| => ps[i].rest)
  }

  /** Some entry of `changes` addresses key `k`. */
  predicate Mentions(changes: seq<PeriodChange>, k: PeriodKey) {
    exists j :: 0 <= j < |changes| && changes[j].key == k
  }

  /**
    The key index built from the snapshot before any change is applied; when two
    periods share a key, the later one is the one indexed.
  */
  function IndexByKey(ps: seq<Period>): (m: map<PeriodKey, nat>)
    ensures forall i :: 0 <= i < |ps| ==> ps[i].key in m
    ensures forall k :: k in m ==> m[k] < |ps| && ps[m[k]].key == k
    decreases |ps|
  {
    if |ps| == 0 then map[]
    else
      var prefix := ps[..|ps| - 1];
      assert forall i :: 0 <= i < |prefix| ==> prefix[i] == ps[i];
      IndexByKey(prefix)[ps[|ps| - 1].key := |ps| - 1]
  }

  /** When periods share a key, the index holds the last of them. */
  lemma {:induction false} IndexByKeyLastWins(ps: seq<Period>, k: PeriodKey)
    requires k in IndexByKey(ps)
    ensures IsLastOfKey(ps, IndexByKey(ps)[k])
    decreases |ps|
  {
    var n := |ps| - 1;
    var prefix := ps[..n];
    if ps[n].key != k {
      IndexByKeyLastWins(prefix, k);
      var i := IndexByKey(prefix)[k];
      forall j | i < j < |ps|
        ensures ps[j].key != ps[i].key
      {
        if j < n {
          assert prefix[j] == ps[j] && prefix[i] == ps[i];
        }
      }
    }
  }

  /** One side after its changes: a missing list is created empty first; absent changes leave it. */
  function ApplySideChanges(list: Option<seq<PriceLevel>>, ops: Option<seq<IndexedOp>>): (r: Option<seq<PriceLevel>>) {
    if ops.Some? then Some(ApplyOps(list.GetOr([]), ops.value)) else list
  }

  /**
    Merges one period change into its target: statistics are replaced wholesale when
    present, and each present side has its operations applied in order.
  */
  function ApplyToPeriod(p: Period, c: PeriodChange): (q: Period)
    ensures q.key == p.key && q.rest == p.rest
    ensures c.statistics.Some? ==> q.statistics == c.statistics
    ensures c.statistics.None? ==> q.statistics == p.statistics
    ensures c.buyChanges.None? ==> q.buyList == p.buyList
    ensures c.buyChanges.Some? && p.buyList.None? ==> q.buyList == Some(ApplyOps([], c.buyChanges.value))
    ensures c.buyChanges.Some? && p.buyList.Some? ==> q.buyList == Some(ApplyOps(p.buyList.value, c.buyChanges.value))
    ensures c.sellChanges.None? ==> q.sellList == p.sellList
    ensures c.sellChanges.Some? && p.sellList.None? ==> q.sellList == Some(ApplyOps([], c.sellChanges.value))
    ensures c.sellChanges.Some? && p.sellList.Some? ==> q.sellList == Some(ApplyOps(p.sellList.value, c.sellChanges.value))
  {
    p.(statistics := if c.statistics.Some? then c.statistics else p.statistics,
       buyList := ApplySideChanges(p.buyList, c.buyChanges),
       sellList := ApplySideChanges(p.sellList, c.sellChanges))
  }

  /** Position `i` is the indexed target of some entry of `changes`. */
  predicate Targets(index: map<PeriodKey, nat>, changes: seq<PeriodChange>, i: nat) {
    exists j :: 0 <= j < |changes| && changes[j].key in index && index[changes[j].key] == i
  }

  /**
    The period changes applied in listed order against a fixed key index; a change
    whose key is not indexed is skipped. Periods keep their keys and positions, and a
    period no change targets is untouched.
  */
  function ApplyAll(ps: seq<Period>, index: map<PeriodKey, nat>, changes: seq<PeriodChange>): (r: seq<Period>)
    requires forall k :: k in index ==> index[k] < |ps|
    ensures |r| == |ps|
    ensures forall i :: 0 <= i < |ps| ==> r[i].key == ps[i].key && r[i].rest == ps[i].rest
    ensures forall i :: 0 <= i < |ps| && !Targets(index, changes, i) ==> r[i] == ps[i]
    decreases |changes|
  {
    if |changes| == 0 then ps
    else
      var prev := ApplyAll(ps, index, changes[..|changes| - 1]);
      var c := changes[|changes| - 1];
      if c.key in index then
        var i := index[c.key];
        prev[i := ApplyToPeriod(prev[i], c)]
      else prev
  }

  /**
    Merges a change message's period changes into the book. The book keeps its
    sequence number, and its periods keep their keys and order.
  */
  function ApplyChange(book: Book, changes: seq<PeriodChange>): (r: Book)
    ensures r.seqNo == book.seqNo
    ensures Keys(r.periods) == Keys(book.periods)
    ensures Rests(r.periods) == Rests(book.periods)
  {
    var index := IndexByKey(book.periods);
    var r := Book(book.seqNo, ApplyAll(book.periods, index, changes));
    assert Keys(r.periods) == Keys(book.periods);
    assert Rests(r.periods) == Rests(book.periods);
    r
  }

  /** The index sends a change only to the last period with the change's key. */
  lemma TargetedIsMentionedLast(ps: seq<Period>, changes: seq<PeriodChange>, i: nat)
    requires i < |ps|
    ensures Targets(IndexByKey(ps), changes, i) ==> Mentions(changes, ps[i].key) && IsLastOfKey(ps, i)
  {
    var index := IndexByKey(ps);
    if Targets(index, changes, i) {
      var j :| 0 <= j < |changes| && changes[j].key in index && index[changes[j].key] == i;
      IndexByKeyLastWins(ps, changes[j].key);
    }
  }

  /** A period is modified only when some change names its key and no later period shares that key. */
  lemma ApplyChangeFrame(book: Book, changes: seq<PeriodChange>, i: nat)
    requires i < |book.periods|
    requires !Mentions(changes, book.periods[i].key) || !IsLastOfKey(book.periods, i)
    ensures ApplyChange(book, changes).periods[i] == book.periods[i]
  {
    TargetedIsMentionedLast(book.periods, changes, i);
  }

  /** A change whose key no period has leaves the whole book unchanged. */
  lemma UnmatchedChangeNoop(book: Book, c: PeriodChange)
    requires forall i :: 0 <= i < |book.periods| ==> book.periods[i].key != c.key
    ensures ApplyChange(book, [c]) == book
  {
    var r := ApplyChange(book, [c]);
    forall i | 0 <= i < |book.periods|
      ensures r.periods[i] == book.periods[i]
    {
      assert !Mentions([c], book.periods[i].key) by {
        assert [c][0] == c;
      }
      ApplyChangeFrame(book, [c], i);
    }
  }

  /** A change to a key the book has lands on the last period with that key. */
  lemma MatchedChangeLands(book: Book, c: PeriodChange, i: nat)
    requires i < |book.periods| && book.periods[i].key == c.key && IsLastOfKey(book.periods, i)
    ensures ApplyChange(book, [c]).periods[i] == ApplyToPeriod(book.periods[i], c)
  {
    var index := IndexByKey(book.periods);
    assert [c][..0] == [];
    IndexByKeyLastWins(book.periods, c.key);
    assert index[c.key] == i;
  }

  /** Of two periods sharing a key, the earlier one is never modified. */
  lemma EarlierDuplicateUntouched(book: Book, changes: seq<PeriodChange>, i: nat, j: nat)
    requires i < j < |book.periods| && book.periods[i].key == book.periods[j].key
    ensures ApplyChange(book, changes).periods[i] == book.periods[i]
  {
    assert !IsLastOfKey(book.periods, i);
    ApplyChangeFrame(book, changes, i);
  }

  /** The key index depends on the periods' keys alone. */
  lemma {:induction false} IndexByKeySameKeys(ps: seq<Period>, qs: seq<Period>)
    requires Keys(ps) == Keys(qs)
    ensures IndexByKey(ps) == IndexByKey(qs)
    decreases |ps|
  {
    if |ps| > 0 {
      var n := |ps| - 1;
      assert Keys(ps[..n]) == Keys(qs[..n]) by {
        forall i | 0 <= i < n
          ensures Keys(ps[..n])[i] == Keys(qs[..n])[i]
        {
          assert Keys(ps)[i] == Keys(qs)[i];
        }
      }
      IndexByKeySameKeys(ps[..n], qs[..n]);
      assert Keys(ps)[n] == Keys(qs)[n];
    }
  }

  /**
    Indexing once and applying the whole message is the same as applying its period
    changes one at a time, each to the book the previous one left behind.
  */
  lemma ApplyChangeSequential(book: Book, changes: seq<PeriodChange>, c: PeriodChange)
    ensures ApplyChange(book, changes + [c]) == ApplyChange(ApplyChange(book, changes), [c])
  {
    var ps := book.periods;
    var index := IndexByKey(ps);
    var mid := ApplyAll(ps, index, changes);
    assert ApplyChange(book, changes) == Book(book.seqNo, mid);
    IndexByKeySameKeys(ps, mid);
    assert IndexByKey(mid) == index;
    assert (changes + [c])[..|changes|] == changes;
    assert ApplyAll(ps, index, changes + [c]) == ApplyAll(mid, index, [c]) by {
      assert [c][..0] == [];
      assert ApplyAll(mid, index, []) == mid;
    }
  }
}
