/**
  One side (buy or sell) of a period: an ordered list of price levels, and the
  indexed `add` / `update` / `remove` operations a change message carries for it.
  The order of the list is the server's ranking; the client never sorts it.
*/
module PriceLevels {
  import opened JsonValues

  /** A price level; `rest` holds any other keys the level carried in the snapshot. */
  datatype PriceLevel = PriceLevel(price: Value, quantity: Value, ownQuantity: Value, rest: map<string, Blob>)

  /** The `action` of an indexed operation; an absent or unknown action is `Unrecognised`. */
  datatype Action = Add | Update | Remove | Unrecognised

  /** One entry of `buyChanges` / `sellChanges`; `None` fields are keys absent from the entry. */
  datatype IndexedOp = IndexedOp(
    index: Option<nat>,
    action: Action,
    price: Option<Value>,
    quantity: Option<Value>,
    ownQuantity: Option<Value>)

  /**
    Level `l` holds the three values `op` writes: an absent price or quantity is
    written as null, an absent ownQuantity as 0.
  */
  predicate Carries(l: PriceLevel, op: IndexedOp) {
    && l.price == op.price.GetOr(Null)
    && l.quantity == op.quantity.GetOr(Null)
    && l.ownQuantity == op.ownQuantity.GetOr(Num(0.0))
  }

  /** Whether `op` has an effect on a list of length `n`. */
  predicate InBounds(op: IndexedOp, n: nat) {
    && op.index.Some?
    && match op.action
       case Add => op.index.value <= n
       case Update => op.index.value < n
       case Remove => op.index.value < n
       case Unrecognised => false
  }

  /**
    Applies one operation. `add` inserts a fresh level at the index (later levels
    shift right), `update` overwrites the three values in place, `remove` deletes
    the level (later levels shift left); a missing or out-of-range index, or an
    unrecognised action, leaves the list as it is.
  */
  function ApplyOp(list: seq<PriceLevel>, op: IndexedOp): (r: seq<PriceLevel>)
    ensures !InBounds(op, |list|) ==> r == list
    ensures InBounds(op, |list|) && op.action == Add ==>
              var k := op.index.value;
              && |r| == |list| + 1
              && Carries(r[k], op) && r[k].rest == map[]
              && (forall i :: 0 <= i < k ==> r[i] == list[i])
              && (forall i :: k <= i < |list| ==> r[i + 1] == list[i])
    ensures InBounds(op, |list|) && op.action == Update ==>
              var k := op.index.value;
              && |r| == |list|
              && Carries(r[k], op) && r[k].rest == list[k].rest
              && (forall i :: 0 <= i < |list| && i != k ==> r[i] == list[i])
    ensures InBounds(op, |list|) && op.action == Remove ==>
              var k := op.index.value;
              && |r| + 1 == |list|
              && (forall i :: 0 <= i < k ==> r[i] == list[i])
              && (forall i :: k <= i < |r| ==> r[i] == list[i + 1])
              && multiset(r) + multiset{list[k]} == multiset(list)
  {
    var written := (op.price.GetOr(Null), op.quantity.GetOr(Null), op.ownQuantity.GetOr(Num(0.0)));
    match op.action
    case Add =>
      if op.index.Some? && op.index.value <= |list| then
        var k := op.index.value;
        list[..k] + [PriceLevel(written.0, written.1, written.2, map[])] + list[k..]
      else list
    case Update =>
      if op.index.Some? && op.index.value < |list| then
        var k := op.index.value;
        list[k := list[k].(price := written.0, quantity := written.1, ownQuantity := written.2)]
      else list
    case Remove =>
      if op.index.Some? && op.index.value < |list| then
        var k := op.index.value;
        assert list == list[..k] + [list[k]] + list[k + 1..];
        list[..k] + list[k + 1..]
      else list
    case Unrecognised => list
  }

  /**
    The operations of one side, applied left to right, each to the list the
    previous one left behind. Every operation moves the length by at most one,
    and only `add` can make the list longer.
  */
  function ApplyOps(list: seq<PriceLevel>, ops: seq<IndexedOp>): (r: seq<PriceLevel>)
    ensures |list| <= |r| + |ops| && |r| <= |list| + |ops|
    ensures (forall j :: 0 <= j < |ops| ==> ops[j].action != Add) ==> |r| <= |list|
    ensures (forall j :: 0 <= j < |ops| ==> ops[j].action != Add && ops[j].action != Remove) ==> |r| == |list|
    decreases |ops|
  {
    if |ops| == 0 then list
    else ApplyOp(ApplyOps(list, ops[..|ops| - 1]), ops[|ops| - 1])
  }

  /** The loop over one side's operations, updating the list in place as the client does. */
  method ApplySide(list: seq<PriceLevel>, ops: seq<IndexedOp>) returns (r: seq<PriceLevel>)
    ensures r == ApplyOps(list, ops)
  {
    r := list;
    for i := 0 to |ops|
      invariant r == ApplyOps(list, ops[..i])
    {
      assert ops[..i + 1][..i] == ops[..i];
      r := ApplyOp(r, ops[i]);
    }
    assert ops[..|ops|] == ops;
  }

  /** Applying `a` and then `b` is applying their concatenation. */
  lemma {:induction false} ApplyOpsConcat(list: seq<PriceLevel>, a: seq<IndexedOp>, b: seq<IndexedOp>)
    ensures ApplyOps(list, a + b) == ApplyOps(ApplyOps(list, a), b)
    decreases |b|
  {
    if |b| == 0 {
      assert a + b == a;
    } else {
      var b' := b[..|b| - 1];
      ApplyOpsConcat(list, a, b');
      assert (a + b)[..|a + b| - 1] == a + b';
    }
  }

  /** The first operation acts on the original list; the rest act on its result. */
  lemma ApplyOpsFirst(list: seq<PriceLevel>, op: IndexedOp, ops: seq<IndexedOp>)
    ensures ApplyOps(list, [op] + ops) == ApplyOps(ApplyOp(list, op), ops)
  {
    ApplyOpsConcat(list, [op], ops);
    assert [op][..0] == [];
  }

  /** A side whose operations all lack an index or an action leaves the list as it is. */
  lemma {:induction false} InertOpsNoop(list: seq<PriceLevel>, ops: seq<IndexedOp>)
    requires forall j :: 0 <= j < |ops| ==> ops[j].index.None? || ops[j].action == Unrecognised
    ensures ApplyOps(list, ops) == list
    decreases |ops|
  {
    if |ops| > 0 {
      InertOpsNoop(list, ops[..|ops| - 1]);
    }
  }
}
