/** Worked message sequences, stated as lemmas about the model. */
module Scenarios {
  import opened JsonValues
  import opened PriceLevels
  import opened OrderBook
  import opened Protocol

  /** A level with the given price and quantity, no own quantity and no other keys. */
  function Level(price: real, quantity: real): (l: PriceLevel) {
    PriceLevel(Num(price), Num(quantity), Num(0.0), map[])
  }

  /** The delivery period every scenario uses. */
  const Key: PeriodKey := PeriodKey("2025-01-01T10:00:00Z", "2025-01-01T10:15:00Z")

  /** A snapshot numbered `seqNo` with one period whose buy side is `buy`. */
  function OnePeriod(seqNo: int, buy: seq<PriceLevel>): (b: Book) {
    Book(Some(seqNo), [Period(Key, None, Some(buy), None, map[])])
  }

  /**
    An update at index 0 that omits ownQuantity rewrites the first level with
    ownQuantity 0 and advances the sequence number from 10 to 11.
  */
  lemma ScenarioUpdateInSequence()
    ensures
      var snap := OnePeriod(10, [Level(100.0, 5.0), Level(99.0, 3.0)]);
      var op := IndexedOp(Some(0), Update, Some(Num(101.0)), Some(Num(4.0)), None);
      var change := Change(Some(11), [PeriodChange(Key, None, Some([op]), None)]);
      var s := Run(Initial, [Received(Snapshot(snap)), Received(change)]);
      && s.lastSeqNo == Some(11)
      && s.book == OnePeriod(10, [Level(101.0, 4.0), Level(99.0, 3.0)])
  {
    var snap := OnePeriod(10, [Level(100.0, 5.0), Level(99.0, 3.0)]);
    var op := IndexedOp(Some(0), Update, Some(Num(101.0)), Some(Num(4.0)), None);
    var pc := PeriodChange(Key, None, Some([op]), None);
    var events := [Received(Snapshot(snap)), Received(Change(Some(11), [pc]))];
    assert events[..1] == [Received(Snapshot(snap))];
    assert events[..1][..0] == [];
    var s1 := Run(Initial, events[..1]);
    assert s1 == State(snap, Some(10), false);
    MatchedChangeLands(snap, pc, 0);
    var after := ApplyChange(snap, [pc]);
    assert [op][..0] == [];
    var buy := [Level(101.0, 4.0), Level(99.0, 3.0)];
    assert ApplyOps([Level(100.0, 5.0), Level(99.0, 3.0)], [op]) == buy;
    assert after.periods[0] == Period(Key, None, Some(buy), None, map[]);
    assert after.periods == [Period(Key, None, Some(buy), None, map[])];
  }

  /** A change numbered 12 after snapshot 10 abandons the session and keeps the state. */
  lemma ScenarioGap()
    ensures
      var s := Run(Initial, [Received(Snapshot(OnePeriod(10, [Level(100.0, 5.0)])))]);
      var r := Step(s, Received(Change(Some(12), [])));
      && r.outcome == AbandonSession
      && r.state == s
      && r.state.lastSeqNo == Some(10)
  {
    var events := [Received(Snapshot(OnePeriod(10, [Level(100.0, 5.0)])))];
    assert events[..0] == [];
  }

  /**
    Operations of one side see each other's effects: an add at index 1 then a
    remove at index 0 leaves only the added level.
  */
  lemma ScenarioAddThenRemove()
    ensures
      var add := IndexedOp(Some(1), Add, Some(Num(99.0)), Some(Num(2.0)), Some(Num(0.0)));
      var remove := IndexedOp(Some(0), Remove, None, None, None);
      ApplyOps([Level(100.0, 5.0)], [add, remove]) == [Level(99.0, 2.0)]
  {
    var add := IndexedOp(Some(1), Add, Some(Num(99.0)), Some(Num(2.0)), Some(Num(0.0)));
    var remove := IndexedOp(Some(0), Remove, None, None, None);
    assert [add, remove][..1] == [add];
    assert [add][..0] == [];
    assert ApplyOp([Level(100.0, 5.0)], add) == [Level(100.0, 5.0), Level(99.0, 2.0)];
  }

  /** While a snapshot request is pending, even a correctly numbered change is dropped. */
  lemma ScenarioSuppressedChange()
    ensures
      var s := Run(Initial, [Received(Snapshot(OnePeriod(10, []))), SnapshotRequested]);
      var r := Step(s, Received(Change(Some(11), [PeriodChange(Key, Some("{}"), None, None)])));
      && r.outcome == Continue
      && r.state.book == OnePeriod(10, [])
      && r.state.lastSeqNo == Some(10)
  {
    var events := [Received(Snapshot(OnePeriod(10, []))), SnapshotRequested];
    assert events[..1] == [Received(Snapshot(OnePeriod(10, [])))];
    assert events[..1][..0] == [];
  }
}
