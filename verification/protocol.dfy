/**
  The protocol state machine of the receive loop, as a pure step function: one
  event (an inbound message, or a snapshot request from the operator or the
  periodic timer) takes the mirror's state to a new state and an outcome.
*/
module Protocol {
  import opened JsonValues
  import opened OrderBook

  /** An inbound message, already decoded and classified by its `type`. */
  datatype Message =
    | Ping
    | Snapshot(book: Book)
    | Change(seqNo: Option<int>, changes: seq<PeriodChange>)
    | Unknown(msgType: Option<string>)

  /** What the loop reacts to: a received message, or a pending snapshot request. */
  datatype Event = Received(msg: Message) | SnapshotRequested

  /** What the loop does besides updating the state. */
  datatype Outcome = Continue | SendPong | SendSnapshotRequest | AbandonSession

  /**
    The mirror's state: the stored book, the last applied sequence number (absent
    until a snapshot carrying one arrives) and whether changes are being dropped
    while a requested snapshot is awaited.
  */
  datatype State = State(book: Book, lastSeqNo: Option<int>, ignoreChanges: bool)

  /** The result of one step: the new state and what the loop does next. */
  datatype Stepped = Stepped(state: State, outcome: Outcome)

  /** The state when the client starts. */
  const Initial: State := State(Empty, None, false)

  /** A change with sequence number `seqNo` continues the stream from `s`. */
  predicate Follows(s: State, seqNo: Option<int>) {
    s.lastSeqNo.Some? && seqNo == Some(s.lastSeqNo.value + 1)
  }

  predicate IsSnapshot(e: Event) {
    e.Received? && e.msg.Snapshot?
  }

  predicate IsChange(e: Event) {
    e.Received? && e.msg.Change?
  }

  /** A change that is neither suppressed nor out of sequence. */
  predicate Accepts(s: State, e: Event) {
    IsChange(e) && !s.ignoreChanges && Follows(s, e.msg.seqNo)
  }

  /** One iteration of the receive loop. */
  function Step(s: State, e: Event): (r: Stepped)
    // The session is abandoned exactly on a gap in a change that is not suppressed, and nothing changes then.
    ensures r.outcome == AbandonSession <==> IsChange(e) && !s.ignoreChanges && !Follows(s, e.msg.seqNo)
    ensures r.outcome == AbandonSession ==> r.state == s
    ensures r.outcome == SendPong <==> e == Received(Ping)
    ensures r.outcome == SendSnapshotRequest <==> e == SnapshotRequested
    // A snapshot replaces everything, whatever the state before.
    ensures IsSnapshot(e) ==> r.state == State(e.msg.book, e.msg.book.seqNo, false)
    // A request only raises the suppression flag.
    ensures e == SnapshotRequested ==> r.state == s.(ignoreChanges := true)
    // While a request is pending, only a snapshot can change the book or the sequence number.
    ensures s.ignoreChanges && !IsSnapshot(e) ==> r.state == s
    // An accepted change advances the sequence number by one and merges into the book.
    ensures Accepts(s, e) ==>
              && r.state.lastSeqNo == Some(s.lastSeqNo.value + 1)
              && r.state.book == ApplyChange(s.book, e.msg.changes)
              && r.state.ignoreChanges == s.ignoreChanges
    ensures !Accepts(s, e) && !IsSnapshot(e) ==> r.state.book == s.book && r.state.lastSeqNo == s.lastSeqNo
    // A ping or a message of any other type changes nothing.
    ensures e == Received(Ping) || (e.Received? && e.msg.Unknown?) ==> r.state == s
  {
    match e
    case SnapshotRequested => Stepped(s.(ignoreChanges := true), SendSnapshotRequest)
    case Received(msg) =>
      match msg
      case Ping => Stepped(s, SendPong)
      case Snapshot(book) => Stepped(State(book, book.seqNo, false), Continue)
      case Change(seqNo, changes) =>
        if s.ignoreChanges then Stepped(s, Continue)
        else if s.lastSeqNo.None? || seqNo != Some(s.lastSeqNo.value + 1) then Stepped(s, AbandonSession)
        else Stepped(s.(lastSeqNo := seqNo, book := ApplyChange(s.book, changes)), Continue)
      case Unknown(_) => Stepped(s, Continue)
  }

  /**
    The state after a sequence of events. The state outlives a session: after an
    abandoned session the next one resumes from the same state.
  */
  function Run(s: State, events: seq<Event>): (r: State)
    // Without a snapshot, the book keeps its periods in order and its stored sequence number.
    ensures NoSnapshot(events) ==> Keys(r.book.periods) == Keys(s.book.periods) && r.book.seqNo == s.book.seqNo
    decreases |events|
  {
    if |events| == 0 then s
    else Step(Run(s, events[..|events| - 1]), events[|events| - 1]).state
  }

  predicate NoSnapshot(events: seq<Event>) {
    forall j :: 0 <= j < |events| ==> !IsSnapshot(events[j])
  }

  lemma {:induction false} RunConcat(s: State, a: seq<Event>, b: seq<Event>)
    ensures Run(s, a + b) == Run(Run(s, a), b)
    decreases |b|
  {
    if |b| == 0 {
      assert a + b == a;
    } else {
      RunConcat(s, a, b[..|b| - 1]);
      assert (a + b)[..|a + b| - 1] == a + b[..|b| - 1];
    }
  }

  /**
    Once a snapshot has been requested, every later change is dropped, whatever its
    sequence number, until a snapshot arrives.
  */
  lemma {:induction false} ResyncSuppression(s: State, events: seq<Event>)
    requires s.ignoreChanges && NoSnapshot(events)
    ensures Run(s, events) == s
    decreases |events|
  {
    if |events| > 0 {
      ResyncSuppression(s, events[..|events| - 1]);
    }
  }

  /** Without a snapshot, the sequence number never decreases and never disappears. */
  lemma {:induction false} SeqNoMonotonic(s: State, events: seq<Event>)
    requires s.lastSeqNo.Some? && NoSnapshot(events)
    ensures Run(s, events).lastSeqNo.Some?
    ensures Run(s, events).lastSeqNo.value >= s.lastSeqNo.value
    decreases |events|
  {
    if |events| > 0 {
      SeqNoMonotonic(s, events[..|events| - 1]);
    }
  }

  /** The book after merging the change lists of `events`, in order. */
  function MergeAll(book: Book, events: seq<Event>): (r: Book)
    decreases |events|
  {
    if |events| == 0 then book
    else
      var last := events[|events| - 1];
      var prev := MergeAll(book, events[..|events| - 1]);
      if IsChange(last) then ApplyChange(prev, last.msg.changes) else prev
  }

  /** An accepted change, as a step: the merge and the next sequence number, nothing else. */
  lemma AcceptedStep(s: State, e: Event)
    requires Accepts(s, e)
    ensures Step(s, e).state == State(ApplyChange(s.book, e.msg.changes), Some(s.lastSeqNo.value + 1), s.ignoreChanges)
  {
  }

  /** Every event is a change, numbered consecutively from `first`. */
  predicate NumberedFrom(events: seq<Event>, first: int) {
    forall j :: 0 <= j < |events| ==> IsChange(events[j]) && events[j].msg.seqNo == Some(first + j)
  }

  /**
    A gap-free stream of changes, numbered on from the last applied one, is applied
    in full: the sequence number ends advanced by the number of changes and the book
    holds every change merged in order.
  */
  lemma {:induction false} ContiguousChangesApply(s: State, events: seq<Event>)
    requires !s.ignoreChanges && s.lastSeqNo.Some?
    requires NumberedFrom(events, s.lastSeqNo.value + 1)
    ensures Run(s, events).lastSeqNo == Some(s.lastSeqNo.value + |events|)
    ensures !Run(s, events).ignoreChanges
    ensures Run(s, events).book == MergeAll(s.book, events)
    decreases |events|
  {
    if |events| > 0 {
      var n := |events| - 1;
      var prefix := events[..n];
      NumberedPrefix(events, s.lastSeqNo.value + 1);
      ContiguousChangesApply(s, prefix);
      var mid := Run(s, prefix);
      AcceptedStep(mid, events[n]);
      assert Run(s, events) == Step(mid, events[n]).state;
    }
  }

  /** A numbered stream stays numbered without its last event, and that event is the next change. */
  lemma NumberedPrefix(events: seq<Event>, first: int)
    requires |events| > 0 && NumberedFrom(events, first)
    ensures NumberedFrom(events[..|events| - 1], first)
    ensures IsChange(events[|events| - 1]) && events[|events| - 1].msg.seqNo == Some(first + |events| - 1)
  {
    var prefix := events[..|events| - 1];
    forall j | 0 <= j < |prefix|
      ensures IsChange(prefix[j]) && prefix[j].msg.seqNo == Some(first + j)
    {
      assert prefix[j] == events[j];
    }
  }

  /** Before the first snapshot with a sequence number, no change is ever applied. */
  lemma {:induction false} UnsyncedNeverApplies(s: State, events: seq<Event>)
    requires s.lastSeqNo.None? && NoSnapshot(events)
    ensures Run(s, events).book == s.book && Run(s, events).lastSeqNo.None?
    decreases |events|
  {
    if |events| > 0 {
      UnsyncedNeverApplies(s, events[..|events| - 1]);
    }
  }

  /** A snapshot erases history: what follows it does not depend on the state before it. */
  lemma SnapshotForgetsHistory(s: State, t: State, book: Book, events: seq<Event>)
    ensures Run(s, [Received(Snapshot(book))] + events) == Run(t, [Received(Snapshot(book))] + events)
  {
    RunConcat(s, [Received(Snapshot(book))], events);
    RunConcat(t, [Received(Snapshot(book))], events);
    assert [Received(Snapshot(book))][..0] == [];
  }

  /** An abandoned session leaves the state as if the out-of-sequence change had never arrived. */
  lemma AbandonedChangeIsInvisible(s: State, e: Event, events: seq<Event>)
    requires Step(s, e).outcome == AbandonSession
    ensures Run(s, [e] + events) == Run(s, events)
  {
    RunConcat(s, [e], events);
    assert [e][..0] == [];
  }
}
