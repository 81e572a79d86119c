# OKTE order-book mirror: state synchronisation engine in Dafny

The OKTE websocket client keeps a local mirror of the intraday order book. The
server sends a full `orderbook-snapshot` and then numbered `orderbook-change`
messages. The client must apply each change in order, detect gaps in the
sequence numbers, and resynchronise by asking for a fresh snapshot.

This project models the two pure parts of that client:

- **Delta applier** (`update_orderbook_with_change`), in modules `PriceLevels` and `OrderBook`.
  - A key index maps each `(start, end)` pair to the snapshot's periods. A later period with the same key wins.
  - Change periods whose key is not in the index are skipped.
  - `statistics` are replaced wholesale.
  - A missing `buyList` / `sellList` is created empty before its operations run.
  - Indexed `add` / `update` / `remove` operations are applied left to right. Each one is bounds-guarded.
- **Protocol step function** (the body of the receive loop in `connect_and_listen`), in module `Protocol`.
  - The state is the stored book, `lastSeqNo` and the `ignoreChanges` flag.
  - The events are a received message (`ping`, snapshot, change, or any other type) or a snapshot request. A snapshot request comes from the operator's `send` command or from the periodic sender.
  - Each step returns the new state and an outcome: `Continue`, `SendPong`, `SendSnapshotRequest` or `AbandonSession`.

The model works on already-decoded messages. JSON objects are datatypes. A key that may be absent is an `Option`. Statistics and other opaque JSON are kept as `Blob` text.

`Run` folds `Step` over a sequence of events. In the source, the book, `last_seq_no` and `ignore_changes` are module globals. A reconnect does not reset them, so `Run` keeps the state across an `AbandonSession`.

`ApplyChange` builds the key index once, before any period change is applied, as the source does. `ApplyChangeSequential` proves that this is the same as applying the period changes one at a time, each to the book the previous one left.

The stored book keeps the sequence number of its snapshot. The source never writes the applied change's `seqNo` into the stored payload. `ApplyChange` states this in its contract.

## Behaviour worth knowing

- A snapshot request raises `ignoreChanges` in any state, including before the first snapshot. It is not limited to a synchronised state (okte-websocket-client.py:149-153, 121).
- After a gap, the session is abandoned but nothing is reset. The next session resumes with the same book, `lastSeqNo` and flag, and no snapshot request is sent. `AbandonedChangeIsInvisible` states this.
- A snapshot without `seqNo` leaves `lastSeqNo` absent. Until a snapshot that carries a number arrives, every following change that is not suppressed abandons the session (the contract of `Step`). `UnsyncedNeverApplies` states that none of them is applied.
- A suppressed change is dropped before the gap check. So while a request is pending, even an out-of-sequence change does not abandon the session.

## Model

| member | source | states |
|---|---|---|
| PriceLevels.ApplyOp | okte-websocket-client.py:91-110 | add at k ≤ length inserts a level with the op's values (absent price/quantity as null, absent ownQuantity as 0, no other keys) at k, keeps earlier levels and shifts later ones right by one; update at k < length rewrites only the three values at k, keeps that level's other keys and every other position; remove at k < length drops exactly the level at k (multiset minus that level) and shifts later ones left; a missing or out-of-range index or an unrecognised action leaves the list unchanged |
| PriceLevels.ApplyOps | okte-websocket-client.py:90-110 | applying one side's operations in order moves the length by at most one per operation; without adds the list never grows, and with only updates or unrecognised actions its length is unchanged |
| PriceLevels.ApplySide | okte-websocket-client.py:88-110 | the in-place loop over one side's operations computes the left-to-right fold of single operations |
| PriceLevels.ApplyOpsConcat | okte-websocket-client.py:90-110 | applying two runs of operations one after the other equals applying their concatenation |
| PriceLevels.ApplyOpsFirst | okte-websocket-client.py:90-110 | the first operation acts on the original list and every later one on the list it leaves |
| PriceLevels.InertOpsNoop | okte-websocket-client.py:91-110 | operations that all lack an index or carry an unrecognised action leave the list unchanged |
| OrderBook.IndexByKey | okte-websocket-client.py:64-67 | every period's key is indexed, and each indexed key maps to a position holding a period with that key |
| OrderBook.IndexByKeyLastWins | okte-websocket-client.py:64-67 | when periods share a key, the index holds the last of them: no later period has the indexed key |
| OrderBook.ApplyToPeriod | okte-websocket-client.py:81-110 | present statistics replace the old ones wholesale and absent ones keep them; a present side has its operations applied to the existing list, or to a fresh empty list if the period had none (the helper ApplySideChanges models `setdefault`); an absent side keeps its list; the key and untouched keys are preserved |
| OrderBook.ApplyAll | okte-websocket-client.py:69-73 | with a fixed key index, period changes applied in order keep every period's position, key and untouched keys, and leave every period that no change targets as it was |
| OrderBook.ApplyChange | okte-websocket-client.py:63-110 | merging a change message keeps the book's stored sequence number, the periods' keys in their order, and every period's untouched keys |
| OrderBook.TargetedIsMentionedLast | okte-websocket-client.py:69-73 | the index routes a change only to a period whose key the change names and which no later period shares |
| OrderBook.ApplyChangeFrame | okte-websocket-client.py:63-73 | a period is left as it was unless some change names its key and no later period shares that key |
| OrderBook.UnmatchedChangeNoop | okte-websocket-client.py:69-72 | a change whose key no period has leaves the whole book unchanged |
| OrderBook.MatchedChangeLands | okte-websocket-client.py:70-73 | a change naming a key present in the book is merged into the last period with that key |
| OrderBook.EarlierDuplicateUntouched | okte-websocket-client.py:64-67 | of two periods sharing a key, the earlier is never modified by any change message |
| OrderBook.IndexByKeySameKeys | okte-websocket-client.py:64-67 | the key index depends only on the periods' keys, so merging changes never moves a key's target |
| OrderBook.ApplyChangeSequential | okte-websocket-client.py:69-73 | applying a message's period changes against an index built once equals applying them one at a time, each to the book the previous one left |
| Protocol.Step | okte-websocket-client.py:148-189 | ping and messages of any other type leave the whole state unchanged; a session is abandoned exactly when a change arrives with no suppression and a sequence number that is not lastSeqNo + 1, and the state is then unchanged; ping yields pong; a snapshot replaces the book, sets lastSeqNo to its seqNo and clears suppression whatever the prior state; a request sets only the suppression flag; while suppression is on, nothing but a snapshot changes the state; an accepted change advances lastSeqNo by exactly one and merges into the book; every other event keeps the book and lastSeqNo |
| Protocol.Run | okte-websocket-client.py:132-189 | folds Step over events across sessions, since an abandoned session resets nothing; without a snapshot, the book keeps its periods' keys in order and its stored sequence number |
| Protocol.RunConcat | okte-websocket-client.py:148-189 | running two event sequences one after the other equals running their concatenation |
| Protocol.ContiguousChangesApply | okte-websocket-client.py:177-185 | from a synchronised state, a gap-free stream of changes is applied in full: lastSeqNo ends advanced by the number of changes and the book holds each change merged in order |
| Protocol.ResyncSuppression | okte-websocket-client.py:149-153 | after a snapshot request, any sequence of events without a snapshot leaves the state unchanged, whatever the changes' sequence numbers |
| Protocol.SeqNoMonotonic | okte-websocket-client.py:181-184 | without a snapshot, lastSeqNo stays present and never decreases |
| Protocol.UnsyncedNeverApplies | okte-websocket-client.py:181-183 | while lastSeqNo is absent and no snapshot arrives, no change ever modifies the book |
| Protocol.SnapshotForgetsHistory | okte-websocket-client.py:171-174 | after a snapshot, the run does not depend on the state before it |
| Protocol.AbandonedChangeIsInvisible | okte-websocket-client.py:181-183 | an out-of-sequence change that abandons the session leaves later processing as if it had never arrived |
| Scenarios.ScenarioUpdateInSequence | okte-websocket-client.py:171-185 | snapshot 10 with levels {100,5,0},{99,3,0}, then change 11 updating index 0 to price 101 and quantity 4 without ownQuantity, gives {101,4,0},{99,3,0} with lastSeqNo 11 |
| Scenarios.ScenarioGap | okte-websocket-client.py:181-183 | change 12 after snapshot 10 abandons the session, and the state and lastSeqNo 10 are kept |
| Scenarios.ScenarioAddThenRemove | okte-websocket-client.py:94-110 | on [{100,5,0}], add at 1 of {99,2,0} then remove at 0 gives [{99,2,0}] |
| Scenarios.ScenarioSuppressedChange | okte-websocket-client.py:149-180 | after a snapshot request, a correctly numbered change is dropped without abandoning the session |

## Left out

- Command-line parsing, the TLS context, Basic-auth header construction and output-directory creation: these are configuration and I/O (okte-websocket-client.py:12-28, 128-130).
- The `input_listener` thread and the shared global flags: the concurrency itself is not modelled. The `send` intent and the periodic sender become the `SnapshotRequested` event. The flag is read at the top of each loop iteration, before the next receive.
- `save_orderbook`, the autosave timer and the `save` command: these are file I/O and wall-clock time, and they do not change the state.
- The timing of the periodic snapshot sender: only its `ignore_changes = True` effect is modelled.
- Websocket connect, receive and send, the reconnect loop and the 5-second sleeps: these are network and async plumbing. `SendPong`, `SendSnapshotRequest` and `AbandonSession` are the outcomes that plumbing would act on.
- JSON decoding, message size, `timeDelta` and malformed messages are not modelled. A missing `period` key raises in the source and resets the session. An index is modelled as a `nat`, and the source treats other indexes this way (okte-websocket-client.py:95, 102, 109):
  - A string, array or object index always raises, because the bound comparison itself fails. The session resets.
  - A non-integer number such as `1.0` or `9.5` is compared against the bound first. If it fails the bound check, the operation silently does nothing. If it passes, `insert`, `[]` or `pop` rejects it, which raises and resets the session.
  - A JSON boolean acts as index 0 (`false`) or 1 (`true`), subject to the same bound check, and raises nothing.
- The partial state a raising change leaves behind is not modelled. In the source, `last_seq_no` is advanced (line 184) before the applier runs (line 185). The period changes and operations applied before the exception stay applied. The session resets, but the state does not.
- The `exit` command and termination polling (okte-websocket-client.py:45-47, 132, 148) are not modelled. Termination ends the loops and does not change the mirrored state.
- The warning about unexpected keys in a change period is not modelled, because it only prints. The recognised sub-fields are still applied.
- Negative indices are not modelled; an index is a `nat`. Python only checks the upper bound, so a negative index would insert, update or pop counted from the end, or raise `IndexError`.
- Price and quantity values are modelled as JSON numbers or null. Other JSON types are not modelled.
- A snapshot level that lacks price, quantity or ownQuantity is modelled as carrying null in that field.
- A change payload without `seqNo` is modelled as an absent sequence number. The source compares the string "N/A" there, which never matches, so that change is rejected either way: it is dropped while a request is pending, and otherwise it abandons the session.
- Console and debug output is not modelled.
