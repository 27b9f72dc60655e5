# nachat data layer in Dafny

A model of the data layer of nachat, a Qt client for the Matrix chat
protocol, with proofs about it. It covers:

- **Events and redaction** (modules `Json`, `Ids`, `Events`, `Redactions`).
  Events are JSON objects, checked field by field as the C++ constructors
  check them. Redaction follows section 6.5 of the Matrix Client-Server API r0.
- **Room state** (`RoomStateSpec`, `RoomStates`). This is the member table,
  the display-name index used for disambiguation (section 11.2.2.3 of the
  Matrix Client-Server API r0.1.0), room naming, and `dispatch`/`revert` of
  state events. `RoomStateSpec` describes the state as a value. `RoomStates`
  is the class that updates its fields in place and is proved to reach
  those values.
- **Room** (`Rooms`). This is the trimmed buffer of timeline batches, the
  two-way read-receipt index, unread detection, and the send queue with its
  retry backoff.
- **Timeline window** (`TimelineWindowSpec`, `TimelineWindows`). This is the
  deque of cursor-tagged batches and the latest batch. It accepts forward
  and backward pages only when their cursors chain. It also covers the
  manager's request guards and error handlers.
- **Timeline view** (`TimelineViewSpec`, `TimelineViews`). This is the
  view's batches and the pending echoes, matched by transaction id. It also
  covers redaction lookup, the at-top test and the grouping of events into
  sender/time blocks. Painting is not modelled.
- **Session** (`Endian`, `Numerals`, `Http`, `Sessions`). This is the
  little-endian codec, the cache-format version gate, the persistent
  transaction-id counter and sync query construction. It also covers the
  sync retry rule, the write plan of a cache update, and the
  classification of HTTP replies.
- **Small utilities** (`Hashing`, `Contents`, `ThumbnailCaches`,
  `FixedVectors`, `EntryBoxes`, `MemberLists`). These are the 64-bit hash
  mixer, `mxc` content URLs, the reference-counted thumbnail cache and its
  handle, the fixed-size array, the entry box's history and command parser,
  and the member list.

Objects whose fields the C++ updates in place are classes: `RoomState`,
`Room`, `TimelineWindow`, `TimelineManager`, `TimelineView`, `Session`,
`ThumbnailCache`, `ThumbnailRef`, `FixedVector`, `EntryBox` and `MemberList`.
Their methods are proved equal to functions of the old state, and the
properties are proved about those functions.

The outside world enters as parameters:

- the database is an in-memory store value, and a transaction is one
  assignment to it;
- an HTTP reply is its status code, its error texts and the outcome of
  parsing its body;
- emitted signals are recorded in notice lists;
- a timer start is the delay a method returns;
- the clock reading is an argument.

Library code the model does not describe is a function parameter: Unicode
NFC normalisation, case folding and `qHash`. `QString::arg`, which fills
the lowest-numbered place marker left in a text, is modelled (`QStrings`),
because chained calls rescan what an earlier argument brought in. URL components are kept in
decoded form, so percent-encoding is the identity.

Where the headers and the `.cpp` files disagree, the model follows the
`.cpp` files.

## Model

| member | source | states |
|---|---|---|
| Events.MembershipDisplayable | src/matrix/Event.hpp:57-59 | a membership takes part in display-name disambiguation exactly when it is join or invite |
| Events.ParseMembership | src/matrix/Event.cpp:9-20 | the table search returns what the membership table gives for the string, the malformed-event error when no entry matches |
| Events.MembershipRoundTrip | src/matrix/Event.cpp:9-29 | parsing the wire name of every membership gives that membership back |
| Events.MembershipOnlyNames | src/matrix/Event.cpp:9-20 | only "invite", "join", "leave" and "ban" parse, and a parsed string is the name of its result |
| Events.Check | src/matrix/Event.cpp:41-52 | the field loop returns the outcome of checking the fields in order |
| Events.CheckPassesIff | src/matrix/Event.cpp:41-52 | `check` passes exactly when every field is present with its type (null allowed when optional) or absent and optional |
| Events.CheckReportsFirstBadField | src/matrix/Event.cpp:41-52 | a failing `check` reports the first unacceptable field: missing_field when absent, ill_typed_field when of the wrong type |
| Events.RedactedBecause | src/matrix/Event.hpp:95-98 | the redacting event is present exactly when the event counts as redacted |
| Events.Age | src/matrix/Event.hpp:83-88 | the age is present exactly when unsigned data exists and carries "age" |
| Events.TransactionId | src/matrix/Event.hpp:89-93 | the transaction id is present exactly when the unsigned object has "transaction_id", and is then its text |
| Events.PrevContent | src/matrix/Event.hpp:268-274 | the previous content is absent without unsigned data, without the key, or when it is null; otherwise it is that object |
| Events.NonEmptyString | src/matrix/Event.hpp:316-320 | the room name, canonical alias and redaction reason map a missing, non-text or empty value to none, and otherwise give the text |
| Events.ParseEvent | src/matrix/Event.cpp:70-81 | an accepted event keeps its object and has an object "content" and a text "type" |
| Events.ParseRoomEvent | src/matrix/Event.cpp:154-169 | an accepted room event keeps its object and has passed the event, identifiable and room checks |
| Events.ToState | src/matrix/Event.hpp:450-453 | a room event is a state event exactly when its object has "state_key" |
| Events.ParseRedaction | src/matrix/Event.cpp:293-299 | an accepted redaction keeps its object; an unredacted one has a text "redacts" |
| Events.RedactedRoomEventNeedsNoTimestamp | src/matrix/Event.cpp:160-169 | a redacted event with a text sender passes the room check without "origin_server_ts" |
| Events.UnredactedRoomEventNeedsTimestamp | src/matrix/Event.cpp:160-169 | an unredacted event without "origin_server_ts" is refused with missing_field naming it |
| Events.RedactedRedactionNeedsNoTarget | src/matrix/Event.cpp:293-299 | a redacted redaction is accepted whatever its "redacts" field |
| Events.ParseMemberContent | src/matrix/Event.cpp:225-242 | accepted member content has a text membership that parses to its membership, and a display name and avatar that are none when missing, null or empty |
| Events.MemberContentRoundTrip | src/matrix/Event.cpp:244-252 | content built from a membership, display name and avatar parses back to them, an empty name or avatar reading as none |
| Events.LeaveContentParses | src/matrix/Event.cpp:254 | the `leave` content parses to the leave membership with no name or avatar |
| Events.ParseMember | src/matrix/Event.cpp:256-262 | an accepted member event has the member type, its parsed content, and a previous content exactly when the event has one |
| Events.MessageCheck | src/matrix/Event.cpp:180-184 | a message of another type is a type_mismatch; a redacted message is accepted without a content check |
| Events.Mimetype | src/matrix/Event.hpp:216-221 | the mime type is present exactly when the info object has the key with a non-null value |
| Events.FileSize | src/matrix/Event.hpp:222-227 | the size is present exactly when the info object has the key with a non-null value |
| Events.FileInfoAccessors | src/matrix/Event.cpp:188-208 | for a checked file-like message, the mime type and size are exactly the info object's text and number |
| Events.TypingUserIds | src/matrix/Event.cpp:144-152 | one user per entry of "user_ids", in order, each the entry's text |
| Ids.Equal | src/matrix/ID.hpp:23 | identifiers are equal exactly when their values are |
| Ids.NotEqual | src/matrix/ID.hpp:24 | `!=` is the negation of `==` |
| Ids.LessIsStrictTotalOrder | src/matrix/ID.hpp:25 | `<` on identifiers is irreflexive, transitive, total and asymmetric |
| Ids.StringLessIsStrictTotalOrder | src/matrix/ID.hpp:25 | the order of the underlying strings is a strict total order |
| Ids.MinString | src/matrix/Room.cpp:73-92 | the least string of a non-empty set is in it and below every other member |
| Ids.SortedStringsSpec | src/matrix/Room.cpp:73-92 | the sorted listing of a set holds each member once, in strictly ascending order |
| Ids.MinId | src/matrix/Room.cpp:73-92 | the least identifier of a non-empty set is in it and below every other member |
| Redactions.KeepOnly | src/matrix/Event.cpp:101-108 | the erase loop leaves exactly the entries whose keys are listed |
| Redactions.Redact | src/matrix/Event.cpp:83-129 | `Event::redact` leaves the redacted object |
| Redactions.RedactedShape | src/matrix/Event.cpp:92-128 | only the preserved keys and "unsigned" remain, "unsigned" is exactly {redacted_because: the redaction}, and the event now counts as redacted by it |
| Redactions.RedactionKeepsPreservedKeys | src/matrix/Event.cpp:92-108 | each preserved key other than "content" keeps its presence and value |
| Redactions.RedactionContent | src/matrix/Event.cpp:93-125 | for the five types with a content rule only the listed content keys remain; any other type keeps its content unchanged |
| Redactions.RedactionIdempotent | src/matrix/Event.cpp:83-129 | redacting again, by any redaction, gives what redacting once by that redaction gives |
| Redactions.RedactionKeepsRoomEvent | src/matrix/Event.cpp:160-169 | a valid room (or state) event redacted by a valid redaction is again a valid room (or state) event |
| Redactions.RedactMember | src/matrix/Event.cpp:264-267 | `Member::redact` redacts the object and recomputes the content: same membership, no name, no avatar |
| Redactions.MemberRedactionKeepsMembership | src/matrix/Event.cpp:264-267 | a redacted member event's content is exactly its membership, and parses to it |
| RoomStateSpec.EmptySnapshotValid | src/matrix/Room.cpp:131-175 | the empty room state satisfies the display-name index invariant |
| RoomStateSpec.PrettyName | src/matrix/Room.hpp:33-35 | a member is named by its display name when it has one, otherwise by its user id |
| RoomStateSpec.MemberName | src/matrix/Room.cpp:109-114 | the member name is the pretty name, followed by " (disambiguation)" exactly when there is one |
| RoomStateSpec.SharedDisplaynameDisambiguated | src/matrix/Room.cpp:94-114 | two members whose display names normalise alike are each disambiguated by their user id |
| RoomStateSpec.RoomNamePriority | src/matrix/Room.cpp:73-79 | a non-empty name wins, then the canonical alias, then the first alias |
| RoomStateSpec.RoomNameAlone | src/matrix/Room.cpp:80-88 | with no other member the room is "Empty room"; with one, that member's pretty name |
| RoomStateSpec.RoomNamePair | src/matrix/Room.cpp:80-89 | with two other members, the second `arg` fills "A and %2" with B, for A and B their member names in id order; that is "A and B" when A holds no place marker |
| RoomStateSpec.RoomNameMany | src/matrix/Room.cpp:80-90 | with more, the second `arg` fills "A and %2 others" with N, for the least id A and N the other members less one; that is "A and N others" when A holds no place marker |
| RoomStateSpec.PairFirst | src/matrix/Room.cpp:89 | the first `arg` on "%1 and %2" puts its argument in place of %1 and keeps %2 |
| RoomStateSpec.PairSecond | src/matrix/Room.cpp:89 | the second `arg` gives "A and B" when A holds no place marker |
| RoomStateSpec.ManyFirst | src/matrix/Room.cpp:90 | the first `arg` on "%1 and %2 others" puts its argument in place of %1 and keeps %2 |
| RoomStateSpec.ManySecond | src/matrix/Room.cpp:90 | the second `arg` gives "A and N others" when A holds no place marker |
| QStrings.MarkerAt | src/matrix/Room.cpp:89-90 | a place marker is '%', an optional 'L' and one or two digits, so it numbers below 100 and spans at least two characters |
| QStrings.ArgWithoutMarkers | src/matrix/Room.cpp:89-90 | `arg` returns a text without place markers unchanged |
| QStrings.LowestMarkerSkips | src/matrix/Room.cpp:89-90 | a marker-free prefix does not change the lowest marker of a text |
| QStrings.ReplaceSkips | src/matrix/Room.cpp:89-90 | a marker-free prefix is copied unchanged by the replacement |
| QStrings.ArgFillsMarker | src/matrix/Room.cpp:89-90 | a marker lower than every other is replaced by the argument, and the rest is kept |
| QStrings.FirstOfTwo | src/matrix/Room.cpp:89-90 | the first `arg` of a template with %1 and %2 fills %1 and keeps %2 |
| QStrings.SecondOfTwo | src/matrix/Room.cpp:89-90 | the second `arg` fills %2 when the first argument brought no marker in |
| QStrings.ChainedArgRescans | src/matrix/Room.cpp:89 | the chained `arg` rescans the first argument: "%1 and %2" filled with "50%1" then "Bob" gives "50Bob and %2" |
| RoomStateSpec.RemoveAll | src/matrix/Room.cpp:145-147 | the id is removed from the list, exactly one occurrence of it when the list has no duplicates |
| RoomStateSpec.Record | src/matrix/Room.cpp:156-175 | `record_displayname`, on an id not yet listed under the normalised name, appends it to that list |
| RoomStateSpec.Forget | src/matrix/Room.cpp:131-154 | `forget_displayname` takes the id out of the list for the normalised name, erasing the key when the list empties |
| RoomStateSpec.SelfNamedRenameAnnouncesItself | src/matrix/Room.cpp:131-143 | a member whose display name is its own user id, alone in holding it, renaming to a name nobody holds is announced as itself with no disambiguation, at the point where the C++ `members_named` lookup throws |
| RoomStateSpec.ForgetIfNamed | src/matrix/Room.cpp:366-380 | forgetting a member's old display name leaves the id listed under no name, the members themselves unchanged |
| RoomStateSpec.Unnamed | src/matrix/Room.cpp:366-380 | updating a member's content while it is out of the index stores the content and lists the id under no name |
| RoomStateSpec.ReindexAllowed | src/matrix/Room.cpp:366-380 | in a valid state, the member's old display name is indexed exactly where `forget_displayname` needs it |
| RoomStateSpec.Prune | src/matrix/Room.cpp:536-543 | `prune_departed` does nothing without a departed member and always leaves none |
| RoomStateSpec.MergeAliases | src/matrix/Room.cpp:419-433 | the new aliases are the duplicate-free union of the old and the added ones |
| RoomStateSpec.Apply | src/matrix/Room.hpp:44-46 | `apply` succeeds exactly when `dispatch` without a room does, and gives its state |
| RoomStateSpec.ForgetLeavesApart | src/matrix/Room.cpp:366-380 | after a member is taken out of the index, the rest of the index is valid |
| RoomStateSpec.RecordRestoresIndex | src/matrix/Room.cpp:366-380 | recording the member's current display name makes the whole index valid again |
| RoomStateSpec.ReindexPreservesIndex | src/matrix/Room.cpp:359-412 | changing a member's content, with the re-indexing of its display name, keeps the index valid |
| RoomStateSpec.DepartKeepsIndex | src/matrix/Room.cpp:384-412 | marking a known member as departed keeps the index valid |
| RoomStateSpec.UpdatePreservesIndex | src/matrix/Room.cpp:355-412 | `update_membership` keeps the index valid |
| RoomStateSpec.SameNamePreservesIndex | src/matrix/Room.cpp:359-412 | a content change that keeps the display name needs no re-indexing |
| RoomStateSpec.PrunePreservesIndex | src/matrix/Room.cpp:536-543 | `prune_departed` keeps the index valid, erases the departed member and removes it from every name list |
| RoomStateSpec.DispatchPreservesIndex | src/matrix/Room.cpp:417-476 | `dispatch` keeps the index valid |
| RoomStateSpec.DispatchKeepsMembers | src/matrix/Room.cpp:417-476 | a state event of any type but member leaves the members, the index and the departed slot alone |
| RoomStateSpec.IndexIgnoresRoomFields | src/matrix/Room.cpp:417-476 | the index invariant depends only on the member fields |
| RoomStateSpec.RevertPreservesIndex | src/matrix/Room.cpp:478-512 | `revert` keeps the index valid |
| RoomStateSpec.DispatchReportsChange | src/matrix/Room.cpp:417-476 | `dispatch` reports a change exactly for aliases, canonical alias, name, topic, avatar and member events; other types change nothing |
| RoomStateSpec.DispatchMergesAliases | src/matrix/Room.cpp:419-433 | an aliases event that checks merges its aliases without duplicates and changes nothing else; one that does not is refused |
| RoomStateSpec.DispatchOverwrites | src/matrix/Room.cpp:435-463 | canonical alias, name, topic and avatar events overwrite their field and nothing else |
| RoomStateSpec.RenamedKeepsFields | src/matrix/Room.cpp:359-380 | re-indexing a member changes only the member table and the index |
| RoomStateSpec.UpdateMembershipEffect | src/matrix/Room.cpp:355-412 | invite/join stores the content and writes it to the member database; leave/ban on a known member stores it and marks the member departed, deleting it from the database; an unknown member who leaves changes nothing |
| RoomStateSpec.LeaveThenPruneRemovesMember | src/matrix/Room.cpp:384-412 | a known member who leaves and is then pruned is gone from the members and every name list |
| RoomStateSpec.RevertRestoresFields | src/matrix/Room.cpp:478-502 | reverting restores the canonical alias, name, topic or avatar from the previous content, none or empty when there is none |
| RoomStateSpec.RevertRestoresMember | src/matrix/Room.cpp:504-512 | reverting a member event restores the previous content when it is displayable, otherwise removes the member |
| RoomStates.RoomState.constructor | src/matrix/Room.hpp:41 | a new room state has no name, alias, topic, avatar or members, and satisfies the index invariant |
| RoomStates.RoomState.Copy | src/matrix/Room.cpp:196 | the copy holds the same state |
| RoomStates.RoomState.RecordDisplayname | src/matrix/Room.cpp:156-175 | the new state and the disambiguation signals are those of `Record` |
| RoomStates.RoomState.ForgetDisplayname | src/matrix/Room.cpp:131-154 | the new state and the signals are those of `Forget` |
| RoomStates.RoomState.Reindex | src/matrix/Room.cpp:370-375 | forgetting the old and recording the new display name gives the re-indexed state and its signals |
| RoomStates.RoomState.UpdateMembership | src/matrix/Room.cpp:355-412 | the new state, signals and database write are those of the specification, and the index invariant holds after |
| RoomStates.RoomState.JoinOrInvite | src/matrix/Room.cpp:360-383 | the invite/join branch produces the specified state, signals and write |
| RoomStates.RoomState.LeaveOrBan | src/matrix/Room.cpp:384-410 | the leave/ban branch produces the specified state, signals and write |
| RoomStates.RoomState.PruneDeparted | src/matrix/Room.cpp:536-543 | the new state and signals are those of `Prune`, and the invariant holds after |
| RoomStates.RoomState.Dispatch | src/matrix/Room.cpp:417-476 | the outcome and new state are the specification's; an error leaves the state as it was; the invariant holds after |
| RoomStates.RoomState.Apply | src/matrix/Room.hpp:44-46 | the state after `apply` is the specified one; an error leaves it unchanged |
| RoomStates.RoomState.Revert | src/matrix/Room.cpp:478-512 | the state after `revert` is the specified one; an error leaves it unchanged and is the error the specified `Revert` gives |
| Rooms.ExtendedShape | src/matrix/Room.cpp:283-298 | a limited timeline clears the buffer; an empty timeline on a non-empty buffer only rewrites the last batch's cursor; any other timeline becomes a new last batch holding exactly its events |
| Rooms.TimelineStep | src/matrix/Room.cpp:298-317 | dispatching one timeline event and pruning the departed member keeps the display-name index valid |
| Rooms.RunTimeline | src/matrix/Room.cpp:298-317 | running a sync's events in order keeps the display-name index valid |
| Rooms.RunTimelineAt | src/matrix/Room.cpp:298-317 | running from event i is the step at i followed by the run of the rest, with the changed flags or-ed and the signals concatenated |
| Rooms.DispatchTimelineEvent | src/matrix/Room.cpp:299-307 | a timeline event's own dispatch keeps the display-name index valid and emits no `message` signal |
| Rooms.TimelineStepAnnounces | src/matrix/Room.cpp:298-316 | one timeline step announces exactly its own event through `message` |
| Rooms.RunTimelineAnnouncesEach | src/matrix/Room.cpp:298-317 | the run of a sync's timeline announces each of its events through `message`, once each and in order |
| Rooms.CountNotices | src/matrix/Room.cpp:271-281 | at most two signals; the highlight-count signal with the old value is present exactly when the count changed, and likewise the notification-count signal |
| Rooms.TimelineNoticesMessages | src/matrix/Room.cpp:271-322 | among the timeline part's signals, only the run's are `message` signals |
| Rooms.TimelineNoticesAnnounceEvents | src/matrix/Room.cpp:271-322 | the timeline part of dispatch announces the sync's timeline events through `message`, each once and in order |
| Rooms.ReplayEvent | src/matrix/Room.cpp:320-324 | replaying a trimmed event onto the initial state keeps the index valid, and fails only on a state event whose `apply` fails, with that error |
| Rooms.Replay | src/matrix/Room.cpp:320-324 | replaying a batch keeps the initial state's index valid |
| Rooms.Trim | src/matrix/Room.cpp:319-326 | trimming keeps the initial state's index valid and the buffer made of timeline events |
| Rooms.SyncTimeline | src/matrix/Room.cpp:283-326 | the buffer handling of a sync keeps both states' indexes valid and the buffer made of timeline events |
| Rooms.TrimDropsFront | src/matrix/Room.cpp:319-326 | trimming drops a prefix of the batches only, and when it ends without error on a non-empty buffer the events outside the front batch number fewer than the limit |
| Rooms.ReceiptUpdateKeepsIndex | src/matrix/Room.cpp:693-706 | after an update the user has exactly one receipt, the new one; the user is indexed under the new event only; every other user's index entries are unchanged; the two indexes stay consistent |
| Rooms.UnindexKeeps | src/matrix/Room.cpp:697-702 | removing the user from the old receipt's event index removes only that user and keeps every event key |
| Rooms.ApplyReadsKeepsIndex | src/matrix/Room.cpp:332-340 | applying every `m.read` mark of a receipt event keeps the two receipt indexes consistent |
| Rooms.EphemeralStep | src/matrix/Room.cpp:331-346 | an ephemeral event that fails to validate changes nothing and emits nothing |
| Rooms.RunEphemeralKeepsIndex | src/matrix/Room.cpp:331-347 | the ephemeral events of a sync keep the receipt indexes consistent |
| Rooms.ScanFindsReadEvent | src/matrix/Room.cpp:684-690 | the backward scan reports "read" exactly when the receipt's event occurs after every message from another user |
| Rooms.ScanBackward | src/matrix/Room.cpp:684-690 | the backward loop over the events gives the scan's answer |
| Rooms.ScanAppend | src/matrix/Room.cpp:684-689 | scanning batch by batch from the newest equals scanning their concatenation: a decision in the later part wins |
| Rooms.WithHighlights | src/matrix/Room.hpp:152-154 | the name is returned unchanged exactly when the highlight count is 0; otherwise it is followed by " (", the count in decimal and ")" |
| Rooms.NextBackoff | src/matrix/Room.cpp:743 | the backoff grows ×1.25 and is capped at 30 s: never below the 5 s minimum once there, never above 30 s, strictly larger below the cap |
| Rooms.Room.constructor | src/matrix/Room.cpp:186-189 | a new room has empty states, buffer, receipts and queue, nothing in flight, and the 5 s minimum backoff |
| Rooms.Room.BufferSize | src/matrix/Room.cpp:239-243 | the number of buffered events, across all batches |
| Rooms.Room.ReceiptFrom | src/matrix/Room.cpp:674-678 | a receipt is returned exactly when the user has one, and it is that receipt |
| Rooms.Room.UpdateReceipt | src/matrix/Room.cpp:693-706 | the receipt maps become the specified update and stay consistent |
| Rooms.Room.HasUnread | src/matrix/Room.cpp:680-691 | the answer is the specification's: unread with an empty buffer, an empty last batch or no own receipt, otherwise the backward scan's verdict |
| Rooms.Room.TransmitEvent | src/matrix/Room.cpp:708-717 | nothing happens while a send is in flight; otherwise the front event is sent to `rooms/<id>/send/<type>/<txn>` with a transaction id kept across retries |
| Rooms.Room.Send | src/matrix/Room.cpp:612-615 | the event joins the back of the queue, and a request goes out exactly when none was in flight |
| Rooms.Room.TransmitFinished | src/matrix/Room.cpp:719-748 | the reply is read by `decode` as written (`Http.DecodeAsWritten`); success or a 4xx other than 429 pops the front event, reports a client error, resets the transaction id and the backoff, and sends the next event; any other error keeps the queue and transaction id, retries after the old backoff and grows it |
| Rooms.Room.SendFinished | src/matrix/Room.cpp:724-747 | the same rule, on the decoded response |
| Rooms.Room.ReplayOne | src/matrix/Room.cpp:320-323 | the initial state takes the replayed event, or stays as it was and the error is returned |
| Rooms.Room.ReplayBatch | src/matrix/Room.cpp:320-324 | the initial state and the error are those of the replay |
| Rooms.Room.TrimBuffer | src/matrix/Room.cpp:319-326 | the buffer, the initial state and the error are those of the trim |
| Rooms.Room.TimelineEvent | src/matrix/Room.cpp:299-316 | the current state, the changed flag and the signals (state signals, `message`, prune signals) are those of one timeline step |
| Rooms.Room.AdvanceTimeline | src/matrix/Room.cpp:298-317 | one step at position i leaves the run of the remaining events with the same outcome as the run from i, its signals followed by the rest's giving the run's |
| Rooms.Room.ApplyTimeline | src/matrix/Room.cpp:295-317 | the events are appended as a new batch, and the current state, the touched flag and the signals are those of the run of the timeline |
| Rooms.Room.ApplyReceipt | src/matrix/Room.cpp:332-340 | the receipt maps take every mark of the receipt event and stay consistent |
| Rooms.Room.EphemeralEvent | src/matrix/Room.cpp:331-346 | the receipts, typing list, signals and error are those of one ephemeral step |
| Rooms.Room.ApplyEphemeral | src/matrix/Room.cpp:331-347 | the receipts, typing list, signals and error are those of the run over the ephemeral events |
| Rooms.Room.ExtendBuffer | src/matrix/Room.cpp:283-327 | the buffer, both states, the touched flag and the error are those of the sync's buffer handling, and the signals are the run of the timeline's |
| Rooms.Room.UpdateCounts | src/matrix/Room.cpp:271-281 | the counts take the sync's values, and the signals are `CountNotices`: a change signal carrying the old value for each count that changed, highlights first |
| Rooms.Room.TakeTimeline | src/matrix/Room.cpp:271-327 | the counts are the sync's, the buffer and states are those of the buffer handling, and the signals are `TimelineNotices`: count changes, `discontinuity` when limited, `prev_batch`, the run's signals, then `batch` unless trimming failed |
| Rooms.Room.TakeEphemeral | src/matrix/Room.cpp:331-352 | the receipts and typing list are those of the run over the ephemeral events; the signals are that run's, then `state_changed` exactly when it ended without error and the timeline touched the state; the result is the touched flag or the error |
| Rooms.Room.Dispatch | src/matrix/Room.cpp:268-353 | the counts, buffer and states follow the sync; an error in the buffer handling ends dispatch before the ephemeral events; otherwise the receipts and typing list follow them, and the result is the touched flag or the first error; the signals are the timeline part's, then the ephemeral run's, then `state_changed` when touched |
| TimelineWindowSpec.Reversed | src/matrix/TimelineWindow.cpp:99 | the reversed sequence holds element `len-1-i` at position i |
| TimelineWindowSpec.ReversedInvolution | src/matrix/TimelineWindow.cpp:99 | reversing the events of a backward page twice gives them back, so the stored batch is the page in chronological order |
| TimelineWindowSpec.ApplyState | src/matrix/TimelineWindow.cpp:78-80 | applying a state event keeps the index valid; a non-state event leaves the state alone |
| TimelineWindowSpec.RevertState | src/matrix/TimelineWindow.cpp:104-105 | reverting a state event keeps the index valid; a non-state event leaves the state alone |
| TimelineWindowSpec.ApplyGrowing | src/matrix/TimelineWindow.cpp:76-81 | announcing and applying a batch's events forwards keeps the index valid |
| TimelineWindowSpec.RevertGrowing | src/matrix/TimelineWindow.cpp:104-107 | reverting and announcing a batch's events backwards keeps the index valid |
| TimelineWindowSpec.ApplyAll | src/matrix/TimelineWindow.cpp:40-43 | applying events in order keeps the index valid |
| TimelineWindowSpec.RevertAll | src/matrix/TimelineWindow.cpp:22-28 | reverting events in order keeps the index valid |
| TimelineWindowSpec.ApplyGrowingAt | src/matrix/TimelineWindow.cpp:76-81 | from event i the forward run announces the event against the state before it, then applies it; an apply error stops the run |
| TimelineWindowSpec.RevertGrowingAt | src/matrix/TimelineWindow.cpp:104-107 | from event i the backward run reverts the event first, then announces it against the reverted state; a revert error stops the run |
| TimelineWindowSpec.ApplyAllAt | src/matrix/TimelineWindow.cpp:40-43 | from event i, apply that event and continue, or stop with its error |
| TimelineWindowSpec.RevertAllAt | src/matrix/TimelineWindow.cpp:22-28 | from event i, revert that event and continue, or stop with its error |
| TimelineWindowSpec.ApplyGrowingAnnouncesAll | src/matrix/TimelineWindow.cpp:76-81 | a batch without state events leaves the state as it was and announces every event, in order, against that state |
| TimelineWindowSpec.End | src/matrix/TimelineWindow.hpp:41-44 | the end is absent exactly when there is no stored end or it equals the latest batch's begin (the window reaches the present); otherwise it is the stored end |
| TimelineWindowSpec.AtStart | src/matrix/TimelineWindow.cpp:58-61 | the window is at the start exactly when its oldest event is the room's creation |
| TimelineWindowSpec.AtStartAsWrittenMissesCreation | src/matrix/TimelineWindow.cpp:58-61 | a window whose oldest event is the creation, followed by a message, is not at the start as written, though it is by the intended rule |
| TimelineWindowSpec.AtEnd | src/matrix/TimelineWindow.cpp:63-65 | at the end exactly when there are no stored batches or the end is absent |
| TimelineWindowSpec.AtEndAgrees | src/matrix/TimelineWindow.cpp:63-65 | wherever the written test is defined (no batches, or a stored end), it agrees with the total one |
| TimelineWindowSpec.AtEndAsWrittenUndefinedAfterConstruction | src/matrix/TimelineWindow.cpp:15-18 | a window built from two batches has a stored batch but no stored end, so the written `at_end` dereferences an empty optional |
| TimelineWindowSpec.Construct | src/matrix/TimelineWindow.cpp:15-18 | construction fails exactly on no batches; otherwise the last batch is the latest and the rest are stored in order, with no end and the given states |
| TimelineWindowSpec.DiscardBack | src/matrix/TimelineWindow.cpp:21-38 | discarding newer batches keeps the window valid |
| TimelineWindowSpec.DiscardFront | src/matrix/TimelineWindow.cpp:40-55 | discarding older batches keeps the window valid |
| TimelineWindowSpec.Discard | src/matrix/TimelineWindow.cpp:20-56 | `discard` in either direction keeps the window valid |
| TimelineWindowSpec.Reset | src/matrix/TimelineWindow.cpp:133-141 | `reset` keeps the window valid |
| TimelineWindowSpec.AppendBatchChains | src/matrix/TimelineWindow.cpp:67-91 | a forward page is accepted exactly when it starts at the window's end; then it becomes the last stored batch, its end becomes the window's end, and the window reaches the present exactly when that end is the latest batch's begin |
| TimelineWindowSpec.PrependBatchChains | src/matrix/TimelineWindow.cpp:93-108 | a backward page is accepted exactly when it starts at the window's begin; then it becomes the first batch in chronological order, its end becomes the new begin, and the stored end is set only when it is the only batch |
| TimelineWindowSpec.PrependToLatestReachesPresent | src/matrix/TimelineWindow.cpp:100-102 | the first page prepended before the latest batch leaves the window at its end |
| TimelineWindowSpec.AppendSyncKeepsPresent | src/matrix/TimelineWindow.cpp:110-131 | an empty sync changes nothing; otherwise the sync becomes the latest batch, and a window that was at its end moves the old latest batch into the stored ones and stays at its end, while one that was not keeps its batches and end |
| TimelineWindowSpec.DiscardBackKeepsPrefix | src/matrix/TimelineWindow.cpp:25-38 | discarding forwards keeps the latest batch and initial state, and leaves either nothing or a prefix of the batches ending with the one beginning at the cursor, whose begin becomes the end |
| TimelineWindowSpec.DiscardFrontKeepsSuffix | src/matrix/TimelineWindow.cpp:40-48 | discarding backwards keeps the latest batch, final state and end, and leaves either nothing or a suffix of the batches starting at the one beginning at the cursor |
| TimelineWindowSpec.DiscardUnknownClears | src/matrix/TimelineWindow.cpp:49-55 | discarding backwards at a cursor no stored batch begins with leaves no stored batches |
| TimelineWindowSpec.ResetReachesPresent | src/matrix/TimelineWindow.cpp:133-141 | after `reset` only the latest batch remains, the window is at its end, the final state is the current one and the begin is the latest batch's |
| TimelineWindowSpec.GrowRequest | src/matrix/TimelineWindow.cpp:153-177 | no request while one in that direction is in flight or the window is at its end (forward) or start (backward, by the corrected `AtStart`); a forward request runs from the end to the latest begin, a backward one from the begin, 50 events each |
| TimelineWindowSpec.FetchedPageChains | src/matrix/TimelineWindow.cpp:165-171 | the page answering a forward request is accepted by `append_batch` |
| TimelineWindowSpec.FetchedBackwardPageChains | src/matrix/TimelineWindow.cpp:160-175 | the page answering a backward request is accepted by `prepend_batch` |
| TimelineWindowSpec.ReplayBatches | src/matrix/TimelineWindow.cpp:179-191 | replaying batches forwards keeps the index valid |
| TimelineWindowSpec.ReplayBatchesAt | src/matrix/TimelineWindow.cpp:181-186 | replaying from batch k is the forward run of that batch followed by the replay of the rest, unless the batch's run fails |
| TimelineWindowSpec.ApplyGrowingBounded | src/matrix/TimelineWindow.cpp:76-81 | a forward run announces at most one notice per event, and exactly one per event when no apply fails |
| TimelineWindows.TimelineWindow.constructor | src/matrix/TimelineWindow.cpp:15-18 | the window built is the one `Construct` gives |
| TimelineWindows.TimelineWindow.GrowForward | src/matrix/TimelineWindow.cpp:76-81 | the final state, notices and error are those of the forward run |
| TimelineWindows.TimelineWindow.GrowBackward | src/matrix/TimelineWindow.cpp:104-107 | the initial state, notices and error are those of the backward run |
| TimelineWindows.TimelineWindow.RevertFinal | src/matrix/TimelineWindow.cpp:22-28 | the final state and error are those of reverting the events in order |
| TimelineWindows.TimelineWindow.ApplyInitial | src/matrix/TimelineWindow.cpp:41-43 | the initial state and error are those of applying the events in order |
| TimelineWindows.TimelineWindow.Begin | src/matrix/TimelineWindow.hpp:33-38 | the begin of the window's value |
| TimelineWindows.TimelineWindow.End | src/matrix/TimelineWindow.hpp:41-44 | the end of the window's value |
| TimelineWindows.TimelineWindow.AppendBatch | src/matrix/TimelineWindow.cpp:67-91 | a rejected page changes nothing; an accepted one gives the specified window, notices and error |
| TimelineWindows.TimelineWindow.PrependBatch | src/matrix/TimelineWindow.cpp:93-108 | a rejected page changes nothing; an accepted one gives the specified window, notices and error |
| TimelineWindows.TimelineWindow.AppendSync | src/matrix/TimelineWindow.cpp:110-131 | the window, notices and error are those of `AppendSync` |
| TimelineWindows.TimelineWindow.Discard | src/matrix/TimelineWindow.cpp:20-56 | the window and error are those of `Discard` |
| TimelineWindows.TimelineWindow.DiscardNewer | src/matrix/TimelineWindow.cpp:21-38 | the forward discard gives the window and error of `DiscardBack` over every stored batch |
| TimelineWindows.TimelineWindow.DiscardOlder | src/matrix/TimelineWindow.cpp:40-55 | the backward discard gives the window and error of `DiscardFront` from the first batch |
| TimelineWindows.TimelineWindow.Reset | src/matrix/TimelineWindow.cpp:133-141 | the window and error are those of `Reset` |
| TimelineWindows.TimelineWindow.RevertInitial | src/matrix/TimelineWindow.cpp:138-140 | the initial state and error are those of reverting the events in order |
| TimelineWindows.TimelineManager.constructor | src/matrix/TimelineWindow.cpp:144-151 | a manager starts with no request in flight and no retry pending |
| TimelineWindows.TimelineManager.Grow | src/matrix/TimelineWindow.cpp:153-177 | the request is `GrowRequest`'s (start decided by the corrected `AtStart`), and only the flag of its direction is set, exactly when a request goes out |
| TimelineWindows.TimelineManager.Error | src/matrix/TimelineWindow.cpp:207-212 | the retry direction is recorded and the timer started only when it was not running |
| TimelineWindows.TimelineManager.ForwardFetchErrorAsWritten | src/matrix/TimelineWindow.cpp:197-200 | as written, a failed forward fetch clears the forward flag and schedules a retry in the other direction, backwards |
| TimelineWindows.TimelineManager.BackwardFetchErrorAsWritten | src/matrix/TimelineWindow.cpp:202-205 | as written, a failed backward fetch clears the backward flag and schedules a retry in the other direction, forwards |
| TimelineWindows.TimelineManager.ForwardFetchError | src/matrix/TimelineWindow.cpp:197-200 | corrected: a failed forward fetch clears the forward flag and schedules a retry forwards, so `retry` asks again for the page that failed |
| TimelineWindows.TimelineManager.BackwardFetchError | src/matrix/TimelineWindow.cpp:202-205 | corrected: a failed backward fetch clears the backward flag and schedules a retry backwards |
| TimelineWindowSpec.RetryDirectionAsWritten | src/matrix/TimelineWindow.cpp:197-205 | the direction handed to `error` is never the direction of the fetch that failed |
| TimelineWindowSpec.ForwardRetryAsWrittenStalls | src/matrix/TimelineWindow.cpp:193-205 | a window at its start but not at its end whose forward fetch failed retries backwards and asks for nothing, where a forward retry would fetch the page again |
| TimelineWindows.TimelineManager.Retry | src/matrix/TimelineWindow.cpp:193-195 | the retry grows in the recorded direction |
| TimelineWindows.TimelineManager.GotBackward | src/matrix/TimelineWindow.cpp:214-218 | an accepted page is prepended; a rejected one leaves the window and asks to grow backwards again |
| TimelineWindows.TimelineManager.GotForward | src/matrix/TimelineWindow.cpp:220-223 | an accepted page is appended; a rejected one leaves the window and asks to grow forwards again |
| TimelineWindows.TimelineManager.SyncBatch | src/matrix/TimelineWindow.cpp:225-227 | the window takes the sync as `AppendSync` says |
| TimelineWindows.TimelineManager.Replay | src/matrix/TimelineWindow.cpp:179-191 | the notices and error are those of replaying the window from its initial state |
| TimelineWindows.ReplayFetched | src/matrix/TimelineWindow.cpp:180-186 | the replayed state, notices and error are those of `ReplayBatches` |
| TimelineViewSpec.MemberFromId | src/TimelineView.cpp:174-175 | the room's member content for the user, present exactly when the user is a member |
| TimelineViewSpec.Describe | src/TimelineView.cpp:166-181 | a placeholder carries the given id, sender, time, type and content; the sender's member content and disambiguation are set exactly when the sender is a member; the affected user's info is set exactly when an affected user is given, with their content or "leave" |
| TimelineViewSpec.AffectedUser | src/TimelineView.cpp:108-112 | no affected user unless the event is `m.room.member`; then the state key's user, or the member event's validation error |
| TimelineViewSpec.RedactsOf | src/TimelineView.cpp:114-118 | no target unless the event is `m.room.redaction`; then its `redacts`, or the validation error |
| TimelineViewSpec.FromEvent | src/TimelineView.cpp:160-164 | an entry for a real event copies its id, type, sender, time and content; `redacts` is set iff it is a redaction, the affected user iff it is a member event, the member content iff the sender is a member; construction fails iff one of those validations fails |
| TimelineViewSpec.RedactLike | src/TimelineView.cpp:195-200 | redacting fails exactly on a placeholder; otherwise the event is redacted, the time cleared, the content replaced by the redacted event's, and nothing else changes |
| TimelineViewSpec.RedactLikeIdempotent | src/TimelineView.cpp:195-200 | redacting an entry a second time gives what redacting it once with the second redaction gives |
| TimelineViewSpec.DistinctIds | src/TimelineView.cpp:1242 | in a valid view no two entries, batches and pending together, share an id |
| TimelineViewSpec.EmptyViewValid | src/TimelineView.cpp:846-848 | the empty view with the counter at 0 is valid |
| TimelineViewSpec.PrependTo | src/TimelineView.cpp:877-881 | the entry goes before every other event; it joins the front batch when that batch has the same begin, otherwise it opens a new front batch; nothing else moves |
| TimelineViewSpec.AppendTo | src/TimelineView.cpp:911-915 | the entry goes after every other event; it joins the back batch when that batch has the same begin, otherwise it opens a new back batch; nothing else moves |
| TimelineViewSpec.DropTransaction | src/TimelineView.cpp:883-888 | exactly the pending entries of other transactions remain |
| TimelineViewSpec.DropTransactionIds | src/TimelineView.cpp:883-888 | dropping echoes only removes ids |
| TimelineViewSpec.FirstPending | src/TimelineView.cpp:899-904 | the position of the first pending entry with the transaction |
| TimelineViewSpec.Prepended | src/TimelineView.cpp:876-893 | `prepend` always takes a fresh id; on success the new entry comes first under the given begin and every echo of its transaction is dropped; an event that fails to validate changes only the counter |
| TimelineViewSpec.AppendReusesEchoId | src/TimelineView.cpp:895-910 | an event with a transaction id takes the id of the first matching echo, that echo alone is removed and the counter is unchanged |
| TimelineViewSpec.AppendTakesFreshId | src/TimelineView.cpp:909-915 | an event without a transaction id is appended under a fresh id, leaving the echoes alone |
| TimelineViewSpec.RedactFirst | src/TimelineView.cpp:921-932 | redacting in event order keeps the number of events and every entry real |
| TimelineViewSpec.RedactFirstIds | src/TimelineView.cpp:921-932 | redacting keeps every id |
| TimelineViewSpec.RedactFirstWithoutTarget | src/TimelineView.cpp:921-932 | with no event carrying the target id nothing changes |
| TimelineViewSpec.RedactFirstFront | src/TimelineView.cpp:923-931 | the front batch is redacted when it holds the target; otherwise the search goes on in the later batches |
| TimelineViewSpec.RedactBatches | src/TimelineView.cpp:921-932 | redaction batch by batch keeps every batch's begin and size and changes the events as redacting their concatenation does |
| TimelineViewSpec.HasTargetCons | src/TimelineView.cpp:924-925 | a sequence holds the target exactly when its head is the target or its tail holds it |
| TimelineViewSpec.RedactFirstSplit | src/TimelineView.cpp:923-931 | over two runs of events, the first run takes the redaction when it holds the target, otherwise the second does |
| TimelineViewSpec.RedactFirstAt | src/TimelineView.cpp:924-928 | only the first event carrying the target id is redacted |
| TimelineViewSpec.RedactBatchesAt | src/TimelineView.cpp:923-931 | from batch b, that batch is redacted and the rest kept when it holds the target; otherwise it is kept and the search moves on |
| TimelineViewSpec.RedactBatchesSkip | src/TimelineView.cpp:923-931 | a batch without the target is left as it is |
| TimelineViewSpec.RedactBatchesFound | src/TimelineView.cpp:924-929 | the first target at position k of batch b is the one entry that changes |
| TimelineViewSpec.AllIdsSplit | src/TimelineView.hpp:141-144 | the view's ids are those of the batches plus those of the pending echoes |
| TimelineViewSpec.TakeEchoValid | src/TimelineView.cpp:903-906 | removing an echo keeps the view valid and frees its id for reuse |
| TimelineViewSpec.AppendEventValid | src/TimelineView.cpp:911-915 | appending an entry with an unused id below the counter keeps the view valid |
| TimelineViewSpec.PrependShape | src/TimelineView.cpp:877-881 | prepending keeps every batch non-empty and adds exactly the entry's id |
| TimelineViewSpec.AppendShape | src/TimelineView.cpp:911-915 | appending keeps every batch non-empty and adds exactly the entry's id |
| TimelineViewSpec.PrependKeepsValid | src/TimelineView.cpp:876-893 | `prepend` keeps the view valid: non-empty batches, real events in batches, distinct ids below the counter |
| TimelineViewSpec.PrependEventKeepsValid | src/TimelineView.cpp:877-888 | a successful `prepend` keeps the view valid |
| TimelineViewSpec.PrependValid | src/TimelineView.cpp:877-888 | an entry under the counter's id, placed first, with echoes only removed and the counter advanced, keeps the view valid |
| TimelineViewSpec.AppendKeepsValid | src/TimelineView.cpp:895-919 | `append` keeps the view valid |
| TimelineViewSpec.PendKeepsValid | src/TimelineView.cpp:939-944 | `add_pending` keeps the view valid |
| TimelineViewSpec.RedactKeepsValid | src/TimelineView.cpp:921-937 | `redact` keeps the view valid |
| TimelineViewSpec.AtTop | src/TimelineView.cpp:1208-1210 | at the top exactly when there is a first batch and its first event is `m.room.create` |
| TimelineViewSpec.PrependCreateReachesTop | src/TimelineView.cpp:876-892 | prepending the creation event brings the view to the top, so it stops asking for older events |
| TimelineViewSpec.AppendToKeepsFirst | src/TimelineView.cpp:895-919 | appending an event to non-empty batches keeps the first event of the first batch |
| TimelineViewSpec.AppendKeepsTop | src/TimelineView.cpp:895-919 | appending to a non-empty view does not change whether it is at the top |
| TimelineViewSpec.FeedAt | src/TimelineView.cpp:1155-1163 | grouping from event i is feeding that event, then the rest |
| TimelineViewSpec.FeedConcat | src/TimelineView.cpp:1155-1173 | grouping two runs in turn equals grouping their concatenation, so the pending echoes continue the last batch block |
| TimelineViewSpec.ConcatSnoc | src/TimelineView.cpp:1174-1177 | closing the last block adds its events at the end |
| TimelineViewSpec.Feed1Valid | src/TimelineView.cpp:1157-1161 | one event either joins the open block or closes it at a border and opens a new one; no event is lost or reordered |
| TimelineViewSpec.FeedValid | src/TimelineView.cpp:1155-1173 | grouping a run keeps the blocks cohesive and separated and loses or reorders no event |
| TimelineViewSpec.BlocksPartition | src/TimelineView.cpp:1148-1180 | the blocks are non-empty, concatenate to the events in order, have no border inside and a border between neighbours (sender change, missing time or more than 5 minutes) |
| TimelineViewSpec.Visible | src/TimelineView.cpp:93-106 | exactly the ranges overlapping the window, shifted to it, and no more of them than given |
| TimelineViewSpec.VisibleConcat | src/TimelineView.cpp:96-104 | the visible ranges of two runs of ranges are the first run's followed by the second's, and one range is kept, shifted, exactly when it overlaps: an order-preserving filter-map |
| TimelineViewSpec.VisibleAt | src/TimelineView.cpp:96-104 | each range is kept and shifted exactly when it overlaps the window |
| TimelineViews.TimelineView.constructor | src/TimelineView.cpp:846-848 | a new view has no batches, echoes or blocks, is not at the bottom and counts ids from 0 |
| TimelineViews.TimelineView.GetId | src/TimelineView.cpp:1242 | returns the counter and advances it by one |
| TimelineViews.TimelineView.SetAtBottom | src/TimelineView.cpp:946-948 | records whether the view is at the bottom |
| TimelineViews.TimelineView.RebuildBlocks | src/TimelineView.cpp:1152-1180 | the blocks become the grouping of the batch events, followed by the echoes only when at the bottom |
| TimelineViews.TimelineView.DropEchoes | src/TimelineView.cpp:883-888 | the echoes become those of other transactions |
| TimelineViews.TimelineView.FindEcho | src/TimelineView.cpp:899-904 | finds the first echo of the transaction |
| TimelineViews.TimelineView.TakeEcho | src/TimelineView.cpp:899-906 | returns the first matching echo's id and removes that echo alone |
| TimelineViews.TimelineView.InsertFirst | src/TimelineView.cpp:877-881 | the batches become `PrependTo` of the old ones |
| TimelineViews.TimelineView.InsertLast | src/TimelineView.cpp:911-915 | the batches become `AppendTo` of the old ones |
| TimelineViews.TimelineView.RedactInPlace | src/TimelineView.cpp:922-931 | the nested loop gives the batches of `RedactBatches` |
| TimelineViews.TimelineView.PrependEvent | src/TimelineView.cpp:877-888 | the view and error are those of `Prepended` |
| TimelineViews.TimelineView.Prepend | src/TimelineView.cpp:876-893 | the view is `Prepended`'s and stays valid; the blocks are rebuilt and older events are asked for unless at the top; on an error the blocks are unchanged and nothing is asked for |
| TimelineViews.TimelineView.AppendEvent | src/TimelineView.cpp:896-915 | the view and error are those of `Appended` |
| TimelineViews.TimelineView.AppendUnderId | src/TimelineView.cpp:909-915 | the view and error are those of appending under the given id |
| TimelineViews.TimelineView.Append | src/TimelineView.cpp:895-919 | the view is `Appended`'s and stays valid; the blocks are rebuilt and newer events are asked for unless at the bottom; on an error the blocks are unchanged and nothing is asked for |
| TimelineViews.TimelineView.Redact | src/TimelineView.cpp:921-937 | the view is `RedactView`'s and stays valid; the blocks are rebuilt and both directions asked for as `maybe_need_*` says |
| TimelineViews.TimelineView.AddPending | src/TimelineView.cpp:939-944 | the echo joins the back of the pending list under a fresh id; the view stays valid and the blocks are rebuilt |
| TimelineViews.FeedEvents | src/TimelineView.cpp:1155-1163 | the loop's grouping is `Feed`'s |
| TimelineViews.FindTarget | src/TimelineView.cpp:923-931 | the position found is the first event carrying the target id; none is found exactly when no event carries it |
| TimelineViews.FormatView | src/TimelineView.cpp:93-106 | the loop keeps exactly the overlapping ranges, shifted, in order |
| Numerals.ToBase | src/matrix/Session.cpp:409 | a non-empty string of base-36 digits |
| Numerals.FromToBase | src/matrix/Session.cpp:409 | reading the digits back gives the number |
| Numerals.ToBaseInjective | src/matrix/Session.cpp:409 | different numbers give different digit strings |
| Hashing.MixInvolution | src/matrix/hash_combine.hpp:9 | `a ^= a >> 47` on a 64-bit word undoes itself |
| Hashing.MulUndone | src/matrix/hash_combine.hpp:7 | multiplying by the odd factor modulo 2^64 is undone by its inverse |
| Hashing.XorInRange | src/matrix/hash_combine.hpp:7 | the xor of two 64-bit words is a 64-bit word |
| Hashing.HashCombineInverse | src/matrix/hash_combine.hpp:6-13 | for a fixed first argument, the second argument can be recovered from the result |
| Hashing.HashCombineInjective | src/matrix/hash_combine.hpp:6-13 | for a fixed first argument, different second arguments give different hashes |
| Http.DecodeAsWritten | src/matrix/utils.cpp:13-53 | the response carries the reply's status code |
| Http.Decode | src/matrix/utils.cpp:13-53 | the response carries the status code; there is no error exactly when the code is in 1..299 and the body is a JSON object, and then the object is carried |
| Http.DecodeTransportFailure | src/matrix/utils.cpp:17-20 | code 0 gives the transport error text and an empty object, whatever the body |
| Http.DecodeUnparsable | src/matrix/utils.cpp:21-37 | an unparsable body gives "HTTP code reason" at 300 and above, otherwise the malformed-response text, with the body appended only when non-empty |
| Http.DecodeServerError | src/matrix/utils.cpp:46-51 | an object with code 300 and above gives its `error` string, or the "HTTP" text when that is empty |
| Http.DecodeAsWrittenDiffersOnlyInText | src/matrix/utils.cpp:13-53 | the written and the corrected decoders agree on the code, the object and whether there is an error |
| Http.HttpErrorAsWritten | src/matrix/utils.cpp:26 | `"HTTP %1 %2".arg(reason)` fills %1 with the reason phrase and leaves "%2" in the text |
| Http.DecodeAsWrittenLosesStatusCode | src/matrix/utils.cpp:26 | a 404 with an HTML body gives "HTTP Not Found %2" as written, not "HTTP 404 Not Found" |
| Contents.ContentEquals | src/matrix/Content.hpp:37-39 | equal exactly when host and id are equal |
| Contents.ThumbnailEquals | src/matrix/Content.hpp:59-61 | equal exactly when content, size and method are equal |
| Contents.ParseContent | src/matrix/Content.cpp:11-16 | parsing succeeds exactly for the `mxc` scheme; the host is the URL's and the id is the path without its first character |
| Contents.ContentUrl | src/matrix/Content.cpp:18-24 | the `mxc` URL built parses back to the same content |
| Contents.ParsedContentUrl | src/matrix/Content.cpp:11-24 | an `mxc` URL whose path starts with '/' and has no query is rebuilt exactly from its parse |
| Contents.DownloadUrl | src/matrix/Content.cpp:26-30 | the homeserver's scheme, host and query with the path `/_matrix/media/r0/download/<host>/<id>` |
| Contents.IntDecimal | src/matrix/Content.cpp:35-36 | the decimal text of a size, with a leading '-' exactly for a negative value |
| Contents.ThumbnailUrl | src/matrix/Content.cpp:32-41 | the homeserver's scheme and host, the thumbnail path, and the query width, height and method (`scale` or `crop`) |
| Contents.DownloadUrlInjective | src/matrix/Content.cpp:26-30 | different contents (hosts without '/') get different download URLs |
| Contents.IntDecimalInjective | src/matrix/Content.cpp:35-36 | different sizes get different decimal texts |
| Contents.ThumbnailUrlInjective | src/matrix/Content.cpp:32-41 | different thumbnails (hosts without '/') get different URLs |
| Contents.IntHash | src/matrix/Content.hpp:83-84 | `std::hash<int>` is the identity on non-negative values |
| Contents.MethodHash | src/matrix/Content.hpp:85 | the method hashes to its enumerator, 0 or 1 |
| Contents.ContentHashSeparatesIds | src/matrix/Content.hpp:68-73 | on one host, ids with different `qHash` give different content hashes |
| Contents.ThumbnailHashSeparatesMethods | src/matrix/Content.hpp:75-87 | a crop and a scale thumbnail of the same content and size hash differently |
| Endian.FromLittleEndian | src/matrix/Session.cpp:26-33 | n bytes read least significant first give a number below 256^n |
| Endian.ToLittleEndian | src/matrix/Session.cpp:35-40 | byte i of the buffer becomes `(v >> 8i) & 0xFF` for i below the size; later bytes are untouched |
| Endian.ReadLittleEndian | src/matrix/Session.cpp:26-33 | the loop computes `FromLittleEndian` of the first `size` bytes |
| Endian.ShrByte | src/matrix/Session.cpp:38 | a shift right by 8 divides by 256 |
| Endian.LittleEndianFront | src/matrix/Session.cpp:35-40 | the first byte written is the low byte and the rest encode the value shifted by 8 |
| Endian.FromLittleEndianFront | src/matrix/Session.cpp:26-33 | the first byte is the low byte of the number read |
| Endian.FromToLittleEndian | src/matrix/Session.cpp:26-40 | reading back what was written gives the value, for every value that fits |
| Endian.ToFromLittleEndian | src/matrix/Session.cpp:26-40 | writing back what was read gives the same bytes |
| Sessions.StoredWord | src/matrix/Session.cpp:394-400 | the stored 64-bit number, 0 when the key is absent, is below 2^64 |
| Sessions.Word | src/matrix/Session.cpp:92-95 | the eight bytes written read back as the value |
| Sessions.InitStoreAsWritten | src/matrix/Session.cpp:77-96 | the version gate as written never touches the member databases |
| Sessions.InitStoreAsWrittenKeepsStaleMembers | src/matrix/Session.cpp:83-88 | resetting a cache of format 2 drops its rooms but leaves a member database behind |
| Sessions.InitStore | src/matrix/Session.cpp:77-96 | afterwards the stored version is 3; an existing cache is kept exactly when its version is 3, otherwise everything is dropped and only the version written; consistency and well-formedness are kept |
| Sessions.InitStoreIdempotent | src/matrix/Session.cpp:77-96 | opening the cache a second time changes nothing |
| Sessions.CounterAfterWraps | src/matrix/Session.cpp:402-403 | k calls advance the stored counter by k modulo 2^64 |
| Sessions.TransactionIdsDistinct | src/matrix/Session.cpp:391-410 | fewer than 2^64 successive calls return pairwise different transaction ids |
| Sessions.SyncQuery | src/matrix/Session.cpp:170-176 | the given items are kept; `full_state=true` is added exactly without a next batch; with one, `since` and `timeout=50000` are added |
| Sessions.MemberChangesOutcome | src/matrix/Session.cpp:277-292 | a member's last change decides: invite or join stores its content, leave or ban removes it; with no change the entry is untouched |
| Sessions.WriteRoomsOutcome | src/matrix/Session.cpp:256-293 | every joined room gets its JSON and a member database; other rooms are untouched |
| Sessions.UpdatedStoreValid | src/matrix/Session.cpp:247-299 | the update keeps the store consistent and well-formed, stores the next batch, keeps the version gate and every other state key |
| Sessions.FirstMemberError | src/matrix/Session.cpp:130-137 | the first entry whose JSON the validating `MemberContent` refuses, with its error; none exactly when every entry is a valid member content |
| Sessions.LoadRoomsAsWritten | src/matrix/Session.cpp:120-144 | as written, the load fails exactly when two or more rooms are stored and a later room's JSON is not a valid member content; otherwise at most one room is loaded |
| Sessions.LoadRoomsAsWrittenFailsOnTwoRooms | src/matrix/Session.cpp:123-137 | with two rooms stored, whose JSON has only the keys `Room::to_json` writes, start-up throws `missing_field` for "content.membership" |
| Sessions.LoadRoomsAsWrittenOneRoom | src/matrix/Session.cpp:120-144 | with one room stored, it is loaded with no members, its own member database unread |
| Sessions.LoadRooms | src/matrix/Session.cpp:120-144 | every stored room is loaded in cursor order, with its JSON and its own member database |
| Sessions.EnsureHttp | src/matrix/Session.cpp:426-431 | a non-`mxc` URL is returned unchanged; an `mxc` one becomes the homeserver's download URL for it |
| Sessions.EnsureHttpIdempotent | src/matrix/Session.cpp:426-431 | rewriting twice is rewriting once |
| Sessions.Session.constructor | src/matrix/Session.cpp:103-163 | the store is the gated cache (the corrected `InitStore`), the next batch is the stored one, member databases are opened for all stored rooms (the corrected load loop) only when resuming, and one sync with the filter is requested |
| Sessions.Session.Sync | src/matrix/Session.cpp:170-180 | one request with the sync query is issued |
| Sessions.Session.GetTransactionId | src/matrix/Session.cpp:391-410 | returns the stored counter in base 36 and stores its successor; nothing else in the store changes |
| Sessions.Session.UpdateCache | src/matrix/Session.cpp:247-304 | the store becomes `UpdatedStore`, and the joined rooms' member databases are registered after the write |
| Sessions.Session.Dispatch | src/matrix/Session.cpp:214-245 | the next batch is the sync's, the cache is updated, the session is synced and `sync_complete` is emitted |
| Sessions.Session.HandleSyncReply | src/matrix/Session.cpp:182-212 | synced exactly on success; an error leaves the cache alone and, less than 10 s after the last error, schedules a retry at the end of those 10 s; otherwise a sync is requested at once |
| Sessions.WriteMemberChanges | src/matrix/Session.cpp:278-292 | the loop's writes are `ApplyMemberChanges` |
| ThumbnailCaches.Refd | src/ContentCache.cpp:5-14 | taking a reference adds one holder to that thumbnail only; an entry already present keeps its pixmap and a new one starts without a pixmap |
| ThumbnailCaches.Unrefd | src/ContentCache.cpp:16-23 | dropping a reference removes one holder from that thumbnail only (the entry disappears with its last holder); a surviving entry keeps its pixmap |
| ThumbnailCaches.WithPixmap | src/ContentCache.cpp:29-35 | storing a pixmap changes no key and no holder count; a present thumbnail gets the pixmap and every other entry is unchanged |
| ThumbnailCaches.RefUnrefCancel | src/ContentCache.cpp:5-23 | a reference taken and dropped again leaves the cache exactly as it was |
| ThumbnailCaches.RefN | src/ContentCache.cpp:5-14 | n references add n holders |
| ThumbnailCaches.RefsThenUnrefs | src/ContentCache.cpp:5-23 | n references followed by n releases restore the cache exactly |
| ThumbnailCaches.ThumbnailCache.constructor | src/ContentCache.hpp:32 | a new cache holds no thumbnails and has emitted nothing |
| ThumbnailCaches.ThumbnailCache.Ref | src/ContentCache.cpp:5-14 | `ref` applies Refd and asks for the thumbnail (`needs`) exactly when it was not cached before |
| ThumbnailCaches.ThumbnailCache.Unref | src/ContentCache.cpp:16-23 | `unref` of a cached thumbnail applies Unrefd |
| ThumbnailCaches.ThumbnailCache.Get | src/ContentCache.cpp:25-27 | `get` succeeds exactly for a cached thumbnail and then yields its pixmap, if any |
| ThumbnailCaches.ThumbnailCache.Set | src/ContentCache.cpp:29-35 | `set` applies WithPixmap and signals `updated` exactly when the thumbnail is cached |
| ThumbnailCaches.ThumbnailRef.constructor | src/ContentCache.hpp:37-39 | a new handle refers to its thumbnail and cache and takes one reference in that cache |
| ThumbnailCaches.ThumbnailRef.Copy | src/ContentCache.hpp:44-46 | a copy shares the other handle's thumbnail and cache and takes one more reference |
| ThumbnailCaches.ThumbnailRef.Move | src/ContentCache.hpp:47-49 | a move takes over the other handle's thumbnail and cache, leaves the source detached and the counts unchanged |
| ThumbnailCaches.ThumbnailRef.Release | src/ContentCache.hpp:40-42 | destroying an attached handle drops its reference; a detached one changes nothing |
| ThumbnailCaches.ThumbnailRef.MoveAssign | src/ContentCache.hpp:51-57 | move assignment drops the old reference, takes over the other's thumbnail and cache and detaches the other |
| ThumbnailCaches.ThumbnailRef.CopyAssign | src/ContentCache.hpp:58-63 | copy assignment as written takes the other's thumbnail and cache and a new reference without dropping the old one |
| ThumbnailCaches.ThumbnailRef.CopyAssignReleasing | src/ContentCache.hpp:58-63 | corrected copy assignment: the new reference is taken and the old one dropped, in whichever caches they live |
| ThumbnailCaches.CopyAssignLeaks | src/ContentCache.hpp:58-63 | with copy assignment as written, a handle reassigned from t1 to t2 and then destroyed leaves t1 cached forever |
| ThumbnailCaches.CopyAssignReleasingEmpties | src/ContentCache.hpp:58-63 | with the corrected assignment the same sequence leaves the cache empty |
| FixedVectors.Reversed | src/FixedVector.hpp:33-34 | the reference order of a reverse traversal: same length, element k is element size-1-k |
| FixedVectors.FixedVector.Elements | src/FixedVector.hpp:49 | the vector holds exactly `size` elements |
| FixedVectors.FixedVector.Empty | src/FixedVector.hpp:23 | the default vector is empty |
| FixedVectors.FixedVector.constructor | src/FixedVector.hpp:24 | a vector built with a size has that size and its own fresh storage |
| FixedVectors.FixedVector.Begin | src/FixedVector.hpp:26 | `begin()` is position 0 |
| FixedVectors.FixedVector.End | src/FixedVector.hpp:27 | `end()` is `size` positions after `begin()` |
| FixedVectors.FixedVector.Get | src/FixedVector.hpp:40-41 | indexing yields element i |
| FixedVectors.FixedVector.Put | src/FixedVector.hpp:40 | writing through the index changes element i and no other |
| FixedVectors.FixedVector.Front | src/FixedVector.hpp:43-44 | `front()` is the first element |
| FixedVectors.FixedVector.Back | src/FixedVector.hpp:46-47 | `back()` is the last element |
| FixedVectors.FixedVector.Traverse | src/FixedVector.hpp:20-21 | a reverse iterator moving its base down from one position to another, reading the element before the base, visits one element per step when it is defined |
| FixedVectors.FixedVector.TraverseDefined | src/FixedVector.hpp:20-21 | a traversal is defined exactly when its bases coincide or it moves down from a base inside `begin()`..`end()` to one no lower than `begin()` |
| FixedVectors.FixedVector.ReverseTraversalAsWritten | src/FixedVector.hpp:33-34 | with `rbegin()` wrapping `begin()` and `rend()` wrapping `end()`, as written, the traversal between them is defined for the empty vector only |
| FixedVectors.FixedVector.ReverseTraversal | src/FixedVector.hpp:33-34 | with `rbegin()` wrapping `end()` and `rend()` wrapping `begin()`, the traversal is defined and visits exactly the elements, last to first |
| FixedVectors.FixedVector.TraverseSuffix | src/FixedVector.hpp:33-34 | a traversal from any base down to `begin()` visits that prefix reversed |
| EntryBoxes.Pushed | src/EntryBox.cpp:91-95 | sending adds the text in front of the history, which never exceeds 127 entries; when full the oldest entry goes |
| EntryBoxes.PushedAll | src/EntryBox.cpp:91-95 | the history stays within 127 entries over any number of sends |
| EntryBoxes.PushedAllKeepsNewest | src/EntryBox.cpp:91-95 | after any number of sends the history is the newest 127 texts, newest first, followed by what was there before |
| EntryBoxes.FirstSpace | src/EntryBox.cpp:99-100 | the position of the first space, or none when there is no space |
| EntryBoxes.ParseEntry | src/EntryBox.cpp:97-110 | text not starting with `/` is a message; a command's name is non-empty and space-free, and the name and arguments rebuild the text |
| EntryBoxes.CommandRoundTrip | src/EntryBox.cpp:97-110 | `/name args` with a non-empty space-free name parses back to that command and those arguments |
| EntryBoxes.MessageRoundTrip | src/EntryBox.cpp:97-110 | text not starting with `/` is sent unchanged as a message |
| EntryBoxes.EntryBox.constructor | src/EntryBox.cpp:9-19 | a new box has an empty history, a working history of one empty entry, index 0 and empty text |
| EntryBoxes.EntryBox.TextChanged | src/EntryBox.cpp:86-88 | the text overwrites the working entry at the current index and nothing else |
| EntryBoxes.EntryBox.Edit | src/EntryBox.cpp:86-88 | typing sets the text and stores it at the current index of the working history |
| EntryBoxes.EntryBox.Up | src/EntryBox.cpp:60-69 | when the cursor did not move and an older entry exists, the index goes up by one and that entry is shown; otherwise nothing changes |
| EntryBoxes.EntryBox.Down | src/EntryBox.cpp:70-79 | when the cursor did not move and a newer entry exists, the index goes down by one and that entry is shown; otherwise nothing changes |
| EntryBoxes.EntryBox.Send | src/EntryBox.cpp:90-113 | the history becomes Pushed; the working history is an empty entry followed by it, cut to the 127 entries the copied buffer holds, at index 0; ParseEntry of the text is emitted and the box is cleared |
| MemberLists.SortKey | src/MemberList.cpp:7-14 | the ordering key is the case-folded name after its leading `@`s, or the whole name folded when it is all `@` |
| MemberLists.SortKeyIgnoresAts | src/MemberList.cpp:7-14 | an extra leading `@` does not change the key of a name that is not all `@` |
| MemberLists.Key | src/MemberList.cpp:7-14 | the scanning loop computes SortKey |
| MemberLists.Emplaced | src/MemberList.cpp:29-36 | emplace lists the name under its key unless that key is taken, and keeps every entry under its own key |
| MemberLists.Erased | src/MemberList.cpp:26-28 | erase removes exactly the name's key and keeps every entry under its own key |
| MemberLists.EmplacedAll | src/MemberList.cpp:16-22 | every initial member is listed under its key |
| MemberLists.MemberChangedAsWrittenKeepsDeparted | src/MemberList.cpp:26-28 | as written, a member who leaves without changing display name stays listed |
| MemberLists.AfterChange | src/MemberList.cpp:24-38 | corrected: a member who stops being displayable is removed and nothing else is; a displayable member is listed under their shown name; other changes leave the list alone |
| MemberLists.MemberChangedAgrees | src/MemberList.cpp:24-38 | the correction and the code as written agree whenever the member stays displayable or changes display name |
| MemberLists.DisambiguationChanged | src/MemberList.cpp:40-47 | after a disambiguation change the member is listed under display name plus the new disambiguation |
| MemberLists.MemberList.constructor | src/MemberList.cpp:16-22 | the list starts with every initial member under its key |
| MemberLists.MemberList.UpdateMembers | src/MemberList.cpp:49-58 | the list is visible exactly when it has more than two entries |
| MemberLists.MemberList.MemberChangedAsWritten | src/MemberList.cpp:24-38 | `member_changed` as written applied to the list |
| MemberLists.MemberList.MemberChanged | src/MemberList.cpp:24-38 | the corrected change applied to the list, which stays keyed |
| MemberLists.MemberList.MemberDisambiguationChanged | src/MemberList.cpp:40-47 | `member_disambiguation_changed` applied to the list, which stays keyed |

## Definitions

The functions below define what the C++ does; their own bodies are the
definition, and the rows above state what they promise. Each line gives
the source lines the function follows and the rows whose contracts are
about it.

- `Events.MembershipName`, `LookupMembership`, `MembershipOf` (src/matrix/Event.cpp:9-29): the membership table; stated by `ParseMembership`, `MembershipRoundTrip`, `MembershipOnlyNames`.
- `Events.Required`, `Optional`, `FieldOk`, `FieldError`, `CheckFields` (src/matrix/Event.cpp:31-52): the field descriptors and `check`; stated by `Check`, `CheckPassesIff`, `CheckReportsFirstBadField`.
- `Events.Type`, `Content`, `Unsigned`, `Redacted` (src/matrix/Event.hpp:113-119), `Id` (src/matrix/Event.hpp:148), `Sender`, `OriginServerTs` (src/matrix/Event.hpp:159-160), `StateKeyOf` (src/matrix/Event.hpp:267): the event accessors; stated by `ParseEvent`, `ParseRoomEvent`, `RedactedBecause` and the `TimelineViewSpec.FromEvent` row.
- `Events.EventCheck`, `UnsignedCheck`, `RedactionEventCheck` (src/matrix/Event.cpp:56-81), `IdentifiableCheck`, `RoomCheck` (src/matrix/Event.cpp:154-169), `StateCheck` (src/matrix/Event.cpp:219-223), `RedactionCheck` (src/matrix/Event.cpp:293-299), `AndThen`, `IsRoomEvent`, `IsStateEvent`: the constructor checks in the order the constructors run; stated by `ParseEvent`, `ParseRoomEvent`, `ParseRedaction`, `RedactedRoomEventNeedsNoTimestamp`, `UnredactedRoomEventNeedsTimestamp`, `RedactedRedactionNeedsNoTarget`.
- `Events.Redacts`, `Reason` (src/matrix/Event.hpp:431-442): the redaction's target and reason; stated by `ParseRedaction`, `NonEmptyString`, `TimelineViewSpec.RedactsOf`, `TimelineViews.TimelineView.Redact`.
- `Events.MemberContentJson`, `MakeMemberContent` (src/matrix/Event.cpp:244-254): stated by `MemberContentRoundTrip`, `LeaveContentParses`.
- `Events.MemberUser` (src/matrix/Event.hpp:301): the member's user, read by `RoomStateSpec.Dispatch`; stated by `RoomStateSpec.UpdateMembershipEffect` and `RevertRestoresMember`.
- `Events.AliasesCheck`, `TopicCheck`, `AvatarCheck`, `CreateCheck` (src/matrix/Event.cpp:269-287) and `Events.AliasList` (src/matrix/Event.hpp:344), `RoomNameOf` (src/matrix/Event.hpp:316-321), `CanonicalAliasOf`, `PrevCanonicalAlias` (src/matrix/Event.hpp:355-368), `TopicOf`, `PrevTopic` (src/matrix/Event.hpp:377-381), `AvatarOf`, `PrevAvatar` (src/matrix/Event.hpp:390-394), `Creator` (src/matrix/Event.hpp:403): stated by `NonEmptyString`, `RoomStateSpec.DispatchMergesAliases`, `DispatchOverwrites`, `RevertRestoresFields`.
- `Events.MessageContentCheck`, `MsgType` (src/matrix/Event.cpp:173-178), `MessageKindCheck` (src/matrix/Event.hpp:192-206), `FileLikeCheck`, `FileCheck` (src/matrix/Event.cpp:188-215), `ReceiptCheck`, `TypingCheck` (src/matrix/Event.cpp:133-142): stated by `MessageCheck`, `FileInfoAccessors`, `TypingUserIds`, `Rooms.EphemeralStep`.
- `Ids.StringLess`, `Less` (src/matrix/ID.hpp:25): stated by `LessIsStrictTotalOrder`, `StringLessIsStrictTotalOrder`.
- `Ids.SortedStrings` (src/matrix/Room.cpp:80-88): stated by `SortedStringsSpec`.
- `Ids.UserFromStateKey` (src/matrix/ID.hpp:40): the same string under the user-id type; used by `Events.MemberUser`.
- `Redactions.ContentRule`, `Restrict`, `RedactedUnsigned`, `RedactedJson` (src/matrix/Event.cpp:83-129): stated by `RedactedShape`, `RedactionKeepsPreservedKeys`, `RedactionContent`, `RedactionIdempotent`.
- `RoomStateSpec.Named` (src/matrix/Room.cpp:116-121) and `Disambiguation` (src/matrix/Room.cpp:94-107): stated by `MemberName`, `SharedDisplaynameDisambiguated`, `SelfNamedRenameAnnouncesItself`.
- `RoomStateSpec.RoomName` (src/matrix/Room.cpp:73-92): stated by `RoomNamePriority`, `RoomNameAlone`, `RoomNamePair`, `RoomNameMany`.
- `RoomStateSpec.Unlisted` (src/matrix/Room.cpp:145-150), `Renamed`, `PriorContent` (src/matrix/Room.cpp:355-380): stated by `Forget`, `ForgetLeavesApart`, `RecordRestoresIndex`, `ReindexPreservesIndex`, `RenamedKeepsFields`.
- `RoomStateSpec.UpdateMembership`, `Joined` (src/matrix/Room.cpp:355-383) and `Parted` (src/matrix/Room.cpp:384-412): stated by `UpdatePreservesIndex`, `UpdateMembershipEffect`, `DepartKeepsIndex`, `LeaveThenPruneRemovesMember` and the `RoomStates.RoomState.UpdateMembership`, `JoinOrInvite`, `LeaveOrBan` rows.
- `RoomStateSpec.Dispatch` (src/matrix/Room.cpp:417-476): stated by `DispatchPreservesIndex`, `DispatchKeepsMembers`, `DispatchReportsChange`, `DispatchMergesAliases`, `DispatchOverwrites`, `Apply` and `RoomStates.RoomState.Dispatch`.
- `RoomStateSpec.Revert` (src/matrix/Room.cpp:478-512): stated by `RevertPreservesIndex`, `RevertRestoresFields`, `RevertRestoresMember` and `RoomStates.RoomState.Revert`.
- `Rooms.Extended` (src/matrix/Room.cpp:283-298): stated by `ExtendedShape`, `SyncTimeline`.
- `Rooms.TimelineNotices` (src/matrix/Room.cpp:271-329): stated by `TimelineNoticesMessages`, `TimelineNoticesAnnounceEvents`, `Room.TakeTimeline`.
- `Rooms.ReceiptUpdate` (src/matrix/Room.cpp:693-706): stated by `ReceiptUpdateKeepsIndex`, `UnindexKeeps`, `Room.UpdateReceipt`.
- `Rooms.ReceiptReads`, `ReadsOf`, `ReadsByUser`, `ApplyReads` (src/matrix/Room.cpp:332-340): stated by `ApplyReadsKeepsIndex`, `Room.ApplyReceipt`.
- `Rooms.TypingUsers` (src/matrix/Room.cpp:341-343, src/matrix/Event.cpp:144-152) and `RunEphemeral` (src/matrix/Room.cpp:331-347): stated by `Events.TypingUserIds`, `EphemeralStep`, `RunEphemeralKeepsIndex`, `Room.ApplyEphemeral`.
- `Rooms.IsOthersMessage`, `Scan`, `Unread` (src/matrix/Room.cpp:680-691): stated by `ScanFindsReadEvent`, `ScanBackward`, `ScanAppend`, `Room.HasUnread`.
- `Rooms.ClientError`, `Dropped` (src/matrix/Room.cpp:726-731): stated by `Room.TransmitFinished`, `Room.SendFinished`.
- `RoomStates.RoomState.PrettyName` (src/matrix/Room.cpp:73-92): `RoomStateSpec.RoomName` of the current state; stated by `RoomStateSpec.RoomNamePriority`, `RoomNameAlone`, `RoomNamePair`, `RoomNameMany`.
- `Rooms.Room.PrettyNameHighlights` (src/matrix/Room.hpp:152-154): the state's `pretty_name` passed through `WithHighlights`; stated by `WithHighlights`.
- `TimelineWindowSpec.Begin` (src/matrix/TimelineWindow.hpp:33-38), `LatestBegin` (src/matrix/TimelineWindow.hpp:46), `WindowEvents`: stated by `GrowRequest`, `AtStart`, `ResetReachesPresent`.
- `TimelineWindowSpec.AtStartAsWritten` (src/matrix/TimelineWindow.cpp:58-61) and `AtEndAsWritten` (src/matrix/TimelineWindow.cpp:63-65): stated by `AtStartAsWrittenMissesCreation`, `AtEndAgrees`, `AtEndAsWrittenUndefinedAfterConstruction`.
- `TimelineWindowSpec.AppendBatch` (src/matrix/TimelineWindow.cpp:67-91), `PrependBatch` (src/matrix/TimelineWindow.cpp:93-108), `AppendSync` (src/matrix/TimelineWindow.cpp:110-131): stated by `AppendBatchChains`, `PrependBatchChains`, `PrependToLatestReachesPresent`, `AppendSyncKeepsPresent`, `FetchedPageChains`, `FetchedBackwardPageChains` and the `TimelineWindows.TimelineWindow.AppendBatch`, `PrependBatch`, `AppendSync` rows.
- `TimelineWindowSpec.ReplayWindow` (src/matrix/TimelineWindow.cpp:179-191): stated by `TimelineWindows.TimelineManager.Replay`.
- `TimelineViewSpec.RedactedEvent` (src/TimelineView.cpp:195-200): stated by `RedactLike`, `RedactLikeIdempotent`.
- `TimelineViewSpec.Appended`, `AppendUnder` (src/TimelineView.cpp:895-919): stated by `AppendReusesEchoId`, `AppendTakesFreshId`, `AppendKeepsValid`, `AppendKeepsTop`.
- `TimelineViewSpec.Pended` (src/TimelineView.cpp:939-944): stated by `PendKeepsValid`.
- `TimelineViewSpec.RedactView` (src/TimelineView.cpp:921-937): stated by `RedactKeepsValid`.
- `TimelineViewSpec.BlockBorder` (src/TimelineView.cpp:1148-1150), `Feed1`, `Feed`, `Finish`, `Blocks`, `ViewEvents` (src/TimelineView.cpp:1152-1180): stated by `Feed1Valid`, `FeedValid`, `FeedConcat`, `BlocksPartition` and `TimelineViews.TimelineView.RebuildBlocks`.
- `TimelineViewSpec.Shifted`, `Overlaps` (src/TimelineView.cpp:96-104): stated by `Visible`, `VisibleAt`, `VisibleConcat`.
- `Sessions.CounterAfter` (src/matrix/Session.cpp:402-403): stated by `CounterAfterWraps`, `TransactionIdsDistinct`.
- `Sessions.ApplyMemberChange`, `ApplyMemberChanges`, `LastChange` (src/matrix/Session.cpp:277-292): stated by `MemberChangesOutcome`, `WriteMemberChanges`.
- `Sessions.WriteRoom`, `WriteRooms`, `JoinedIds`, `UpdatedStore` (src/matrix/Session.cpp:247-299): stated by `WriteRoomsOutcome`, `UpdatedStoreValid`, `Session.UpdateCache`.
- `Sessions.ReplyNotices` (src/matrix/Session.cpp:182-212): stated by `Session.HandleSyncReply`.
- `Hashing.Mix`, `HashCombine` (src/matrix/hash_combine.hpp:6-13): stated by `MixInvolution`, `HashCombineInverse`, `HashCombineInjective`.
- `Http.HttpError`, `MalformedError`, `NotObjectError` (src/matrix/utils.cpp:21-51): stated by `DecodeUnparsable`, `DecodeServerError`.
- `Contents.ContentHash`, `ThumbnailHash` (src/matrix/Content.hpp:68-87): stated by `ContentHashSeparatesIds`, `ThumbnailHashSeparatesMethods`.
- `Endian.LittleEndian` (src/matrix/Session.cpp:35-40): stated by `ToLittleEndian`, `LittleEndianFront`, `FromToLittleEndian`, `ToFromLittleEndian`.
- `Numerals.Decimal` (src/matrix/Room.cpp:90): the count in "%1 and %2 others", `ToBase` in base 10; stated by `ToBase`, `FromToBase`, `ToBaseInjective`, `RoomStateSpec.RoomNameMany`.
- `MemberLists.LeadingAts` (src/MemberList.cpp:7-14): stated by `SortKey`, `SortKeyIgnoresAts`.
- `MemberLists.ShownName`, `AfterChangeAsWritten` (src/MemberList.cpp:24-38): stated by `MemberChangedAsWrittenKeepsDeparted`, `AfterChange`, `MemberChangedAgrees`.
- `QStrings.LowestMarker`, `Replace`, `Arg` (src/matrix/Room.cpp:89-90, src/matrix/utils.cpp:26): `QString::arg`; stated by `ArgWithoutMarkers`, `LowestMarkerSkips`, `ReplaceSkips`, `ArgFillsMarker`, `FirstOfTwo`, `SecondOfTwo`, `ChainedArgRescans`.
- `ThumbnailCaches.AfterCopyAsWritten`, `AfterCopyReleasing` (src/ContentCache.hpp:58-63): stated by `CopyAssignLeaks`, `CopyAssignReleasingEmpties`.
- The invariants `RoomStateSpec.IndexValid`, `TimelineViewSpec.ViewValid`, `TimelineWindowSpec.WindowValid`, `Sessions.CacheConsistent`, `Rooms.ReceiptsValid` and each class's `Valid` are the model's statement of what the C++ keeps consistent between its containers; every operation's row says it preserves them, and `EmptySnapshotValid`, `EmptyViewValid` show they can be met.

The remaining members without a row are helpers of the proofs: arithmetic on machine words (`Hashing`, `Endian`, `Numerals`), concatenation and slicing lemmas, JSON accessors and the predicates that spell out the invariants above.

## Left out

- Rendering and input handling: `EventBlock` layout and painting, scrollbars, timestamps in local time, `EventView`, and the windows around the views. Only the data each view keeps is modelled.
- Network I/O: requests are returned as values and replies are arguments; `get_messages`, `leave`, `redact`, `send_read_receipt`, `upload`, `join` and `log_out` are not part of this model.
- LMDB: opening environments and databases, errors, file deletion and cursors. The store is an in-memory value.
- JSON parsing: `QJsonDocument::fromJson` and binary JSON are an abstract outcome, and JSON numbers are whole numbers.
- Floating point: the send backoff is whole nanoseconds times 5/4 (integer division), and receipt timestamps stay JSON integers.
- Unicode NFC normalisation, case folding, `qHash` and URL percent-encoding are not described: they are function parameters or the identity on decoded components.
- `Room::load_state` and the `Room` constructor's restore from cached room JSON and member lists (src/matrix/Room.cpp:186-237) are not modelled; a room starts empty.
- Sessions.Session.Dispatch: the `Room` objects of `rooms_` and `parse_sync` are not modelled; each joined room's changed members arrive in the sync value, and the sync always carries a `next_batch`.
- Sessions.LoadRooms: the member contents read back from each room's own member database are not validated on load.
- `departed_`: the debug-build assertion that it is empty before a departure is not a precondition; as in a release build, a later departure overwrites it.
- Room aliases: the C++ iterates a hash set in unspecified order; the model keeps the merged aliases in ascending order.
- MemberLists.Key: the read of `n[i]` at `i == n.size()` before the bound check is taken to yield Qt's terminating NUL, which ends the loop.
- MemberLists: `RoomState::member_name(UserID)` and `nonmember_disambiguation` are declared but not defined; the names they give are arguments. The list's `std::map` order is modelled by a map keyed by the sort key, so the order itself is implicit.
- FixedVectors.FixedVector.Empty: the default constructor's null `data_` is an empty array.
- EntryBox.hpp is not part of this model: `true_history_` and `working_history_` are taken to start empty, and `working_history_` then holds the one empty entry the constructor pushes.
- TimelineWindows: the constructor's `invalid_argument` on no batches is the Err of TimelineWindowSpec.Construct.
- TimelineViews.TimelineView.Append: an echo whose transaction id has no pending entry is undefined behaviour in the C++ and is a precondition here.
- ThumbnailCaches.ThumbnailCache.Unref: `unref` of a thumbnail not in the cache is undefined behaviour and is a precondition; `get` of a missing thumbnail is modelled as an Err result.
- `pretty_size`, `to_timestamp`, `href_urls` and the member-event texts of the view are presentation and not part of this model.
- Qt signals are returned as an ordered list of notices (`RoomNotice`, `Notice`, the state signals); the slots connected to them are not modelled.
- Sessions.Session.constructor: opens the cache with `InitStore` and registers a member database for every stored room, the corrected behaviour of the two Session.cpp rows under "## Findings"; as written (src/matrix/Session.cpp:83-88 and 133) a reset keeps the stale member databases, and start-up throws `missing_field` when two or more rooms are stored (a single room is loaded without its members), which `InitStoreAsWritten` and `LoadRoomsAsWritten` model separately. The `Room` objects built from the loaded rooms are not modelled.
- TimelineWindows.TimelineManager.Grow: decides "at the start" with the corrected `AtStart` of the Findings row for src/matrix/TimelineWindow.cpp:58-61, not `at_start` as written (`AtStartAsWritten`), so a backward page is not requested once the oldest event is the creation event wherever it sits in its batch.
- TimelineWindowSpec.GrowRequest: uses the corrected `AtStart`, as for `Grow` above.
- Events.ToState: requires a string "state_key" when the key is present; the C++ `to_state` is `noexcept` and a non-string key makes it terminate the program, which the model does not describe.
- Contents.ContentUrl: the round trip takes the host as stored; `QUrl::setHost` lowercases the host, so the content of an `mxc` URL whose host has capitals parses back with a lowercased host, which the model does not describe.
- ThumbnailCaches.ThumbnailRef.Copy: copying a handle with no cache (moved-from or default) dereferences a null pointer in the C++; that undefined behaviour is the precondition `other.cache != null`.
- ThumbnailCaches.ThumbnailRef.CopyAssign: the same null dereference on a source handle with no cache is the precondition `other.cache != null`.
- ThumbnailCaches.ThumbnailRef.CopyAssignReleasing: carries the same precondition `other.cache != null` as `CopyAssign`.
- RoomStateSpec.Forget: src/matrix/Room.cpp:143 asks for the disambiguation of the member to announce (the user whose id is the old name, or the one other holder of it), and the model emits `member_disambiguation_changed` with no disambiguation where the C++ does not return normally. Two inputs reach that: (1) the member has no disambiguation, and the dereference of the empty optional is undefined behaviour; (2) a member whose display name is its own user id, alone in holding it, renames to a name nobody holds, so the member announces itself and `members_named` (src/matrix/Room.cpp:120) throws `std::out_of_range` for the new name, which nothing catches before `dispatch` returns (`RoomStateSpec.SelfNamedRenameAnnouncesItself` exhibits the signal the model gives there). The exception is not modelled as an error because `update_membership`, `dispatch` and every caller would then have to carry it.
- RoomStates.RoomState.ForgetDisplayname: follows `Forget`, so it gives the same signal for both inputs: the undefined dereference and the `std::out_of_range` of a self-named member renaming to a name nobody holds.
- MemberLists.DisambiguationChanged: src/MemberList.cpp:43 dereferences the member's display name, which is undefined behaviour for a member without one; the model takes the display name as an argument and does not describe that case.
- MemberLists.MemberList.MemberDisambiguationChanged: takes the display name as an argument, as `DisambiguationChanged` does.
- Ids.StringLessIsStrictTotalOrder: strings are compared by Unicode code points; `QString` compares UTF-16 code units, which orders characters outside the Basic Multilingual Plane differently.
- QStrings.MarkerAt: only ASCII digits form place markers (Qt also accepts other Unicode decimal digits), and a `%L` marker filled with a number is not given locale digit grouping.

## Findings

| source | as written | input that shows it | evidently intended | confidence | as-written member | corrected member |
|---|---|---|---|---|---|---|
| src/matrix/utils.cpp:26 | the error text fills only `%1` of `"HTTP %1 %2"`, with the reason phrase, so the status code never appears and `%2` stays literal | a reply with status 404, reason "Not Found" and an unparsable body | `HTTP 404 Not Found` | not executed | Http.DecodeAsWrittenLosesStatusCode | Http.Decode |
| src/matrix/TimelineWindow.cpp:58-61 | `at_start` looks at the newest event of the newest stored batch (`batches_.back()`) and of the latest batch, never at the oldest event | a window whose only stored batch is [create, message] | the window is at its start when the oldest batch begins with `m.room.create` | not executed | TimelineWindowSpec.AtStartAsWrittenMissesCreation | TimelineWindowSpec.AtStart |
| src/matrix/TimelineWindow.cpp:197-205 | `forward_fetch_error` schedules the retry backwards and `backward_fetch_error` forwards, the opposite of the fetch that failed | a window at its start, not at its end, whose forward fetch fails | the failed fetch is retried in its own direction | not executed | TimelineWindowSpec.ForwardRetryAsWrittenStalls | TimelineWindows.TimelineManager.ForwardFetchError |
| src/matrix/TimelineWindow.cpp:63-65 | `at_end` dereferences `batches_end_`, which the constructor leaves empty | a window built from two batches, before any page | an unset end cursor means the window reaches the present | not executed | TimelineWindowSpec.AtEndAsWrittenUndefinedAfterConstruction | TimelineWindowSpec.AtEnd |
| src/ContentCache.hpp:58-63 | copy assignment takes the new reference without dropping the old one | a handle on t1 assigned a copy of a handle on t2, then both destroyed | the old thumbnail is released | not executed | ThumbnailCaches.CopyAssignLeaks | ThumbnailCaches.ThumbnailRef.CopyAssignReleasing |
| src/matrix/Session.cpp:83-88 | an incompatible cache drops the state and rooms databases but keeps every member database | an old-format cache holding room !r with member @u | the member databases are dropped too | not executed | Sessions.InitStoreAsWrittenKeepsStaleMembers | Sessions.InitStore |
| src/matrix/Session.cpp:133 | the member loop advances the rooms cursor instead of the member cursor, so the next room's JSON is validated as a member content and start-up throws | a cache with two rooms | each room is loaded with its own members | not executed | Sessions.LoadRoomsAsWrittenFailsOnTwoRooms | Sessions.LoadRooms |
| src/FixedVector.hpp:33-34 | `rbegin` wraps `begin()` and `rend` wraps `end()` | any vector with one element | `rbegin` wraps `end()` and `rend` wraps `begin()` | not executed | FixedVectors.FixedVector.ReverseTraversalAsWritten | FixedVectors.FixedVector.ReverseTraversal |
| src/MemberList.cpp:26-28 | the old entry is erased only when the display name changes | a member without a display name who leaves | a member who stops being displayable is removed | not executed | MemberLists.MemberChangedAsWrittenKeepsDeparted | MemberLists.AfterChange |
