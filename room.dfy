/**
 * `Room` (src/matrix/Room.cpp, Room.hpp): the per-room bookkeeping around
 * the two room states. It keeps the buffer of recent timeline batches
 * (trimmed from the front while enough events remain), the read receipts
 * indexed by user and by event, the typing list, and the queue of events
 * waiting to be sent with its retry backoff.
 *
 * The server, the database and the clock are outside the model: a sync
 * arrives as a `JoinedRoom` value, a send is returned as the request it
 * would make, a finished send arrives as the reply `decode` reads, and a
 * retry timer is the delay it would be started with.
 */
module Rooms {
  import opened Wrappers
  import opened Json
  import opened Ids
  import opened Events
  import opened Numerals
  import opened RoomStateSpec
  import opened RoomStates
  import Http

  /**
   * `Batch`: the cursor at the beginning of a run of timeline events, and
   * those events, oldest first. (Room.cpp calls the buffer's cursor
   * `prev_batch`; it is the same field.)
   */
  datatype Batch = Batch(begin: TimelineCursor, events: seq<Event>)

  datatype Receipt = Receipt(event: EventID, ts: int)

  /** `PendingEvent`: an event queued for sending. */
  datatype PendingEvent = PendingEvent(eventType: string, content: JsonObject)

  /** The part of a sync response for one joined room that `Room::dispatch` reads. */
  datatype Timeline = Timeline(limited: bool, prevBatch: TimelineCursor, events: seq<Event>)
  datatype JoinedRoom = JoinedRoom(highlightCount: nat, notificationCount: nat, timeline: Timeline, ephemeral: seq<Event>)

  /** The PUT request `transmit_event` makes. */
  datatype SendRequest = SendRequest(path: string, content: JsonObject)

  /** The signals a `Room` emits, in emission order. */
  datatype RoomNotice =
    | HighlightCountChanged(oldHighlights: nat)
    | NotificationCountChanged(oldNotifications: nat)
    | Discontinuity
    | PrevBatch(cursor: TimelineCursor)
    | Message(event: Event)
    | StateSignal(signal: RoomSignal)
    | BatchArrived(timeline: Timeline)
    | ReceiptsChanged
    | TypingChanged
    | StateChanged

  const MinimumBackoffNs: nat := 5_000_000_000
  const MaximumBackoffNs: nat := 30_000_000_000

  /** A timeline event: a valid room event whose state key, when present, is text. */
  predicate IsTimelineEvent(e: Event) {
    IsRoomEvent(e) && ("state_key" in e.json ==> e.json["state_key"].Str?)
  }

  predicate AllTimelineEvents(events: seq<Event>) {
    forall e | e in events :: IsTimelineEvent(e)
  }

  predicate BufferEvents(buffer: seq<Batch>) {
    forall b | b in buffer :: AllTimelineEvents(b.events)
  }

  /** A batch of timeline events, taken from a prefix of a timeline, keeps a buffer of timeline events. */
  lemma BufferEventsAppend(buffer: seq<Batch>, begin: TimelineCursor, events: seq<Event>, n: nat)
    requires BufferEvents(buffer) && AllTimelineEvents(events) && n <= |events|
    ensures BufferEvents(buffer + [Batch(begin, events[..n])])
  {
    forall b | b in buffer + [Batch(begin, events[..n])]
      ensures AllTimelineEvents(b.events)
    {
      if b !in buffer {
        assert forall e | e in events[..n] :: e in events;
      }
    }
  }

  function Wrap(signals: seq<RoomSignal>): (r: seq<RoomNotice>)
    ensures |r| == |signals| && forall i :: 0 <= i < |r| ==> r[i] == StateSignal(signals[i])
  {
    if signals == [] then [] else [StateSignal(signals[0])] + Wrap(signals[1..])
  }

  // ---------------------------------------------------------------------
  // The event buffer
  // ---------------------------------------------------------------------

  /** All buffered events, oldest first. */
  function Flatten(buffer: seq<Batch>): seq<Event> {
    if buffer == [] then [] else Flatten(buffer[..|buffer| - 1]) + buffer[|buffer| - 1].events
  }

  /** The batch list after a sync's timeline, before trimming. */
  function Extended(buffer: seq<Batch>, t: Timeline): seq<Batch> {
    var b := if t.limited then [] else buffer;
    if t.events == [] && b != [] then b[..|b| - 1] + [b[|b| - 1].(begin := t.prevBatch)]
    else b + [Batch(t.prevBatch, t.events)]
  }

  /**
   * A limited timeline clears the buffer first; an empty timeline on a
   * non-empty buffer only rewrites the last batch's cursor; any other
   * timeline becomes a new last batch.
   */
  lemma ExtendedShape(buffer: seq<Batch>, t: Timeline)
    ensures var b := if t.limited then [] else buffer; var r := Extended(buffer, t);
      (t.events == [] && b != [] ==>
        |r| == |b| && r[..|b| - 1] == b[..|b| - 1] &&
        r[|b| - 1].events == b[|b| - 1].events && r[|b| - 1].begin == t.prevBatch) &&
      (!(t.events == [] && b != []) ==> r[..|r| - 1] == b && r[|r| - 1] == Batch(t.prevBatch, t.events))
    ensures t.limited ==> |Extended(buffer, t)| == 1
  {
  }

  /** A timeline event's own effect on the current state: a state event is dispatched, a malformed one ignored. */
  function DispatchTimelineEvent(s: Snapshot, nfc: Normalizer, e: Event, room: RoomID): (r: (Snapshot, bool, seq<RoomNotice>))
    requires IndexValid(s, nfc) && IsTimelineEvent(e)
    ensures IndexValid(r.0, nfc)
    ensures Messages(r.2) == []
  {
    if ToState(e).Some? then
      match RoomStateSpec.Dispatch(s, nfc, e, Some(room))
      case Err(_) => (s, false, [])
      case Ok(d) =>
        DispatchPreservesIndex(s, nfc, e, Some(room));
        WrapAnnouncesNothing(d.signals);
        (d.state, d.changed, Wrap(d.signals))
    else (s, false, [])
  }

  /** One event of a sync applied to the current state: dispatched, announced by `message`, then the departed member pruned. */
  function TimelineStep(s: Snapshot, nfc: Normalizer, e: Event, room: RoomID): (r: (Snapshot, bool, seq<RoomNotice>))
    requires IndexValid(s, nfc) && IsTimelineEvent(e)
    ensures IndexValid(r.0, nfc)
  {
    var dispatched := DispatchTimelineEvent(s, nfc, e, room);
    PrunePreservesIndex(dispatched.0, nfc, true);
    var pruned := Prune(dispatched.0, nfc, true);
    (pruned.state, dispatched.1, dispatched.2 + [Message(e)] + Wrap(pruned.signals))
  }

  /** The events of a sync applied in order: final state, whether any dispatch reported a change, signals. */
  function RunTimeline(s: Snapshot, nfc: Normalizer, events: seq<Event>, room: RoomID): (r: (Snapshot, bool, seq<RoomNotice>))
    requires IndexValid(s, nfc) && AllTimelineEvents(events)
    ensures IndexValid(r.0, nfc)
    decreases |events|
  {
    if events == [] then (s, false, [])
    else
      var step := TimelineStep(s, nfc, events[0], room);
      var rest := RunTimeline(step.0, nfc, events[1..], room);
      (rest.0, step.1 || rest.1, step.2 + rest.2)
  }

  /** Running the events from position `i` is running the event at `i`, then the events after it. */
  lemma RunTimelineAt(s: Snapshot, nfc: Normalizer, events: seq<Event>, i: nat, room: RoomID)
    requires IndexValid(s, nfc) && AllTimelineEvents(events) && i < |events|
    ensures var step := TimelineStep(s, nfc, events[i], room);
      var rest := RunTimeline(step.0, nfc, events[i + 1..], room);
      RunTimeline(s, nfc, events[i..], room) == (rest.0, step.1 || rest.1, step.2 + rest.2)
  {
    assert events[i..][0] == events[i] && events[i..][1..] == events[i + 1..];
  }

  /** Running `events` from `s`, after a prefix that touched the state as `touched` and signalled `notices`, completes the run `goal`. */
  ghost predicate Completes(s: Snapshot, nfc: Normalizer, events: seq<Event>, room: RoomID, touched: bool, notices: seq<RoomNotice>,
                            goal: (Snapshot, bool, seq<RoomNotice>))
    requires IndexValid(s, nfc) && AllTimelineEvents(events)
  {
    var rest := RunTimeline(s, nfc, events, room);
    rest.0 == goal.0 && (touched || rest.1) == goal.1 && notices + rest.2 == goal.2
  }

  /** The events announced by `message` signals, in order. */
  function Messages(notices: seq<RoomNotice>): seq<Event> {
    if notices == [] then [] else (if notices[0].Message? then [notices[0].event] else []) + Messages(notices[1..])
  }

  lemma {:induction false} MessagesConcat(a: seq<RoomNotice>, b: seq<RoomNotice>)
    ensures Messages(a + b) == Messages(a) + Messages(b)
    decreases |a|
  {
    if a == [] {
      assert a + b == b;
    } else {
      assert (a + b)[0] == a[0] && (a + b)[1..] == a[1..] + b;
      MessagesConcat(a[1..], b);
    }
  }

  lemma {:induction false} WrapAnnouncesNothing(signals: seq<RoomSignal>)
    ensures Messages(Wrap(signals)) == []
    decreases |signals|
  {
    if signals != [] {
      WrapAnnouncesNothing(signals[1..]);
    }
  }

  /** One timeline step announces its event, and nothing else, through `message`. */
  lemma TimelineStepAnnounces(s: Snapshot, nfc: Normalizer, e: Event, room: RoomID)
    requires IndexValid(s, nfc) && IsTimelineEvent(e)
    ensures Messages(TimelineStep(s, nfc, e, room).2) == [e]
  {
    var dispatched := DispatchTimelineEvent(s, nfc, e, room);
    PrunePreservesIndex(dispatched.0, nfc, true);
    var signals := Prune(dispatched.0, nfc, true).signals;
    MessagesConcat(dispatched.2, [Message(e)]);
    MessagesConcat(dispatched.2 + [Message(e)], Wrap(signals));
    WrapAnnouncesNothing(signals);
  }

  /** A sync's timeline announces each of its events once, in order, through `message`. */
  lemma {:induction false} RunTimelineAnnouncesEach(s: Snapshot, nfc: Normalizer, events: seq<Event>, room: RoomID)
    requires IndexValid(s, nfc) && AllTimelineEvents(events)
    ensures Messages(RunTimeline(s, nfc, events, room).2) == events
    decreases |events|
  {
    if events != [] {
      var step := TimelineStep(s, nfc, events[0], room);
      TimelineStepAnnounces(s, nfc, events[0], room);
      RunTimelineAnnouncesEach(step.0, nfc, events[1..], room);
      MessagesConcat(step.2, RunTimeline(step.0, nfc, events[1..], room).2);
      assert events == [events[0]] + events[1..];
    }
  }

  /** One event of a dropped batch replayed on the initial state: applied when it is a state event, then pruned. */
  function ReplayEvent(s: Snapshot, nfc: Normalizer, e: Event): (r: Result<Snapshot, EventError>)
    requires IndexValid(s, nfc) && IsTimelineEvent(e)
    ensures r.Ok? ==> IndexValid(r.value, nfc)
    ensures r.Err? ==> ToState(e).Some? && RoomStateSpec.Apply(s, nfc, e) == Err(r.error)
  {
    if ToState(e).Some? then
      match RoomStateSpec.Apply(s, nfc, e)
      case Err(err) => Err(err)
      case Ok(s1) =>
        DispatchPreservesIndex(s, nfc, e, None);
        PrunePreservesIndex(s1, nfc, false);
        Ok(Prune(s1, nfc, false).state)
    else
      PrunePreservesIndex(s, nfc, false);
      Ok(Prune(s, nfc, false).state)
  }

  /**
   * The events of a dropped batch replayed on the initial state. A
   * malformed state event stops the replay with the state reached before
   * it.
   */
  function Replay(s: Snapshot, nfc: Normalizer, events: seq<Event>): (r: (Snapshot, Option<EventError>))
    requires IndexValid(s, nfc) && AllTimelineEvents(events)
    ensures IndexValid(r.0, nfc)
    decreases |events|
  {
    if events == [] then (s, None)
    else
      assert events[0] in events;
      match ReplayEvent(s, nfc, events[0])
      case Err(err) => (s, Some(err))
      case Ok(s1) => Replay(s1, nfc, events[1..])
  }

  /** Buffer and initial state after trimming, and the error that stopped trimming, if any. */
  datatype Trimmed = Trimmed(buffer: seq<Batch>, initial: Snapshot, error: Option<EventError>)

  /** Drop front batches, replaying them on the initial state, while the events outside the front batch are at least `limit`. */
  function Trim(buffer: seq<Batch>, initial: Snapshot, nfc: Normalizer, limit: nat): (r: Trimmed)
    requires IndexValid(initial, nfc) && BufferEvents(buffer)
    ensures IndexValid(r.initial, nfc) && BufferEvents(r.buffer)
    decreases |buffer|
  {
    if buffer != [] && |Flatten(buffer)| - |buffer[0].events| >= limit then
      var replayed := Replay(initial, nfc, buffer[0].events);
      if replayed.1.Some? then Trimmed(buffer, replayed.0, replayed.1)
      else Trim(buffer[1..], replayed.0, nfc, limit)
    else Trimmed(buffer, initial, None)
  }

  /** Buffer, current state and initial state after the timeline of a sync, with the touched flag and the error that stopped trimming. */
  datatype Synced = Synced(buffer: seq<Batch>, current: Snapshot, initial: Snapshot, touched: bool, error: Option<EventError>)

  /**
   * The timeline part of a sync: an empty, unlimited timeline on a
   * non-empty buffer only moves the last batch's cursor; any other
   * timeline is dispatched event by event to the current state, becomes
   * the new last batch (of an emptied buffer when limited), and the
   * buffer is trimmed.
   */
  function SyncTimeline(buffer: seq<Batch>, current: Snapshot, initial: Snapshot, nfc: Normalizer, t: Timeline, room: RoomID, limit: nat): (r: Synced)
    requires IndexValid(current, nfc) && IndexValid(initial, nfc) && BufferEvents(buffer) && AllTimelineEvents(t.events)
    ensures IndexValid(r.current, nfc) && IndexValid(r.initial, nfc) && BufferEvents(r.buffer)
  {
    if t.events == [] && !t.limited && buffer != [] then
      assert buffer[|buffer| - 1] in buffer;
      Synced(Extended(buffer, t), current, initial, false, None)
    else
      var run := RunTimeline(current, nfc, t.events, room);
      var extended := Extended(buffer, t);
      assert BufferEvents(extended) by {
        ExtendedShape(buffer, t);
        assert extended == (if t.limited then [] else buffer) + [Batch(t.prevBatch, t.events)];
      }
      var trimmed := Trim(extended, initial, nfc, limit);
      Synced(trimmed.buffer, run.0, trimmed.initial, run.1, trimmed.error)
  }

  /** New unread counts replacing old ones: each count that differs is announced with its old value, highlights first. */
  function CountNotices(highlights: nat, notifications: nat, newHighlights: nat, newNotifications: nat): (r: seq<RoomNotice>)
    ensures |r| <= 2
    ensures HighlightCountChanged(highlights) in r <==> newHighlights != highlights
    ensures NotificationCountChanged(notifications) in r <==> newNotifications != notifications
  {
    (if newHighlights != highlights then [HighlightCountChanged(highlights)] else []) +
    (if newNotifications != notifications then [NotificationCountChanged(notifications)] else [])
  }

  /**
   * The signals of the timeline part of `Room::dispatch`, in order: the
   * changed counts, `discontinuity` for a limited timeline, `prev_batch`,
   * the run's signals (each event's state signals, its `message`, the
   * prune signals), and `batch` unless trimming failed.
   */
  function TimelineNotices(highlights: nat, notifications: nat, joined: JoinedRoom, run: seq<RoomNotice>, trimmed: bool): seq<RoomNotice> {
    CountNotices(highlights, notifications, joined.highlightCount, joined.notificationCount)
    + (if joined.timeline.limited then [Discontinuity] else [])
    + [PrevBatch(joined.timeline.prevBatch)]
    + run
    + (if trimmed then [BatchArrived(joined.timeline)] else [])
  }

  lemma {:induction false} NoMessages(a: seq<RoomNotice>)
    requires forall k :: 0 <= k < |a| ==> !a[k].Message?
    ensures Messages(a) == []
    decreases |a|
  {
    if a != [] {
      NoMessages(a[1..]);
    }
  }

  /** Among the signals of the timeline part, only the run's announce events. */
  lemma TimelineNoticesMessages(highlights: nat, notifications: nat, joined: JoinedRoom, run: seq<RoomNotice>, trimmed: bool)
    ensures Messages(TimelineNotices(highlights, notifications, joined, run, trimmed)) == Messages(run)
  {
    var head := CountNotices(highlights, notifications, joined.highlightCount, joined.notificationCount)
      + (if joined.timeline.limited then [Discontinuity] else []) + [PrevBatch(joined.timeline.prevBatch)];
    var tail := if trimmed then [BatchArrived(joined.timeline)] else [];
    NoMessages(head);
    NoMessages(tail);
    MessagesConcat(head, run);
    MessagesConcat(head + run, tail);
  }

  /** `message` announces the timeline's events, each once and in order, among the signals of the timeline part. */
  lemma TimelineNoticesAnnounceEvents(highlights: nat, notifications: nat, joined: JoinedRoom, s: Snapshot, nfc: Normalizer, room: RoomID, trimmed: bool)
    requires IndexValid(s, nfc) && AllTimelineEvents(joined.timeline.events)
    ensures Messages(TimelineNotices(highlights, notifications, joined, RunTimeline(s, nfc, joined.timeline.events, room).2, trimmed))
      == joined.timeline.events
  {
    TimelineNoticesMessages(highlights, notifications, joined, RunTimeline(s, nfc, joined.timeline.events, room).2, trimmed);
    RunTimelineAnnouncesEach(s, nfc, joined.timeline.events, room);
  }

  /**
   * Trimming drops whole batches from the front only, and when it is not
   * stopped by an error it leaves fewer than `limit` events outside the
   * front batch.
   */
  lemma {:induction false} TrimDropsFront(buffer: seq<Batch>, initial: Snapshot, nfc: Normalizer, limit: nat)
    requires IndexValid(initial, nfc) && BufferEvents(buffer)
    ensures var r := Trim(buffer, initial, nfc, limit);
      (exists k :: 0 <= k <= |buffer| && r.buffer == buffer[k..]) &&
      (r.error.None? && r.buffer != [] ==> |Flatten(r.buffer)| - |r.buffer[0].events| < limit)
    decreases |buffer|
  {
    var r := Trim(buffer, initial, nfc, limit);
    if buffer != [] && |Flatten(buffer)| - |buffer[0].events| >= limit {
      var replayed := Replay(initial, nfc, buffer[0].events);
      if replayed.1.Some? {
        assert r.buffer == buffer[0..];
      } else {
        TrimDropsFront(buffer[1..], replayed.0, nfc, limit);
        var k :| 0 <= k <= |buffer[1..]| && r.buffer == buffer[1..][k..];
        assert r.buffer == buffer[k + 1..];
      }
    } else {
      assert r.buffer == buffer[0..];
    }
  }

  // ---------------------------------------------------------------------
  // Read receipts
  // ---------------------------------------------------------------------

  /**
   * The two receipt indexes agree: each user's receipt is listed under its
   * event, once, and every listed user holds a receipt for that event.
   */
  ghost predicate ReceiptsValid(byUser: map<UserID, Receipt>, byEvent: map<EventID, seq<UserID>>) {
    (forall u | u in byUser :: byUser[u].event in byEvent && u in byEvent[byUser[u].event]) &&
    (forall e | e in byEvent :: NoDup(byEvent[e]) && forall u | u in byEvent[e] :: u in byUser && byUser[u].event == e)
  }

  /** The receipt indexes after `update_receipt`. */
  function ReceiptUpdate(byUser: map<UserID, Receipt>, byEvent: map<EventID, seq<UserID>>, user: UserID, event: EventID, ts: int)
    : (map<UserID, Receipt>, map<EventID, seq<UserID>>)
  {
    var unindexed :=
      if user in byUser && byUser[user].event in byEvent then
        byEvent[byUser[user].event := RemoveAll(byEvent[byUser[user].event], user)]
      else byEvent;
    var listed := if event in unindexed then unindexed[event] else [];
    (byUser[user := Receipt(event, ts)], unindexed[event := listed + [user]])
  }

  /**
   * `update_receipt` keeps one receipt per user: the user's receipt becomes
   * the new one and the user is listed under the new event and under no
   * other; the indexes stay consistent and other users are untouched.
   */
  lemma ReceiptUpdateKeepsIndex(byUser: map<UserID, Receipt>, byEvent: map<EventID, seq<UserID>>, user: UserID, event: EventID, ts: int)
    requires ReceiptsValid(byUser, byEvent)
    ensures var (u2, e2) := ReceiptUpdate(byUser, byEvent, user, event, ts);
      ReceiptsValid(u2, e2) &&
      u2 == byUser[user := Receipt(event, ts)] &&
      (forall e | e in e2 :: user in e2[e] <==> e == event) &&
      (forall e, v | e in byEvent && v != user :: e in e2 && (v in e2[e] <==> v in byEvent[e]))
  {
    var unindexed :=
      if user in byUser && byUser[user].event in byEvent then
        byEvent[byUser[user].event := RemoveAll(byEvent[byUser[user].event], user)]
      else byEvent;
    UnindexKeeps(byUser, byEvent, user, unindexed);
    var listed := if event in unindexed then unindexed[event] else [];
    var u2 := byUser[user := Receipt(event, ts)];
    var e2 := unindexed[event := listed + [user]];
    assert ReceiptUpdate(byUser, byEvent, user, event, ts) == (u2, e2);
    assert NoDup(listed + [user]) by {
      var l := listed + [user];
      forall i, j | 0 <= i < j < |l| ensures l[i] != l[j] {
        if j == |l| - 1 {
          assert l[i] in listed;
        } else {
          assert l[i] == listed[i] && l[j] == listed[j];
        }
      }
    }
    forall e | e in e2 ensures user in e2[e] <==> e == event {
    }
    forall e, v | e in byEvent && v != user ensures e in e2 && (v in e2[e] <==> v in byEvent[e]) {
    }
    forall u | u in u2 ensures u2[u].event in e2 && u in e2[u2[u].event] {
      if u != user {
        assert u in byEvent[byUser[u].event];
      }
    }
    forall e | e in e2 ensures NoDup(e2[e]) && forall u | u in e2[e] :: u in u2 && u2[u].event == e {
      forall u | u in e2[e] ensures u in u2 && u2[u].event == e {
        if u != user {
          assert u in byEvent[e];
        }
      }
    }
  }

  /** Taking the user out of the by-event index leaves every list without the user and everyone else where they were. */
  lemma UnindexKeeps(byUser: map<UserID, Receipt>, byEvent: map<EventID, seq<UserID>>, user: UserID, unindexed: map<EventID, seq<UserID>>)
    requires ReceiptsValid(byUser, byEvent)
    requires unindexed ==
      if user in byUser && byUser[user].event in byEvent then
        byEvent[byUser[user].event := RemoveAll(byEvent[byUser[user].event], user)]
      else byEvent
    ensures unindexed.Keys == byEvent.Keys
    ensures forall e | e in unindexed :: user !in unindexed[e] && NoDup(unindexed[e])
    ensures forall e, v | e in unindexed && v != user :: v in unindexed[e] <==> v in byEvent[e]
  {
  }

  /** The reads of a receipt event, in the order its JSON iterates: by event id, then by user id. */
  function ReceiptReads(content: JsonObject): seq<(EventID, UserID, int)> {
    ReadsOf(content, SortedStrings(content.Keys))
  }

  function ReadsOf(content: JsonObject, events: seq<string>): seq<(EventID, UserID, int)>
    decreases |events|
  {
    if events == [] then []
    else
      var marks := GetObject(GetObject(content, events[0]), "m.read");
      ReadsByUser(events[0], marks, SortedStrings(marks.Keys)) + ReadsOf(content, events[1..])
  }

  function ReadsByUser(event: string, marks: JsonObject, users: seq<string>): seq<(EventID, UserID, int)>
    decreases |users|
  {
    if users == [] then []
    else [(ID(event), ID(users[0]), AsNumber(Get(GetObject(marks, users[0]), "ts")))] + ReadsByUser(event, marks, users[1..])
  }

  function ApplyReads(byUser: map<UserID, Receipt>, byEvent: map<EventID, seq<UserID>>, marks: seq<(EventID, UserID, int)>)
    : (r: (map<UserID, Receipt>, map<EventID, seq<UserID>>))
    decreases |marks|
  {
    if marks == [] then (byUser, byEvent)
    else
      var next := ReceiptUpdate(byUser, byEvent, marks[0].1, marks[0].0, marks[0].2);
      ApplyReads(next.0, next.1, marks[1..])
  }

  lemma {:induction false} ApplyReadsKeepsIndex(byUser: map<UserID, Receipt>, byEvent: map<EventID, seq<UserID>>, marks: seq<(EventID, UserID, int)>)
    requires ReceiptsValid(byUser, byEvent)
    ensures ReceiptsValid(ApplyReads(byUser, byEvent, marks).0, ApplyReads(byUser, byEvent, marks).1)
    decreases |marks|
  {
    if marks != [] {
      ReceiptUpdateKeepsIndex(byUser, byEvent, marks[0].1, marks[0].0, marks[0].2);
      var next := ReceiptUpdate(byUser, byEvent, marks[0].1, marks[0].0, marks[0].2);
      ApplyReadsKeepsIndex(next.0, next.1, marks[1..]);
    }
  }

  /** `Typing::user_ids` */
  function TypingUsers(e: Event): seq<UserID> {
    var ids := AsArray(Get(Content(e), "user_ids"));
    seq(|ids|, i requires 0 <= i < |ids| => ID(AsString(ids[i])))
  }

  /** Receipts, typing list and signals after one ephemeral event, or the error a malformed typing event raises. */
  datatype EphemeralState = EphemeralState(byUser: map<UserID, Receipt>, byEvent: map<EventID, seq<UserID>>, typing: seq<UserID>)

  function EphemeralStep(s: EphemeralState, e: Event): (r: (EphemeralState, seq<RoomNotice>, Option<EventError>))
    ensures r.2.Some? ==> r.0 == s && r.1 == []
  {
    if Type(e).value == ReceiptTag then
      var next := ApplyReads(s.byUser, s.byEvent, ReceiptReads(Content(e)));
      (s.(byUser := next.0, byEvent := next.1), [ReceiptsChanged], None)
    else if Type(e).value == TypingTag then
      match TypingCheck(e)
      case Some(err) => (s, [], Some(err))
      case None => (s.(typing := TypingUsers(e)), [TypingChanged], None)
    else (s, [], None)
  }

  /** All ephemeral events in order; the first malformed typing event stops the processing with the state reached. */
  function RunEphemeral(s: EphemeralState, events: seq<Event>): (r: (EphemeralState, seq<RoomNotice>, Option<EventError>))
    decreases |events|
  {
    if events == [] then (s, [], None)
    else
      var step := EphemeralStep(s, events[0]);
      if step.2.Some? then step
      else
        var rest := RunEphemeral(step.0, events[1..]);
        (rest.0, step.1 + rest.1, rest.2)
  }

  lemma {:induction false} RunEphemeralKeepsIndex(s: EphemeralState, events: seq<Event>)
    requires ReceiptsValid(s.byUser, s.byEvent)
    ensures var r := RunEphemeral(s, events).0; ReceiptsValid(r.byUser, r.byEvent)
    decreases |events|
  {
    if events != [] {
      var step := EphemeralStep(s, events[0]);
      if step.2.None? {
        if Type(events[0]).value == ReceiptTag {
          ApplyReadsKeepsIndex(s.byUser, s.byEvent, ReceiptReads(Content(events[0])));
        }
        RunEphemeralKeepsIndex(step.0, events[1..]);
      }
    }
  }

  // ---------------------------------------------------------------------
  // Unread messages
  // ---------------------------------------------------------------------

  /** A message sent by someone other than the own user. */
  predicate IsOthersMessage(e: Event, own: UserID) {
    Type(e).value == MessageTag && Sender(e) != own
  }

  /**
   * The newest-first scan of `has_unread`: the read event, met first, means
   * nothing is unread; another user's message, met first, means something
   * is; neither leaves the question open.
   */
  function Scan(events: seq<Event>, read: EventID, own: UserID): Option<bool> {
    if events == [] then None
    else
      var e := events[|events| - 1];
      if Id(e) == read then Some(false)
      else if IsOthersMessage(e, own) then Some(true)
      else Scan(events[..|events| - 1], read, own)
  }

  /** `has_unread` as a value. */
  function Unread(buffer: seq<Batch>, receipt: Option<Receipt>, own: UserID): bool {
    if buffer == [] || buffer[|buffer| - 1].events == [] || receipt.None? then true
    else Scan(Flatten(buffer), receipt.value.event, own).GetOr(true)
  }

  /** The event at `i` is the read event and no other user's message follows it. */
  predicate ReadAt(events: seq<Event>, i: int, read: EventID, own: UserID) {
    0 <= i < |events| && Id(events[i]) == read &&
    forall j :: i < j < |events| ==> !IsOthersMessage(events[j], own)
  }

  /**
   * The room is read exactly when the read event is buffered and no other
   * user's message follows it.
   */
  lemma {:induction false} ScanFindsReadEvent(events: seq<Event>, read: EventID, own: UserID)
    ensures Scan(events, read, own) == Some(false) <==> exists i :: ReadAt(events, i, read, own)
    decreases |events|
  {
    if events != [] {
      var n := |events| - 1;
      var init := events[..n];
      ScanFindsReadEvent(init, read, own);
      if Id(events[n]) == read {
        assert ReadAt(events, n, read, own);
      } else if IsOthersMessage(events[n], own) {
        forall i | 0 <= i < |events| ensures !ReadAt(events, i, read, own) {
          if i < n {
            assert !(forall j :: i < j < |events| ==> !IsOthersMessage(events[j], own)) by {
              assert IsOthersMessage(events[n], own);
            }
          }
        }
      } else {
        ReadAtInit(events, init, read, own);
      }
    }
  }

  /** When the last event is neither the read event nor another user's message, reading is decided by the events before it. */
  lemma ReadAtInit(events: seq<Event>, init: seq<Event>, read: EventID, own: UserID)
    requires events != [] && init == events[..|events| - 1]
    requires Id(events[|events| - 1]) != read && !IsOthersMessage(events[|events| - 1], own)
    ensures (exists i :: ReadAt(events, i, read, own)) <==> exists i :: ReadAt(init, i, read, own)
  {
    var n := |events| - 1;
    if exists i :: ReadAt(events, i, read, own) {
      var i :| ReadAt(events, i, read, own);
      assert i < n;
      assert ReadAt(init, i, read, own) by {
        assert init[i] == events[i];
        forall j | i < j < |init| ensures !IsOthersMessage(init[j], own) {
          assert init[j] == events[j];
        }
      }
    }
    if exists i :: ReadAt(init, i, read, own) {
      var i :| ReadAt(init, i, read, own);
      assert ReadAt(events, i, read, own) by {
        assert events[i] == init[i];
        forall j | i < j < |events| ensures !IsOthersMessage(events[j], own) {
          if j < n {
            assert events[j] == init[j];
          }
        }
      }
    }
  }

  /** One batch of `has_unread`'s backward scan: the newest event that decides, if any. */
  method ScanBackward(events: seq<Event>, read: EventID, own: UserID) returns (found: Option<bool>)
    ensures found == Scan(events, read, own)
  {
    var k := |events|;
    assert events[..k] == events;
    while k > 0
      invariant 0 <= k <= |events|
      invariant Scan(events, read, own) == Scan(events[..k], read, own)
    {
      var event := events[k - 1];
      assert events[..k][..k - 1] == events[..k - 1];
      if Id(event) == read {
        return Some(false);
      }
      if IsOthersMessage(event, own) {
        return Some(true);
      }
      k := k - 1;
    }
    return None;
  }

  /** Scanning a concatenation decides on the later part first. */
  lemma {:induction false} ScanAppend(xs: seq<Event>, ys: seq<Event>, read: EventID, own: UserID)
    ensures Scan(xs + ys, read, own) == if Scan(ys, read, own).Some? then Scan(ys, read, own) else Scan(xs, read, own)
    decreases |ys|
  {
    if ys == [] {
      assert xs + ys == xs;
    } else {
      var n := |ys| - 1;
      assert (xs + ys)[..|xs + ys| - 1] == xs + ys[..n];
      assert (xs + ys)[|xs + ys| - 1] == ys[n];
      ScanAppend(xs, ys[..n], read, own);
    }
  }

  /** `pretty_name_highlights`: the room name, followed by the highlight count in parentheses when it is not zero. */
  function WithHighlights(name: string, highlights: nat): (r: string)
    ensures highlights == 0 <==> r == name
    ensures |r| >= |name|
    ensures r[..|name|] == name
    ensures highlights != 0 ==>
      |r| > |name| + 3 && r[|name|..|name| + 2] == " (" && r[|r| - 1] == ')' &&
      FromBase(r[|name| + 2..|r| - 1], 10) == highlights
  {
    if highlights != 0 then
      var digits := Decimal(highlights);
      FromToBase(highlights, 10);
      var r := name + " (" + digits + ")";
      assert r[|name| + 2..|r| - 1] == digits;
      r
    else name
  }

  // ---------------------------------------------------------------------
  // The send queue
  // ---------------------------------------------------------------------

  /** An HTTP client error other than rate limiting (429): the send cannot succeed. */
  predicate ClientError(code: int) {
    400 <= code < 500 && code != 429
  }

  /** Whether a finished send leaves the queue: it succeeded or cannot succeed. */
  predicate Dropped(r: Http.Response) {
    ClientError(r.code) || r.error.None?
  }

  /** The backoff after a failed send: ×1.25 (on whole nanoseconds, rounded down), at most 30 seconds. */
  function NextBackoff(backoffNs: nat): (r: nat)
    ensures backoffNs >= MinimumBackoffNs ==> MinimumBackoffNs <= r
    ensures r <= MaximumBackoffNs
    ensures backoffNs < MaximumBackoffNs && backoffNs >= 4 ==> r > backoffNs
  {
    var grown := backoffNs * 5 / 4;
    if grown < MaximumBackoffNs then grown else MaximumBackoffNs
  }

  /** `Room`. */
  class Room {
    const id: RoomID
    /** The session's user. */
    const ownId: UserID
    /** URL percent-encoding of a path segment. */
    const percentEncode: string -> string
    /** The state after the buffered events. */
    const state: RoomState
    /** The state before the buffered events. */
    const initialState: RoomState
    var buffer: seq<Batch>
    var highlightCount: nat
    var notificationCount: nat
    var receiptsByUser: map<UserID, Receipt>
    var receiptsByEvent: map<EventID, seq<UserID>>
    var typing: seq<UserID>
    var pendingEvents: seq<PendingEvent>
    /** A send is in flight. */
    var transmitting: bool
    var lastTransmitTransaction: string
    var retryBackoffNs: nat

    ghost predicate Valid()
      reads this, state, initialState
    {
      state != initialState && state.Valid() && initialState.Valid() && state.nfc == initialState.nfc &&
      BufferEvents(buffer) &&
      ReceiptsValid(receiptsByUser, receiptsByEvent) &&
      MinimumBackoffNs <= retryBackoffNs <= MaximumBackoffNs &&
      (transmitting ==> pendingEvents != [])
    }

    /** A room with no state, no buffer, no receipts and nothing to send. */
    constructor (roomId: RoomID, own: UserID, nfc: Normalizer, encode: string -> string)
      ensures Valid() && fresh(state) && fresh(initialState)
      ensures id == roomId && ownId == own && percentEncode == encode && state.nfc == nfc
      ensures state.Snapshot() == EmptySnapshot && initialState.Snapshot() == EmptySnapshot
      ensures buffer == [] && receiptsByUser == map[] && receiptsByEvent == map[] && typing == []
      ensures highlightCount == 0 && notificationCount == 0
      ensures pendingEvents == [] && !transmitting && lastTransmitTransaction == "" && retryBackoffNs == MinimumBackoffNs
    {
      id := roomId;
      ownId := own;
      percentEncode := encode;
      state := new RoomState(nfc);
      initialState := new RoomState(nfc);
      buffer := [];
      highlightCount := 0;
      notificationCount := 0;
      receiptsByUser := map[];
      receiptsByEvent := map[];
      typing := [];
      pendingEvents := [];
      transmitting := false;
      lastTransmitTransaction := "";
      retryBackoffNs := MinimumBackoffNs;
    }

    /** `pretty_name_highlights` */
    function PrettyNameHighlights(): string
      reads this, state
    {
      WithHighlights(state.PrettyName(ownId), highlightCount)
    }

    /** `buffer_size`: the number of buffered events. */
    method BufferSize() returns (r: nat)
      ensures r == |Flatten(buffer)|
    {
      r := 0;
      var i := 0;
      while i < |buffer|
        invariant 0 <= i <= |buffer|
        invariant r == |Flatten(buffer[..i])|
      {
        assert buffer[..i + 1][..i] == buffer[..i];
        r := r + |buffer[i].events|;
        i := i + 1;
      }
      assert buffer[..|buffer|] == buffer;
    }

    /** `receipt_from` */
    function ReceiptFrom(user: UserID): (r: Option<Receipt>)
      reads this
      ensures r.Some? <==> user in receiptsByUser
      ensures r.Some? ==> r.value == receiptsByUser[user]
    {
      if user in receiptsByUser then Some(receiptsByUser[user]) else None
    }

    /** `update_receipt` */
    method UpdateReceipt(user: UserID, event: EventID, ts: int)
      requires ReceiptsValid(receiptsByUser, receiptsByEvent)
      modifies this`receiptsByUser, this`receiptsByEvent
      ensures (receiptsByUser, receiptsByEvent) == ReceiptUpdate(old(receiptsByUser), old(receiptsByEvent), user, event, ts)
      ensures ReceiptsValid(receiptsByUser, receiptsByEvent)
    {
      ReceiptUpdateKeepsIndex(receiptsByUser, receiptsByEvent, user, event, ts);
      var newValue := Receipt(event, ts);
      if user in receiptsByUser {
        var previous := receiptsByUser[user].event;
        if previous in receiptsByEvent {
          receiptsByEvent := receiptsByEvent[previous := RemoveAll(receiptsByEvent[previous], user)];
        }
      }
      receiptsByUser := receiptsByUser[user := newValue];
      var listed := if event in receiptsByEvent then receiptsByEvent[event] else [];
      receiptsByEvent := receiptsByEvent[event := listed + [user]];
    }

    /** `has_unread`: scan the buffer newest first for the own read receipt or another user's message. */
    method HasUnread() returns (r: bool)
      ensures r == Unread(buffer, ReceiptFrom(ownId), ownId)
    {
      if buffer == [] || buffer[|buffer| - 1].events == [] {
        return true;
      }
      var receipt := ReceiptFrom(ownId);
      if receipt.None? {
        return true;
      }
      var read := receipt.value.event;
      var b := |buffer|;
      assert buffer[..b] == buffer;
      while b > 0
        invariant 0 <= b <= |buffer|
        invariant Scan(Flatten(buffer), read, ownId) == Scan(Flatten(buffer[..b]), read, ownId)
      {
        var events := buffer[b - 1].events;
        assert buffer[..b][..b - 1] == buffer[..b - 1];
        assert Flatten(buffer[..b]) == Flatten(buffer[..b - 1]) + events;
        ScanAppend(Flatten(buffer[..b - 1]), events, read, ownId);
        var found := ScanBackward(events, read, ownId);
        if found.Some? {
          return found.value;
        }
        b := b - 1;
      }
      return true;
    }

    /** `transmit_event`: unless a send is in flight, send the front event under the current transaction id, taking a fresh one if there is none. */
    method TransmitEvent(freshTransaction: string) returns (request: Option<SendRequest>)
      requires pendingEvents != []
      requires Valid()
      modifies this
      ensures Valid()
      ensures old(transmitting) ==> request.None? && unchanged(this)
      ensures !old(transmitting) ==>
        transmitting &&
        lastTransmitTransaction == (if old(lastTransmitTransaction) == "" then freshTransaction else old(lastTransmitTransaction)) &&
        request == Some(SendRequest(
          "client/r0/rooms/" + percentEncode(id.value) + "/send/" + percentEncode(pendingEvents[0].eventType) + "/" + lastTransmitTransaction,
          pendingEvents[0].content))
      ensures unchanged(this`buffer, this`pendingEvents, this`receiptsByUser, this`receiptsByEvent, this`retryBackoffNs)
    {
      if transmitting {
        return None;
      }
      var event := pendingEvents[0];
      if lastTransmitTransaction == "" {
        lastTransmitTransaction := freshTransaction;
      }
      transmitting := true;
      request := Some(SendRequest(
        "client/r0/rooms/" + percentEncode(id.value) + "/send/" + percentEncode(event.eventType) + "/" + lastTransmitTransaction,
        event.content));
    }

    /** `send`: queue an event and try to transmit. */
    method Send(eventType: string, content: JsonObject, freshTransaction: string) returns (request: Option<SendRequest>)
      requires Valid()
      modifies this
      ensures Valid()
      ensures pendingEvents == old(pendingEvents) + [PendingEvent(eventType, content)]
      ensures request.Some? <==> !old(transmitting)
      ensures request.Some? ==> request.value.content == pendingEvents[0].content
    {
      pendingEvents := pendingEvents + [PendingEvent(eventType, content)];
      request := TransmitEvent(freshTransaction);
    }

    /**
     * `transmit_finished`. A success, or a client error other than 429,
     * removes the front event and resets the transaction id and the
     * backoff; the next event, if any, is sent at once. Any other failure
     * keeps the event and its transaction id and retries after the
     * backoff, which then grows.
     */
    method TransmitFinished(reply: Http.Reply, freshTransaction: string)
      returns (retryAfterMs: Option<nat>, request: Option<SendRequest>, error: Option<string>)
      requires Valid() && transmitting
      modifies this
      ensures Valid()
      ensures var r := Http.DecodeAsWritten(reply);
        Dropped(r) ==>
          pendingEvents == old(pendingEvents)[1..] && retryAfterMs.None? && retryBackoffNs == MinimumBackoffNs &&
          error == (if ClientError(r.code) then r.error else None) &&
          (pendingEvents == [] ==> lastTransmitTransaction == "" && request.None? && !transmitting) &&
          (pendingEvents != [] ==>
             lastTransmitTransaction == freshTransaction && transmitting &&
             request.Some? && request.value.content == pendingEvents[0].content)
      ensures var r := Http.DecodeAsWritten(reply);
        !Dropped(r) ==>
          pendingEvents == old(pendingEvents) && error.None? && request.None? && !transmitting &&
          lastTransmitTransaction == old(lastTransmitTransaction) &&
          retryAfterMs == Some(old(retryBackoffNs) / 1_000_000) &&
          retryBackoffNs == NextBackoff(old(retryBackoffNs))
      ensures buffer == old(buffer) && receiptsByUser == old(receiptsByUser) && receiptsByEvent == old(receiptsByEvent)
    {
      var r := Http.DecodeAsWritten(reply);
      retryAfterMs, request, error := SendFinished(r, freshTransaction);
    }

    /** `transmit_finished` after `decode`. */
    method SendFinished(r: Http.Response, freshTransaction: string)
      returns (retryAfterMs: Option<nat>, request: Option<SendRequest>, error: Option<string>)
      requires Valid() && transmitting
      modifies this
      ensures Valid()
      ensures Dropped(r) ==>
          pendingEvents == old(pendingEvents)[1..] && retryAfterMs.None? && retryBackoffNs == MinimumBackoffNs &&
          error == (if ClientError(r.code) then r.error else None) &&
          (pendingEvents == [] ==> lastTransmitTransaction == "" && request.None? && !transmitting) &&
          (pendingEvents != [] ==>
             lastTransmitTransaction == freshTransaction && transmitting &&
             request.Some? && request.value.content == pendingEvents[0].content)
      ensures !Dropped(r) ==>
          pendingEvents == old(pendingEvents) && error.None? && request.None? && !transmitting &&
          lastTransmitTransaction == old(lastTransmitTransaction) &&
          retryAfterMs == Some(old(retryBackoffNs) / 1_000_000) &&
          retryBackoffNs == NextBackoff(old(retryBackoffNs))
      ensures buffer == old(buffer) && receiptsByUser == old(receiptsByUser) && receiptsByEvent == old(receiptsByEvent)
    {
      transmitting := false;
      retryAfterMs := None;
      request := None;
      error := None;
      if Dropped(r) {
        if ClientError(r.code) {
          error := r.error;
        }
        pendingEvents := pendingEvents[1..];
        lastTransmitTransaction := "";
        retryBackoffNs := MinimumBackoffNs;
        if pendingEvents != [] {
          request := TransmitEvent(freshTransaction);
        }
      } else {
        retryAfterMs := Some(retryBackoffNs / 1_000_000);
        retryBackoffNs := NextBackoff(retryBackoffNs);
      }
    }

    /** `apply` and `prune_departed` on the initial state for one event of a dropped batch. */
    method ReplayOne(e: Event) returns (error: Option<EventError>)
      requires initialState.Valid() && IsTimelineEvent(e)
      modifies initialState
      ensures initialState.Valid()
      ensures var r := ReplayEvent(old(initialState.Snapshot()), initialState.nfc, e);
        (r.Ok? ==> error.None? && initialState.Snapshot() == r.value) &&
        (r.Err? ==> error == Some(r.error) && initialState.Snapshot() == old(initialState.Snapshot()))
    {
      ghost var s := initialState.Snapshot();
      if "state_key" in e.json {
        error := initialState.Apply(e);
        if error.Some? {
          assert ReplayEvent(s, initialState.nfc, e) == Err(error.value);
          return;
        }
      }
      ghost var s1 := initialState.Snapshot();
      assert ReplayEvent(s, initialState.nfc, e) == Ok(Prune(s1, initialState.nfc, false).state);
      var _ := initialState.PruneDeparted(false);
      error := None;
    }

    /** The events of one dropped batch replayed on the initial state. */
    method ReplayBatch(events: seq<Event>) returns (error: Option<EventError>)
      requires initialState.Valid() && AllTimelineEvents(events)
      modifies initialState
      ensures initialState.Valid()
      ensures (initialState.Snapshot(), error) == Replay(old(initialState.Snapshot()), initialState.nfc, events)
    {
      ghost var goal := Replay(initialState.Snapshot(), initialState.nfc, events);
      var j := 0;
      while j < |events|
        invariant 0 <= j <= |events|
        invariant initialState.Valid()
        invariant Replay(initialState.Snapshot(), initialState.nfc, events[j..]) == goal
      {
        var e := events[j];
        assert e in events;
        assert events[j..][0] == e && events[j..][1..] == events[j + 1..];
        ghost var before := initialState.Snapshot();
        error := ReplayOne(e);
        if error.Some? {
          assert Replay(before, initialState.nfc, events[j..]) == (before, error);
          return;
        }
        assert Replay(before, initialState.nfc, events[j..]) == Replay(initialState.Snapshot(), initialState.nfc, events[j + 1..]);
        j := j + 1;
      }
      assert events[j..] == [];
      return None;
    }

    /**
     * Replay and drop front batches on the initial state while the events
     * outside the front batch are at least `limit`. A malformed state
     * event ends the trimming and is reported.
     */
    method TrimBuffer(limit: nat) returns (error: Option<EventError>)
      requires initialState.Valid() && BufferEvents(buffer)
      modifies this`buffer, initialState
      ensures initialState.Valid() && BufferEvents(buffer)
      ensures Trimmed(buffer, initialState.Snapshot(), error) == Trim(old(buffer), old(initialState.Snapshot()), initialState.nfc, limit)
    {
      ghost var goal := Trim(buffer, initialState.Snapshot(), initialState.nfc, limit);
      while true
        invariant initialState.Valid() && BufferEvents(buffer)
        invariant Trim(buffer, initialState.Snapshot(), initialState.nfc, limit) == goal
        decreases |buffer|
      {
        if buffer == [] {
          return None;
        }
        var size := BufferSize();
        if size - |buffer[0].events| < limit {
          return None;
        }
        assert buffer[0] in buffer;
        error := ReplayBatch(buffer[0].events);
        if error.Some? {
          return;
        }
        buffer := buffer[1..];
      }
    }

    /** One timeline event: dispatched to the current state when it is a state event, then the departed member pruned. */
    method TimelineEvent(e: Event) returns (changed: bool, notices: seq<RoomNotice>)
      requires state.Valid() && IsTimelineEvent(e)
      modifies state
      ensures state.Valid()
      ensures var step := TimelineStep(old(state.Snapshot()), state.nfc, e, id);
        state.Snapshot() == step.0 && changed == step.1 && notices == step.2
    {
      changed := false;
      notices := [];
      if "state_key" in e.json {
        var d := state.Dispatch(e, Some(id));
        if d.Ok? {
          changed := d.value.changed;
          notices := Wrap(d.value.signals);
        }
      }
      var pruned := state.PruneDeparted(true);
      notices := notices + [Message(e)] + Wrap(pruned);
    }

    /** The event at `i` of a sync's timeline dispatched: the run of the events from `i` advances by one event. */
    method AdvanceTimeline(events: seq<Event>, i: nat, ghost touched: bool, ghost before: seq<RoomNotice>, ghost goal: (Snapshot, bool, seq<RoomNotice>))
      returns (changed: bool, notices: seq<RoomNotice>)
      requires state.Valid() && AllTimelineEvents(events) && i < |events|
      requires Completes(state.Snapshot(), state.nfc, events[i..], id, touched, before, goal)
      modifies state
      ensures state.Valid()
      ensures var rest := RunTimeline(state.Snapshot(), state.nfc, events[i + 1..], id);
        var all := RunTimeline(old(state.Snapshot()), state.nfc, events[i..], id);
        rest.0 == all.0 && (changed || rest.1) == all.1 && notices + rest.2 == all.2
      ensures Completes(state.Snapshot(), state.nfc, events[i + 1..], id, touched || changed, before + notices, goal)
    {
      RunTimelineAt(state.Snapshot(), state.nfc, events, i, id);
      changed, notices := TimelineEvent(events[i]);
      ConcatAssociative(before, notices, RunTimeline(state.Snapshot(), state.nfc, events[i + 1..], id).2);
    }

    /** The timeline loop of `Room::dispatch`: a new last batch filled event by event as the events are dispatched. */
    method ApplyTimeline(t: Timeline) returns (touched: bool, notices: seq<RoomNotice>)
      requires state.Valid() && BufferEvents(buffer) && AllTimelineEvents(t.events)
      modifies this`buffer, state
      ensures state.Valid() && BufferEvents(buffer)
      ensures buffer == old(buffer) + [Batch(t.prevBatch, t.events)]
      ensures var run := RunTimeline(old(state.Snapshot()), state.nfc, t.events, id);
        state.Snapshot() == run.0 && touched == run.1 && notices == run.2
    {
      ghost var goal := RunTimeline(state.Snapshot(), state.nfc, t.events, id);
      var before := buffer;
      assert t.events[..0] == [];
      buffer := buffer + [Batch(t.prevBatch, [])];
      touched := false;
      notices := [];
      var i := 0;
      while i < |t.events|
        invariant 0 <= i <= |t.events|
        invariant state.Valid()
        invariant buffer == before + [Batch(t.prevBatch, t.events[..i])]
        invariant Completes(state.Snapshot(), state.nfc, t.events[i..], id, touched, notices, goal)
      {
        var changed, more := AdvanceTimeline(t.events, i, touched, notices, goal);
        touched := touched || changed;
        notices := notices + more;
        buffer := before + [Batch(t.prevBatch, t.events[..i + 1])];
        i := i + 1;
      }
      assert t.events[..i] == t.events && t.events[i..] == [];
      assert notices + [] == notices;
      BufferEventsAppend(before, t.prevBatch, t.events, i);
    }

    /** The receipts of one receipt event, recorded read by read. */
    method ApplyReceipt(content: JsonObject)
      requires ReceiptsValid(receiptsByUser, receiptsByEvent)
      modifies this`receiptsByUser, this`receiptsByEvent
      ensures (receiptsByUser, receiptsByEvent) == ApplyReads(old(receiptsByUser), old(receiptsByEvent), ReceiptReads(content))
      ensures ReceiptsValid(receiptsByUser, receiptsByEvent)
    {
      var marks := ReceiptReads(content);
      ghost var goal := ApplyReads(receiptsByUser, receiptsByEvent, marks);
      var k := 0;
      while k < |marks|
        invariant 0 <= k <= |marks|
        invariant ReceiptsValid(receiptsByUser, receiptsByEvent)
        invariant ApplyReads(receiptsByUser, receiptsByEvent, marks[k..]) == goal
      {
        assert marks[k..][0] == marks[k] && marks[k..][1..] == marks[k + 1..];
        UpdateReceipt(marks[k].1, marks[k].0, marks[k].2);
        k := k + 1;
      }
      assert marks[k..] == [];
    }

    /** One ephemeral event: a receipt event records its reads, a typing event replaces the typing list, anything else is ignored. */
    method EphemeralEvent(e: Event) returns (notices: seq<RoomNotice>, error: Option<EventError>)
      requires ReceiptsValid(receiptsByUser, receiptsByEvent)
      modifies this`receiptsByUser, this`receiptsByEvent, this`typing
      ensures (EphemeralState(receiptsByUser, receiptsByEvent, typing), notices, error) ==
        EphemeralStep(EphemeralState(old(receiptsByUser), old(receiptsByEvent), old(typing)), e)
      ensures ReceiptsValid(receiptsByUser, receiptsByEvent)
    {
      notices := [];
      error := None;
      if Type(e).value == ReceiptTag {
        ApplyReceipt(Content(e));
        notices := [ReceiptsChanged];
      } else if Type(e).value == TypingTag {
        error := TypingCheck(e);
        if error.Some? {
          return;
        }
        var users := TypingUserIds(e);
        assert users == TypingUsers(e);
        typing := users;
        notices := [TypingChanged];
      }
    }

    /** The ephemeral loop of `Room::dispatch`: receipts and typing notifications, in order. */
    method ApplyEphemeral(events: seq<Event>) returns (notices: seq<RoomNotice>, error: Option<EventError>)
      requires ReceiptsValid(receiptsByUser, receiptsByEvent)
      modifies this`receiptsByUser, this`receiptsByEvent, this`typing
      ensures var run := RunEphemeral(EphemeralState(old(receiptsByUser), old(receiptsByEvent), old(typing)), events);
        EphemeralState(receiptsByUser, receiptsByEvent, typing) == run.0 && notices == run.1 && error == run.2
      ensures ReceiptsValid(receiptsByUser, receiptsByEvent)
    {
      ghost var goal := RunEphemeral(EphemeralState(receiptsByUser, receiptsByEvent, typing), events);
      notices := [];
      var i := 0;
      while i < |events|
        invariant 0 <= i <= |events|
        invariant ReceiptsValid(receiptsByUser, receiptsByEvent)
        invariant var rest := RunEphemeral(EphemeralState(receiptsByUser, receiptsByEvent, typing), events[i..]);
          rest.0 == goal.0 && notices + rest.1 == goal.1 && rest.2 == goal.2
      {
        var e := events[i];
        assert events[i..][0] == e && events[i..][1..] == events[i + 1..];
        ghost var current := EphemeralState(receiptsByUser, receiptsByEvent, typing);
        var more;
        more, error := EphemeralEvent(e);
        if error.Some? {
          assert RunEphemeral(current, events[i..]) == (current, [], error);
          assert notices + [] == notices;
          return;
        }
        ghost var rest := RunEphemeral(EphemeralState(receiptsByUser, receiptsByEvent, typing), events[i + 1..]);
        assert RunEphemeral(current, events[i..]) == (rest.0, more + rest.1, rest.2);
        ConcatAssociative(notices, more, rest.1);
        notices := notices + more;
        i := i + 1;
      }
      assert events[i..] == [];
      error := None;
    }

    /**
     * The timeline part of `Room::dispatch`: a limited timeline clears the
     * buffer; an empty timeline on a non-empty buffer only moves the last
     * batch's cursor; otherwise the events are dispatched into a new last
     * batch and the buffer is trimmed.
     */
    method ExtendBuffer(t: Timeline, bufferLimit: nat) returns (touched: bool, notices: seq<RoomNotice>, error: Option<EventError>)
      requires Valid() && AllTimelineEvents(t.events)
      modifies this`buffer, state, initialState
      ensures Valid()
      ensures Synced(buffer, state.Snapshot(), initialState.Snapshot(), touched, error) ==
        SyncTimeline(old(buffer), old(state.Snapshot()), old(initialState.Snapshot()), state.nfc, t, id, bufferLimit)
      ensures notices == RunTimeline(old(state.Snapshot()), state.nfc, t.events, id).2
    {
      if t.limited {
        buffer := [];
      }
      touched := false;
      notices := [];
      error := None;
      if t.events == [] && buffer != [] {
        buffer := buffer[..|buffer| - 1] + [buffer[|buffer| - 1].(begin := t.prevBatch)];
      } else {
        touched, notices := ApplyTimeline(t);
        error := TrimBuffer(bufferLimit);
      }
    }

    /** The unread counts of a sync: each count that differs is announced with its old value, then replaced. */
    method UpdateCounts(highlights: nat, notifications: nat) returns (notices: seq<RoomNotice>)
      modifies this`highlightCount, this`notificationCount
      ensures highlightCount == highlights && notificationCount == notifications
      ensures notices == CountNotices(old(highlightCount), old(notificationCount), highlights, notifications)
    {
      notices := [];
      if highlights != highlightCount {
        notices := notices + [HighlightCountChanged(highlightCount)];
        highlightCount := highlights;
      }
      if notifications != notificationCount {
        notices := notices + [NotificationCountChanged(notificationCount)];
        notificationCount := notifications;
      }
    }

    /** The first half of `Room::dispatch`: the unread counts, then the timeline into the buffer and the current state. */
    method TakeTimeline(joined: JoinedRoom, bufferLimit: nat) returns (touched: bool, error: Option<EventError>, notices: seq<RoomNotice>)
      requires Valid() && AllTimelineEvents(joined.timeline.events)
      modifies this`highlightCount, this`notificationCount, this`buffer, state, initialState
      ensures Valid()
      ensures highlightCount == joined.highlightCount && notificationCount == joined.notificationCount
      ensures Synced(buffer, state.Snapshot(), initialState.Snapshot(), touched, error) ==
        SyncTimeline(old(buffer), old(state.Snapshot()), old(initialState.Snapshot()), state.nfc, joined.timeline, id, bufferLimit)
      ensures notices == TimelineNotices(old(highlightCount), old(notificationCount), joined,
        RunTimeline(old(state.Snapshot()), state.nfc, joined.timeline.events, id).2, error.None?)
    {
      ghost var counts := CountNotices(highlightCount, notificationCount, joined.highlightCount, joined.notificationCount);
      notices := UpdateCounts(joined.highlightCount, joined.notificationCount);
      var t := joined.timeline;
      if t.limited {
        notices := notices + [Discontinuity];
      }
      notices := notices + [PrevBatch(t.prevBatch)];
      ghost var head := notices;
      assert head == counts + (if t.limited then [Discontinuity] else []) + [PrevBatch(t.prevBatch)];
      var run;
      touched, run, error := ExtendBuffer(t, bufferLimit);
      notices := notices + run;
      if error.None? {
        notices := notices + [BatchArrived(t)];
      }
      assert notices == head + run + (if error.None? then [BatchArrived(t)] else []);
    }

    /** The second half of `Room::dispatch`: receipts and typing in order, then `state_changed` when the timeline touched the state. */
    method TakeEphemeral(ephemeral: seq<Event>, touched: bool) returns (r: Result<bool, EventError>, notices: seq<RoomNotice>)
      requires ReceiptsValid(receiptsByUser, receiptsByEvent)
      modifies this`receiptsByUser, this`receiptsByEvent, this`typing
      ensures ReceiptsValid(receiptsByUser, receiptsByEvent)
      ensures var eph := RunEphemeral(EphemeralState(old(receiptsByUser), old(receiptsByEvent), old(typing)), ephemeral);
        EphemeralState(receiptsByUser, receiptsByEvent, typing) == eph.0 &&
        r == (if eph.2.Some? then Err(eph.2.value) else Ok(touched)) &&
        notices == eph.1 + (if eph.2.None? && touched then [StateChanged] else [])
    {
      var error;
      notices, error := ApplyEphemeral(ephemeral);
      if error.Some? {
        assert notices + [] == notices;
        return Err(error.value), notices;
      }
      if touched {
        notices := notices + [StateChanged];
      }
      r := Ok(touched);
    }

    /**
     * `Room::dispatch`: take the highlight and notification counts, extend
     * the buffer with the timeline (dispatching its state events to the
     * current state and pruning after each event), trim the buffer, then
     * process receipts and typing. Returns whether any state event changed
     * the state; a malformed event the source does not catch ends the
     * processing and is returned.
     */
    method Dispatch(joined: JoinedRoom, bufferLimit: nat) returns (r: Result<bool, EventError>, notices: seq<RoomNotice>)
      requires Valid() && AllTimelineEvents(joined.timeline.events)
      modifies this`highlightCount, this`notificationCount, this`buffer, this`receiptsByUser, this`receiptsByEvent, this`typing
      modifies state, initialState
      ensures Valid()
      ensures highlightCount == joined.highlightCount && notificationCount == joined.notificationCount
      ensures var synced := SyncTimeline(old(buffer), old(state.Snapshot()), old(initialState.Snapshot()), state.nfc, joined.timeline, id, bufferLimit);
        buffer == synced.buffer && state.Snapshot() == synced.current && initialState.Snapshot() == synced.initial
      ensures var synced := SyncTimeline(old(buffer), old(state.Snapshot()), old(initialState.Snapshot()), state.nfc, joined.timeline, id, bufferLimit);
        var before := EphemeralState(old(receiptsByUser), old(receiptsByEvent), old(typing));
        var eph := RunEphemeral(before, joined.ephemeral);
        (synced.error.Some? ==> r == Err(synced.error.value) && EphemeralState(receiptsByUser, receiptsByEvent, typing) == before) &&
        (synced.error.None? ==> (EphemeralState(receiptsByUser, receiptsByEvent, typing) == eph.0 &&
          r == (if eph.2.Some? then Err(eph.2.value) else Ok(synced.touched))))
      ensures var synced := SyncTimeline(old(buffer), old(state.Snapshot()), old(initialState.Snapshot()), state.nfc, joined.timeline, id, bufferLimit);
        var eph := RunEphemeral(EphemeralState(old(receiptsByUser), old(receiptsByEvent), old(typing)), joined.ephemeral);
        notices == TimelineNotices(old(highlightCount), old(notificationCount), joined,
          RunTimeline(old(state.Snapshot()), state.nfc, joined.timeline.events, id).2, synced.error.None?) +
        (if synced.error.Some? then [] else eph.1 + (if eph.2.None? && synced.touched then [StateChanged] else []))
    {
      var touched, error;
      touched, error, notices := TakeTimeline(joined, bufferLimit);
      if error.Some? {
        return Err(error.value), notices;
      }
      var more;
      r, more := TakeEphemeral(joined.ephemeral, touched);
      notices := notices + more;
    }
  }
}
