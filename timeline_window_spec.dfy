/**
 * `TimelineWindow` and `TimelineManager` (src/matrix/TimelineWindow.cpp,
 * TimelineWindow.hpp): the part of a room's history a view shows. The
 * window holds the state before its first event, the state after its
 * last event, the fetched batches in order, the cursor where those
 * batches end, and the latest batch from sync. Pages fetched forwards or
 * backwards are accepted only when their cursors chain to the window.
 *
 * The window's two states are values (the source copies `RoomState`s into
 * the window), so they are `Snapshot`s here. A state event that the source
 * cannot apply or revert throws out of the operation; the model returns
 * that error and keeps what was done before it.
 */
module TimelineWindowSpec {
  import opened Wrappers
  import opened Json
  import opened Ids
  import opened Events
  import opened RoomStateSpec
  import opened Rooms

  /** `BATCH_SIZE`: events asked for per page. */
  const BatchSize: nat := 50

  /** A window: the states before and after it, fetched batches, where they end, and the latest sync batch. */
  datatype Window = Window(initial: Snapshot, final: Snapshot, batches: seq<Batch>, batchesEnd: Option<TimelineCursor>, latest: Batch)

  /** The `grew` signal (direction, batch cursor, state before the event, event) and the `discontinuity` signal. */
  datatype WindowNotice =
    | Grew(dir: Direction, begin: TimelineCursor, state: Snapshot, event: Event)
    | Discontinuity

  /** The result of an operation that changes the window: the new window, its signals, and the error that stopped it. */
  datatype Outcome = Outcome(window: Window, notices: seq<WindowNotice>, error: Option<EventError>)

  datatype WindowError = EmptyBatches

  /** Both states satisfy the member-index invariant, and every held event is a timeline event. */
  ghost predicate WindowValid(w: Window, nfc: Normalizer) {
    IndexValid(w.initial, nfc) && IndexValid(w.final, nfc) && BufferEvents(w.batches) && AllTimelineEvents(w.latest.events)
  }

  function Reversed<T>(s: seq<T>): (r: seq<T>)
    ensures |r| == |s| && forall i :: 0 <= i < |s| ==> r[i] == s[|s| - 1 - i]
  {
    if s == [] then [] else Reversed(s[1..]) + [s[0]]
  }

  lemma ReversedInvolution<T>(s: seq<T>)
    ensures Reversed(Reversed(s)) == s
  {
    assert forall i :: 0 <= i < |s| ==> Reversed(Reversed(s))[i] == s[i];
  }

  // ---------------------------------------------------------------------
  // Applying and reverting runs of events
  // ---------------------------------------------------------------------

  /** `apply` of the event's state, when it is a state event. */
  function ApplyState(s: Snapshot, nfc: Normalizer, e: Event): (r: Result<Snapshot, EventError>)
    requires IndexValid(s, nfc) && IsTimelineEvent(e)
    ensures r.Ok? ==> IndexValid(r.value, nfc)
    ensures ToState(e).None? ==> r == Ok(s)
  {
    if ToState(e).Some? then
      var r := RoomStateSpec.Apply(s, nfc, e);
      if r.Ok? then DispatchPreservesIndex(s, nfc, e, None); r else r
    else Ok(s)
  }

  /** `revert` of the event's state, when it is a state event. */
  function RevertState(s: Snapshot, nfc: Normalizer, e: Event): (r: Result<Snapshot, EventError>)
    requires IndexValid(s, nfc) && IsTimelineEvent(e)
    ensures r.Ok? ==> IndexValid(r.value, nfc)
    ensures ToState(e).None? ==> r == Ok(s)
  {
    if ToState(e).Some? then
      var r := RoomStateSpec.Revert(s, nfc, e);
      if r.Ok? then RevertPreservesIndex(s, nfc, e); r else r
    else Ok(s)
  }

  /** Forward growth: each event is announced with the state before it, then applied. */
  function ApplyGrowing(s: Snapshot, nfc: Normalizer, begin: TimelineCursor, events: seq<Event>): (r: (Snapshot, seq<WindowNotice>, Option<EventError>))
    requires IndexValid(s, nfc) && AllTimelineEvents(events)
    ensures IndexValid(r.0, nfc)
    decreases |events|
  {
    if events == [] then (s, [], None)
    else
      assert events[0] in events;
      var n := Grew(Forward, begin, s, events[0]);
      match ApplyState(s, nfc, events[0])
      case Err(err) => (s, [n], Some(err))
      case Ok(s1) =>
        var rest := ApplyGrowing(s1, nfc, begin, events[1..]);
        (rest.0, [n] + rest.1, rest.2)
  }

  /** Backward growth: each event is reverted, then announced with the state before it. */
  function RevertGrowing(s: Snapshot, nfc: Normalizer, begin: TimelineCursor, events: seq<Event>): (r: (Snapshot, seq<WindowNotice>, Option<EventError>))
    requires IndexValid(s, nfc) && AllTimelineEvents(events)
    ensures IndexValid(r.0, nfc)
    decreases |events|
  {
    if events == [] then (s, [], None)
    else
      assert events[0] in events;
      match RevertState(s, nfc, events[0])
      case Err(err) => (s, [], Some(err))
      case Ok(s1) =>
        var rest := RevertGrowing(s1, nfc, begin, events[1..]);
        (rest.0, [Grew(Backward, begin, s1, events[0])] + rest.1, rest.2)
  }

  /** The events applied in the given order, without signals. */
  function ApplyAll(s: Snapshot, nfc: Normalizer, events: seq<Event>): (r: (Snapshot, Option<EventError>))
    requires IndexValid(s, nfc) && AllTimelineEvents(events)
    ensures IndexValid(r.0, nfc)
    decreases |events|
  {
    if events == [] then (s, None)
    else
      assert events[0] in events;
      match ApplyState(s, nfc, events[0])
      case Err(err) => (s, Some(err))
      case Ok(s1) => ApplyAll(s1, nfc, events[1..])
  }

  /** The events reverted in the given order. */
  function RevertAll(s: Snapshot, nfc: Normalizer, events: seq<Event>): (r: (Snapshot, Option<EventError>))
    requires IndexValid(s, nfc) && AllTimelineEvents(events)
    ensures IndexValid(r.0, nfc)
    decreases |events|
  {
    if events == [] then (s, None)
    else
      assert events[0] in events;
      match RevertState(s, nfc, events[0])
      case Err(err) => (s, Some(err))
      case Ok(s1) => RevertAll(s1, nfc, events[1..])
  }

  /** Forward growth from position `i`: the event at `i`, then the events after it unless it failed. */
  lemma ApplyGrowingAt(s: Snapshot, nfc: Normalizer, begin: TimelineCursor, events: seq<Event>, i: nat)
    requires IndexValid(s, nfc) && AllTimelineEvents(events) && i < |events|
    ensures events[i] in events
    ensures var n := Grew(Forward, begin, s, events[i]);
      ApplyGrowing(s, nfc, begin, events[i..]) ==
        var a := ApplyState(s, nfc, events[i]);
        if a.Err? then (s, [n], Some(a.error))
        else
          var rest := ApplyGrowing(a.value, nfc, begin, events[i + 1..]);
          (rest.0, [n] + rest.1, rest.2)
  {
    assert events[i..][0] == events[i] && events[i..][1..] == events[i + 1..];
  }

  /** Backward growth from position `i`: the event at `i`, then the events after it unless it failed. */
  lemma RevertGrowingAt(s: Snapshot, nfc: Normalizer, begin: TimelineCursor, events: seq<Event>, i: nat)
    requires IndexValid(s, nfc) && AllTimelineEvents(events) && i < |events|
    ensures events[i] in events
    ensures RevertGrowing(s, nfc, begin, events[i..]) ==
        var a := RevertState(s, nfc, events[i]);
        if a.Err? then (s, [], Some(a.error))
        else
          var rest := RevertGrowing(a.value, nfc, begin, events[i + 1..]);
          (rest.0, [Grew(Backward, begin, a.value, events[i])] + rest.1, rest.2)
  {
    assert events[i..][0] == events[i] && events[i..][1..] == events[i + 1..];
  }

  /** Applying from position `i`: the event at `i`, then the events after it unless it failed. */
  lemma ApplyAllAt(s: Snapshot, nfc: Normalizer, events: seq<Event>, i: nat)
    requires IndexValid(s, nfc) && AllTimelineEvents(events) && i < |events|
    ensures events[i] in events
    ensures ApplyAll(s, nfc, events[i..]) ==
        var a := ApplyState(s, nfc, events[i]);
        if a.Err? then (s, Some(a.error)) else ApplyAll(a.value, nfc, events[i + 1..])
  {
    assert events[i..][0] == events[i] && events[i..][1..] == events[i + 1..];
  }

  /** Reverting from position `i`: the event at `i`, then the events after it unless it failed. */
  lemma RevertAllAt(s: Snapshot, nfc: Normalizer, events: seq<Event>, i: nat)
    requires IndexValid(s, nfc) && AllTimelineEvents(events) && i < |events|
    ensures events[i] in events
    ensures RevertAll(s, nfc, events[i..]) ==
        var a := RevertState(s, nfc, events[i]);
        if a.Err? then (s, Some(a.error)) else RevertAll(a.value, nfc, events[i + 1..])
  {
    assert events[i..][0] == events[i] && events[i..][1..] == events[i + 1..];
  }

  /** A run of events without state events leaves the state alone and announces every event, in order. */
  lemma {:induction false} ApplyGrowingAnnouncesAll(s: Snapshot, nfc: Normalizer, begin: TimelineCursor, events: seq<Event>)
    requires IndexValid(s, nfc) && AllTimelineEvents(events)
    requires forall e | e in events :: "state_key" !in e.json
    ensures var r := ApplyGrowing(s, nfc, begin, events);
      r.0 == s && r.2.None? && |r.1| == |events| &&
      forall i :: 0 <= i < |events| ==> r.1[i] == Grew(Forward, begin, s, events[i])
    decreases |events|
  {
    if events != [] {
      assert events[0] in events;
      assert forall e | e in events[1..] :: e in events;
      ApplyGrowingAnnouncesAll(s, nfc, begin, events[1..]);
    }
  }

  // ---------------------------------------------------------------------
  // Queries
  // ---------------------------------------------------------------------

  /** `begin`: the first fetched batch's cursor, or the latest batch's when nothing was fetched. */
  function Begin(w: Window): TimelineCursor {
    if w.batches == [] then w.latest.begin else w.batches[0].begin
  }

  /** `end`: where the fetched batches end; none when they reach the latest batch (the window includes the present). */
  function End(w: Window): (r: Option<TimelineCursor>)
    ensures r.None? <==> w.batchesEnd.None? || w.batchesEnd.value == w.latest.begin
    ensures r.Some? ==> r == w.batchesEnd
  {
    if w.batchesEnd.Some? && w.batchesEnd.value == w.latest.begin then None else w.batchesEnd
  }

  /** `latest_begin` */
  function LatestBegin(w: Window): TimelineCursor {
    w.latest.begin
  }

  predicate IsCreate(e: Event) {
    Type(e).value == CreateTag
  }

  /** All events of the window, oldest first. */
  function WindowEvents(w: Window): seq<Event> {
    Flatten(w.batches) + w.latest.events
  }

  /**
   * `at_start` as written: it reads the last, newest event of the back
   * batch and of the latest batch. Reading the last event of an empty back
   * batch is undefined, hence the precondition.
   */
  function AtStartAsWritten(w: Window): bool
    requires w.batches == [] || w.batches[|w.batches| - 1].events != []
  {
    (w.batches != [] && IsCreate(w.batches[|w.batches| - 1].events[|w.batches[|w.batches| - 1].events| - 1])) ||
    (w.latest.events != [] && IsCreate(w.latest.events[|w.latest.events| - 1]))
  }

  /** Whether the window reaches back to the room's creation: its oldest event is the creation event. */
  function AtStart(w: Window): (r: bool)
    ensures r <==> WindowEvents(w) != [] && IsCreate(WindowEvents(w)[0])
  {
    var events := WindowEvents(w);
    events != [] && IsCreate(events[0])
  }

  /**
   * A window whose creation event is followed by other events: the newest
   * events are not the creation event, so `at_start` as written answers
   * false although the window starts at the room's creation.
   */
  lemma AtStartAsWrittenMissesCreation()
    ensures var create := Event(map["type" := Str(CreateTag)]);
      var message := Event(map["type" := Str(MessageTag)]);
      var w := Window(EmptySnapshot, EmptySnapshot, [Batch(ID("t0"), [create, message])], Some(ID("t1")), Batch(ID("t1"), [message]));
      !AtStartAsWritten(w) && AtStart(w)
  {
    var create := Event(map["type" := Str(CreateTag)]);
    var message := Event(map["type" := Str(MessageTag)]);
    var w := Window(EmptySnapshot, EmptySnapshot, [Batch(ID("t0"), [create, message])], Some(ID("t1")), Batch(ID("t1"), [message]));
    assert Type(create).value == CreateTag;
    assert Type(message).value == MessageTag;
    assert Flatten(w.batches) == [create, message] by {
      assert w.batches[..0] == [];
    }
    assert WindowEvents(w)[0] == create;
  }

  /**
   * `at_end` as written: dereferences `batches_end_` whenever batches are
   * held, which is undefined when it is empty.
   */
  function AtEndAsWritten(w: Window): bool
    requires w.batches == [] || w.batchesEnd.Some?
  {
    w.batches == [] || w.batchesEnd.value == w.latest.begin
  }

  /** Whether the window reaches the present: nothing fetched, or the fetched batches reach the latest batch. */
  function AtEnd(w: Window): (r: bool)
    ensures r <==> w.batches == [] || End(w).None?
  {
    w.batches == [] || w.batchesEnd.None? || w.batchesEnd.value == w.latest.begin
  }

  /** Where `at_end` as written is defined, it agrees with `AtEnd`. */
  lemma AtEndAgrees(w: Window)
    requires w.batches == [] || w.batchesEnd.Some?
    ensures AtEndAsWritten(w) == AtEnd(w)
  {
  }

  /** The window constructed from two batches holds one batch and no end cursor: `at_end` as written is undefined there, while it reaches the present. */
  lemma AtEndAsWrittenUndefinedAfterConstruction(initial: Snapshot, first: Batch, last: Batch, final: Snapshot)
    ensures var w := Construct(initial, [first, last], final).value;
      !(w.batches == [] || w.batchesEnd.Some?) && AtEnd(w)
  {
  }

  // ---------------------------------------------------------------------
  // Operations on the window
  // ---------------------------------------------------------------------

  /** The constructor: all batches but the last are the fetched batches, the last is the latest batch. */
  function Construct(initial: Snapshot, batches: seq<Batch>, final: Snapshot): (r: Result<Window, WindowError>)
    ensures r.Err? <==> batches == []
    ensures r.Ok? ==> r.value.batches + [r.value.latest] == batches && r.value.batchesEnd.None?
    ensures r.Ok? ==> r.value.initial == initial && r.value.final == final
  {
    if batches == [] then Err(EmptyBatches)
    else Ok(Window(initial, final, batches[..|batches| - 1], None, batches[|batches| - 1]))
  }

  /** `append_batch`: a forward page; `None` when it does not start at the window's end. */
  function AppendBatch(w: Window, nfc: Normalizer, start: TimelineCursor, end: TimelineCursor, events: seq<Event>): (r: Option<Outcome>)
    requires WindowValid(w, nfc) && AllTimelineEvents(events)
  {
    if End(w).None? || start != End(w).value then None
    else
      var w1 := w.(batches := w.batches + [Batch(start, events)], batchesEnd := Some(end));
      var a := ApplyGrowing(w.final, nfc, start, events);
      if a.2.Some? || w.latest.begin != end then Some(Outcome(w1.(final := a.0), a.1, a.2))
      else
        var b := ApplyGrowing(a.0, nfc, start, w.latest.events);
        Some(Outcome(w1.(final := b.0), a.1 + b.1, b.2))
  }

  /** `prepend_batch`: a backward page, newest first; `None` when it does not start at the window's beginning. */
  function PrependBatch(w: Window, nfc: Normalizer, start: TimelineCursor, end: TimelineCursor, reversedEvents: seq<Event>): (r: Option<Outcome>)
    requires WindowValid(w, nfc) && AllTimelineEvents(reversedEvents)
  {
    if start != Begin(w) then None
    else
      var batches := [Batch(end, Reversed(reversedEvents))] + w.batches;
      var w1 := w.(batches := batches, batchesEnd := if |batches| == 1 then Some(start) else w.batchesEnd);
      var r := RevertGrowing(w.initial, nfc, start, reversedEvents);
      Some(Outcome(w1.(initial := r.0), r.1, r.2))
  }

  /**
   * `append_sync`: a sync batch becomes the latest batch. When the window
   * reached the present, the old latest batch becomes a fetched batch
   * first, and the new events are announced and applied.
   */
  function AppendSync(w: Window, nfc: Normalizer, t: Timeline): (r: Outcome)
    requires WindowValid(w, nfc) && AllTimelineEvents(t.events)
  {
    if t.events == [] then Outcome(w, [], None)
    else
      var w1 := if AtEnd(w) then w.(batches := w.batches + [w.latest], batchesEnd := Some(t.prevBatch)) else w;
      var w2 := w1.(latest := Batch(t.prevBatch, t.events));
      var discontinuity := if t.limited then [WindowNotice.Discontinuity] else [];
      if AtEnd(w2) then
        var a := ApplyGrowing(w2.final, nfc, t.prevBatch, t.events);
        Outcome(w2.(final := a.0), discontinuity + a.1, a.2)
      else Outcome(w2, discontinuity, None)
  }

  /**
   * The backward scan of `discard(cursor, FORWARD)` over `batches[..k]`:
   * revert each batch, newest batch first; at the batch that begins at
   * the cursor, keep it and everything before it and end the window
   * there. No such batch: no batches are kept.
   */
  function DiscardBack(w: Window, nfc: Normalizer, cursor: TimelineCursor, k: nat): (r: (Window, Option<EventError>))
    requires WindowValid(w, nfc) && k <= |w.batches|
    ensures WindowValid(r.0, nfc)
    decreases k
  {
    if k == 0 then (w.(batches := []), None)
    else
      var b := w.batches[k - 1];
      assert b in w.batches;
      var r := RevertAll(w.final, nfc, b.events);
      if r.1.Some? then (w.(final := r.0), r.1)
      else if b.begin == cursor then (w.(final := r.0, batchesEnd := Some(b.begin), batches := w.batches[..k]), None)
      else DiscardBack(w.(final := r.0), nfc, cursor, k - 1)
  }

  /**
   * The forward scan of `discard(cursor, BACKWARD)` over `batches[k..]`:
   * apply each batch to the initial state, oldest first; at the batch
   * that begins at the cursor, drop the batches before it. No such batch:
   * no batches are kept.
   */
  function DiscardFront(w: Window, nfc: Normalizer, cursor: TimelineCursor, k: nat): (r: (Window, Option<EventError>))
    requires WindowValid(w, nfc) && k <= |w.batches|
    ensures WindowValid(r.0, nfc)
    decreases |w.batches| - k
  {
    if k == |w.batches| then (w.(batches := []), None)
    else
      var b := w.batches[k];
      assert b in w.batches;
      var r := ApplyAll(w.initial, nfc, b.events);
      if r.1.Some? then (w.(initial := r.0), r.1)
      else if b.begin == cursor then (w.(initial := r.0, batches := w.batches[k..]), None)
      else DiscardFront(w.(initial := r.0), nfc, cursor, k + 1)
  }

  /** `discard` */
  function Discard(w: Window, nfc: Normalizer, cursor: TimelineCursor, dir: Direction): (r: (Window, Option<EventError>))
    requires WindowValid(w, nfc)
    ensures WindowValid(r.0, nfc)
  {
    if dir == Forward then
      var r := RevertAll(w.final, nfc, w.latest.events);
      if r.1.Some? then (w.(final := r.0), r.1)
      else DiscardBack(w.(final := r.0), nfc, cursor, |w.batches|)
    else DiscardFront(w, nfc, cursor, 0)
  }

  /** `reset`: only the latest batch stays; the final state is the room's, and the initial state is it with the latest batch reverted, newest first. */
  function Reset(w: Window, nfc: Normalizer, current: Snapshot): (r: (Window, Option<EventError>))
    requires WindowValid(w, nfc) && IndexValid(current, nfc)
    ensures WindowValid(r.0, nfc)
  {
    var reversed := Reversed(w.latest.events);
    assert forall e | e in reversed :: e in w.latest.events;
    var r := RevertAll(current, nfc, reversed);
    (w.(batches := [], batchesEnd := None, final := current, initial := r.0), r.1)
  }

  // ---------------------------------------------------------------------
  // Properties of the operations
  // ---------------------------------------------------------------------

  /**
   * A forward page is taken exactly when it starts at the window's end;
   * it then becomes the last fetched batch and the window ends where the
   * page ends.
   */
  lemma AppendBatchChains(w: Window, nfc: Normalizer, start: TimelineCursor, end: TimelineCursor, events: seq<Event>)
    requires WindowValid(w, nfc) && AllTimelineEvents(events)
    ensures var r := AppendBatch(w, nfc, start, end, events);
      (r.Some? <==> End(w) == Some(start)) &&
      (r.Some? ==>
        r.value.window.batches == w.batches + [Batch(start, events)] &&
        r.value.window.batchesEnd == Some(end) && r.value.window.latest == w.latest &&
        r.value.window.initial == w.initial &&
        End(r.value.window) == (if end == w.latest.begin then None else Some(end)))
  {
  }

  /**
   * A backward page is taken exactly when it starts at the window's
   * beginning; it then becomes the first batch, its events put back in
   * chronological order, and the window begins where the page ends.
   */
  lemma PrependBatchChains(w: Window, nfc: Normalizer, start: TimelineCursor, end: TimelineCursor, reversedEvents: seq<Event>)
    requires WindowValid(w, nfc) && AllTimelineEvents(reversedEvents)
    ensures var r := PrependBatch(w, nfc, start, end, reversedEvents);
      (r.Some? <==> start == Begin(w)) &&
      (r.Some? ==>
        r.value.window.batches == [Batch(end, Reversed(reversedEvents))] + w.batches &&
        Reversed(r.value.window.batches[0].events) == reversedEvents &&
        Begin(r.value.window) == end && r.value.window.final == w.final && r.value.window.latest == w.latest &&
        (w.batches == [] ==> r.value.window.batchesEnd == Some(start)) &&
        (w.batches != [] ==> r.value.window.batchesEnd == w.batchesEnd))
  {
    if PrependBatch(w, nfc, start, end, reversedEvents).Some? {
      ReversedInvolution(reversedEvents);
    }
  }

  /**
   * A page fetched backwards from the beginning of a window that holds
   * only the latest batch is chained to it: the window then ends at the
   * latest batch, so it still reaches the present.
   */
  lemma PrependToLatestReachesPresent(w: Window, nfc: Normalizer, end: TimelineCursor, reversedEvents: seq<Event>)
    requires WindowValid(w, nfc) && AllTimelineEvents(reversedEvents) && w.batches == []
    ensures var r := PrependBatch(w, nfc, w.latest.begin, end, reversedEvents);
      r.Some? && AtEnd(r.value.window) && End(r.value.window).None?
  {
  }

  /** A sync without events changes nothing; one with events becomes the latest batch, and a window at the present stays there. */
  lemma AppendSyncKeepsPresent(w: Window, nfc: Normalizer, t: Timeline)
    requires WindowValid(w, nfc) && AllTimelineEvents(t.events)
    ensures var r := AppendSync(w, nfc, t);
      (t.events == [] ==> r == Outcome(w, [], None)) &&
      (t.events != [] ==>
        r.window.latest == Batch(t.prevBatch, t.events) && r.window.initial == w.initial &&
        (AtEnd(w) ==> r.window.batches == w.batches + [w.latest] && AtEnd(r.window)) &&
        (!AtEnd(w) ==> r.window.batches == w.batches && r.window.batchesEnd == w.batchesEnd))
  {
  }

  /** `discard(cursor, FORWARD)` keeps a prefix of the batches: up to and including the one that begins at the cursor, or none. */
  lemma {:induction false} DiscardBackKeepsPrefix(w: Window, nfc: Normalizer, cursor: TimelineCursor, k: nat)
    requires WindowValid(w, nfc) && k <= |w.batches|
    ensures var r := DiscardBack(w, nfc, cursor, k).0;
      r.latest == w.latest && r.initial == w.initial &&
      (DiscardBack(w, nfc, cursor, k).1.None? ==> (r.batches == [] ||
       exists j :: 0 < j <= k && r.batches == w.batches[..j] && w.batches[j - 1].begin == cursor && r.batchesEnd == Some(cursor)))
    decreases k
  {
    if k > 0 {
      var b := w.batches[k - 1];
      assert b in w.batches;
      var r := RevertAll(w.final, nfc, b.events);
      if r.1.None? && b.begin != cursor {
        DiscardBackKeepsPrefix(w.(final := r.0), nfc, cursor, k - 1);
        assert DiscardBack(w, nfc, cursor, k) == DiscardBack(w.(final := r.0), nfc, cursor, k - 1);
      } else if r.1.None? {
        var result := DiscardBack(w, nfc, cursor, k).0;
        assert result.batches == w.batches[..k] && w.batches[k - 1].begin == cursor && result.batchesEnd == Some(cursor);
      }
    }
  }

  /** `discard(cursor, BACKWARD)` keeps a suffix of the batches: from the one that begins at the cursor, or none. */
  lemma {:induction false} DiscardFrontKeepsSuffix(w: Window, nfc: Normalizer, cursor: TimelineCursor, k: nat)
    requires WindowValid(w, nfc) && k <= |w.batches|
    ensures var r := DiscardFront(w, nfc, cursor, k).0;
      r.latest == w.latest && r.final == w.final && r.batchesEnd == w.batchesEnd &&
      (DiscardFront(w, nfc, cursor, k).1.None? ==> (r.batches == [] ||
       exists j :: k <= j < |w.batches| && r.batches == w.batches[j..] && w.batches[j].begin == cursor))
    decreases |w.batches| - k
  {
    if k < |w.batches| {
      var b := w.batches[k];
      assert b in w.batches;
      var r := ApplyAll(w.initial, nfc, b.events);
      if r.1.None? && b.begin != cursor {
        DiscardFrontKeepsSuffix(w.(initial := r.0), nfc, cursor, k + 1);
        assert DiscardFront(w, nfc, cursor, k) == DiscardFront(w.(initial := r.0), nfc, cursor, k + 1);
      } else if r.1.None? {
        var result := DiscardFront(w, nfc, cursor, k).0;
        assert result.batches == w.batches[k..] && w.batches[k].begin == cursor;
      }
    }
  }

  /** Discarding with a cursor no batch begins at clears the fetched batches (when no state event fails). */
  lemma {:induction false} DiscardUnknownClears(w: Window, nfc: Normalizer, cursor: TimelineCursor, k: nat)
    requires WindowValid(w, nfc) && k <= |w.batches|
    requires forall b | b in w.batches :: b.begin != cursor
    ensures DiscardFront(w, nfc, cursor, k).1.None? ==> DiscardFront(w, nfc, cursor, k).0.batches == []
    decreases |w.batches| - k
  {
    if k < |w.batches| {
      var b := w.batches[k];
      assert b in w.batches;
      var r := ApplyAll(w.initial, nfc, b.events);
      if r.1.None? {
        DiscardUnknownClears(w.(initial := r.0), nfc, cursor, k + 1);
      }
    }
  }

  /** `reset` leaves only the latest batch, with the window reaching the present. */
  lemma ResetReachesPresent(w: Window, nfc: Normalizer, current: Snapshot)
    requires WindowValid(w, nfc) && IndexValid(current, nfc)
    ensures var r := Reset(w, nfc, current).0;
      r.batches == [] && AtEnd(r) && r.latest == w.latest && r.final == current && Begin(r) == w.latest.begin
  {
  }

  // ---------------------------------------------------------------------
  // The manager's fetch decisions
  // ---------------------------------------------------------------------

  /** A `get_messages` request: direction, start cursor, page size and, forwards, the cursor to stop at. */
  datatype FetchRequest = FetchRequest(dir: Direction, from: TimelineCursor, limit: nat, to: Option<TimelineCursor>)

  /** `grow`: the request to make, if any. */
  function GrowRequest(w: Window, dir: Direction, inFlight: bool): (r: Option<FetchRequest>)
    ensures inFlight ==> r.None?
    ensures dir == Forward ==> (r.Some? <==> !inFlight && !AtEnd(w))
    ensures dir == Backward ==> (r.Some? <==> !inFlight && !AtStart(w))
    ensures r.Some? ==> r.value.dir == dir && r.value.limit == BatchSize
    ensures r.Some? && dir == Forward ==> Some(r.value.from) == End(w) && r.value.to == Some(w.latest.begin)
    ensures r.Some? && dir == Backward ==> r.value.from == Begin(w) && r.value.to.None?
  {
    if dir == Forward then
      if inFlight || AtEnd(w) then None
      else match End(w)
        case None => None
        case Some(start) => Some(FetchRequest(dir, start, BatchSize, Some(w.latest.begin)))
    else if inFlight || AtStart(w) then None
    else Some(FetchRequest(dir, Begin(w), BatchSize, None))
  }

  /**
   * The direction `forward_fetch_error` and `backward_fetch_error` hand to
   * `error` as written: the opposite of the fetch that failed.
   */
  function RetryDirectionAsWritten(failed: Direction): (r: Direction)
    ensures r != failed
  {
    if failed == Forward then Backward else Forward
  }

  /**
   * As written, a window that is at its start but not at its end, whose
   * forward fetch failed, retries backwards and so asks for nothing, while
   * retrying forwards would fetch the page again.
   */
  lemma ForwardRetryAsWrittenStalls(w: Window)
    requires AtStart(w) && !AtEnd(w)
    ensures GrowRequest(w, RetryDirectionAsWritten(Forward), false).None?
    ensures GrowRequest(w, Forward, false).Some?
  {
  }

  /** A forward page that is the answer to the forward request is accepted by the window. */
  lemma FetchedPageChains(w: Window, nfc: Normalizer, end: TimelineCursor, events: seq<Event>)
    requires WindowValid(w, nfc) && AllTimelineEvents(events)
    requires GrowRequest(w, Forward, false).Some?
    ensures AppendBatch(w, nfc, GrowRequest(w, Forward, false).value.from, end, events).Some?
  {
  }

  /** A backward page answering the backward request is accepted by the window. */
  lemma FetchedBackwardPageChains(w: Window, nfc: Normalizer, end: TimelineCursor, reversedEvents: seq<Event>)
    requires WindowValid(w, nfc) && AllTimelineEvents(reversedEvents)
    requires GrowRequest(w, Backward, false).Some?
    ensures PrependBatch(w, nfc, GrowRequest(w, Backward, false).value.from, end, reversedEvents).Some?
  {
  }

  /** `replay`: every event of the window announced forwards, from the initial state. */
  function ReplayWindow(w: Window, nfc: Normalizer): (r: (seq<WindowNotice>, Option<EventError>))
    requires WindowValid(w, nfc)
  {
    var fetched := ReplayBatches(w.initial, nfc, w.batches);
    if fetched.2.Some? then (fetched.1, fetched.2)
    else
      var latest := ApplyGrowing(fetched.0, nfc, w.latest.begin, w.latest.events);
      (fetched.1 + latest.1, latest.2)
  }

  function ReplayBatches(s: Snapshot, nfc: Normalizer, batches: seq<Batch>): (r: (Snapshot, seq<WindowNotice>, Option<EventError>))
    requires IndexValid(s, nfc) && BufferEvents(batches)
    ensures IndexValid(r.0, nfc)
    decreases |batches|
  {
    if batches == [] then (s, [], None)
    else
      assert batches[0] in batches;
      var a := ApplyGrowing(s, nfc, batches[0].begin, batches[0].events);
      if a.2.Some? then a
      else
        var rest := ReplayBatches(a.0, nfc, batches[1..]);
        (rest.0, a.1 + rest.1, rest.2)
  }

  /** Replaying the batches from position `k` is replaying batch `k`, then, unless it failed, the batches after it. */
  lemma ReplayBatchesAt(s: Snapshot, nfc: Normalizer, batches: seq<Batch>, k: nat)
    requires IndexValid(s, nfc) && BufferEvents(batches) && k < |batches|
    ensures batches[k] in batches
    ensures var a := ApplyGrowing(s, nfc, batches[k].begin, batches[k].events);
      var rest := ReplayBatches(a.0, nfc, batches[k + 1..]);
      ReplayBatches(s, nfc, batches[k..]) == if a.2.Some? then a else (rest.0, a.1 + rest.1, rest.2)
  {
    assert batches[k..][0] == batches[k] && batches[k..][1..] == batches[k + 1..];
  }

  /** Replaying announces each event at most once: no more signals than events. */
  lemma {:induction false} ApplyGrowingBounded(s: Snapshot, nfc: Normalizer, begin: TimelineCursor, events: seq<Event>)
    requires IndexValid(s, nfc) && AllTimelineEvents(events)
    ensures |ApplyGrowing(s, nfc, begin, events).1| <= |events|
    ensures ApplyGrowing(s, nfc, begin, events).2.None? ==> |ApplyGrowing(s, nfc, begin, events).1| == |events|
    decreases |events|
  {
    if events != [] {
      assert events[0] in events;
      match ApplyState(s, nfc, events[0])
      case Err(_) =>
      case Ok(s1) => ApplyGrowingBounded(s1, nfc, begin, events[1..]);
    }
  }

}
