/**
 * The `TimelineWindow` and `TimelineManager` objects, each operation
 * proved against its counterpart in `TimelineWindowSpec`.
 */
module TimelineWindows {
  import opened Wrappers
  import opened Json
  import opened Ids
  import opened Events
  import opened RoomStateSpec
  import opened Rooms
  import opened TimelineWindowSpec

  /** `TimelineWindow` */
  class TimelineWindow {
    const nfc: Normalizer
    var initialState: Snapshot
    var finalState: Snapshot
    var batches: seq<Batch>
    var batchesEnd: Option<TimelineCursor>
    var latestBatch: Batch

    function Model(): Window
      reads this
    {
      Window(initialState, finalState, batches, batchesEnd, latestBatch)
    }

    ghost predicate Valid()
      reads this
    {
      WindowValid(Model(), nfc)
    }

    /** The constructor, given at least one batch. */
    constructor (initial: Snapshot, bufferBatches: seq<Batch>, final: Snapshot, normalize: Normalizer)
      requires bufferBatches != []
      ensures Model() == Construct(initial, bufferBatches, final).value && nfc == normalize
    {
      nfc := normalize;
      initialState := initial;
      finalState := final;
      batches := bufferBatches[..|bufferBatches| - 1];
      batchesEnd := None;
      latestBatch := bufferBatches[|bufferBatches| - 1];
    }

    /** Forward growth on the final state. */
    method GrowForward(begin: TimelineCursor, events: seq<Event>) returns (notices: seq<WindowNotice>, error: Option<EventError>)
      requires IndexValid(finalState, nfc) && AllTimelineEvents(events)
      modifies this`finalState
      ensures (finalState, notices, error) == ApplyGrowing(old(finalState), nfc, begin, events)
    {
      ghost var goal := ApplyGrowing(finalState, nfc, begin, events);
      notices := [];
      assert events[0..] == events && notices + goal.1 == goal.1;
      var i := 0;
      while i < |events|
        invariant 0 <= i <= |events| && IndexValid(finalState, nfc)
        invariant var rest := ApplyGrowing(finalState, nfc, begin, events[i..]);
          rest.0 == goal.0 && notices + rest.1 == goal.1 && rest.2 == goal.2
      {
        ApplyGrowingAt(finalState, nfc, begin, events, i);
        var e := events[i];
        notices := notices + [Grew(Forward, begin, finalState, e)];
        var applied := ApplyState(finalState, nfc, e);
        if applied.Err? {
          return notices, Some(applied.error);
        }
        finalState := applied.value;
        i := i + 1;
      }
      assert events[i..] == [];
      assert notices + [] == notices;
      error := None;
    }

    /** Backward growth on the initial state. */
    method GrowBackward(begin: TimelineCursor, events: seq<Event>) returns (notices: seq<WindowNotice>, error: Option<EventError>)
      requires IndexValid(initialState, nfc) && AllTimelineEvents(events)
      modifies this`initialState
      ensures (initialState, notices, error) == RevertGrowing(old(initialState), nfc, begin, events)
    {
      ghost var goal := RevertGrowing(initialState, nfc, begin, events);
      notices := [];
      assert events[0..] == events && notices + goal.1 == goal.1;
      var i := 0;
      while i < |events|
        invariant 0 <= i <= |events| && IndexValid(initialState, nfc)
        invariant var rest := RevertGrowing(initialState, nfc, begin, events[i..]);
          rest.0 == goal.0 && notices + rest.1 == goal.1 && rest.2 == goal.2
      {
        RevertGrowingAt(initialState, nfc, begin, events, i);
        var e := events[i];
        var reverted := RevertState(initialState, nfc, e);
        if reverted.Err? {
          assert notices + [] == notices;
          return notices, Some(reverted.error);
        }
        ghost var rest := RevertGrowing(reverted.value, nfc, begin, events[i + 1..]);
        var grew := Grew(Backward, begin, reverted.value, e);
        assert RevertGrowing(initialState, nfc, begin, events[i..]) == (rest.0, [grew] + rest.1, rest.2);
        ConcatAssociative(notices, [grew], rest.1);
        initialState := reverted.value;
        notices := notices + [grew];
        i := i + 1;
      }
      assert events[i..] == [];
      assert notices + [] == notices;
      error := None;
    }

    /** The events reverted on the final state, in the given order. */
    method RevertFinal(events: seq<Event>) returns (error: Option<EventError>)
      requires IndexValid(finalState, nfc) && AllTimelineEvents(events)
      modifies this`finalState
      ensures (finalState, error) == RevertAll(old(finalState), nfc, events)
    {
      ghost var goal := RevertAll(finalState, nfc, events);
      var i := 0;
      while i < |events|
        invariant 0 <= i <= |events| && IndexValid(finalState, nfc)
        invariant RevertAll(finalState, nfc, events[i..]) == goal
      {
        RevertAllAt(finalState, nfc, events, i);
        var reverted := RevertState(finalState, nfc, events[i]);
        if reverted.Err? {
          return Some(reverted.error);
        }
        finalState := reverted.value;
        i := i + 1;
      }
      assert events[i..] == [];
      error := None;
    }

    /** The events applied to the initial state, in the given order. */
    method ApplyInitial(events: seq<Event>) returns (error: Option<EventError>)
      requires IndexValid(initialState, nfc) && AllTimelineEvents(events)
      modifies this`initialState
      ensures (initialState, error) == ApplyAll(old(initialState), nfc, events)
    {
      ghost var goal := ApplyAll(initialState, nfc, events);
      var i := 0;
      while i < |events|
        invariant 0 <= i <= |events| && IndexValid(initialState, nfc)
        invariant ApplyAll(initialState, nfc, events[i..]) == goal
      {
        ApplyAllAt(initialState, nfc, events, i);
        var applied := ApplyState(initialState, nfc, events[i]);
        if applied.Err? {
          return Some(applied.error);
        }
        initialState := applied.value;
        i := i + 1;
      }
      assert events[i..] == [];
      error := None;
    }

    /** `begin` */
    function Begin(): (r: TimelineCursor)
      reads this
      ensures r == TimelineWindowSpec.Begin(Model())
    {
      if batches == [] then latestBatch.begin else batches[0].begin
    }

    /** `end` */
    function End(): (r: Option<TimelineCursor>)
      reads this
      ensures r == TimelineWindowSpec.End(Model())
    {
      if batchesEnd.Some? && batchesEnd.value == latestBatch.begin then None else batchesEnd
    }

    /** `append_batch`; `accepted` is false when the page does not chain and the manager must grow forwards again. */
    method AppendBatch(start: TimelineCursor, end: TimelineCursor, events: seq<Event>)
      returns (accepted: bool, notices: seq<WindowNotice>, error: Option<EventError>)
      requires Valid() && AllTimelineEvents(events)
      modifies this
      ensures Valid()
      ensures var r := TimelineWindowSpec.AppendBatch(old(Model()), nfc, start, end, events);
        (accepted <==> r.Some?) &&
        (r.None? ==> Model() == old(Model()) && notices == [] && error.None?) &&
        (r.Some? ==> Outcome(Model(), notices, error) == r.value)
    {
      var windowEnd := End();
      if windowEnd.None? || start != windowEnd.value {
        return false, [], None;
      }
      accepted := true;
      batches := batches + [Batch(start, events)];
      batchesEnd := Some(end);
      notices, error := GrowForward(start, events);
      if error.Some? {
        return;
      }
      if latestBatch.begin == end {
        var more;
        more, error := GrowForward(start, latestBatch.events);
        notices := notices + more;
      }
    }

    /** `prepend_batch`; `accepted` is false when the page does not chain and the manager must grow backwards again. */
    method PrependBatch(start: TimelineCursor, end: TimelineCursor, reversedEvents: seq<Event>)
      returns (accepted: bool, notices: seq<WindowNotice>, error: Option<EventError>)
      requires Valid() && AllTimelineEvents(reversedEvents)
      modifies this
      ensures Valid()
      ensures var r := TimelineWindowSpec.PrependBatch(old(Model()), nfc, start, end, reversedEvents);
        (accepted <==> r.Some?) &&
        (r.None? ==> Model() == old(Model()) && notices == [] && error.None?) &&
        (r.Some? ==> Outcome(Model(), notices, error) == r.value)
    {
      if start != Begin() {
        return false, [], None;
      }
      accepted := true;
      var events := Reversed(reversedEvents);
      assert forall e | e in events :: e in reversedEvents;
      batches := [Batch(end, events)] + batches;
      if |batches| == 1 {
        batchesEnd := Some(start);
      }
      notices, error := GrowBackward(start, reversedEvents);
    }

    /** `append_sync` */
    method AppendSync(t: Timeline) returns (notices: seq<WindowNotice>, error: Option<EventError>)
      requires Valid() && AllTimelineEvents(t.events)
      modifies this
      ensures Valid()
      ensures Outcome(Model(), notices, error) == TimelineWindowSpec.AppendSync(old(Model()), nfc, t)
    {
      if t.events == [] {
        return [], None;
      }
      if AtEnd(Model()) {
        batches := batches + [latestBatch];
        batchesEnd := Some(t.prevBatch);
      }
      latestBatch := Batch(t.prevBatch, t.events);
      notices := if t.limited then [WindowNotice.Discontinuity] else [];
      error := None;
      if AtEnd(Model()) {
        var grown;
        grown, error := GrowForward(latestBatch.begin, latestBatch.events);
        notices := notices + grown;
      }
    }

    /** `discard` */
    method Discard(cursor: TimelineCursor, dir: Direction) returns (error: Option<EventError>)
      requires Valid()
      modifies this
      ensures Valid()
      ensures (Model(), error) == TimelineWindowSpec.Discard(old(Model()), nfc, cursor, dir)
    {
      if dir == Forward {
        error := RevertFinal(latestBatch.events);
        if error.Some? {
          return;
        }
        error := DiscardNewer(cursor);
      } else {
        error := DiscardOlder(cursor);
      }
    }

    /** The newest-first scan of `discard(cursor, FORWARD)`, after the latest batch is reverted. */
    method DiscardNewer(cursor: TimelineCursor) returns (error: Option<EventError>)
      requires Valid()
      modifies this`finalState, this`batches, this`batchesEnd
      ensures Valid()
      ensures (Model(), error) == DiscardBack(old(Model()), nfc, cursor, |old(batches)|)
    {
      ghost var start := Model();
      var k := |batches|;
      while k > 0
        invariant 0 <= k <= |batches| && Valid()
        invariant batches == start.batches && latestBatch == start.latest && initialState == start.initial
        invariant batchesEnd == start.batchesEnd
        invariant DiscardBack(Model(), nfc, cursor, k) == DiscardBack(start, nfc, cursor, |start.batches|)
      {
        var b := batches[k - 1];
        assert b in batches;
        error := RevertFinal(b.events);
        if error.Some? {
          return;
        }
        if b.begin == cursor {
          batchesEnd := Some(b.begin);
          batches := batches[..k];
          return;
        }
        k := k - 1;
      }
      batches := [];
      error := None;
    }

    /** The oldest-first scan of `discard(cursor, BACKWARD)`. */
    method DiscardOlder(cursor: TimelineCursor) returns (error: Option<EventError>)
      requires Valid()
      modifies this`initialState, this`batches
      ensures Valid()
      ensures (Model(), error) == DiscardFront(old(Model()), nfc, cursor, 0)
    {
      ghost var start := Model();
      var k := 0;
      while k < |batches|
        invariant 0 <= k <= |batches| && Valid()
        invariant batches == start.batches && latestBatch == start.latest && finalState == start.final
        invariant batchesEnd == start.batchesEnd
        invariant DiscardFront(Model(), nfc, cursor, k) == DiscardFront(start, nfc, cursor, 0)
      {
        var b := batches[k];
        assert b in batches;
        error := ApplyInitial(b.events);
        if error.Some? {
          return;
        }
        if b.begin == cursor {
          batches := batches[k..];
          return;
        }
        k := k + 1;
      }
      batches := [];
      error := None;
    }

    /** `reset` */
    method Reset(current: Snapshot) returns (error: Option<EventError>)
      requires Valid() && IndexValid(current, nfc)
      modifies this
      ensures Valid()
      ensures (Model(), error) == TimelineWindowSpec.Reset(old(Model()), nfc, current)
    {
      batches := [];
      batchesEnd := None;
      finalState := current;
      initialState := finalState;
      var reversed := Reversed(latestBatch.events);
      assert forall e | e in reversed :: e in latestBatch.events;
      error := RevertInitial(reversed);
    }

    /** The events reverted on the initial state, in the given order. */
    method RevertInitial(events: seq<Event>) returns (error: Option<EventError>)
      requires IndexValid(initialState, nfc) && AllTimelineEvents(events)
      modifies this`initialState
      ensures (initialState, error) == RevertAll(old(initialState), nfc, events)
    {
      ghost var goal := RevertAll(initialState, nfc, events);
      var i := 0;
      while i < |events|
        invariant 0 <= i <= |events| && IndexValid(initialState, nfc)
        invariant RevertAll(initialState, nfc, events[i..]) == goal
      {
        RevertAllAt(initialState, nfc, events, i);
        var reverted := RevertState(initialState, nfc, events[i]);
        if reverted.Err? {
          return Some(reverted.error);
        }
        initialState := reverted.value;
        i := i + 1;
      }
      assert events[i..] == [];
      error := None;
    }
  }

  /** `TimelineManager`: the window, the requests in flight each way, and the retry timer. */
  class TimelineManager {
    const window: TimelineWindow
    var forwardRequest: bool
    var backwardRequest: bool
    var retryDirection: Direction
    var retryTimerActive: bool

    ghost predicate Valid()
      reads this, window
    {
      window.Valid()
    }

    /** The manager of a room's window, built from the room's buffer; nothing is in flight. */
    constructor (w: TimelineWindow)
      requires w.Valid()
      ensures Valid() && window == w && !forwardRequest && !backwardRequest && !retryTimerActive
    {
      window := w;
      forwardRequest := false;
      backwardRequest := false;
      retryDirection := Forward;
      retryTimerActive := false;
    }

    /** `grow`: ask for the next page in that direction unless one is in flight or the window already reaches that way. */
    method Grow(dir: Direction) returns (request: Option<FetchRequest>)
      requires Valid()
      modifies this
      ensures Valid() && retryDirection == old(retryDirection) && retryTimerActive == old(retryTimerActive)
      ensures request == GrowRequest(window.Model(), dir, if dir == Forward then old(forwardRequest) else old(backwardRequest))
      ensures dir == Forward ==> backwardRequest == old(backwardRequest) && forwardRequest == (old(forwardRequest) || request.Some?)
      ensures dir == Backward ==> forwardRequest == old(forwardRequest) && backwardRequest == (old(backwardRequest) || request.Some?)
    {
      var start: Option<TimelineCursor>;
      var end: Option<TimelineCursor> := None;
      if dir == Forward {
        if forwardRequest || AtEnd(window.Model()) {
          return None;
        }
        start := window.End();
        end := Some(window.latestBatch.begin);
      } else {
        if backwardRequest || AtStart(window.Model()) {
          return None;
        }
        start := Some(window.Begin());
      }
      if start.None? {
        return None;
      }
      request := Some(FetchRequest(dir, start.value, BatchSize, end));
      if dir == Forward {
        forwardRequest := true;
      } else {
        backwardRequest := true;
      }
    }

    /** `error`: remember the direction to retry and start the one-second retry timer unless it runs. Returns whether it was started. */
    method Error(dir: Direction) returns (timerStarted: bool)
      modifies this
      ensures retryDirection == dir && retryTimerActive
      ensures timerStarted == !old(retryTimerActive)
      ensures forwardRequest == old(forwardRequest) && backwardRequest == old(backwardRequest)
    {
      retryDirection := dir;
      timerStarted := !retryTimerActive;
      retryTimerActive := true;
    }

    /** `forward_fetch_error` as written: the forward request is over, and the retry is scheduled in the other direction. */
    method ForwardFetchErrorAsWritten() returns (timerStarted: bool)
      modifies this
      ensures !forwardRequest && backwardRequest == old(backwardRequest)
      ensures retryDirection == RetryDirectionAsWritten(Forward) && retryTimerActive && timerStarted == !old(retryTimerActive)
    {
      forwardRequest := false;
      timerStarted := Error(RetryDirectionAsWritten(Forward));
    }

    /** `backward_fetch_error` as written: the backward request is over, and the retry is scheduled in the other direction. */
    method BackwardFetchErrorAsWritten() returns (timerStarted: bool)
      modifies this
      ensures !backwardRequest && forwardRequest == old(forwardRequest)
      ensures retryDirection == RetryDirectionAsWritten(Backward) && retryTimerActive && timerStarted == !old(retryTimerActive)
    {
      backwardRequest := false;
      timerStarted := Error(RetryDirectionAsWritten(Backward));
    }

    /** A failed forward fetch, corrected: the retry grows forwards again, so `retry` reissues the request that failed. */
    method ForwardFetchError() returns (timerStarted: bool)
      modifies this
      ensures !forwardRequest && backwardRequest == old(backwardRequest)
      ensures retryDirection == Forward && retryTimerActive && timerStarted == !old(retryTimerActive)
    {
      forwardRequest := false;
      timerStarted := Error(Forward);
    }

    /** A failed backward fetch, corrected: the retry grows backwards again. */
    method BackwardFetchError() returns (timerStarted: bool)
      modifies this
      ensures !backwardRequest && forwardRequest == old(forwardRequest)
      ensures retryDirection == Backward && retryTimerActive && timerStarted == !old(retryTimerActive)
    {
      backwardRequest := false;
      timerStarted := Error(Backward);
    }

    /** `retry`: the timer fired; grow in the remembered direction. */
    method Retry() returns (request: Option<FetchRequest>)
      requires Valid()
      modifies this
      ensures Valid() && !retryTimerActive
      ensures request == GrowRequest(window.Model(), old(retryDirection),
        if old(retryDirection) == Forward then old(forwardRequest) else old(backwardRequest))
    {
      retryTimerActive := false;
      request := Grow(retryDirection);
    }

    /** `got_backward`: the page goes to the window; a page that does not chain makes the manager grow backwards again. */
    method GotBackward(start: TimelineCursor, end: TimelineCursor, reversedEvents: seq<Event>)
      returns (notices: seq<WindowNotice>, error: Option<EventError>, request: Option<FetchRequest>)
      requires Valid() && AllTimelineEvents(reversedEvents)
      modifies this, window
      ensures Valid()
      ensures var r := PrependBatch(old(window.Model()), window.nfc, start, end, reversedEvents);
        (r.Some? ==> Outcome(window.Model(), notices, error) == r.value && request.None? && !backwardRequest) &&
        (r.None? ==> window.Model() == old(window.Model()) && request == GrowRequest(window.Model(), Backward, false))
    {
      backwardRequest := false;
      var accepted;
      accepted, notices, error := window.PrependBatch(start, end, reversedEvents);
      request := None;
      if !accepted {
        request := Grow(Backward);
      }
    }

    /** `got_forward`: the page goes to the window; a page that does not chain makes the manager grow forwards again. */
    method GotForward(start: TimelineCursor, end: TimelineCursor, events: seq<Event>)
      returns (notices: seq<WindowNotice>, error: Option<EventError>, request: Option<FetchRequest>)
      requires Valid() && AllTimelineEvents(events)
      modifies this, window
      ensures Valid()
      ensures var r := AppendBatch(old(window.Model()), window.nfc, start, end, events);
        (r.Some? ==> Outcome(window.Model(), notices, error) == r.value && request.None? && !forwardRequest) &&
        (r.None? ==> window.Model() == old(window.Model()) && request == GrowRequest(window.Model(), Forward, false))
    {
      forwardRequest := false;
      var accepted;
      accepted, notices, error := window.AppendBatch(start, end, events);
      request := None;
      if !accepted {
        request := Grow(Forward);
      }
    }

    /** `batch`: a sync batch goes to the window. */
    method SyncBatch(t: Timeline) returns (notices: seq<WindowNotice>, error: Option<EventError>)
      requires Valid() && AllTimelineEvents(t.events)
      modifies window
      ensures Valid()
      ensures Outcome(window.Model(), notices, error) == AppendSync(old(window.Model()), window.nfc, t)
    {
      notices, error := window.AppendSync(t);
    }

    /** `replay`: announce the whole window forwards from its initial state, on a copy of that state. */
    method Replay() returns (notices: seq<WindowNotice>, error: Option<EventError>)
      requires Valid()
      ensures (notices, error) == ReplayWindow(window.Model(), window.nfc)
    {
      var w := window.Model();
      var nfc := window.nfc;
      var replay;
      replay, notices, error := ReplayFetched(w.initial, nfc, w.batches);
      if error.Some? {
        return;
      }
      var latest := ApplyGrowing(replay, nfc, w.latest.begin, w.latest.events);
      notices := notices + latest.1;
      error := latest.2;
    }
  }

  /** The fetched batches of `replay`, batch by batch, each event announced forwards; the first malformed event stops the replay. */
  method ReplayFetched(initial: Snapshot, nfc: Normalizer, batches: seq<Batch>)
    returns (replay: Snapshot, notices: seq<WindowNotice>, error: Option<EventError>)
    requires IndexValid(initial, nfc) && BufferEvents(batches)
    ensures (replay, notices, error) == ReplayBatches(initial, nfc, batches)
  {
    ghost var goal := ReplayBatches(initial, nfc, batches);
    replay := initial;
    notices := [];
    var k := 0;
    assert batches[0..] == batches && notices + goal.1 == goal.1;
    while k < |batches|
      invariant 0 <= k <= |batches| && IndexValid(replay, nfc)
      invariant var rest := ReplayBatches(replay, nfc, batches[k..]);
        rest.0 == goal.0 && notices + rest.1 == goal.1 && rest.2 == goal.2
    {
      ReplayBatchesAt(replay, nfc, batches, k);
      var b := batches[k];
      var grown := ApplyGrowing(replay, nfc, b.begin, b.events);
      ghost var rest := ReplayBatches(grown.0, nfc, batches[k + 1..]);
      ConcatAssociative(notices, grown.1, rest.1);
      notices := notices + grown.1;
      if grown.2.Some? {
        return grown.0, notices, grown.2;
      }
      replay := grown.0;
      k := k + 1;
    }
    assert batches[k..] == [];
    assert notices + [] == notices;
    error := None;
  }
}
