/**
 * `TimelineView` (src/TimelineView.cpp) as an object whose batches, pending
 * echoes, id counter and blocks are updated in place, step by step as the
 * C++ does. Each method is proved to reach the value the matching function
 * of module TimelineViewSpec computes from the old fields, and to keep every
 * id unique. The widget's painting, layout and input handling are not part
 * of this model; the signals `need_backwards` and `need_forwards` are
 * returned as flags.
 */
module TimelineViews {
  import opened Wrappers
  import opened Json
  import opened Ids
  import opened Events
  import opened RoomStateSpec
  import opened TimelineViewSpec

  class TimelineView {
    var batches: seq<ViewBatch>
    var pending: seq<Pending>
    var idCounter: nat
    var atBottom: bool
    var blocks: seq<seq<EventLike>>

    /** The fields that hold events, as one value. */
    function Model(): View
      reads this
    {
      View(batches, pending, idCounter)
    }

    ghost predicate Valid()
      reads this
    {
      ViewValid(Model())
    }

    /** `TimelineView(...)`: no events, no echoes, not at the bottom, the counter at zero. */
    constructor ()
      ensures Valid() && Model() == View([], [], 0) && !atBottom && blocks == []
    {
      batches := [];
      pending := [];
      idCounter := 0;
      atBottom := false;
      blocks := [];
      new;
      EmptyViewValid();
    }

    /** `get_id`: the counter's value, after which the counter moves on. */
    method GetId() returns (id: nat)
      modifies this`idCounter
      ensures id == old(idCounter) && idCounter == old(idCounter) + 1
    {
      id := idCounter;
      idCounter := idCounter + 1;
    }

    /** `set_at_bottom`: the blocks are not rebuilt. */
    method SetAtBottom(value: bool)
      modifies this`atBottom
      ensures atBottom == value
    {
      atBottom := value;
    }

    /** `rebuild_blocks`: the batches' events, then the echoes when at the bottom, grouped into blocks. */
    method RebuildBlocks()
      modifies this`blocks
      ensures blocks == Blocks(ViewEvents(Model(), atBottom))
    {
      var tail := if atBottom then PendingEvents(pending) else [];
      ghost var goal := Feed(Grouping([], []), ViewEvents(Model(), atBottom));
      var g := Grouping([], []);
      var b := 0;
      while b < |batches|
        invariant 0 <= b <= |batches|
        invariant Feed(g, Flatten(batches[b..]) + tail) == goal
      {
        assert batches[b..][0] == batches[b] && batches[b..][1..] == batches[b + 1..];
        ConcatAssociative(batches[b].events, Flatten(batches[b + 1..]), tail);
        FeedConcat(g, batches[b].events, Flatten(batches[b + 1..]) + tail);
        g := FeedEvents(g, batches[b].events);
        b := b + 1;
      }
      assert batches[b..] == [] && [] + tail == tail;
      if atBottom {
        var k := 0;
        while k < |pending|
          invariant 0 <= k <= |pending|
          invariant Feed(g, PendingEvents(pending[k..])) == goal
        {
          assert pending[k..][0] == pending[k] && pending[k..][1..] == pending[k + 1..];
          g := Feed1(g, pending[k].event);
          k := k + 1;
        }
        assert pending[k..] == [];
      }
      blocks := Finish(g);
    }

    /** `pending_.erase(remove_if(...))`: every echo sent under transaction `t` goes. */
    method DropEchoes(t: string)
      modifies this`pending
      ensures pending == DropTransaction(old(pending), t)
    {
      var kept := [];
      var i := 0;
      while i < |pending|
        invariant 0 <= i <= |pending| && pending == old(pending)
        invariant kept + DropTransaction(pending[i..], t) == DropTransaction(pending, t)
      {
        assert pending[i..][0] == pending[i] && pending[i..][1..] == pending[i + 1..];
        if pending[i].transaction != t {
          ConcatAssociative(kept, [pending[i]], DropTransaction(pending[i + 1..], t));
          kept := kept + [pending[i]];
        }
        i := i + 1;
      }
      assert pending[i..] == [];
      pending := kept;
    }

    /** The search in `append` for the first echo sent under transaction `t`. */
    method FindEcho(t: string) returns (k: nat)
      requires HasPending(pending, t)
      ensures k == FirstPending(pending, t)
    {
      k := 0;
      while pending[k].transaction != t
        invariant k <= FirstPending(pending, t)
        decreases FirstPending(pending, t) - k
      {
        k := k + 1;
      }
    }

    /** The first echo sent under `t` is taken out of the pending list; its id is kept for the event. */
    method TakeEcho(t: string) returns (id: nat)
      requires HasPending(pending, t)
      modifies this`pending
      ensures var k := FirstPending(old(pending), t);
        id == old(pending)[k].event.id && pending == old(pending)[..k] + old(pending)[k + 1..]
    {
      var k := FindEcho(t);
      id := pending[k].event.id;
      pending := pending[..k] + pending[k + 1..];
    }

    /** The event becomes the first of the front batch, or of a new front batch with another cursor. */
    method InsertFirst(begin: TimelineCursor, x: EventLike)
      modifies this`batches
      ensures batches == PrependTo(old(batches), begin, x)
    {
      if batches != [] && batches[0].begin == begin {
        batches := [batches[0].(events := [x] + batches[0].events)] + batches[1..];
      } else {
        batches := [ViewBatch(begin, [x])] + batches;
      }
    }

    /** The event becomes the last of the back batch, or of a new back batch with another cursor. */
    method InsertLast(begin: TimelineCursor, x: EventLike)
      modifies this`batches
      ensures batches == AppendTo(old(batches), begin, x)
    {
      if batches != [] && batches[|batches| - 1].begin == begin {
        var n := |batches| - 1;
        batches := batches[..n] + [batches[n].(events := batches[n].events + [x])];
      } else {
        batches := batches + [ViewBatch(begin, [x])];
      }
    }

    /** The loop of `redact`: the first event, front batch first, whose id is `target` is redacted in place. */
    method RedactInPlace(target: EventID, because: Event)
      requires AllReal(Flatten(batches))
      modifies this`batches
      ensures batches == RedactBatches(old(batches), target, because)
    {
      ghost var start := batches;
      ghost var goal := RedactBatches(batches, target, because);
      var b := 0;
      while b < |batches|
        invariant 0 <= b <= |batches| && batches == start
        invariant AllReal(Flatten(batches[b..]))
        invariant goal == batches[..b] + RedactBatches(batches[b..], target, because)
      {
        RedactBatchesAt(batches, target, because, b);
        var found := FindTarget(batches[b].events, target);
        if found.Some? {
          var k := found.value;
          RedactBatchesFound(batches, target, because, b, k);
          var events := batches[b].events;
          batches := batches[b := batches[b].(events := events[k := RedactLike(events[k], because).value])];
          return;
        }
        RedactBatchesSkip(batches, target, because, b);
        b := b + 1;
      }
      assert start[..b] == start && start[b..] == [];
    }

    /** The state change of `prepend`, before the blocks are rebuilt. */
    method PrependEvent(begin: TimelineCursor, s: Snapshot, nfc: Normalizer, e: Event) returns (error: Option<EventError>)
      modifies this`batches, this`pending, this`idCounter
      ensures var r := Prepended(old(Model()), begin, s, nfc, e);
        Model() == r.0 && error == r.1
    {
      var id := GetId();
      var made := FromEvent(id, s, nfc, e);
      if made.Err? {
        return Some(made.error);
      }
      InsertFirst(begin, made.value);
      var txid := TransactionId(e);
      if txid.Some? {
        DropEchoes(txid.value.value);
      }
      error := None;
    }

    /**
     * `prepend`: the event under a fresh id becomes the first event, its
     * echoes are dropped and the blocks rebuilt; more history is wanted
     * unless the view is at the top.
     */
    method Prepend(begin: TimelineCursor, s: Snapshot, nfc: Normalizer, e: Event) returns (error: Option<EventError>, needBackwards: bool)
      requires Valid()
      modifies this`batches, this`pending, this`idCounter, this`blocks
      ensures Valid()
      ensures var r := Prepended(old(Model()), begin, s, nfc, e);
        Model() == r.0 && error == r.1
      ensures error.None? ==> blocks == Blocks(ViewEvents(Model(), atBottom)) && needBackwards == !AtTop(Model())
      ensures error.Some? ==> blocks == old(blocks) && !needBackwards
    {
      PrependKeepsValid(Model(), begin, s, nfc, e);
      error := PrependEvent(begin, s, nfc, e);
      if error.Some? {
        return error, false;
      }
      RebuildBlocks();
      needBackwards := !AtTop(Model());
    }

    /** The state change of `append`, before the blocks are rebuilt. */
    method AppendEvent(begin: TimelineCursor, s: Snapshot, nfc: Normalizer, e: Event) returns (error: Option<EventError>)
      requires AppendAllowed(Model(), e)
      modifies this`batches, this`pending, this`idCounter
      ensures var r := Appended(old(Model()), begin, s, nfc, e);
        Model() == r.0 && error == r.1
    {
      var id;
      var txid := TransactionId(e);
      if txid.Some? {
        id := TakeEcho(txid.value.value);
      } else {
        id := GetId();
      }
      error := AppendUnderId(id, begin, s, nfc, e);
    }

    /** The event described under `id` goes to the back of the batches. */
    method AppendUnderId(id: nat, begin: TimelineCursor, s: Snapshot, nfc: Normalizer, e: Event) returns (error: Option<EventError>)
      modifies this`batches
      ensures var r := AppendUnder(old(Model()), id, begin, s, nfc, e);
        Model() == r.0 && error == r.1
    {
      var made := FromEvent(id, s, nfc, e);
      if made.Err? {
        return Some(made.error);
      }
      InsertLast(begin, made.value);
      error := None;
    }

    /**
     * `append`: an event carrying a transaction id replaces its first echo
     * and keeps the echo's id; the event becomes the last event and the
     * blocks are rebuilt; newer events are wanted unless at the bottom.
     */
    method Append(begin: TimelineCursor, s: Snapshot, nfc: Normalizer, e: Event) returns (error: Option<EventError>, needForwards: bool)
      requires Valid() && AppendAllowed(Model(), e)
      modifies this`batches, this`pending, this`idCounter, this`blocks
      ensures Valid()
      ensures var r := Appended(old(Model()), begin, s, nfc, e);
        Model() == r.0 && error == r.1
      ensures error.None? ==> blocks == Blocks(ViewEvents(Model(), atBottom)) && needForwards == !atBottom
      ensures error.Some? ==> blocks == old(blocks) && !needForwards
    {
      AppendKeepsValid(Model(), begin, s, nfc, e);
      error := AppendEvent(begin, s, nfc, e);
      if error.Some? {
        return error, false;
      }
      RebuildBlocks();
      needForwards := !atBottom;
    }

    /**
     * `redact`: the first event, front batch first, whose id the redaction
     * names is redacted; the blocks are rebuilt and both directions are
     * asked for unless at the bottom or the top.
     */
    method Redact(because: Event) returns (needForwards: bool, needBackwards: bool)
      requires Valid()
      modifies this`batches, this`blocks
      ensures Valid()
      ensures Model() == RedactView(old(Model()), because)
      ensures blocks == Blocks(ViewEvents(Model(), atBottom))
      ensures needForwards == !atBottom && needBackwards == !AtTop(Model())
    {
      RedactKeepsValid(Model(), because);
      RedactInPlace(Redacts(because), because);
      RebuildBlocks();
      needForwards := !atBottom;
      needBackwards := !AtTop(Model());
    }

    /** `add_pending`: a placeholder under a fresh id joins the echoes and the blocks are rebuilt. */
    method AddPending(transaction: string, s: Snapshot, nfc: Normalizer, self: UserID, time: int,
                      eventType: EventType, content: JsonObject, affected: Option<UserID>)
      requires Valid()
      modifies this`pending, this`idCounter, this`blocks
      ensures Valid()
      ensures Model() == Pended(old(Model()), transaction, s, nfc, self, time, eventType, content, affected)
      ensures blocks == Blocks(ViewEvents(Model(), atBottom))
    {
      PendKeepsValid(Model(), transaction, s, nfc, self, time, eventType, content, affected);
      var id := GetId();
      pending := pending + [Pending(transaction, Describe(id, s, nfc, self, time, eventType, content, affected, None))];
      RebuildBlocks();
    }
  }

  /** One run of events fed to the grouping of `rebuild_blocks`. */
  method FeedEvents(g: Grouping, evs: seq<EventLike>) returns (h: Grouping)
    ensures h == Feed(g, evs)
  {
    h := g;
    var i := 0;
    while i < |evs|
      invariant 0 <= i <= |evs|
      invariant Feed(h, evs[i..]) == Feed(g, evs)
    {
      FeedAt(h, evs, i);
      h := Feed1(h, evs[i]);
      i := i + 1;
    }
    assert evs[i..] == [];
  }

  /** The inner scan of `redact`: the position of the first event of the batch with id `target`. */
  method FindTarget(events: seq<EventLike>, target: EventID) returns (found: Option<nat>)
    requires AllReal(events)
    ensures found.None? ==> !HasTarget(events, target)
    ensures found.Some? ==>
      found.value < |events| && IsTarget(events[found.value], target) &&
      forall j :: 0 <= j < found.value ==> !IsTarget(events[j], target)
  {
    var i := 0;
    while i < |events|
      invariant 0 <= i <= |events|
      invariant forall j :: 0 <= j < i ==> !IsTarget(events[j], target)
    {
      if Id(events[i].event.value) == target {
        return Some(i);
      }
      i := i + 1;
    }
    return None;
  }

  /** `format_view`, with its loop over the ranges. */
  method FormatView<F(!new)>(formats: seq<FormatRange<F>>, start: int, length: int) returns (result: seq<FormatRange<F>>)
    ensures result == Visible(formats, start, length)
  {
    var end := start + length;
    result := [];
    var i := 0;
    while i < |formats|
      invariant 0 <= i <= |formats|
      invariant result + Visible(formats[i..], start, length) == Visible(formats, start, length)
    {
      VisibleAt(formats, start, length, i);
      var range := formats[i];
      if range.start + range.length <= start || end <= range.start {
        i := i + 1;
        continue;
      }
      ConcatAssociative(result, [Shifted(range, start)], Visible(formats[i + 1..], start, length));
      result := result + [Shifted(range, start)];
      i := i + 1;
    }
    assert formats[i..] == [];
  }
}
