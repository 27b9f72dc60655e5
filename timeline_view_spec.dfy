/**
 * The data behind the timeline widget (`TimelineView`, src/TimelineView.cpp
 * and src/TimelineView.hpp) as values: what the view keeps about each event
 * (`EventLike`), its batches and pending echoes, the effect of each of its
 * operations on them, and the grouping of consecutive events into blocks.
 * The class in module TimelineViews performs the same steps in place.
 */
module TimelineViewSpec {
  import opened Wrappers
  import opened Json
  import opened Ids
  import opened Events
  import opened Redactions
  import opened RoomStateSpec

  /** `BLOCK_MERGE_INTERVAL`: five minutes, in milliseconds. */
  const BlockMergeIntervalMs: int := 5 * 60 * 1000

  /** The user a member event concerns, with that user's membership before the event. */
  datatype MemberInfo = MemberInfo(user: UserID, prevContent: MemberContent)

  /**
   * `EventLike`: a real event or the placeholder of one being sent. Times
   * are milliseconds since the epoch; a redacted event has no time.
   */
  datatype EventLike = EventLike(
    id: nat,
    event: Option<Event>,
    eventType: EventType,
    time: Option<int>,
    sender: UserID,
    disambiguation: Option<string>,
    memberContent: Option<MemberContent>,
    affected: Option<MemberInfo>,
    redacts: Option<EventID>,
    content: JsonObject)

  /** `RoomState::member_from_id` */
  function MemberFromId(s: Snapshot, u: UserID): (r: Option<MemberContent>)
    ensures r.Some? <==> u in s.membersById
    ensures r.Some? ==> r.value == s.membersById[u]
  {
    if u in s.membersById then Some(s.membersById[u]) else None
  }

  /**
   * The `EventLike` constructor from parts: the sender's membership and
   * disambiguation are looked up in the room state, and an affected user who
   * is not a member is recorded as having left.
   */
  function Describe(id: nat, s: Snapshot, nfc: Normalizer, sender: UserID, time: int, eventType: EventType,
                    content: JsonObject, affectedUser: Option<UserID>, redacts: Option<EventID>): (r: EventLike)
    ensures r.id == id && r.event.None? && r.time == Some(time) && r.sender == sender && r.eventType == eventType
    ensures r.content == content && r.redacts == redacts
    ensures r.memberContent == MemberFromId(s, sender)
    ensures r.memberContent.None? ==> r.disambiguation.None?
    ensures r.memberContent.Some? ==> r.disambiguation == Disambiguation(s, nfc, sender, r.memberContent.value)
    ensures r.affected.Some? <==> affectedUser.Some?
    ensures r.affected.Some? ==>
      r.affected.value.user == affectedUser.value &&
      r.affected.value.prevContent == MemberFromId(s, affectedUser.value).GetOr(LeaveContent)
  {
    var affected :=
      if affectedUser.Some? then Some(MemberInfo(affectedUser.value, MemberFromId(s, affectedUser.value).GetOr(LeaveContent)))
      else None;
    var member := MemberFromId(s, sender);
    var disambiguation := if member.Some? then Disambiguation(s, nfc, sender, member.value) else None;
    EventLike(id, None, eventType, Some(time), sender, disambiguation, member, affected, redacts, content)
  }

  /** `get_affected_user`: a member event names the user whose membership it sets; it must parse as a state and a member event. */
  function AffectedUser(e: Event): (r: Result<Option<UserID>, EventError>)
    ensures Type(e).value != MemberTag ==> r == Ok(None)
    ensures Type(e).value == MemberTag ==>
      (r.Ok? <==> StateCheck(e).None? && ParseMember(e).Ok?) &&
      (r.Ok? ==> r.value == Some(UserFromStateKey(StateKeyOf(e))))
  {
    if Type(e).value != MemberTag then Ok(None)
    else if StateCheck(e).Some? then Err(StateCheck(e).value)
    else
      match ParseMember(e)
      case Err(err) => Err(err)
      case Ok(m) => Ok(Some(MemberUser(m)))
  }

  /** `get_redacts`: a redaction event names the event it redacts; it must parse as a redaction. */
  function RedactsOf(e: Event): (r: Result<Option<EventID>, EventError>)
    ensures Type(e).value != RedactionTag ==> r == Ok(None)
    ensures Type(e).value == RedactionTag ==>
      (r.Ok? <==> ParseRedaction(e).Ok?) && (r.Ok? ==> r.value == Some(Redacts(e)))
  {
    if Type(e).value != RedactionTag then Ok(None)
    else
      match ParseRedaction(e)
      case Err(err) => Err(err)
      case Ok(_) => Ok(Some(Redacts(e)))
  }

  /**
   * `EventLike(id, state, real)`. The field comments of `EventLike` hold:
   * `redacts` is set exactly for a redaction, `affected` exactly for a member
   * event, `memberContent` exactly when the sender is a member. A member or
   * redaction event that does not parse is an error.
   */
  function FromEvent(id: nat, s: Snapshot, nfc: Normalizer, e: Event): (r: Result<EventLike, EventError>)
    ensures r.Err? <==> AffectedUser(e).Err? || RedactsOf(e).Err?
    ensures r.Ok? ==>
      r.value.id == id && r.value.event == Some(e) && r.value.eventType == Type(e) &&
      r.value.sender == Sender(e) && r.value.time == Some(OriginServerTs(e)) && r.value.content == Content(e)
    ensures r.Ok? ==> (r.value.redacts.Some? <==> Type(e).value == RedactionTag)
    ensures r.Ok? ==> (r.value.affected.Some? <==> Type(e).value == MemberTag)
    ensures r.Ok? ==> (r.value.memberContent.Some? <==> Sender(e) in s.membersById)
  {
    match AffectedUser(e)
    case Err(err) => Err(err)
    case Ok(affected) =>
      match RedactsOf(e)
      case Err(err) => Err(err)
      case Ok(redacts) =>
        Ok(Describe(id, s, nfc, Sender(e), OriginServerTs(e), Type(e), Content(e), affected, redacts).(event := Some(e)))
  }

  /** The object `Event::redact` leaves of `e`. */
  function RedactedEvent(e: Event, because: Event): Event {
    Event(RedactedJson(e.json, because.json))
  }

  /**
   * `EventLike::redact`: a placeholder has no event to redact (the source
   * throws `logic_error`); otherwise the event is redacted, the time is
   * cleared and the content becomes the redacted event's content. Nothing
   * else changes.
   */
  function RedactLike(x: EventLike, because: Event): (r: Option<EventLike>)
    ensures r.Some? <==> x.event.Some?
    ensures r.Some? ==>
      r.value.event == Some(RedactedEvent(x.event.value, because)) && r.value.time.None? &&
      r.value.content == Content(r.value.event.value) &&
      r.value.(event := x.event, time := x.time, content := x.content) == x
  {
    if x.event.None? then None
    else
      var redacted := RedactedEvent(x.event.value, because);
      Some(x.(event := Some(redacted), time := None, content := Content(redacted)))
  }

  /** Redacting a view event a second time, by any redaction, leaves what redacting once by that redaction leaves. */
  lemma RedactLikeIdempotent(x: EventLike, first: Event, second: Event)
    requires x.event.Some?
    ensures RedactLike(RedactLike(x, first).value, second) == RedactLike(x, second)
  {
    RedactionIdempotent(x.event.value.json, first.json, second.json);
  }

  // --- batches and pending echoes ------------------------------------------

  /** `TimelineView::Batch` */
  datatype ViewBatch = ViewBatch(begin: TimelineCursor, events: seq<EventLike>)

  /** `TimelineView::Pending`: an event being sent, by the transaction id it was sent under. */
  datatype Pending = Pending(transaction: string, event: EventLike)

  /** The fields of `TimelineView` that hold events: the batches, the pending echoes and the id counter. */
  datatype View = View(batches: seq<ViewBatch>, pending: seq<Pending>, counter: nat)

  /** The events of the batches, in order. */
  function Flatten(batches: seq<ViewBatch>): seq<EventLike> {
    if batches == [] then [] else batches[0].events + Flatten(batches[1..])
  }

  lemma {:induction false} FlattenConcat(a: seq<ViewBatch>, b: seq<ViewBatch>)
    ensures Flatten(a + b) == Flatten(a) + Flatten(b)
  {
    if a == [] {
      assert a + b == b;
    } else {
      assert (a + b)[1..] == a[1..] + b;
      FlattenConcat(a[1..], b);
      ConcatAssociative(a[0].events, Flatten(a[1..]), Flatten(b));
    }
  }

  /** The placeholder events of the pending echoes, in order. */
  function PendingEvents(p: seq<Pending>): seq<EventLike> {
    if p == [] then [] else [p[0].event] + PendingEvents(p[1..])
  }

  lemma {:induction false} PendingEventsConcat(a: seq<Pending>, b: seq<Pending>)
    ensures PendingEvents(a + b) == PendingEvents(a) + PendingEvents(b)
  {
    if a == [] {
      assert a + b == b;
    } else {
      assert (a + b)[1..] == a[1..] + b;
      PendingEventsConcat(a[1..], b);
    }
  }

  /** The ids of some events, counted with multiplicity. */
  function IdBag(evs: seq<EventLike>): multiset<nat> {
    if evs == [] then multiset{} else multiset{evs[0].id} + IdBag(evs[1..])
  }

  lemma {:induction false} IdBagConcat(a: seq<EventLike>, b: seq<EventLike>)
    ensures IdBag(a + b) == IdBag(a) + IdBag(b)
  {
    if a == [] {
      assert a + b == b;
    } else {
      assert (a + b)[1..] == a[1..] + b;
      IdBagConcat(a[1..], b);
    }
  }

  lemma {:induction false} IdBagHas(evs: seq<EventLike>, i: nat)
    requires i < |evs|
    ensures evs[i].id in IdBag(evs)
  {
    if i > 0 {
      IdBagHas(evs[1..], i - 1);
    }
  }

  /** All events the view holds: the batches' events, then the pending placeholders. */
  function AllEvents(v: View): seq<EventLike> {
    Flatten(v.batches) + PendingEvents(v.pending)
  }

  /** Every id is below the counter and used once. */
  ghost predicate IdsValid(bag: multiset<nat>, counter: nat) {
    (forall id :: id in bag ==> id < counter) && (forall id :: bag[id] <= 1)
  }

  /** No batch is empty and every batch event is a real event. */
  predicate BatchesShape(batches: seq<ViewBatch>) {
    (forall b :: b in batches ==> b.events != []) && AllReal(Flatten(batches))
  }

  /** The invariant of a timeline view: the batches' shape, and ids handed out once each by the counter. */
  ghost predicate ViewValid(v: View) {
    BatchesShape(v.batches) && IdsValid(IdBag(AllEvents(v)), v.counter)
  }

  /** `get_id` hands out strictly increasing ids, so the events of a valid view carry pairwise distinct ids. */
  lemma DistinctIds(v: View, i: nat, j: nat)
    requires ViewValid(v) && i < j < |AllEvents(v)|
    ensures AllEvents(v)[i].id != AllEvents(v)[j].id
  {
    var all := AllEvents(v);
    assert all == all[..j] + all[j..];
    IdBagConcat(all[..j], all[j..]);
    IdBagHas(all[..j], i);
    IdBagHas(all[j..], 0);
    assert all[..j][i] == all[i] && all[j..][0] == all[j];
    assert IdBag(all)[all[i].id] <= 1;
  }

  /** The empty view, as `TimelineView`'s constructor leaves it. */
  lemma EmptyViewValid()
    ensures ViewValid(View([], [], 0))
  {
    assert AllEvents(View([], [], 0)) == [];
  }

  /** The new first event is `x`: it joins the front batch when that batch has cursor `begin`, otherwise it opens a new front batch. */
  function PrependTo(batches: seq<ViewBatch>, begin: TimelineCursor, x: EventLike): (r: seq<ViewBatch>)
    ensures Flatten(r) == [x] + Flatten(batches)
    ensures r != [] && r[0].begin == begin && r[0].events != [] && r[0].events[0] == x
    ensures batches != [] && batches[0].begin == begin ==> |r| == |batches| && r[1..] == batches[1..]
    ensures !(batches != [] && batches[0].begin == begin) ==> r[1..] == batches
  {
    if batches != [] && batches[0].begin == begin then
      var r := [batches[0].(events := [x] + batches[0].events)] + batches[1..];
      assert r[1..] == batches[1..];
      r
    else
      var r := [ViewBatch(begin, [x])] + batches;
      assert r[1..] == batches;
      r
  }

  /** The new last event is `x`: it joins the back batch when that batch has cursor `begin`, otherwise it opens a new back batch. */
  function AppendTo(batches: seq<ViewBatch>, begin: TimelineCursor, x: EventLike): (r: seq<ViewBatch>)
    ensures Flatten(r) == Flatten(batches) + [x]
    ensures r != [] && r[|r| - 1].begin == begin
    ensures batches != [] && batches[|batches| - 1].begin == begin ==>
      |r| == |batches| && r[..|r| - 1] == batches[..|batches| - 1] &&
      r[|r| - 1].events == batches[|batches| - 1].events + [x]
    ensures !(batches != [] && batches[|batches| - 1].begin == begin) ==>
      r[..|r| - 1] == batches && r[|r| - 1].events == [x]
  {
    if batches != [] && batches[|batches| - 1].begin == begin then
      var n := |batches| - 1;
      var last := batches[n];
      var r := batches[..n] + [last.(events := last.events + [x])];
      assert batches == batches[..n] + [last];
      FlattenConcat(batches[..n], [last]);
      FlattenConcat(batches[..n], [last.(events := last.events + [x])]);
      assert Flatten([last]) == last.events;
      assert Flatten([last.(events := last.events + [x])]) == last.events + [x];
      r
    else
      FlattenConcat(batches, [ViewBatch(begin, [x])]);
      assert Flatten([ViewBatch(begin, [x])]) == [x];
      batches + [ViewBatch(begin, [x])]
  }

  /** The pending echoes sent under another transaction id, in order (`remove_if` then `erase`). */
  function DropTransaction(p: seq<Pending>, t: string): (r: seq<Pending>)
    ensures forall q :: q in r <==> q in p && q.transaction != t
  {
    if p == [] then []
    else if p[0].transaction == t then DropTransaction(p[1..], t)
    else [p[0]] + DropTransaction(p[1..], t)
  }

  /** Dropping echoes removes ids and adds none. */
  lemma {:induction false} DropTransactionIds(p: seq<Pending>, t: string)
    ensures IdBag(PendingEvents(DropTransaction(p, t))) <= IdBag(PendingEvents(p))
  {
    if p != [] {
      DropTransactionIds(p[1..], t);
      if p[0].transaction != t {
        assert [p[0]] + DropTransaction(p[1..], t) == [p[0]] + DropTransaction(p[1..], t);
        PendingEventsConcat([p[0]], DropTransaction(p[1..], t));
        IdBagConcat([p[0].event], PendingEvents(DropTransaction(p[1..], t)));
        assert PendingEvents([p[0]]) == [p[0].event];
      }
    }
  }

  /** Some pending echo was sent under transaction id `t`. */
  predicate HasPending(p: seq<Pending>, t: string) {
    exists k :: 0 <= k < |p| && p[k].transaction == t
  }

  /** The position of the first pending echo sent under `t`. */
  function FirstPending(p: seq<Pending>, t: string): (k: nat)
    requires HasPending(p, t)
    ensures k < |p| && p[k].transaction == t
    ensures forall j :: 0 <= j < k ==> p[j].transaction != t
  {
    if p[0].transaction == t then 0
    else
      var k :| 0 <= k < |p| && p[k].transaction == t;
      assert p[1..][k - 1].transaction == t;
      1 + FirstPending(p[1..], t)
  }

  /**
   * `TimelineView::prepend`: the event is described under a fresh id and
   * becomes the first event; its echoes, if it carries a transaction id,
   * are all dropped. When the event does not parse, only the id is used up.
   */
  function Prepended(v: View, begin: TimelineCursor, s: Snapshot, nfc: Normalizer, e: Event): (r: (View, Option<EventError>))
    ensures r.0.counter == v.counter + 1
    ensures r.1.Some? <==> FromEvent(v.counter, s, nfc, e).Err?
    ensures r.1.Some? ==> r.0 == v.(counter := v.counter + 1)
    ensures r.1.None? ==>
      Flatten(r.0.batches) == [FromEvent(v.counter, s, nfc, e).value] + Flatten(v.batches) &&
      r.0.batches[0].begin == begin
    ensures r.1.None? && TransactionId(e).None? ==> r.0.pending == v.pending
    ensures r.1.None? && TransactionId(e).Some? ==>
      forall q :: q in r.0.pending <==> q in v.pending && q.transaction != TransactionId(e).value.value
  {
    match FromEvent(v.counter, s, nfc, e)
    case Err(err) => (v.(counter := v.counter + 1), Some(err))
    case Ok(x) =>
      var pending := if TransactionId(e).Some? then DropTransaction(v.pending, TransactionId(e).value.value) else v.pending;
      (View(PrependTo(v.batches, begin, x), pending, v.counter + 1), None)
  }

  /** `append` requires an echo for the transaction id the event carries: the source dereferences the end of the pending list otherwise. */
  predicate AppendAllowed(v: View, e: Event) {
    TransactionId(e).Some? ==> HasPending(v.pending, TransactionId(e).value.value)
  }

  /**
   * `TimelineView::append`: an event carrying a transaction id takes the
   * place of the first echo with that id, reusing its id; any other event
   * gets a fresh id. The event becomes the last event. When the event does
   * not parse, the echo stays removed.
   */
  function Appended(v: View, begin: TimelineCursor, s: Snapshot, nfc: Normalizer, e: Event): (r: (View, Option<EventError>))
    requires AppendAllowed(v, e)
  {
    if TransactionId(e).None? then AppendUnder(v.(counter := v.counter + 1), v.counter, begin, s, nfc, e)
    else
      var k := FirstPending(v.pending, TransactionId(e).value.value);
      AppendUnder(v.(pending := v.pending[..k] + v.pending[k + 1..]), v.pending[k].event.id, begin, s, nfc, e)
  }

  /** The second half of `append`: the event described under `id` becomes the last event. */
  function AppendUnder(v: View, id: nat, begin: TimelineCursor, s: Snapshot, nfc: Normalizer, e: Event): (r: (View, Option<EventError>))
  {
    match FromEvent(id, s, nfc, e)
    case Err(err) => (v, Some(err))
    case Ok(x) => (v.(batches := AppendTo(v.batches, begin, x)), None)
  }

  /** The echo of an own event has the id the event later gets when it comes back from the server, and nothing else changes order. */
  lemma AppendReusesEchoId(v: View, begin: TimelineCursor, s: Snapshot, nfc: Normalizer, e: Event)
    requires AppendAllowed(v, e) && TransactionId(e).Some? && Appended(v, begin, s, nfc, e).1.None?
    ensures var k := FirstPending(v.pending, TransactionId(e).value.value);
      var r := Appended(v, begin, s, nfc, e).0;
      Flatten(r.batches) == Flatten(v.batches) + [FromEvent(v.pending[k].event.id, s, nfc, e).value] &&
      Flatten(r.batches)[|Flatten(r.batches)| - 1].id == v.pending[k].event.id &&
      r.pending == v.pending[..k] + v.pending[k + 1..] && r.counter == v.counter
  {
    var k := FirstPending(v.pending, TransactionId(e).value.value);
    var x := FromEvent(v.pending[k].event.id, s, nfc, e).value;
    var r := Appended(v, begin, s, nfc, e).0;
    assert r.batches == AppendTo(v.batches, begin, x);
    var f := Flatten(r.batches);
    assert f == Flatten(v.batches) + [x];
    assert f[|f| - 1] == x;
  }

  /** An event without a transaction id gets the counter as its id and becomes the last event. */
  lemma AppendTakesFreshId(v: View, begin: TimelineCursor, s: Snapshot, nfc: Normalizer, e: Event)
    requires TransactionId(e).None? && Appended(v, begin, s, nfc, e).1.None?
    ensures var r := Appended(v, begin, s, nfc, e).0;
      Flatten(r.batches) == Flatten(v.batches) + [FromEvent(v.counter, s, nfc, e).value] &&
      r.pending == v.pending && r.counter == v.counter + 1
  {
  }

  /** `add_pending`: a placeholder described under a fresh id goes to the back of the pending echoes. */
  function Pended(v: View, transaction: string, s: Snapshot, nfc: Normalizer, self: UserID, time: int,
                  eventType: EventType, content: JsonObject, affected: Option<UserID>): View {
    var x := Describe(v.counter, s, nfc, self, time, eventType, content, affected, None);
    View(v.batches, v.pending + [Pending(transaction, x)], v.counter + 1)
  }

  // --- redaction -----------------------------------------------------------

  /** The real event `x` is the one with id `target`. */
  predicate IsTarget(x: EventLike, target: EventID)
    requires x.event.Some?
  {
    Id(x.event.value) == target
  }

  predicate AllReal(evs: seq<EventLike>) {
    forall x :: x in evs ==> x.event.Some?
  }

  /** The first event with id `target` redacted; the others kept. */
  function RedactFirst(evs: seq<EventLike>, target: EventID, because: Event): (r: seq<EventLike>)
    requires AllReal(evs)
    ensures |r| == |evs| && AllReal(r)
  {
    if evs == [] then []
    else if IsTarget(evs[0], target) then [RedactLike(evs[0], because).value] + evs[1..]
    else
      var rest := RedactFirst(evs[1..], target, because);
      assert forall x :: x in [evs[0]] + rest ==> x == evs[0] || x in rest;
      [evs[0]] + rest
  }

  /** Redaction keeps every event's id. */
  lemma {:induction false} RedactFirstIds(evs: seq<EventLike>, target: EventID, because: Event)
    requires AllReal(evs)
    ensures IdBag(RedactFirst(evs, target, because)) == IdBag(evs)
  {
    if evs != [] {
      var r := RedactFirst(evs, target, because);
      assert r[1..] == if IsTarget(evs[0], target) then evs[1..] else RedactFirst(evs[1..], target, because);
      if !IsTarget(evs[0], target) {
        assert forall x :: x in evs[1..] ==> x in evs;
        RedactFirstIds(evs[1..], target, because);
      }
    }
  }

  predicate HasTarget(evs: seq<EventLike>, target: EventID)
    requires AllReal(evs)
  {
    exists x :: x in evs && IsTarget(x, target)
  }

  /** With no event to redact, redacting changes nothing. */
  lemma {:induction false} RedactFirstWithoutTarget(evs: seq<EventLike>, target: EventID, because: Event)
    requires AllReal(evs) && !HasTarget(evs, target)
    ensures RedactFirst(evs, target, because) == evs
  {
    if evs != [] {
      assert evs[0] in evs;
      assert forall x :: x in evs[1..] ==> x in evs;
      RedactFirstWithoutTarget(evs[1..], target, because);
    }
  }

  /** Redacting the flattened batches splits at the front batch. */
  lemma RedactFirstFront(batches: seq<ViewBatch>, target: EventID, because: Event)
    requires batches != [] && AllReal(Flatten(batches))
    ensures AllReal(batches[0].events) && AllReal(Flatten(batches[1..]))
    ensures HasTarget(batches[0].events, target) ==>
      RedactFirst(Flatten(batches), target, because) == RedactFirst(batches[0].events, target, because) + Flatten(batches[1..])
    ensures !HasTarget(batches[0].events, target) ==>
      RedactFirst(Flatten(batches), target, because) == batches[0].events + RedactFirst(Flatten(batches[1..]), target, because)
  {
    var first := batches[0].events;
    var rest := Flatten(batches[1..]);
    assert Flatten(batches) == first + rest;
    RedactFirstSplit(first, rest, target, because);
  }

  /** The batches with the first target event (front batch first) redacted. */
  function RedactBatches(batches: seq<ViewBatch>, target: EventID, because: Event): (r: seq<ViewBatch>)
    requires AllReal(Flatten(batches))
    ensures |r| == |batches|
    ensures forall i :: 0 <= i < |r| ==> r[i].begin == batches[i].begin && |r[i].events| == |batches[i].events|
    ensures Flatten(r) == RedactFirst(Flatten(batches), target, because)
  {
    if batches == [] then []
    else
      var first := batches[0].events;
      var rest := Flatten(batches[1..]);
      RedactFirstFront(batches, target, because);
      if HasTarget(first, target) then
        var r := [batches[0].(events := RedactFirst(first, target, because))] + batches[1..];
        assert r[1..] == batches[1..];
        r
      else
        RedactFirstWithoutTarget(first, target, because);
        var r := [batches[0]] + RedactBatches(batches[1..], target, because);
        assert r[1..] == RedactBatches(batches[1..], target, because);
        r
  }

  lemma HasTargetCons(a: seq<EventLike>, target: EventID)
    requires a != [] && AllReal(a)
    ensures AllReal(a[1..])
    ensures HasTarget(a, target) <==> IsTarget(a[0], target) || HasTarget(a[1..], target)
  {
    assert a == [a[0]] + a[1..];
    assert a[0] in a;
    assert forall x :: x in a[1..] ==> x in a;
  }

  /** Redacting across two runs of events: within the first run when it holds the target, otherwise within the second. */
  lemma {:induction false} RedactFirstSplit(a: seq<EventLike>, b: seq<EventLike>, target: EventID, because: Event)
    requires AllReal(a + b)
    ensures AllReal(a) && AllReal(b)
    ensures HasTarget(a, target) ==> RedactFirst(a + b, target, because) == RedactFirst(a, target, because) + b
    ensures !HasTarget(a, target) ==> RedactFirst(a + b, target, because) == a + RedactFirst(b, target, because)
    decreases |a|
  {
    assert forall x :: x in a ==> x in a + b;
    assert forall x :: x in b ==> x in a + b;
    if a == [] {
      assert a + b == b;
    } else {
      HasTargetCons(a, target);
      assert (a + b)[0] == a[0] && (a + b)[1..] == a[1..] + b;
      if IsTarget(a[0], target) {
        var first := [RedactLike(a[0], because).value];
        ConcatAssociative(first, a[1..], b);
      } else {
        RedactFirstSplit(a[1..], b, target, because);
        if HasTarget(a, target) {
          ConcatAssociative([a[0]], RedactFirst(a[1..], target, because), b);
        } else {
          ConcatAssociative([a[0]], a[1..], RedactFirst(b, target, because));
          assert [a[0]] + a[1..] == a;
        }
      }
    }
  }

  /** When the first target is at `k`, redacting changes exactly position `k`. */
  /**
   * `TimelineView::redact` changes only the first event, in order, whose id
   * is the target: that one is redacted and every other event is kept.
   */
  lemma {:induction false} RedactFirstAt(evs: seq<EventLike>, target: EventID, because: Event, k: nat)
    requires AllReal(evs) && k < |evs| && IsTarget(evs[k], target)
    requires forall j :: 0 <= j < k ==> !IsTarget(evs[j], target)
    ensures RedactFirst(evs, target, because) == evs[k := RedactLike(evs[k], because).value]
    decreases k
  {
    var w := evs[k := RedactLike(evs[k], because).value];
    if k == 0 {
      assert w == [RedactLike(evs[0], because).value] + evs[1..];
    } else {
      assert !IsTarget(evs[0], target);
      var tail := evs[1..];
      assert forall x :: x in tail ==> x in evs;
      forall j | 0 <= j < k - 1
        ensures !IsTarget(tail[j], target)
      {
        assert tail[j] == evs[j + 1];
      }
      assert tail[k - 1] == evs[k];
      RedactFirstAt(tail, target, because, k - 1);
      assert w == [evs[0]] + tail[k - 1 := RedactLike(evs[k], because).value];
    }
  }

  /** One step of the scan over the batches, at batch `b`. */
  lemma RedactBatchesAt(batches: seq<ViewBatch>, target: EventID, because: Event, b: nat)
    requires AllReal(Flatten(batches)) && b < |batches|
    ensures AllReal(Flatten(batches[b..])) && AllReal(batches[b].events) && AllReal(Flatten(batches[b + 1..]))
    ensures RedactBatches(batches[b..], target, because) ==
      if HasTarget(batches[b].events, target) then [batches[b].(events := RedactFirst(batches[b].events, target, because))] + batches[b + 1..]
      else [batches[b]] + RedactBatches(batches[b + 1..], target, because)
  {
    assert batches == batches[..b] + batches[b..];
    FlattenConcat(batches[..b], batches[b..]);
    assert forall x :: x in Flatten(batches[b..]) ==> x in Flatten(batches);
    var t := batches[b..];
    assert t[0] == batches[b] && t[1..] == batches[b + 1..];
    assert forall x :: x in batches[b].events ==> x in Flatten(t);
    assert forall x :: x in Flatten(batches[b + 1..]) ==> x in Flatten(t);
  }

  /** Batch `b` holds no target: the scan moves on to the next batch. */
  lemma RedactBatchesSkip(batches: seq<ViewBatch>, target: EventID, because: Event, b: nat)
    requires AllReal(Flatten(batches)) && b < |batches| && AllReal(batches[b].events)
    requires !HasTarget(batches[b].events, target)
    ensures AllReal(Flatten(batches[b..])) && AllReal(Flatten(batches[b + 1..]))
    ensures batches[..b] + RedactBatches(batches[b..], target, because) ==
      batches[..b + 1] + RedactBatches(batches[b + 1..], target, because)
  {
    RedactBatchesAt(batches, target, because, b);
    assert batches[..b + 1] == batches[..b] + [batches[b]];
    ConcatAssociative(batches[..b], [batches[b]], RedactBatches(batches[b + 1..], target, because));
  }

  /** The redaction found at position `k` of batch `b`, where nothing before it is a target. */
  lemma RedactBatchesFound(batches: seq<ViewBatch>, target: EventID, because: Event, b: nat, k: nat)
    requires AllReal(Flatten(batches)) && b < |batches| && AllReal(batches[b].events)
    requires k < |batches[b].events| && IsTarget(batches[b].events[k], target)
    requires forall j :: 0 <= j < k ==> !IsTarget(batches[b].events[j], target)
    ensures AllReal(Flatten(batches[b..]))
    ensures batches[..b] + RedactBatches(batches[b..], target, because) ==
      batches[b := batches[b].(events := batches[b].events[k := RedactLike(batches[b].events[k], because).value])]
  {
    RedactBatchesAt(batches, target, because, b);
    var events := batches[b].events;
    assert events[k] in events;
    RedactFirstAt(events, target, because, k);
    ReplaceAtSplits(batches, b, batches[b].(events := events[k := RedactLike(events[k], because).value]));
  }

  lemma ReplaceAtSplits<T>(s: seq<T>, b: nat, x: T)
    requires b < |s|
    ensures s[b := x] == s[..b] + ([x] + s[b + 1..])
  {
  }

  /** `TimelineView::redact` on the values: the batches change, the echoes and the counter do not. */
  function RedactView(v: View, because: Event): View
    requires AllReal(Flatten(v.batches))
  {
    v.(batches := RedactBatches(v.batches, Redacts(because), because))
  }

  // --- the invariant is kept -----------------------------------------------

  lemma AllIdsSplit(v: View)
    ensures IdBag(AllEvents(v)) == IdBag(Flatten(v.batches)) + IdBag(PendingEvents(v.pending))
  {
    IdBagConcat(Flatten(v.batches), PendingEvents(v.pending));
  }

  lemma IdBagOne(x: EventLike)
    ensures IdBag([x]) == multiset{x.id}
  {
    assert [x][1..] == [];
  }

  /** An unused id below the counter may be taken. */
  lemma IdsAdd(bag: multiset<nat>, id: nat, counter: nat)
    requires IdsValid(bag, counter) && id < counter && id !in bag
    ensures IdsValid(bag + multiset{id}, counter)
  {
  }

  /** Fewer ids under a larger counter stay valid; the old counter is then unused. */
  lemma IdsShrink(small: multiset<nat>, bag: multiset<nat>, counter: nat, more: nat)
    requires IdsValid(bag, counter) && small <= bag && counter <= more
    ensures IdsValid(small, more) && counter !in small
  {
    assert counter !in bag;
  }

  lemma IdBagCons(x: EventLike, rest: seq<EventLike>)
    ensures IdBag([x] + rest) == multiset{x.id} + IdBag(rest)
  {
    assert ([x] + rest)[0] == x && ([x] + rest)[1..] == rest;
  }

  /** Removing the echo at `k` removes exactly its id. */
  lemma SliceRemoveTail<T>(p: seq<T>, k: nat)
    requires 0 < k < |p|
    ensures (p[..k] + p[k + 1..])[0] == p[0]
    ensures (p[..k] + p[k + 1..])[1..] == p[1..][..k - 1] + p[1..][k..]
  {
  }

  lemma {:induction false} RemovePendingIds(p: seq<Pending>, k: nat)
    requires k < |p|
    ensures IdBag(PendingEvents(p)) == IdBag(PendingEvents(p[..k] + p[k + 1..])) + multiset{p[k].event.id}
  {
    var q := p[..k] + p[k + 1..];
    var first := p[0].event.id;
    assert PendingEvents(p) == [p[0].event] + PendingEvents(p[1..]);
    IdBagCons(p[0].event, PendingEvents(p[1..]));
    if k == 0 {
      assert q == p[1..];
    } else {
      var t := p[1..];
      var rest := t[..k - 1] + t[k..];
      RemovePendingIds(t, k - 1);
      assert t[k - 1] == p[k];
      SliceRemoveTail(p, k);
      assert PendingEvents(q) == [p[0].event] + PendingEvents(rest);
      IdBagCons(p[0].event, PendingEvents(rest));
      var x := IdBag(PendingEvents(rest));
      assert IdBag(PendingEvents(p)) == multiset{first} + (x + multiset{p[k].event.id});
      assert IdBag(PendingEvents(q)) == multiset{first} + x;
    }
  }

  /** Taking the echo at `k` out of a valid view frees its id: it is below the counter and no longer used. */
  lemma TakeEchoValid(v: View, k: nat)
    requires ViewValid(v) && k < |v.pending|
    ensures var mid := v.(pending := v.pending[..k] + v.pending[k + 1..]);
      var id := v.pending[k].event.id;
      ViewValid(mid) && id < v.counter && id !in IdBag(AllEvents(mid))
  {
    var mid := v.(pending := v.pending[..k] + v.pending[k + 1..]);
    var id := v.pending[k].event.id;
    AllIdsSplit(v);
    AllIdsSplit(mid);
    RemovePendingIds(v.pending, k);
    assert IdBag(AllEvents(v)) == IdBag(AllEvents(mid)) + multiset{id};
    IdsShrink(IdBag(AllEvents(mid)), IdBag(AllEvents(v)), v.counter, v.counter);
    assert IdBag(AllEvents(v))[id] <= 1;
  }

  /** A real event under an unused id below the counter may become the last event. */
  lemma AppendEventValid(v: View, begin: TimelineCursor, x: EventLike)
    requires ViewValid(v) && x.event.Some? && x.id < v.counter && x.id !in IdBag(AllEvents(v))
    ensures ViewValid(v.(batches := AppendTo(v.batches, begin, x)))
  {
    var r := v.(batches := AppendTo(v.batches, begin, x));
    AllIdsSplit(v);
    AllIdsSplit(r);
    AppendShape(v.batches, begin, x);
    IdsAdd(IdBag(AllEvents(v)), x.id, v.counter);
    assert IdBag(AllEvents(r)) == IdBag(AllEvents(v)) + multiset{x.id};
  }

  lemma PrependShape(batches: seq<ViewBatch>, begin: TimelineCursor, x: EventLike)
    requires BatchesShape(batches) && x.event.Some?
    ensures BatchesShape(PrependTo(batches, begin, x))
    ensures IdBag(Flatten(PrependTo(batches, begin, x))) == multiset{x.id} + IdBag(Flatten(batches))
  {
    var r := PrependTo(batches, begin, x);
    IdBagConcat([x], Flatten(batches));
    IdBagOne(x);
    if batches != [] {
      assert forall c :: c in batches[1..] ==> c in batches;
    }
    forall b | b in r
      ensures b.events != []
    {
      var i :| 0 <= i < |r| && r[i] == b;
      if i > 0 {
        assert b == r[1..][i - 1];
      }
    }
    forall y | y in Flatten(r)
      ensures y.event.Some?
    {
      assert y == x || y in Flatten(batches);
    }
  }

  lemma AppendShape(batches: seq<ViewBatch>, begin: TimelineCursor, x: EventLike)
    requires BatchesShape(batches) && x.event.Some?
    ensures BatchesShape(AppendTo(batches, begin, x))
    ensures IdBag(Flatten(AppendTo(batches, begin, x))) == IdBag(Flatten(batches)) + multiset{x.id}
  {
    var r := AppendTo(batches, begin, x);
    IdBagConcat(Flatten(batches), [x]);
    IdBagOne(x);
    if batches != [] {
      assert forall c :: c in batches[..|batches| - 1] ==> c in batches;
    }
    forall b | b in r
      ensures b.events != []
    {
      var i :| 0 <= i < |r| && r[i] == b;
      if i < |r| - 1 {
        assert b == r[..|r| - 1][i];
      }
    }
    forall y | y in Flatten(r)
      ensures y.event.Some?
    {
      assert y == x || y in Flatten(batches);
    }
  }

  lemma PrependKeepsValid(v: View, begin: TimelineCursor, s: Snapshot, nfc: Normalizer, e: Event)
    requires ViewValid(v)
    ensures ViewValid(Prepended(v, begin, s, nfc, e).0)
  {
    var r := Prepended(v, begin, s, nfc, e);
    if r.1.None? {
      PrependEventKeepsValid(v, begin, s, nfc, e);
    } else {
      AllIdsSplit(v);
      AllIdsSplit(r.0);
      IdsShrink(IdBag(AllEvents(v)), IdBag(AllEvents(v)), v.counter, v.counter + 1);
    }
  }

  lemma PrependEventKeepsValid(v: View, begin: TimelineCursor, s: Snapshot, nfc: Normalizer, e: Event)
    requires ViewValid(v) && Prepended(v, begin, s, nfc, e).1.None?
    ensures ViewValid(Prepended(v, begin, s, nfc, e).0)
  {
    var x := FromEvent(v.counter, s, nfc, e).value;
    var pending := if TransactionId(e).Some? then DropTransaction(v.pending, TransactionId(e).value.value) else v.pending;
    if TransactionId(e).Some? {
      DropTransactionIds(v.pending, TransactionId(e).value.value);
    }
    PrependValid(v, begin, x, pending);
  }

  /** A fresh real event in front, and echoes only removed: the invariant holds under the next counter. */
  lemma PrependValid(v: View, begin: TimelineCursor, x: EventLike, pending: seq<Pending>)
    requires ViewValid(v) && x.event.Some? && x.id == v.counter
    requires IdBag(PendingEvents(pending)) <= IdBag(PendingEvents(v.pending))
    ensures ViewValid(View(PrependTo(v.batches, begin, x), pending, v.counter + 1))
  {
    var r := View(PrependTo(v.batches, begin, x), pending, v.counter + 1);
    AllIdsSplit(v);
    AllIdsSplit(r);
    PrependShape(v.batches, begin, x);
    var rest := IdBag(Flatten(v.batches)) + IdBag(PendingEvents(pending));
    IdsShrink(rest, IdBag(AllEvents(v)), v.counter, v.counter + 1);
    IdsAdd(rest, v.counter, v.counter + 1);
    assert IdBag(AllEvents(r)) == rest + multiset{v.counter};
  }

  lemma AppendKeepsValid(v: View, begin: TimelineCursor, s: Snapshot, nfc: Normalizer, e: Event)
    requires ViewValid(v) && AppendAllowed(v, e)
    ensures ViewValid(Appended(v, begin, s, nfc, e).0)
  {
    var r := Appended(v, begin, s, nfc, e);
    var mid := View(v.batches, r.0.pending, r.0.counter);
    var id: nat;
    if TransactionId(e).Some? {
      var k := FirstPending(v.pending, TransactionId(e).value.value);
      id := v.pending[k].event.id;
      TakeEchoValid(v, k);
    } else {
      id := v.counter;
      AllIdsSplit(v);
      IdsShrink(IdBag(AllEvents(v)), IdBag(AllEvents(v)), v.counter, v.counter + 1);
    }
    if r.1.None? {
      AppendEventValid(mid, begin, FromEvent(id, s, nfc, e).value);
    }
  }

  lemma PendKeepsValid(v: View, transaction: string, s: Snapshot, nfc: Normalizer, self: UserID, time: int,
                       eventType: EventType, content: JsonObject, affected: Option<UserID>)
    requires ViewValid(v)
    ensures ViewValid(Pended(v, transaction, s, nfc, self, time, eventType, content, affected))
  {
    var r := Pended(v, transaction, s, nfc, self, time, eventType, content, affected);
    var x := Describe(v.counter, s, nfc, self, time, eventType, content, affected, None);
    AllIdsSplit(v);
    AllIdsSplit(r);
    PendingEventsConcat(v.pending, [Pending(transaction, x)]);
    assert PendingEvents([Pending(transaction, x)]) == [x];
    IdBagConcat(PendingEvents(v.pending), [x]);
    IdBagOne(x);
    IdsShrink(IdBag(AllEvents(v)), IdBag(AllEvents(v)), v.counter, v.counter + 1);
    IdsAdd(IdBag(AllEvents(v)), v.counter, v.counter + 1);
    assert IdBag(AllEvents(r)) == IdBag(AllEvents(v)) + multiset{v.counter};
  }

  lemma RedactKeepsValid(v: View, because: Event)
    requires ViewValid(v)
    ensures ViewValid(RedactView(v, because))
  {
    var r := RedactView(v, because);
    RedactFirstIds(Flatten(v.batches), Redacts(because), because);
    AllIdsSplit(v);
    AllIdsSplit(r);
    forall b | b in r.batches
      ensures b.events != []
    {
      var i :| 0 <= i < |r.batches| && r.batches[i] == b;
      assert v.batches[i] in v.batches;
    }
  }

  // --- at_top --------------------------------------------------------------

  /** `at_top`: the first event of the first batch creates the room. */
  function AtTop(v: View): (r: bool)
    requires forall b :: b in v.batches ==> b.events != []
    ensures r <==> v.batches != [] && v.batches[0].events[0].eventType.value == CreateTag
  {
    if v.batches == [] then false
    else
      assert v.batches[0] in v.batches;
      v.batches[0].events[0].eventType.value == CreateTag
  }

  /** Prepending the room's creation event puts the view at the top. */
  lemma PrependCreateReachesTop(v: View, begin: TimelineCursor, s: Snapshot, nfc: Normalizer, e: Event)
    requires ViewValid(v) && Type(e).value == CreateTag && Prepended(v, begin, s, nfc, e).1.None?
    ensures var r := Prepended(v, begin, s, nfc, e).0;
      (forall b :: b in r.batches ==> b.events != []) && AtTop(r)
  {
    PrependKeepsValid(v, begin, s, nfc, e);
  }

  /** Appending never changes whether a view with events is at the top. */
  lemma AppendKeepsTop(v: View, begin: TimelineCursor, s: Snapshot, nfc: Normalizer, e: Event)
    requires ViewValid(v) && AppendAllowed(v, e) && v.batches != []
    ensures var r := Appended(v, begin, s, nfc, e).0;
      (forall b :: b in r.batches ==> b.events != []) && AtTop(r) == AtTop(v)
  {
    AppendKeepsValid(v, begin, s, nfc, e);
    var r := Appended(v, begin, s, nfc, e).0;
    assert v.batches[0] in v.batches;
    var id := if TransactionId(e).None? then v.counter else v.pending[FirstPending(v.pending, TransactionId(e).value.value)].event.id;
    match FromEvent(id, s, nfc, e)
    case Err(_) =>
      assert r.batches == v.batches;
    case Ok(x) =>
      assert r.batches == AppendTo(v.batches, begin, x);
      AppendToKeepsFirst(v.batches, begin, x);
  }

  /** Appending to non-empty batches keeps the first event of the first batch. */
  lemma AppendToKeepsFirst(batches: seq<ViewBatch>, begin: TimelineCursor, x: EventLike)
    requires batches != [] && batches[0].events != []
    ensures AppendTo(batches, begin, x)[0].events != []
    ensures AppendTo(batches, begin, x)[0].events[0] == batches[0].events[0]
  {
    var r := AppendTo(batches, begin, x);
    if |batches| > 1 || !(batches[|batches| - 1].begin == begin) {
      assert r[0] == r[..|r| - 1][0];
    }
  }

  // --- blocks --------------------------------------------------------------

  /** `block_border`: a new block starts on a change of sender, an unknown time, or a gap of more than five minutes. */
  predicate BlockBorder(a: EventLike, b: EventLike) {
    b.sender != a.sender || b.time.None? || a.time.None? || b.time.value - a.time.value > BlockMergeIntervalMs
  }

  /** No border falls inside the block. */
  predicate Cohesive(block: seq<EventLike>) {
    forall i :: 0 < i < |block| ==> !BlockBorder(block[i - 1], block[i])
  }

  /** The blocks finished so far and the events of the block being filled (`new_blocks`, `block_events`). */
  datatype Grouping = Grouping(done: seq<seq<EventLike>>, current: seq<EventLike>)

  /** One event of `rebuild_blocks`: a border closes the current block first. */
  function Feed1(g: Grouping, e: EventLike): Grouping {
    if g.current != [] && BlockBorder(g.current[|g.current| - 1], e) then Grouping(g.done + [g.current], [e])
    else Grouping(g.done, g.current + [e])
  }

  function Feed(g: Grouping, evs: seq<EventLike>): Grouping
    decreases |evs|
  {
    if evs == [] then g else Feed(Feed1(g, evs[0]), evs[1..])
  }

  /** The last block is closed when it has events. */
  function Finish(g: Grouping): seq<seq<EventLike>> {
    if g.current == [] then g.done else g.done + [g.current]
  }

  /** The blocks `rebuild_blocks` makes of a run of events. */
  function Blocks(evs: seq<EventLike>): seq<seq<EventLike>> {
    Finish(Feed(Grouping([], []), evs))
  }

  /** The events shown: the batches' events, then the pending echoes when the view is at the bottom. */
  function ViewEvents(v: View, atBottom: bool): seq<EventLike> {
    Flatten(v.batches) + (if atBottom then PendingEvents(v.pending) else [])
  }

  lemma FeedAt(g: Grouping, evs: seq<EventLike>, i: nat)
    requires i < |evs|
    ensures Feed(g, evs[i..]) == Feed(Feed1(g, evs[i]), evs[i + 1..])
  {
    assert evs[i..][0] == evs[i] && evs[i..][1..] == evs[i + 1..];
  }

  lemma {:induction false} FeedConcat(g: Grouping, a: seq<EventLike>, b: seq<EventLike>)
    ensures Feed(g, a + b) == Feed(Feed(g, a), b)
    decreases |a|
  {
    if a == [] {
      assert a + b == b;
    } else {
      assert (a + b)[0] == a[0] && (a + b)[1..] == a[1..] + b;
      FeedConcat(Feed1(g, a[0]), a[1..], b);
    }
  }

  /** The blocks joined back together. */
  function Concat(blocks: seq<seq<EventLike>>): seq<EventLike> {
    if blocks == [] then [] else blocks[0] + Concat(blocks[1..])
  }

  lemma {:induction false} ConcatSnoc(blocks: seq<seq<EventLike>>, b: seq<EventLike>)
    ensures Concat(blocks + [b]) == Concat(blocks) + b
  {
    if blocks == [] {
      assert blocks + [b] == [b];
      assert Concat([b]) == b + Concat([]);
    } else {
      assert (blocks + [b])[1..] == blocks[1..] + [b];
      ConcatSnoc(blocks[1..], b);
      ConcatAssociative(blocks[0], Concat(blocks[1..]), b);
    }
  }

  function LastOf(block: seq<EventLike>): EventLike
    requires block != []
  {
    block[|block| - 1]
  }

  /** A border separates block `k - 1` from block `k`. */
  predicate SeparatedAt(blocks: seq<seq<EventLike>>, k: nat)
    requires 0 < k < |blocks|
  {
    blocks[k - 1] != [] && blocks[k] != [] && BlockBorder(LastOf(blocks[k - 1]), blocks[k][0])
  }

  predicate Separated(blocks: seq<seq<EventLike>>) {
    forall k :: 0 < k < |blocks| ==> SeparatedAt(blocks, k)
  }

  /** What holds at every step: finished blocks are non-empty and cohesive, the current one is cohesive, and borders separate them all. */
  predicate GroupingValid(g: Grouping) {
    (forall k :: 0 <= k < |g.done| ==> g.done[k] != [] && Cohesive(g.done[k])) &&
    Cohesive(g.current) &&
    (g.done != [] ==> g.current != []) &&
    Separated(g.done + [g.current])
  }

  lemma Feed1Valid(g: Grouping, e: EventLike)
    requires GroupingValid(g)
    ensures GroupingValid(Feed1(g, e))
    ensures Concat(Feed1(g, e).done) + Feed1(g, e).current == Concat(g.done) + g.current + [e]
  {
    var h := Feed1(g, e);
    var before := g.done + [g.current];
    var after := h.done + [h.current];
    if g.current != [] && BlockBorder(g.current[|g.current| - 1], e) {
      ConcatSnoc(g.done, g.current);
      assert after == before + [[e]];
      forall k | 0 < k < |after|
        ensures SeparatedAt(after, k)
      {
        if k < |before| {
          assert after[k - 1] == before[k - 1] && after[k] == before[k];
          assert SeparatedAt(before, k);
        }
      }
      assert Cohesive(h.current);
    } else {
      ConcatAssociative(Concat(g.done), g.current, [e]);
      forall i | 0 < i < |h.current|
        ensures !BlockBorder(h.current[i - 1], h.current[i])
      {
        if i < |g.current| {
          assert h.current[i - 1] == g.current[i - 1] && h.current[i] == g.current[i];
        }
      }
      forall k | 0 < k < |after|
        ensures SeparatedAt(after, k)
      {
        assert after[k - 1] == before[k - 1];
        assert SeparatedAt(before, k);
        if k == |after| - 1 {
          assert after[k][0] == before[k][0];
        } else {
          assert after[k] == before[k];
        }
      }
    }
  }

  lemma {:induction false} FeedValid(g: Grouping, evs: seq<EventLike>)
    requires GroupingValid(g)
    ensures GroupingValid(Feed(g, evs))
    ensures Concat(Feed(g, evs).done) + Feed(g, evs).current == Concat(g.done) + g.current + evs
    decreases |evs|
  {
    if evs != [] {
      Feed1Valid(g, evs[0]);
      FeedValid(Feed1(g, evs[0]), evs[1..]);
      ConcatAssociative(Concat(g.done) + g.current, [evs[0]], evs[1..]);
      assert [evs[0]] + evs[1..] == evs;
    }
  }

  /**
   * The blocks of a run of events partition it in order: joined they give
   * the run back, none is empty, no border falls inside a block, and a
   * border separates each block from the next.
   */
  lemma BlocksPartition(evs: seq<EventLike>)
    ensures var blocks := Blocks(evs);
      Concat(blocks) == evs &&
      (forall k :: 0 <= k < |blocks| ==> blocks[k] != [] && Cohesive(blocks[k])) &&
      Separated(blocks)
  {
    var g := Feed(Grouping([], []), evs);
    assert Separated([[]]);
    FeedValid(Grouping([], []), evs);
    if g.current != [] {
      ConcatSnoc(g.done, g.current);
    } else {
      assert g.done == [];
    }
  }

  // --- format_view -----------------------------------------------------------

  /** `QTextLayout::FormatRange`: a format applied to `length` characters from `start`. */
  datatype FormatRange<F> = FormatRange(start: int, length: int, format: F)

  /** The range moved so that it starts relative to position `start`. */
  function Shifted<F>(r: FormatRange<F>, start: int): FormatRange<F> {
    FormatRange(r.start - start, r.length, r.format)
  }

  /** The range shares at least one position with the view of `length` characters from `start`. */
  predicate Overlaps<F>(r: FormatRange<F>, start: int, length: int) {
    !(r.start + r.length <= start || start + length <= r.start)
  }

  /**
   * `format_view`: the ranges that overlap the view, in order, moved to
   * start relative to the view. Their lengths are kept as they were, not
   * cut at the view's edges.
   */
  function Visible<F(!new)>(formats: seq<FormatRange<F>>, start: int, length: int): (r: seq<FormatRange<F>>)
    ensures |r| <= |formats|
    ensures forall f :: f in r <==> exists g :: g in formats && Overlaps(g, start, length) && f == Shifted(g, start)
  {
    if formats == [] then []
    else
      var rest := Visible(formats[1..], start, length);
      assert forall g :: g in formats <==> g == formats[0] || g in formats[1..];
      if Overlaps(formats[0], start, length) then [Shifted(formats[0], start)] + rest else rest
  }

  /**
   * `format_view` keeps the ranges in order: the visible ranges of two runs
   * of ranges are those of the first followed by those of the second, and
   * a single range is kept, moved, exactly when it overlaps the view.
   */
  lemma {:induction false} VisibleConcat<F(!new)>(a: seq<FormatRange<F>>, b: seq<FormatRange<F>>, start: int, length: int)
    ensures Visible(a + b, start, length) == Visible(a, start, length) + Visible(b, start, length)
    ensures |a| == 1 ==> Visible(a, start, length) == if Overlaps(a[0], start, length) then [Shifted(a[0], start)] else []
    decreases |a|
  {
    if a == [] {
      assert a + b == b;
    } else {
      assert (a + b)[0] == a[0] && (a + b)[1..] == a[1..] + b;
      VisibleConcat(a[1..], b, start, length);
    }
  }

  lemma VisibleAt<F(!new)>(formats: seq<FormatRange<F>>, start: int, length: int, i: nat)
    requires i < |formats|
    ensures Visible(formats[i..], start, length) ==
      (if Overlaps(formats[i], start, length) then [Shifted(formats[i], start)] else []) +
      Visible(formats[i + 1..], start, length)
  {
    assert formats[i..][0] == formats[i] && formats[i..][1..] == formats[i + 1..];
  }
}
