/**
 * Matrix events as the client parses them (src/matrix/Event.hpp and
 * src/matrix/Event.cpp). An event is its JSON object; the C++ class
 * hierarchy (Event, Identifiable, Room, State, Member, ...) is a chain of
 * constructors, each of which validates more fields and throws on the first
 * bad one. Here each constructor is a function returning either the value or
 * the error the constructor throws.
 */
module Events {
  import opened Wrappers
  import opened Json
  import opened Ids

  /** The exceptions the constructors throw. */
  datatype EventError =
    | TypeMismatch                                              // type_mismatch
    | MissingField(field: string)                               // missing_field
    | IllTypedField(field: string, expected: Kind, actual: Kind) // ill_typed_field
    | Malformed(reason: string)                                 // any other malformed_event

  datatype Membership = Invite | Join | Leave | Ban

  /** Whether a membership takes part in display-name disambiguation. */
  function MembershipDisplayable(m: Membership): (r: bool)
    ensures r <==> !(m == Leave || m == Ban)
  {
    m == Join || m == Invite
  }

  /** The wire name of a membership (`to_qstring`). */
  function MembershipName(m: Membership): string {
    match m
    case Invite => "invite"
    case Join => "join"
    case Leave => "leave"
    case Ban => "ban"
  }

  /** The table `parse_membership` searches, in its order. */
  const MembershipTable: seq<(string, Membership)> :=
    [("invite", Invite), ("join", Join), ("leave", Leave), ("ban", Ban)]

  /** The first table entry named `s`, or the malformed-event error. */
  function LookupMembership(table: seq<(string, Membership)>, s: string): Result<Membership, EventError> {
    if table == [] then Err(Malformed("unrecognized membership value"))
    else if table[0].0 == s then Ok(table[0].1)
    else LookupMembership(table[1..], s)
  }

  function MembershipOf(s: string): Result<Membership, EventError> {
    LookupMembership(MembershipTable, s)
  }

  /** `parse_membership`: a linear search of the table. */
  method ParseMembership(s: string) returns (r: Result<Membership, EventError>)
    ensures r == MembershipOf(s)
  {
    var i := 0;
    while i < |MembershipTable|
      invariant 0 <= i <= |MembershipTable|
      invariant LookupMembership(MembershipTable[i..], s) == MembershipOf(s)
    {
      if MembershipTable[i].0 == s {
        return Ok(MembershipTable[i].1);
      }
      i := i + 1;
    }
    return Err(Malformed("unrecognized membership value"));
  }

  /** Parsing the name of a membership gives that membership back ... */
  lemma MembershipRoundTrip(m: Membership)
    ensures MembershipOf(MembershipName(m)) == Ok(m)
  {
  }

  /** ... and only the four names parse at all. */
  lemma MembershipOnlyNames(s: string)
    ensures MembershipOf(s).Ok? ==> s == MembershipName(MembershipOf(s).value)
    ensures MembershipOf(s).Err? <==> s !in {"invite", "join", "leave", "ban"}
  {
    var t := MembershipTable;
    assert t[1..] == [("join", Join), ("leave", Leave), ("ban", Ban)];
    assert t[1..][1..] == [("leave", Leave), ("ban", Ban)];
    assert t[1..][1..][1..] == [("ban", Ban)];
    assert t[1..][1..][1..][1..] == [];
    var err: Result<Membership, EventError> := Err(Malformed("unrecognized membership value"));
    assert LookupMembership(t[1..][1..][1..], s) == if s == "ban" then Ok(Ban) else err;
    assert LookupMembership(t[1..][1..], s) == if s == "leave" then Ok(Leave) else LookupMembership(t[1..][1..][1..], s);
    assert LookupMembership(t[1..], s) == if s == "join" then Ok(Join) else LookupMembership(t[1..][1..], s);
    assert MembershipOf(s) ==
      if s == "invite" then Ok(Invite)
      else if s == "join" then Ok(Join)
      else if s == "leave" then Ok(Leave)
      else if s == "ban" then Ok(Ban)
      else Err(Malformed("unrecognized membership value"));
  }

  // ---------------------------------------------------------------------
  // Field checks (`check` and `EventInfo`)
  // ---------------------------------------------------------------------

  /** One expected field: the key looked up, the name reported, its type, whether required. */
  datatype FieldInfo = FieldInfo(realName: string, name: string, kind: Kind, required: bool)

  function Required(name: string, kind: Kind): FieldInfo {
    FieldInfo(name, name, kind, true)
  }

  /** A field that may be absent or null. */
  function Optional(realName: string, name: string, kind: Kind): FieldInfo {
    FieldInfo(realName, name, kind, false)
  }

  /** The field is acceptable: present with the right type (null is accepted when optional), or absent and optional. */
  predicate FieldOk(o: JsonObject, f: FieldInfo) {
    if f.realName in o then
      (!f.required && o[f.realName] == Null) || KindOf(o[f.realName]) == f.kind
    else
      !f.required
  }

  /** The error `check` throws for a field that is not acceptable. */
  function FieldError(o: JsonObject, f: FieldInfo): EventError {
    if f.realName in o then IllTypedField(f.name, f.kind, KindOf(o[f.realName]))
    else MissingField(f.name)
  }

  /** The outcome of `check`: None, or the error for the first bad field. */
  function CheckFields(o: JsonObject, fields: seq<FieldInfo>): Option<EventError> {
    if fields == [] then None
    else
      var f := fields[0];
      if f.realName in o then
        if (f.required || o[f.realName] != Null) && KindOf(o[f.realName]) != f.kind then
          Some(IllTypedField(f.name, f.kind, KindOf(o[f.realName])))
        else
          CheckFields(o, fields[1..])
      else if f.required then
        Some(MissingField(f.name))
      else
        CheckFields(o, fields[1..])
  }

  /** `check`: the loop over the expected fields. */
  method Check(o: JsonObject, fields: seq<FieldInfo>) returns (r: Option<EventError>)
    ensures r == CheckFields(o, fields)
  {
    var i := 0;
    while i < |fields|
      invariant 0 <= i <= |fields|
      invariant CheckFields(o, fields[i..]) == CheckFields(o, fields)
    {
      var f := fields[i];
      if f.realName in o {
        if (f.required || o[f.realName] != Null) && KindOf(o[f.realName]) != f.kind {
          return Some(IllTypedField(f.name, f.kind, KindOf(o[f.realName])));
        }
      } else if f.required {
        return Some(MissingField(f.name));
      }
      i := i + 1;
    }
    return None;
  }

  /** `check` passes exactly when every field is acceptable. */
  lemma {:induction false} CheckPassesIff(o: JsonObject, fields: seq<FieldInfo>)
    ensures CheckFields(o, fields).None? <==> forall i :: 0 <= i < |fields| ==> FieldOk(o, fields[i])
  {
    if fields != [] {
      CheckPassesIff(o, fields[1..]);
      assert forall i :: 1 <= i < |fields| ==> fields[i] == fields[1..][i - 1];
    }
  }

  /** When `check` fails, it reports the first unacceptable field, and how it is wrong. */
  lemma {:induction false} CheckReportsFirstBadField(o: JsonObject, fields: seq<FieldInfo>)
    requires CheckFields(o, fields).Some?
    ensures exists i :: (0 <= i < |fields| && (forall j :: 0 <= j < i ==> FieldOk(o, fields[j])) &&
                         !FieldOk(o, fields[i]) && CheckFields(o, fields).value == FieldError(o, fields[i]))
  {
    if FieldOk(o, fields[0]) {
      CheckReportsFirstBadField(o, fields[1..]);
      var i :| 0 <= i < |fields[1..]| && (forall j :: 0 <= j < i ==> FieldOk(o, fields[1..][j])) &&
        !FieldOk(o, fields[1..][i]) && CheckFields(o, fields[1..]).value == FieldError(o, fields[1..][i]);
      assert forall j :: 0 <= j < i + 1 ==> FieldOk(o, fields[j]) by {
        forall j | 0 <= j < i + 1 ensures FieldOk(o, fields[j]) {
          if j > 0 {
            assert fields[j] == fields[1..][j - 1];
          }
        }
      }
      assert fields[i + 1] == fields[1..][i];
    } else {
      assert CheckFields(o, fields).value == FieldError(o, fields[0]);
    }
  }

  // ---------------------------------------------------------------------
  // Events
  // ---------------------------------------------------------------------

  const MemberTag := "m.room.member"
  const NameTag := "m.room.name"
  const AliasesTag := "m.room.aliases"
  const CanonicalAliasTag := "m.room.canonical_alias"
  const TopicTag := "m.room.topic"
  const AvatarTag := "m.room.avatar"
  const CreateTag := "m.room.create"
  const JoinRulesTag := "m.room.join_rules"
  const PowerLevelsTag := "m.room.power_levels"
  const RedactionTag := "m.room.redaction"
  const MessageTag := "m.room.message"
  const ReceiptTag := "m.receipt"
  const TypingTag := "m.typing"
  const TextTag := "m.text"
  const EmoteTag := "m.emote"
  const NoticeTag := "m.notice"
  const FileTag := "m.file"
  const ImageTag := "m.image"
  const VideoTag := "m.video"
  const AudioTag := "m.audio"

  /** An event: its JSON object. Which constructors it has passed is a property of that object. */
  datatype Event = Event(json: JsonObject)

  function Type(e: Event): EventType {
    ID(GetString(e.json, "type"))
  }

  function Content(e: Event): JsonObject {
    GetObject(e.json, "content")
  }

  function Id(e: Event): EventID {
    ID(GetString(e.json, "event_id"))
  }

  function Sender(e: Event): UserID {
    ID(GetString(e.json, "sender"))
  }

  function OriginServerTs(e: Event): int {
    AsNumber(Get(e.json, "origin_server_ts"))
  }

  function StateKeyOf(e: Event): StateKey {
    ID(GetString(e.json, "state_key"))
  }

  /** The unsigned data, present when the object has an "unsigned" key. */
  function Unsigned(e: Event): Option<JsonObject> {
    if "unsigned" in e.json then Some(AsObject(e.json["unsigned"])) else None
  }

  /** `Event::redacted`: the unsigned data names the redaction that removed this event's content. */
  predicate Redacted(e: Event) {
    "unsigned" in e.json && "redacted_because" in AsObject(e.json["unsigned"])
  }

  /** `UnsignedData::redacted_because` */
  function RedactedBecause(e: Event): (r: Option<Event>)
    ensures r.Some? <==> Redacted(e)
  {
    if Redacted(e) then Some(Event(AsObject(AsObject(e.json["unsigned"])["redacted_because"]))) else None
  }

  /** `UnsignedData::age` */
  function Age(e: Event): (r: Option<int>)
    ensures r.Some? <==> Unsigned(e).Some? && "age" in Unsigned(e).value
  {
    match Unsigned(e)
    case None => None
    case Some(u) => if "age" in u then Some(AsNumber(u["age"])) else None
  }

  /** `UnsignedData::transaction_id`: the identifier the client chose when it sent this event. */
  function TransactionId(e: Event): (r: Option<TransactionID>)
    ensures r.Some? <==> Unsigned(e).Some? && "transaction_id" in Unsigned(e).value
    ensures r.Some? ==> r.value.value == AsString(Unsigned(e).value["transaction_id"])
  {
    match Unsigned(e)
    case None => None
    case Some(u) => if "transaction_id" in u then Some(ID(AsString(u["transaction_id"]))) else None
  }

  /** `State::prev_content`: absent without unsigned data, without the key, or when it is null. */
  function PrevContent(e: Event): (r: Option<JsonObject>)
    ensures r.Some? <==>
      "unsigned" in e.json && "prev_content" in AsObject(e.json["unsigned"]) &&
      AsObject(e.json["unsigned"])["prev_content"] != Null
    ensures r.Some? ==> r.value == AsObject(AsObject(e.json["unsigned"])["prev_content"])
  {
    match Unsigned(e)
    case None => None
    case Some(u) =>
      if "prev_content" !in u || u["prev_content"] == Null then None
      else Some(AsObject(u["prev_content"]))
  }

  /**
   * The accessor pattern of `NameContent::name`, `CanonicalAlias::alias`,
   * `prev_alias` and `RedactionContent::reason`: absent when the key is
   * missing, null, or its text is empty.
   */
  function NonEmptyString(o: JsonObject, key: string): (r: Option<string>)
    ensures r.Some? <==> key in o && o[key].Str? && o[key].s != ""
    ensures r.Some? ==> r.value == o[key].s && r.value != ""
  {
    if key !in o || o[key] == Null || AsString(o[key]) == "" then None
    else Some(AsString(o[key]))
  }

  // --- the constructor chain ---------------------------------------------

  const EventFields: seq<FieldInfo> :=
    [Required("content", ObjectKind), Required("type", StringKind), Optional("unsigned", "unsigned", ObjectKind)]

  const UnsignedFields: seq<FieldInfo> :=
    [Optional("age", "unsigned.age", DoubleKind),
     Optional("redacted_because", "unsigned.redacted_because", ObjectKind)]

  const IdentifiableFields: seq<FieldInfo> := [Required("event_id", StringKind)]
  const SenderFields: seq<FieldInfo> := [Required("sender", StringKind)]
  const RoomFields: seq<FieldInfo> :=
    [Required("origin_server_ts", DoubleKind), Optional("unsigned", "unsigned", ObjectKind)]
  const StateFields: seq<FieldInfo> := [Required("state_key", StringKind)]
  const RedactsFields: seq<FieldInfo> := [Required("redacts", StringKind)]
  const ReasonFields: seq<FieldInfo> := [Optional("reason", "content.reason", StringKind)]

  /**
   * `Event::Event` applied to `v.toObject()`: the top-level check, then the
   * unsigned data (whose redacted_because is itself parsed as a redaction).
   */
  function EventCheck(v: Json): Option<EventError>
    decreases v, 1
  {
    var o := AsObject(v);
    var c := CheckFields(o, EventFields);
    if c.Some? then c
    else if "unsigned" in o then UnsignedCheck(o["unsigned"])
    else None
  }

  /** `UnsignedData::UnsignedData` applied to `u.toObject()`. */
  function UnsignedCheck(u: Json): Option<EventError>
    decreases u, 0
  {
    var o := AsObject(u);
    var c := CheckFields(o, UnsignedFields);
    if c.Some? then c
    else if "redacted_because" in o then RedactionEventCheck(o["redacted_because"])
    else None
  }

  /** The constructors `Redaction(Room(Identifiable(Event(v.toObject()))))` in that order. */
  function RedactionEventCheck(v: Json): Option<EventError>
    decreases v, 2
  {
    var c := EventCheck(v);
    if c.Some? then c
    else
      var e := Event(AsObject(v));
      var c := IdentifiableCheck(e);
      if c.Some? then c
      else
        var c := RoomCheck(e);
        if c.Some? then c
        else RedactionCheck(e)
  }

  /** `Identifiable::Identifiable` beyond `Event::Event` */
  function IdentifiableCheck(e: Event): Option<EventError> {
    CheckFields(e.json, IdentifiableFields)
  }

  /** `Room::Room` beyond `Identifiable`: a redacted event need not carry a timestamp. */
  function RoomCheck(e: Event): Option<EventError> {
    var c := CheckFields(e.json, SenderFields);
    if c.Some? then c
    else if Redacted(e) then None
    else CheckFields(e.json, RoomFields)
  }

  /** `State::State` beyond `Room` */
  function StateCheck(e: Event): Option<EventError> {
    CheckFields(e.json, StateFields)
  }

  /** `Redaction::Redaction` beyond `Room`: a redacted redaction need not name its target. */
  function RedactionCheck(e: Event): Option<EventError> {
    if Redacted(e) then None
    else
      var c := CheckFields(e.json, RedactsFields);
      if c.Some? then c
      else CheckFields(Content(e), ReasonFields)
  }

  function AndThen(first: Option<EventError>, second: Option<EventError>): Option<EventError> {
    if first.Some? then first else second
  }

  /** `Event(o)` */
  function ParseEvent(o: JsonObject): (r: Result<Event, EventError>)
    ensures r.Ok? ==> r.value.json == o
    ensures r.Ok? ==> "content" in o && o["content"].Object? && "type" in o && o["type"].Str?
  {
    var c := EventCheck(Object(o));
    if c.Some? then Err(c.value)
    else
      CheckPassesIff(o, EventFields);
      assert FieldOk(o, EventFields[0]) && FieldOk(o, EventFields[1]);
      Ok(Event(o))
  }

  /** `Room(Identifiable(Event(o)))`: a room event, as the sync response carries them. */
  function ParseRoomEvent(o: JsonObject): (r: Result<Event, EventError>)
    ensures r.Ok? ==> r.value.json == o && IsRoomEvent(r.value)
  {
    match ParseEvent(o)
    case Err(err) => Err(err)
    case Ok(e) =>
      var c := AndThen(IdentifiableCheck(e), RoomCheck(e));
      if c.Some? then Err(c.value) else Ok(e)
  }

  /** The object has passed the constructors of a room event. */
  predicate IsRoomEvent(e: Event) {
    EventCheck(Object(e.json)).None? && IdentifiableCheck(e).None? && RoomCheck(e).None?
  }

  /** The object has passed the constructors of a state event. */
  predicate IsStateEvent(e: Event) {
    IsRoomEvent(e) && StateCheck(e).None?
  }

  /** `Room::to_state`: a room event is a state event exactly when it has a state key. */
  function ToState(e: Event): (r: Option<Event>)
    requires IsRoomEvent(e)
    requires "state_key" in e.json ==> e.json["state_key"].Str?
    ensures r.Some? <==> "state_key" in e.json
    ensures r.Some? ==> r.value == e && IsStateEvent(r.value)
  {
    CheckPassesIff(e.json, StateFields);
    if "state_key" in e.json then Some(e) else None
  }

  /** `Redaction(e)` for a room event */
  function ParseRedaction(e: Event): (r: Result<Event, EventError>)
    ensures r.Ok? ==> r.value == e
    ensures !Redacted(e) && r.Ok? ==> "redacts" in e.json && e.json["redacts"].Str?
  {
    var c := RedactionCheck(e);
    if c.Some? then Err(c.value)
    else
      CheckPassesIff(e.json, RedactsFields);
      assert !Redacted(e) ==> FieldOk(e.json, RedactsFields[0]);
      Ok(e)
  }

  /** `Redaction::redacts` */
  function Redacts(e: Event): EventID {
    ID(GetString(e.json, "redacts"))
  }

  /** `Redaction::content().reason()` */
  function Reason(e: Event): Option<string> {
    NonEmptyString(Content(e), "reason")
  }

  /** A redacted event is a room event without `origin_server_ts`: the check is skipped. */
  lemma RedactedRoomEventNeedsNoTimestamp(e: Event)
    requires Redacted(e) && "sender" in e.json && e.json["sender"].Str?
    ensures RoomCheck(e) == None
  {
    CheckPassesIff(e.json, SenderFields);
  }

  /** An event that is not redacted and lacks a timestamp is refused, naming the field. */
  lemma UnredactedRoomEventNeedsTimestamp(e: Event)
    requires !Redacted(e) && "sender" in e.json && e.json["sender"].Str?
    requires "origin_server_ts" !in e.json
    ensures RoomCheck(e) == Some(MissingField("origin_server_ts"))
  {
    CheckPassesIff(e.json, SenderFields);
  }

  /** A redacted redaction need not say what it redacts. */
  lemma RedactedRedactionNeedsNoTarget(e: Event)
    requires Redacted(e)
    ensures ParseRedaction(e) == Ok(e)
  {
  }

  // --- member events -------------------------------------------------------

  /** `MemberContent`: the content object and what the constructor extracted from it. */
  datatype MemberContent = MemberContent(
    json: JsonObject,
    membership: Membership,
    avatarUrl: Option<string>,
    displayname: Option<string>)

  const MemberContentFields: seq<FieldInfo> :=
    [FieldInfo("membership", "content.membership", StringKind, true),
     Optional("avatar_url", "content.avatar_url", StringKind),
     Optional("displayname", "content.displayname", StringKind)]

  /** `MemberContent(Content)`: validated fields; empty display names and avatars count as absent. */
  function ParseMemberContent(c: JsonObject): (r: Result<MemberContent, EventError>)
    ensures r.Ok? ==> (r.value.json == c && "membership" in c && c["membership"].Str? &&
                       MembershipOf(c["membership"].s) == Ok(r.value.membership))
    ensures r.Ok? ==> r.value.displayname == NonEmptyString(c, "displayname")
    ensures r.Ok? ==> r.value.avatarUrl == NonEmptyString(c, "avatar_url")
  {
    var k := CheckFields(c, MemberContentFields);
    if k.Some? then Err(k.value)
    else
      CheckPassesIff(c, MemberContentFields);
      assert FieldOk(c, MemberContentFields[0]);
      match MembershipOf(GetString(c, "membership"))
      case Err(err) => Err(err)
      case Ok(m) => Ok(MemberContent(c, m, NonEmptyString(c, "avatar_url"), NonEmptyString(c, "displayname")))
  }

  /** The content object `MemberContent(membership, displayname, avatar_url)` builds. */
  function MemberContentJson(m: Membership, displayname: Option<string>, avatarUrl: Option<string>): JsonObject {
    map[
      "membership" := Str(MembershipName(m)),
      "displayname" := if displayname.Some? then Str(displayname.value) else Null,
      "avatar_url" := if avatarUrl.Some? then Str(avatarUrl.value) else Null
    ]
  }

  /** `MemberContent(membership, displayname, avatar_url)` */
  function MakeMemberContent(m: Membership, displayname: Option<string>, avatarUrl: Option<string>): MemberContent {
    MemberContent(MemberContentJson(m, displayname, avatarUrl), m, avatarUrl, displayname)
  }

  /**
   * Content built from fields parses back to the same fields, except that an
   * empty display name or avatar comes back absent.
   */
  lemma MemberContentRoundTrip(m: Membership, displayname: Option<string>, avatarUrl: Option<string>)
    ensures ParseMemberContent(MemberContentJson(m, displayname, avatarUrl)).Ok?
    ensures var r := ParseMemberContent(MemberContentJson(m, displayname, avatarUrl)).value;
      r.membership == m &&
      r.displayname == (if displayname == Some("") then None else displayname) &&
      r.avatarUrl == (if avatarUrl == Some("") then None else avatarUrl)
  {
    var c := MemberContentJson(m, displayname, avatarUrl);
    CheckPassesIff(c, MemberContentFields);
    MembershipRoundTrip(m);
  }

  /** `MemberContent::leave` */
  const LeaveContent: MemberContent := MemberContent(map["membership" := Str("leave")], Leave, None, None)

  lemma LeaveContentParses()
    ensures ParseMemberContent(map["membership" := Str("leave")]) == Ok(LeaveContent)
  {
    var c := map["membership" := Str("leave")];
    CheckPassesIff(c, MemberContentFields);
  }

  /** `event::room::Member`: a state event with parsed content and previous content. */
  datatype MemberEvent = MemberEvent(event: Event, content: MemberContent, prevContent: Option<MemberContent>)

  /** `Member(State)`: content first, then the type, then the previous content when there is one. */
  function ParseMember(e: Event): (r: Result<MemberEvent, EventError>)
    ensures r.Ok? ==> r.value.event == e && Type(e).value == MemberTag
    ensures r.Ok? ==> ParseMemberContent(Content(e)) == Ok(r.value.content)
    ensures r.Ok? ==> (r.value.prevContent.Some? <==> PrevContent(e).Some?)
  {
    match ParseMemberContent(Content(e))
    case Err(err) => Err(err)
    case Ok(content) =>
      if Type(e).value != MemberTag then Err(TypeMismatch)
      else
        match PrevContent(e)
        case None => Ok(MemberEvent(e, content, None))
        case Some(p) =>
          match ParseMemberContent(p)
          case Err(err) => Err(err)
          case Ok(prev) => Ok(MemberEvent(e, content, Some(prev)))
  }

  /** `Member::user`: the user whose membership the event sets. */
  function MemberUser(m: MemberEvent): UserID {
    UserFromStateKey(StateKeyOf(m.event))
  }

  // --- the other state events ----------------------------------------------

  /** `Aliases(State)` */
  function AliasesCheck(e: Event): Option<EventError> {
    CheckFields(Content(e), [FieldInfo("aliases", "content.aliases", ArrayKind, true)])
  }

  /** `Aliases::aliases`: the array's entries as text. */
  function AliasList(e: Event): seq<string> {
    var a := AsArray(Get(Content(e), "aliases"));
    seq(|a|, i requires 0 <= i < |a| => AsString(a[i]))
  }

  /** `Topic(State)`: a redacted topic event need not carry a topic. */
  function TopicCheck(e: Event): Option<EventError> {
    if Redacted(e) then None
    else CheckFields(Content(e), [FieldInfo("topic", "content.topic", StringKind, true)])
  }

  /** `Avatar(State)`: a redacted avatar event need not carry a URL. */
  function AvatarCheck(e: Event): Option<EventError> {
    if Redacted(e) then None
    else CheckFields(Content(e), [FieldInfo("url", "content.url", StringKind, true)])
  }

  /** `Create(State)`: the creator must be text (the error names the field "content.create"). */
  function CreateCheck(e: Event): Option<EventError> {
    CheckFields(Content(e), [FieldInfo("creator", "content.create", StringKind, true)])
  }

  /** `Name::content().name()` */
  function RoomNameOf(content: JsonObject): Option<string> {
    NonEmptyString(content, "name")
  }

  /** `CanonicalAlias::alias` */
  function CanonicalAliasOf(e: Event): Option<string> {
    NonEmptyString(Content(e), "alias")
  }

  /** `CanonicalAlias::prev_alias` */
  function PrevCanonicalAlias(e: Event): Option<string> {
    match PrevContent(e)
    case None => None
    case Some(p) => NonEmptyString(p, "alias")
  }

  /** `Topic::topic` */
  function TopicOf(e: Event): string {
    GetString(Content(e), "topic")
  }

  /** `Topic::prev_topic` */
  function PrevTopic(e: Event): Option<string> {
    match PrevContent(e)
    case None => None
    case Some(p) => Some(GetString(p, "topic"))
  }

  /** `Avatar::avatar` */
  function AvatarOf(e: Event): string {
    GetString(Content(e), "url")
  }

  /** `Avatar::prev_avatar` */
  function PrevAvatar(e: Event): Option<string> {
    match PrevContent(e)
    case None => None
    case Some(p) => Some(GetString(p, "url"))
  }

  /** `Create::creator` */
  function Creator(e: Event): UserID {
    ID(GetString(Content(e), "creator"))
  }

  // --- messages -------------------------------------------------------------

  const MessageContentFields: seq<FieldInfo> :=
    [FieldInfo("msgtype", "content.msgtype", StringKind, true),
     FieldInfo("body", "content.body", StringKind, true)]

  /** `MessageContent(Content)` */
  function MessageContentCheck(c: JsonObject): Option<EventError> {
    CheckFields(c, MessageContentFields)
  }

  /** `MessageContent::type` */
  function MsgType(c: JsonObject): MessageType {
    ID(GetString(c, "msgtype"))
  }

  /** `Message(Room)`: the content of a redacted message is not checked. */
  function MessageCheck(e: Event): (r: Option<EventError>)
    ensures Type(e).value != MessageTag ==> r == Some(TypeMismatch)
    ensures Type(e).value == MessageTag && Redacted(e) ==> r == None
  {
    if Type(e).value != MessageTag then Some(TypeMismatch)
    else if Redacted(e) then None
    else MessageContentCheck(Content(e))
  }

  /** The constructors `Text`, `Emote`, `Notice`: the message type must be the tag. */
  function MessageKindCheck(c: JsonObject, tag: string): Option<EventError> {
    if MsgType(c).value != tag then Some(TypeMismatch) else None
  }

  /** `FileLike(MessageContent)`: a URL, and a well-typed info object when there is one. */
  function FileLikeCheck(c: JsonObject): Option<EventError> {
    var k := CheckFields(c, [Required("url", StringKind)]);
    if k.Some? then k
    else if "info" !in c || c["info"] == Null then None
    else
      var i := AsObject(c["info"]);
      if "mimetype" in i && !i["mimetype"].Str? && i["mimetype"] != Null then
        Some(IllTypedField("info.mimetype", StringKind, KindOf(i["mimetype"])))
      else if "size" in i && !i["size"].Number? && i["size"] != Null then
        Some(IllTypedField("info.size", DoubleKind, KindOf(i["size"])))
      else None
  }

  /** `File(FileLike)`: the message type, then the file name. */
  function FileCheck(c: JsonObject): Option<EventError> {
    if MsgType(c).value != FileTag then Some(TypeMismatch)
    else CheckFields(c, [Required("filename", StringKind)])
  }

  /** `FileLike::mimetype`: present unless missing or null. */
  function Mimetype(c: JsonObject): (r: Option<string>)
    ensures var i := GetObject(c, "info"); r.Some? <==> "mimetype" in i && i["mimetype"] != Null
  {
    var i := GetObject(c, "info");
    if "mimetype" in i && i["mimetype"] != Null then Some(AsString(i["mimetype"])) else None
  }

  /** `FileLike::size`: present unless missing or null. */
  function FileSize(c: JsonObject): (r: Option<int>)
    ensures var i := GetObject(c, "info"); r.Some? <==> "size" in i && i["size"] != Null
  {
    var i := GetObject(c, "info");
    if "size" in i && i["size"] != Null then Some(AsNumber(i["size"])) else None
  }

  /** A well-formed file-like message with an info object reports exactly the info's typed values. */
  lemma FileInfoAccessors(c: JsonObject)
    requires FileLikeCheck(c).None?
    requires "info" in c && c["info"].Object?
    ensures var i := c["info"].fields;
      ("mimetype" in i && i["mimetype"].Str? ==> Mimetype(c) == Some(i["mimetype"].s)) &&
      ("size" in i && i["size"].Number? ==> FileSize(c) == Some(i["size"].n)) &&
      (Mimetype(c).Some? ==> i["mimetype"].Str?) &&
      (FileSize(c).Some? ==> i["size"].Number?)
  {
  }

  // --- ephemeral events -------------------------------------------------------

  /** `Receipt(Event)` */
  function ReceiptCheck(e: Event): Option<EventError> {
    if Type(e).value != ReceiptTag then Some(TypeMismatch) else None
  }

  /** `Typing(Event)` */
  function TypingCheck(e: Event): Option<EventError> {
    if Type(e).value != TypingTag then Some(TypeMismatch)
    else CheckFields(Content(e), [FieldInfo("user_ids", "content.user_ids", ArrayKind, true)])
  }

  /** `Typing::user_ids`: one user per array entry, in order; entries that are not text become "". */
  method TypingUserIds(e: Event) returns (r: seq<UserID>)
    ensures |r| == |AsArray(Get(Content(e), "user_ids"))|
    ensures forall i :: 0 <= i < |r| ==> r[i].value == AsString(AsArray(Get(Content(e), "user_ids"))[i])
  {
    var ids := AsArray(Get(Content(e), "user_ids"));
    r := [];
    var i := 0;
    while i < |ids|
      invariant 0 <= i <= |ids|
      invariant |r| == i
      invariant forall j :: 0 <= j < i ==> r[j].value == AsString(ids[j])
    {
      r := r + [ID(AsString(ids[i]))];
      i := i + 1;
    }
  }
}
