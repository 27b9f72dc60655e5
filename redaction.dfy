/**
 * Event redaction (`Event::redact` and `Member::redact`, src/matrix/Event.cpp),
 * following the redaction algorithm of section 6.5 of the Matrix
 * Client-Server API r0: every top-level key outside a fixed list is erased,
 * the content of a few event types keeps only the keys that give the event
 * its effect, and the unsigned data is replaced by a record of the redaction.
 */
module Redactions {
  import opened Wrappers
  import opened Json
  import opened Ids
  import opened Events

  /** The top-level keys a redaction preserves. */
  const PreservedKeys: set<string> :=
    {"event_id", "type", "room_id", "sender", "state_key", "prev_content", "content"}

  const PowerLevelsKeys: set<string> :=
    {"ban", "events", "events_default", "kick", "redact", "state_default", "users", "users_default"}

  /** The content keys kept for an event type that has a content rule. */
  function ContentRule(t: string): Option<set<string>> {
    if t == MemberTag then Some({"membership"})
    else if t == CreateTag then Some({"creator"})
    else if t == JoinRulesTag then Some({"join_rule"})
    else if t == PowerLevelsTag then Some(PowerLevelsKeys)
    else if t == AliasesTag then Some({"aliases"})
    else None
  }

  /** The entries of `o` whose keys are listed. */
  function Restrict(o: JsonObject, keys: set<string>): JsonObject {
    map k | k in o && k in keys :: o[k]
  }

  /** The unsigned data a redaction installs. */
  function RedactedUnsigned(because: JsonObject): Json {
    Object(map["redacted_because" := Object(because)])
  }

  /** The object `Event::redact` leaves behind. */
  function RedactedJson(json: JsonObject, because: JsonObject): JsonObject {
    var kept := Restrict(json, PreservedKeys);
    var withContent :=
      match ContentRule(GetString(kept, "type"))
      case None => kept
      case Some(keys) => kept["content" := Object(Restrict(GetObject(kept, "content"), keys))];
    withContent["unsigned" := RedactedUnsigned(because)]
  }

  /** The erase loop: walk the object and erase every entry whose key is not listed. */
  method KeepOnly(o: JsonObject, keys: set<string>) returns (r: JsonObject)
    ensures r == Restrict(o, keys)
  {
    r := o;
    var todo := o.Keys;
    while todo != {}
      invariant todo <= o.Keys
      invariant r == map k | k in o && (k in todo || k in keys) :: o[k]
      decreases todo
    {
      var k :| k in todo;
      if k !in keys {
        r := r - {k};
      }
      todo := todo - {k};
    }
  }

  /** `Event::redact`: the result is the redacted object. */
  method Redact(e: Event, because: Event) returns (r: Event)
    ensures r.json == RedactedJson(e.json, because.json)
  {
    var json := KeepOnly(e.json, PreservedKeys);
    var rule := ContentRule(GetString(json, "type"));
    if rule.Some? {
      var content := GetObject(json, "content");
      json := json - {"content"};
      content := KeepOnly(content, rule.value);
      json := json["content" := Object(content)];
    }
    json := json["unsigned" := RedactedUnsigned(because.json)];
    r := Event(json);
  }

  /** Only preserved keys and the new unsigned data remain, and the event now counts as redacted by `because`. */
  lemma RedactedShape(json: JsonObject, because: JsonObject)
    ensures var r := RedactedJson(json, because);
      r.Keys <= PreservedKeys + {"unsigned"} &&
      r["unsigned"] == RedactedUnsigned(because) &&
      Redacted(Event(r)) && RedactedBecause(Event(r)) == Some(Event(because))
  {
  }

  /** Preserved keys other than the content keep their presence and their values. */
  lemma RedactionKeepsPreservedKeys(json: JsonObject, because: JsonObject, k: string)
    requires k in PreservedKeys - {"content"}
    ensures var r := RedactedJson(json, because);
      (k in r <==> k in json) && (k in json ==> r[k] == json[k])
  {
  }

  /**
   * For event types with a content rule the content keeps exactly the
   * rule's keys (and is present even when the event had none); for every
   * other type the content is untouched.
   */
  lemma RedactionContent(json: JsonObject, because: JsonObject)
    ensures var r := RedactedJson(json, because);
      match ContentRule(GetString(json, "type"))
      case Some(keys) =>
        r["content"] == Object(Restrict(GetObject(json, "content"), keys))
      case None =>
        ("content" in r <==> "content" in json) && ("content" in json ==> r["content"] == json["content"])
  {
    var kept := Restrict(json, PreservedKeys);
    assert GetString(kept, "type") == GetString(json, "type");
    assert GetObject(kept, "content") == GetObject(json, "content");
  }

  /** Redacting again, by any redaction, gives what redacting once by that redaction gives. */
  lemma RedactionIdempotent(json: JsonObject, first: JsonObject, second: JsonObject)
    ensures RedactedJson(RedactedJson(json, first), second) == RedactedJson(json, second)
  {
    var once := RedactedJson(json, first);
    var kept := Restrict(json, PreservedKeys);
    var kept2 := Restrict(once, PreservedKeys);
    assert GetString(kept, "type") == GetString(json, "type");
    assert GetString(kept2, "type") == GetString(json, "type");
    match ContentRule(GetString(json, "type"))
    case None =>
      assert kept2 == kept;
    case Some(keys) =>
      var c := Restrict(GetObject(kept, "content"), keys);
      assert kept2 == kept["content" := Object(c)];
      assert GetObject(kept2, "content") == c;
      assert Restrict(c, keys) == c;
  }

  /** The redacted object of a valid room event, redacted by a valid redaction, is again a valid room event. */
  lemma RedactionKeepsRoomEvent(json: JsonObject, because: JsonObject)
    requires IsRoomEvent(Event(json))
    requires RedactionEventCheck(Object(because)) == None
    ensures IsRoomEvent(Event(RedactedJson(json, because)))
    ensures StateCheck(Event(json)) == None ==> StateCheck(Event(RedactedJson(json, because))) == None
  {
    var r := RedactedJson(json, because);
    CheckPassesIff(json, EventFields);
    CheckPassesIff(json, IdentifiableFields);
    CheckPassesIff(json, SenderFields);
    CheckPassesIff(json, StateFields);
    assert FieldOk(json, EventFields[0]) && FieldOk(json, EventFields[1]);
    assert FieldOk(json, IdentifiableFields[0]) && FieldOk(json, SenderFields[0]);
    RedactionContent(json, because);
    assert "content" in r && r["content"].Object?;
    CheckPassesIff(r, EventFields);
    var u := AsObject(r["unsigned"]);
    CheckPassesIff(u, UnsignedFields);
    assert UnsignedCheck(r["unsigned"]) == None;
    assert EventCheck(Object(r)) == None;
    CheckPassesIff(r, IdentifiableFields);
    CheckPassesIff(r, SenderFields);
    CheckPassesIff(r, StateFields);
  }

  /**
   * `Member::redact`: the event is redacted and its content parsed again;
   * the previously parsed previous content is kept as it was.
   */
  method RedactMember(m: MemberEvent, because: Event) returns (r: MemberEvent)
    requires ParseMember(m.event) == Ok(m)
    ensures r.event.json == RedactedJson(m.event.json, because.json)
    ensures r.content == MemberContent(Content(r.event), m.content.membership, None, None)
    ensures r.prevContent == m.prevContent
  {
    var e := Redact(m.event, because);
    var c := ParseMemberContent(Content(e));
    MemberRedactionKeepsMembership(m, because.json);
    r := MemberEvent(e, c.value, m.prevContent);
  }

  /** A redacted member event keeps its membership and loses its display name and avatar. */
  lemma MemberRedactionKeepsMembership(m: MemberEvent, because: JsonObject)
    requires ParseMember(m.event) == Ok(m)
    ensures var c := Content(Event(RedactedJson(m.event.json, because)));
      c == map["membership" := Str(MembershipName(m.content.membership))] &&
      ParseMemberContent(c) == Ok(MemberContent(c, m.content.membership, None, None))
  {
    var json := m.event.json;
    RedactionContent(json, because);
    var c := Content(Event(RedactedJson(json, because)));
    var old_c := Content(m.event);
    assert ContentRule(GetString(json, "type")) == Some({"membership"});
    assert c == Restrict(old_c, {"membership"});
    MembershipOnlyNames(old_c["membership"].s);
    assert c == map["membership" := Str(MembershipName(m.content.membership))];
    CheckPassesIff(c, MemberContentFields);
  }
}
