/**
 * `RoomState` (src/matrix/Room.cpp) as an object whose fields are updated in
 * place, step by step as the C++ does. Each method is proved to leave the
 * fields equal to the value the matching function of module RoomStateSpec
 * computes from the old fields, and to keep the display-name index valid.
 */
module RoomStates {
  import opened Wrappers
  import opened Json
  import opened Ids
  import opened Events
  import opened RoomStateSpec

  class RoomState {
    var name: Option<string>
    var canonicalAlias: Option<string>
    var topic: Option<string>
    var aliases: seq<string>
    var avatar: string
    var membersById: map<UserID, MemberContent>
    var membersByDisplayname: map<string, seq<UserID>>
    var departed: Option<UserID>
    /** Unicode NFC normalisation, used to key the display-name index. */
    const nfc: Normalizer

    /** The fields as one value. */
    function Snapshot(): Snapshot
      reads this
    {
      RoomStateSpec.Snapshot(name, canonicalAlias, topic, aliases, avatar, membersById, membersByDisplayname, departed)
    }

    ghost predicate Valid()
      reads this
    {
      IndexValid(Snapshot(), nfc)
    }

    /** `RoomState()`: no name, alias, topic, avatar or members. */
    constructor (normalize: Normalizer)
      ensures Snapshot() == EmptySnapshot && nfc == normalize
      ensures Valid()
    {
      name := None;
      canonicalAlias := None;
      topic := None;
      aliases := [];
      avatar := "";
      membersById := map[];
      membersByDisplayname := map[];
      departed := None;
      nfc := normalize;
      new;
      EmptySnapshotValid(normalize);
    }

    /** The copy `initial_state_ = state_` makes. */
    constructor Copy(other: RoomState)
      ensures Snapshot() == other.Snapshot() && nfc == other.nfc
    {
      name := other.name;
      canonicalAlias := other.canonicalAlias;
      topic := other.topic;
      aliases := other.aliases;
      avatar := other.avatar;
      membersById := other.membersById;
      membersByDisplayname := other.membersByDisplayname;
      departed := other.departed;
      nfc := other.nfc;
    }

    /** `pretty_name(own_id)` */
    function PrettyName(ownId: UserID): string
      reads this
    {
      RoomName(Snapshot(), nfc, ownId)
    }

    /** `record_displayname` */
    method RecordDisplayname(id: UserID, displayname: string, notify: bool) returns (signals: seq<RoomSignal>)
      requires nfc(displayname) in membersByDisplayname ==> id !in membersByDisplayname[nfc(displayname)]
      modifies this
      ensures Snapshot() == Record(old(Snapshot()), nfc, id, displayname, notify).state
      ensures signals == Record(old(Snapshot()), nfc, id, displayname, notify).signals
    {
      var normalized := nfc(displayname);
      var vec := if normalized in membersByDisplayname then membersByDisplayname[normalized] else [];
      vec := vec + [id];
      membersByDisplayname := membersByDisplayname[normalized := vec];
      signals := [];
      if notify {
        var other: Option<UserID> := None;
        var existingDisplayname := |vec| == 2;
        var existingMxid := ID(normalized) in membersById;
        if !existingDisplayname || !existingMxid {
          if existingDisplayname {
            other := Some(vec[0]);
          }
          if existingMxid {
            other := Some(ID(normalized));
          }
        }
        if other.Some? {
          signals := [MemberDisambiguationChanged(other.value, Some(""))];
        }
      }
    }

    /** `forget_displayname` */
    method ForgetDisplayname(id: UserID, oldName: string, notify: bool) returns (signals: seq<RoomSignal>)
      requires nfc(oldName) in membersByDisplayname
      requires var l := membersByDisplayname[nfc(oldName)]; id in l && NoDup(l)
      requires forall x :: x in membersByDisplayname[nfc(oldName)] ==> x in membersById
      modifies this
      ensures Snapshot() == Forget(old(Snapshot()), nfc, id, oldName, notify).state
      ensures signals == Forget(old(Snapshot()), nfc, id, oldName, notify).signals
    {
      var normalized := nfc(oldName);
      var vec := membersByDisplayname[normalized];
      var other: Option<UserID> := None;
      var existingDisplayname := |vec| == 2;
      var existingMxid := ID(normalized) in membersById;
      if notify && (!existingDisplayname || !existingMxid) {
        if existingDisplayname {
          other := Some(if vec[0] == id then vec[1] else vec[0]);
        }
        if existingMxid {
          other := Some(ID(normalized));
        }
      }
      var otherDisambiguation: Option<string> := None;
      if other.Some? {
        otherDisambiguation := Disambiguation(Snapshot(), nfc, other.value, membersById[other.value]);
      }
      vec := RemoveAll(vec, id);
      if vec == [] {
        membersByDisplayname := membersByDisplayname - {normalized};
      } else {
        membersByDisplayname := membersByDisplayname[normalized := vec];
      }
      signals := [];
      if other.Some? {
        signals := [MemberDisambiguationChanged(other.value, otherDisambiguation)];
      }
    }

    /** The shared re-indexing block of `update_membership`: forget the old name, record the new one. */
    method Reindex(id: UserID, oldDisplayname: Option<string>, content: MemberContent, notify: bool, ghost s: Snapshot)
      returns (signals: seq<RoomSignal>)
      requires IndexValid(s, nfc) && oldDisplayname == PriorContent(s, id).displayname
      requires Snapshot() == s.(membersById := s.membersById[id := content])
      modifies this
      ensures Snapshot() == Renamed(s, nfc, id, content, notify).state
      ensures signals == Renamed(s, nfc, id, content, notify).signals
    {
      ReindexAllowed(s, nfc, id, content);
      signals := [];
      if oldDisplayname.Some? {
        signals := ForgetDisplayname(id, oldDisplayname.value, notify);
      }
      assert Snapshot() == Unnamed(s, nfc, id, content, notify).state;
      if content.displayname.Some? {
        var recorded := RecordDisplayname(id, content.displayname.value, notify);
        signals := signals + recorded;
      }
    }

    /** `update_membership`; with a room, the signals and the member-database write are returned. */
    method UpdateMembership(id: UserID, content: MemberContent, room: Option<RoomID>)
      returns (signals: seq<RoomSignal>, write: Option<MemberWrite>)
      requires Valid()
      modifies this
      ensures Snapshot() == RoomStateSpec.UpdateMembership(old(Snapshot()), nfc, id, content, room).state
      ensures signals == RoomStateSpec.UpdateMembership(old(Snapshot()), nfc, id, content, room).signals
      ensures write == RoomStateSpec.UpdateMembership(old(Snapshot()), nfc, id, content, room).write
      ensures Valid()
    {
      UpdatePreservesIndex(Snapshot(), nfc, id, content, room);
      match content.membership
      case Invite | Join =>
        signals, write := JoinOrInvite(id, content, room);
      case Leave | Ban =>
        signals, write := LeaveOrBan(id, content, room);
    }

    /** The join and invite branch of `update_membership`. */
    method JoinOrInvite(id: UserID, content: MemberContent, room: Option<RoomID>)
      returns (signals: seq<RoomSignal>, write: Option<MemberWrite>)
      requires Valid()
      modifies this
      ensures Update(Snapshot(), signals, write) == Joined(old(Snapshot()), nfc, id, content, room)
    {
      ghost var s := Snapshot();
      var notify := room.Some?;
      signals := [];
      if id !in membersById {
        membersById := membersById[id := LeaveContent];
      }
      var prior := membersById[id];
      assert prior == PriorContent(s, id);
      assert Snapshot() == s.(membersById := s.membersById[id := prior]);
      var oldMemberName := MemberName(Snapshot(), nfc, id, prior);
      membersById := membersById[id := content];
      assert Snapshot() == s.(membersById := s.membersById[id := content]);
      if content.displayname != prior.displayname {
        signals := Reindex(id, prior.displayname, content, notify, s);
        if notify && MembershipDisplayable(prior.membership) {
          signals := signals + [MemberNameChanged(id, oldMemberName)];
        }
      }
      if notify && content.membership != prior.membership {
        signals := signals + [MembershipChanged(id, prior.membership)];
      }
      write := if notify then Some(Put(id, content.json)) else None;
    }

    /** The leave and ban branch of `update_membership`. */
    method LeaveOrBan(id: UserID, content: MemberContent, room: Option<RoomID>)
      returns (signals: seq<RoomSignal>, write: Option<MemberWrite>)
      requires Valid()
      modifies this
      ensures Update(Snapshot(), signals, write) == Parted(old(Snapshot()), nfc, id, content, room)
    {
      ghost var s := Snapshot();
      var notify := room.Some?;
      signals := [];
      if notify && id == room.value {
        signals := [Left(content.membership)];
      }
      if id in membersById {
        var prior := membersById[id];
        membersById := membersById[id := content];
        if content.displayname != prior.displayname {
          var renamed := Reindex(id, prior.displayname, content, notify, s);
          signals := signals + renamed;
        }
        if notify {
          signals := signals + [MembershipChanged(id, prior.membership)];
        }
        departed := Some(id);
      }
      write := if notify then Some(Delete(id)) else None;
    }

    /** `prune_departed` */
    method PruneDeparted(notify: bool) returns (signals: seq<RoomSignal>)
      requires Valid()
      modifies this
      ensures Snapshot() == Prune(old(Snapshot()), nfc, notify).state
      ensures signals == Prune(old(Snapshot()), nfc, notify).signals
      ensures Valid()
    {
      PrunePreservesIndex(Snapshot(), nfc, notify);
      signals := [];
      if departed.Some? {
        var d := departed.value;
        var dn := membersById[d].displayname;
        if dn.Some? {
          assert MemberIndexed(Snapshot(), nfc, d);
          assert ListValid(Snapshot(), nfc, nfc(dn.value));
          signals := ForgetDisplayname(d, dn.value, notify);
        }
        membersById := membersById - {d};
        departed := None;
      }
    }

    /**
     * `dispatch`: apply one state event. A malformed event is reported and
     * leaves every field as it was.
     */
    method Dispatch(e: Event, room: Option<RoomID>) returns (r: Result<Dispatched, EventError>)
      requires Valid()
      modifies this
      ensures r.Ok? <==> RoomStateSpec.Dispatch(old(Snapshot()), nfc, e, room).Ok?
      ensures r.Ok? ==> r.value == RoomStateSpec.Dispatch(old(Snapshot()), nfc, e, room).value && Snapshot() == r.value.state
      ensures r.Err? ==> r == RoomStateSpec.Dispatch(old(Snapshot()), nfc, e, room) && Snapshot() == old(Snapshot())
      ensures Valid()
    {
      ghost var s := Snapshot();
      var notify := room.Some?;
      var t := Type(e).value;
      if t == AliasesTag {
        var err := AliasesCheck(e);
        if err.Some? {
          return Err(err.value);
        }
        aliases := MergeAliases(aliases, AliasList(e));
        r := Ok(Dispatched(true, Snapshot(), if notify then [AliasesChanged] else [], None));
      } else if t == CanonicalAliasTag {
        var previous := canonicalAlias;
        canonicalAlias := CanonicalAliasOf(e);
        r := Ok(Dispatched(true, Snapshot(), if notify && canonicalAlias != previous then [CanonicalAliasChanged] else [], None));
      } else if t == NameTag {
        var previous := name;
        name := RoomNameOf(Content(e));
        r := Ok(Dispatched(true, Snapshot(), if notify && name != previous then [NameChanged] else [], None));
      } else if t == TopicTag {
        var err := TopicCheck(e);
        if err.Some? {
          return Err(err.value);
        }
        var previous := topic;
        topic := Some(TopicOf(e));
        r := Ok(Dispatched(true, Snapshot(), if notify && topic != previous then [TopicChanged(previous)] else [], None));
      } else if t == AvatarTag {
        var err := AvatarCheck(e);
        if err.Some? {
          return Err(err.value);
        }
        var previous := avatar;
        avatar := AvatarOf(e);
        r := Ok(Dispatched(true, Snapshot(), if notify && avatar != previous then [AvatarChanged] else [], None));
      } else if t == CreateTag {
        r := Ok(Dispatched(false, Snapshot(), [], None));
      } else if t == MemberTag {
        var member := ParseMember(e);
        if member.Err? {
          return Err(member.error);
        }
        var signals, write := UpdateMembership(MemberUser(member.value), member.value.content, room);
        r := Ok(Dispatched(true, Snapshot(), signals, write));
      } else {
        r := Ok(Dispatched(false, Snapshot(), [], None));
      }
      if r.Ok? {
        DispatchPreservesIndex(s, nfc, e, room);
      }
    }

    /** `apply`: `dispatch` without a room. */
    method Apply(e: Event) returns (r: Option<EventError>)
      requires Valid()
      modifies this
      ensures r.None? <==> RoomStateSpec.Apply(old(Snapshot()), nfc, e).Ok?
      ensures r.None? ==> Snapshot() == RoomStateSpec.Apply(old(Snapshot()), nfc, e).value
      ensures r.Some? ==> Snapshot() == old(Snapshot()) && RoomStateSpec.Apply(old(Snapshot()), nfc, e) == Err(r.value)
      ensures Valid()
    {
      var d := Dispatch(e, None);
      r := if d.Err? then Some(d.error) else None;
    }

    /** `revert`: undo one state event. A malformed event is reported and leaves every field as it was. */
    method Revert(e: Event) returns (r: Option<EventError>)
      requires Valid()
      modifies this
      ensures r.None? <==> RoomStateSpec.Revert(old(Snapshot()), nfc, e).Ok?
      ensures r.None? ==> Snapshot() == RoomStateSpec.Revert(old(Snapshot()), nfc, e).value
      ensures r.Some? ==> Snapshot() == old(Snapshot()) && RoomStateSpec.Revert(old(Snapshot()), nfc, e) == Err(r.value)
      ensures Valid()
    {
      ghost var s := Snapshot();
      var t := Type(e).value;
      r := None;
      if t == CanonicalAliasTag {
        canonicalAlias := PrevCanonicalAlias(e);
      } else if t == NameTag {
        var c := PrevContent(e);
        if c.Some? {
          name := RoomNameOf(c.value);
        } else {
          name := None;
        }
      } else if t == TopicTag {
        var err := TopicCheck(e);
        if err.Some? {
          return err;
        }
        topic := PrevTopic(e);
      } else if t == AvatarTag {
        var err := AvatarCheck(e);
        if err.Some? {
          return err;
        }
        var prev := PrevAvatar(e);
        if prev.Some? {
          avatar := prev.value;
        } else {
          avatar := "";
        }
      } else if t == MemberTag {
        var member := ParseMember(e);
        if member.Err? {
          return Some(member.error);
        }
        var _, _ := UpdateMembership(MemberUser(member.value), member.value.prevContent.GetOr(LeaveContent), None);
        var _ := PruneDeparted(false);
      }
      RevertPreservesIndex(s, nfc, e);
    }
  }
}
