/**
 * The member list beside a room: entries keyed by the shown name under an
 * ordering that ignores leading '@' and letter case, kept up to date from
 * membership and disambiguation changes, and shown only when it has more
 * than two entries. Entries whose names compare equal share one slot, as
 * in a `std::map` with that comparator; the model keys the map by the sort
 * key itself. Case folding is library code the model does not describe: it
 * is the parameter `fold`.
 */
module MemberLists {
  import opened Wrappers
  import opened Ids
  import opened Events

  type Folder = string -> string

  /** A shown name and the member it stands for. */
  datatype Entry = Entry(name: string, id: UserID)

  /** The number of leading '@' characters. */
  function LeadingAts(n: string): (r: nat)
    ensures r <= |n|
    ensures forall k :: 0 <= k < r ==> n[k] == '@'
    ensures r < |n| ==> n[r] != '@'
  {
    if n == [] || n[0] != '@' then 0 else 1 + LeadingAts(n[1..])
  }

  /** `Compare::key`: the name without its leading '@'s, case-folded; a name of '@'s alone is folded whole. */
  function SortKey(n: string, fold: Folder): (r: string)
    ensures (forall k :: 0 <= k < |n| ==> n[k] == '@') ==> r == fold(n)
    ensures (exists k :: 0 <= k < |n| && n[k] != '@') ==> r == fold(n[LeadingAts(n)..]) && n[LeadingAts(n)] != '@'
  {
    var i := LeadingAts(n);
    if i == |n| then fold(n) else fold(n[i..])
  }

  /** Names differing only in leading '@'s share a sort key, unless one of them is made of '@'s alone. */
  lemma SortKeyIgnoresAts(n: string, fold: Folder)
    requires exists k :: 0 <= k < |n| && n[k] != '@'
    ensures SortKey("@" + n, fold) == SortKey(n, fold)
  {
    var k :| 0 <= k < |n| && n[k] != '@';
    assert ("@" + n)[k + 1] == n[k];
    assert ("@" + n)[1..] == n;
    assert ("@" + n)[LeadingAts("@" + n)..] == n[LeadingAts(n)..];
  }

  /** The character at `i`, or the terminating NUL of Qt's string storage at `i == |n|`. */
  function CharAt(n: string, i: nat): char
    requires i <= |n|
  {
    if i < |n| then n[i] else '\0'
  }

  /** `Compare::key` as the loop computes it. */
  method Key(n: string, fold: Folder) returns (r: string)
    ensures r == SortKey(n, fold)
  {
    var i := 0;
    while CharAt(n, i) == '@' && i < |n|
      invariant i <= |n|
      invariant forall k :: 0 <= k < i ==> n[k] == '@'
      decreases |n| - i
    {
      i := i + 1;
    }
    assert i == LeadingAts(n) by {
      LeadingAtsAt(n, i);
    }
    if i == |n| {
      r := fold(n);
    } else {
      r := fold(n[i..]);
    }
  }

  lemma LeadingAtsAt(n: string, i: nat)
    requires i <= |n| && (forall k :: 0 <= k < i ==> n[k] == '@') && (i < |n| ==> n[i] != '@')
    ensures LeadingAts(n) == i
  {
  }

  type Members = map<string, Entry>

  /** `members_.emplace(name, id)`: nothing happens when an entry with an equal name is present. */
  function Emplaced(m: Members, fold: Folder, name: string, id: UserID): (r: Members)
    ensures SortKey(name, fold) in r
    ensures SortKey(name, fold) !in m ==> r == m[SortKey(name, fold) := Entry(name, id)]
    ensures SortKey(name, fold) in m ==> r == m
    ensures Keyed(m, fold) ==> Keyed(r, fold)
  {
    var key := SortKey(name, fold);
    if key in m then m else m[key := Entry(name, id)]
  }

  /** `members_.erase(name)`: the entry whose name compares equal goes. */
  function Erased(m: Members, fold: Folder, name: string): (r: Members)
    ensures SortKey(name, fold) !in r
    ensures r.Keys == m.Keys - {SortKey(name, fold)}
    ensures forall k :: k in r ==> r[k] == m[k]
    ensures Keyed(m, fold) ==> Keyed(r, fold)
  {
    m - {SortKey(name, fold)}
  }

  /** Every entry sits under its own name's key. */
  predicate Keyed(m: Members, fold: Folder) {
    forall k :: k in m ==> SortKey(m[k].name, fold) == k
  }

  function EmplacedAll(m: Members, fold: Folder, entries: seq<Entry>): (r: Members)
    requires Keyed(m, fold)
    ensures Keyed(r, fold)
    ensures forall e :: e in entries ==> SortKey(e.name, fold) in r
  {
    if entries == [] then m
    else
      var last := entries[|entries| - 1];
      var before := EmplacedAll(m, fold, entries[..|entries| - 1]);
      assert forall e :: e in entries ==> e in entries[..|entries| - 1] || e == last;
      Emplaced(before, fold, last.name, last.id)
  }

  /** The name a changed member is shown under: the display name with its disambiguation, or the user id. */
  function ShownName(id: UserID, current: MemberContent, disambiguation: Option<string>): string {
    match current.displayname
    case Some(dn) => dn + (if disambiguation.Some? then " (" + disambiguation.value + ")" else "")
    case None => id.value
  }

  /**
   * `member_changed` as written: the old entry goes only when the old
   * membership was shown and the display name changed; the new one is
   * added when the new membership is shown.
   */
  function AfterChangeAsWritten(m: Members, fold: Folder, listedName: string, id: UserID,
                            previous: MemberContent, current: MemberContent, disambiguation: Option<string>): Members
  {
    var erased := if MembershipDisplayable(previous.membership) && previous.displayname != current.displayname
      then Erased(m, fold, listedName) else m;
    if MembershipDisplayable(current.membership) then Emplaced(erased, fold, ShownName(id, current, disambiguation), id)
    else erased
  }

  /** A member without a display name who was listed under `@u` and leaves. */
  const Quiet: UserID := ID("@u")
  const QuietJoin: MemberContent := MemberContent(map[], Join, None, None)
  const QuietLeave: MemberContent := MemberContent(map[], Leave, None, None)

  /** As written, a member without a display name stays listed after leaving. */
  lemma MemberChangedAsWrittenKeepsDeparted(fold: Folder)
    ensures var m := Emplaced(map[], fold, Quiet.value, Quiet);
      SortKey(Quiet.value, fold) in AfterChangeAsWritten(m, fold, Quiet.value, Quiet, QuietJoin, QuietLeave, None)
  {
  }

  /** `member_changed` with the old entry also removed when the member stops being shown. */
  function AfterChange(m: Members, fold: Folder, listedName: string, id: UserID,
                         previous: MemberContent, current: MemberContent, disambiguation: Option<string>): (r: Members)
    requires Keyed(m, fold)
    ensures Keyed(r, fold)
    ensures MembershipDisplayable(previous.membership) && !MembershipDisplayable(current.membership) ==>
      SortKey(listedName, fold) !in r && r.Keys == m.Keys - {SortKey(listedName, fold)}
    ensures MembershipDisplayable(current.membership) ==> SortKey(ShownName(id, current, disambiguation), fold) in r
    ensures !MembershipDisplayable(previous.membership) && !MembershipDisplayable(current.membership) ==> r == m
  {
    var erased := if MembershipDisplayable(previous.membership)
      && (previous.displayname != current.displayname || !MembershipDisplayable(current.membership))
      then Erased(m, fold, listedName) else m;
    if MembershipDisplayable(current.membership) then Emplaced(erased, fold, ShownName(id, current, disambiguation), id)
    else erased
  }

  /** The two agree on every change except a departure that keeps the display name. */
  lemma MemberChangedAgrees(m: Members, fold: Folder, listedName: string, id: UserID,
                            previous: MemberContent, current: MemberContent, disambiguation: Option<string>)
    requires Keyed(m, fold)
    requires MembershipDisplayable(current.membership) || previous.displayname != current.displayname
    ensures AfterChange(m, fold, listedName, id, previous, current, disambiguation)
         == AfterChangeAsWritten(m, fold, listedName, id, previous, current, disambiguation)
  {
  }

  /** `member_disambiguation_changed`: the member is listed again under its display name with the new disambiguation. */
  function DisambiguationChanged(m: Members, fold: Folder, listedName: string, id: UserID,
                                 displayname: string, current: Option<string>): (r: Members)
    requires Keyed(m, fold)
    ensures Keyed(r, fold)
    ensures SortKey(displayname + (if current.Some? then " (" + current.value + ")" else ""), fold) in r
  {
    Emplaced(Erased(m, fold, listedName), fold, displayname + (if current.Some? then " (" + current.value + ")" else ""), id)
  }

  /**
   * The widget. `RoomState::member_name(UserID)` and
   * `RoomState::nonmember_disambiguation` are declared in Room.hpp but not
   * defined in the source; the names they give are parameters here.
   */
  class MemberList {
    const fold: Folder
    var members: Members
    var visible: bool

    ghost predicate Valid()
      reads this
    {
      Keyed(members, fold) && visible == (|members| > 2)
    }

    /** `update_members`: the list is shown only with more than two entries. */
    method UpdateMembers()
      modifies this`visible
      ensures visible <==> |members| > 2
    {
      visible := |members| > 2;
    }

    /** One entry per member of the room, under the name the room gives it. */
    constructor (initial: seq<Entry>, fold: Folder)
      ensures Valid() && this.fold == fold
      ensures members == EmplacedAll(map[], fold, initial)
    {
      this.fold := fold;
      var m: Members := map[];
      for i := 0 to |initial|
        invariant m == EmplacedAll(map[], fold, initial[..i])
      {
        assert initial[..i + 1][..i] == initial[..i];
        m := Emplaced(m, fold, initial[i].name, initial[i].id);
      }
      assert initial[..|initial|] == initial;
      members := m;
      visible := |m| > 2;
    }

    /** `member_changed`, as written. */
    method MemberChangedAsWritten(listedName: string, id: UserID, previous: MemberContent, current: MemberContent,
                                  disambiguation: Option<string>)
      requires Valid()
      modifies this
      ensures Valid()
      ensures members == AfterChangeAsWritten(old(members), fold, listedName, id, previous, current, disambiguation)
    {
      if MembershipDisplayable(previous.membership) && previous.displayname != current.displayname {
        members := Erased(members, fold, listedName);
      }
      if MembershipDisplayable(current.membership) {
        var name := match current.displayname
          case Some(dn) => dn + (if disambiguation.Some? then " (" + disambiguation.value + ")" else "")
          case None => id.value;
        members := Emplaced(members, fold, name, id);
      }
      UpdateMembers();
    }

    /** `member_changed`, removing a member who stops being shown. */
    method MemberChanged(listedName: string, id: UserID, previous: MemberContent, current: MemberContent,
                         disambiguation: Option<string>)
      requires Valid()
      modifies this
      ensures Valid()
      ensures members == AfterChange(old(members), fold, listedName, id, previous, current, disambiguation)
    {
      if MembershipDisplayable(previous.membership)
        && (previous.displayname != current.displayname || !MembershipDisplayable(current.membership)) {
        members := Erased(members, fold, listedName);
      }
      if MembershipDisplayable(current.membership) {
        members := Emplaced(members, fold, ShownName(id, current, disambiguation), id);
      }
      UpdateMembers();
    }

    /** `member_disambiguation_changed`. */
    method MemberDisambiguationChanged(listedName: string, id: UserID, displayname: string, current: Option<string>)
      requires Valid()
      modifies this
      ensures Valid()
      ensures members == DisambiguationChanged(old(members), fold, listedName, id, displayname, current)
    {
      members := Erased(members, fold, listedName);
      members := Emplaced(members, fold, displayname + (if current.Some? then " (" + current.value + ")" else ""), id);
      UpdateMembers();
    }
  }
}
