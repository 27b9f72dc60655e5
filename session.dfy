/**
 * The bookkeeping of a Matrix session: the on-disk cache (a state database,
 * a rooms database and one member database per room) with its format-version
 * gate, the persistent transaction-id counter, construction of sync requests,
 * the retry rule after a failed sync, and the write plan of a cache update.
 * The store is an in-memory value and a transaction is one assignment to it;
 * emitted signals are recorded in `notices`, issued sync requests in
 * `requests`, and a retry timer start is the delay a method returns.
 */
module Sessions {
  import opened Wrappers
  import opened Json
  import opened Ids
  import opened Events
  import opened Numerals
  import opened Hashing
  import opened Endian
  import opened Contents

  const CacheFormatVersion: nat := 3
  const PollTimeoutMs: string := "50000"
  const NextBatchKey: string := "next_batch"
  const TransactionIdKey: string := "transaction_id"
  const CacheFormatVersionKey: string := "cache_format_version"

  /** Steady-clock durations are counted in nanoseconds. */
  const Millisecond: int := 1_000_000
  const RetryInterval: int := 10_000 * Millisecond

  // --- the store -----------------------------------------------------------

  /** A value of the state database: raw bytes, or the UTF-8 encoding of a text. */
  datatype Stored = Bytes(bytes: seq<Byte>) | Utf8(text: string)

  /** The LMDB environment: the "state" and "rooms" databases and the "r.<room>" member databases. */
  datatype Store = Store(
    state: map<string, Stored>,
    rooms: map<RoomID, JsonObject>,
    members: map<RoomID, map<UserID, JsonObject>>)

  /** A 64-bit number can be read under `key`: it is absent, or it has the eight bytes the reader takes. */
  predicate WordReadable(state: map<string, Stored>, key: string) {
    key in state ==> state[key].Bytes? && |state[key].bytes| >= WordSize
  }

  /** The keys of the state database hold what the session reads from them. */
  predicate WellFormed(state: map<string, Stored>) {
    && WordReadable(state, CacheFormatVersionKey)
    && WordReadable(state, TransactionIdKey)
    && (NextBatchKey in state ==> state[NextBatchKey].Utf8?)
  }

  /** Every member database belongs to a room the rooms database holds. */
  predicate CacheConsistent(s: Store) {
    s.members.Keys <= s.rooms.Keys
  }

  /** The 64-bit number stored under `key`, 0 when absent. */
  function StoredWord(state: map<string, Stored>, key: string): (r: nat)
    requires WordReadable(state, key)
    ensures r < Modulus
  {
    WordRange();
    if key in state then FromLittleEndian(state[key].bytes[..WordSize]) else 0
  }

  /** The stored number for `v`, written as eight little-endian bytes. */
  function Word(v: U64): (r: Stored)
    ensures r.Bytes? && |r.bytes| == WordSize && FromLittleEndian(r.bytes[..WordSize]) == v
  {
    WordRange();
    FromToLittleEndian(v, WordSize);
    assert LittleEndian(v, WordSize)[..WordSize] == LittleEndian(v, WordSize);
    Bytes(LittleEndian(v, WordSize))
  }

  /** The sync cursor a restarted session resumes from. */
  function StoredNextBatch(state: map<string, Stored>): Option<SyncCursor>
    requires WellFormed(state)
  {
    if NextBatchKey in state then Some(ID(state[NextBatchKey].text)) else None
  }

  // --- the format-version gate ---------------------------------------------

  /** The cache was written by this format version. */
  predicate Compatible(s: Store)
    requires WordReadable(s.state, CacheFormatVersionKey)
  {
    CacheFormatVersionKey in s.state && StoredWord(s.state, CacheFormatVersionKey) == CacheFormatVersion
  }

  /**
   * `session_init` as written: an existing cache of another format loses its
   * state and rooms databases, but its member databases stay behind.
   */
  function InitStoreAsWritten(newCache: bool, s: Store): (r: Store)
    requires WordReadable(s.state, CacheFormatVersionKey)
    ensures r.members == s.members
  {
    var reset := !newCache && !Compatible(s);
    var kept := if reset then Store(map[], map[], s.members) else s;
    if newCache || reset then kept.(state := kept.state[CacheFormatVersionKey := Word(CacheFormatVersion)])
    else kept
  }

  /** A cache of an older format, still holding the member database of a room. */
  const OldCache: Store :=
    Store(map[CacheFormatVersionKey := Word(2)], map[ID("!r") := map[]], map[ID("!r") := map[ID("@u") := map[]]])

  /** After the reset as written, a member database is left without its room: stale members survive. */
  lemma InitStoreAsWrittenKeepsStaleMembers()
    ensures WordReadable(OldCache.state, CacheFormatVersionKey) && CacheConsistent(OldCache)
    ensures var r := InitStoreAsWritten(false, OldCache);
      !CacheConsistent(r) && r.rooms == map[] && ID("@u") in r.members[ID("!r")]
  {
    assert !Compatible(OldCache);
    assert ID("!r") in InitStoreAsWritten(false, OldCache).members;
  }

  /**
   * `session_init` with the reset emptying every database of the cache. The
   * cache is kept exactly when it was written by this format version; the
   * result is always of this format.
   */
  function InitStore(newCache: bool, s: Store): (r: Store)
    requires WordReadable(s.state, CacheFormatVersionKey)
    ensures WordReadable(r.state, CacheFormatVersionKey) && Compatible(r)
    ensures !newCache ==> (r == s <==> Compatible(s))
    ensures !newCache && !Compatible(s) ==> r == Store(map[CacheFormatVersionKey := Word(CacheFormatVersion)], map[], map[])
    ensures CacheConsistent(s) ==> CacheConsistent(r)
    ensures WellFormed(s.state) ==> WellFormed(r.state)
  {
    var reset := !newCache && !Compatible(s);
    var kept := if reset then Store(map[], map[], map[]) else s;
    if newCache || reset then kept.(state := kept.state[CacheFormatVersionKey := Word(CacheFormatVersion)])
    else kept
  }

  /** Opening the cache a second time keeps what the first opening left. */
  lemma InitStoreIdempotent(newCache: bool, s: Store)
    requires WordReadable(s.state, CacheFormatVersionKey)
    ensures InitStore(false, InitStore(newCache, s)) == InitStore(newCache, s)
  {
  }

  // --- transaction ids ---------------------------------------------------------

  /** The counter after `k` calls of `get_transaction_id` from `c`: unsigned 64-bit increments. */
  function CounterAfter(c: U64, k: nat): U64 {
    if k == 0 then c else (CounterAfter(c, k - 1) + 1) % Modulus
  }

  lemma {:induction false} CounterAfterWraps(c: U64, k: nat)
    ensures CounterAfter(c, k) == (c + k) % Modulus
  {
    if k > 0 {
      CounterAfterWraps(c, k - 1);
      WrapStep(c + k - 1, CounterAfter(c, k - 1));
    }
  }

  lemma WrapStep(x: nat, p: int)
    requires p == x % Modulus
    ensures (p + 1) % Modulus == (x + 1) % Modulus
  {
    assert x == (x / Modulus) * Modulus + p;
    assert x + 1 == (x / Modulus) * Modulus + (p + 1);
    WrapOnce(p + 1);
    if p + 1 == Modulus {
      assert x + 1 == (x / Modulus + 1) * Modulus;
    }
  }

  lemma WrapOnce(x: nat)
    requires x < 2 * Modulus
    ensures x % Modulus == if x < Modulus then x else x - Modulus
  {
    if x >= Modulus {
      assert x == 1 * Modulus + (x - Modulus);
    }
  }

  lemma CountersDiffer(c: U64, j: nat, k: nat, a: int, b: int)
    requires j < k < Modulus && a == (c + j) % Modulus && b == (c + k) % Modulus
    ensures a != b
  {
    WrapOnce(c + j);
    WrapOnce(c + k);
  }

  /** Any two of the next 2^64 transaction ids differ. */
  lemma TransactionIdsDistinct(c: U64, j: nat, k: nat)
    requires j < k < Modulus
    ensures ToBase(CounterAfter(c, j), 36) != ToBase(CounterAfter(c, k), 36)
  {
    CounterAfterWraps(c, j);
    CounterAfterWraps(c, k);
    CountersDiffer(c, j, k, CounterAfter(c, j), CounterAfter(c, k));
    ToBaseInjective(CounterAfter(c, j), CounterAfter(c, k), 36);
  }

  // --- sync requests and replies -----------------------------------------------

  type Query = seq<(string, string)>

  /** `sync(query)`: the caller's items, then a full-state request or the resume cursor and long-poll timeout. */
  function SyncQuery(query: Query, nextBatch: Option<SyncCursor>): (r: Query)
    ensures |r| > |query| && r[..|query|] == query
    ensures ("full_state", "true") in r[|query|..] <==> nextBatch.None?
    ensures nextBatch.Some? ==> ("since", nextBatch.value.value) in r[|query|..] && ("timeout", PollTimeoutMs) in r[|query|..]
    ensures nextBatch.None? ==> forall item :: item in r[|query|..] ==> item.0 != "since"
  {
    match nextBatch
    case None => query + [("full_state", "true")]
    case Some(batch) => query + [("since", batch.value), ("timeout", PollTimeoutMs)]
  }

  /** A joined room of a sync reply: its identifier, the room's JSON after the sync was applied, and the member changes it reported. */
  datatype JoinedRoom = JoinedRoom(id: RoomID, json: JsonObject, changedMembers: seq<(UserID, MemberContent)>)

  /** `proto::Sync`, with the parts the cache update uses. */
  datatype Sync = Sync(nextBatch: SyncCursor, join: seq<JoinedRoom>)

  /** Signals the session emits. */
  datatype Notice = SyncError(message: string) | SyncedChanged | SyncComplete

  // --- the cache write plan ----------------------------------------------------

  /** The write one member change makes: invited and joined members are put, departed ones deleted. */
  function ApplyMemberChange(db: map<UserID, JsonObject>, change: (UserID, MemberContent)): map<UserID, JsonObject> {
    match change.1.membership
    case Invite | Join => db[change.0 := change.1.json]
    case Leave | Ban => db - {change.0}
  }

  function ApplyMemberChanges(db: map<UserID, JsonObject>, changes: seq<(UserID, MemberContent)>): map<UserID, JsonObject> {
    if changes == [] then db
    else ApplyMemberChange(ApplyMemberChanges(db, changes[..|changes| - 1]), changes[|changes| - 1])
  }

  /** The last change reported for `user`, if any. */
  function LastChange(changes: seq<(UserID, MemberContent)>, user: UserID): Option<MemberContent> {
    if changes == [] then None
    else if changes[|changes| - 1].0 == user then Some(changes[|changes| - 1].1)
    else LastChange(changes[..|changes| - 1], user)
  }

  /**
   * A member database after a run of changes: a user whose last change is a
   * join or invite is stored with that content, a user whose last change is
   * a departure is absent, and everyone else is as before.
   */
  lemma {:induction false} MemberChangesOutcome(db: map<UserID, JsonObject>, changes: seq<(UserID, MemberContent)>, user: UserID)
    ensures var r := ApplyMemberChanges(db, changes);
      match LastChange(changes, user)
      case None => (user in r <==> user in db) && (user in db ==> r[user] == db[user])
      case Some(c) => (user in r <==> MembershipDisplayable(c.membership)) && (user in r ==> r[user] == c.json)
    decreases |changes|
  {
    if changes != [] {
      MemberChangesOutcome(db, changes[..|changes| - 1], user);
    }
  }

  /** The rooms and member databases after writing one joined room. */
  function WriteRoom(rooms: map<RoomID, JsonObject>, members: map<RoomID, map<UserID, JsonObject>>, j: JoinedRoom)
    : (map<RoomID, JsonObject>, map<RoomID, map<UserID, JsonObject>>)
  {
    var db := if j.id in members then members[j.id] else map[];
    (rooms[j.id := j.json], members[j.id := ApplyMemberChanges(db, j.changedMembers)])
  }

  function WriteRooms(rooms: map<RoomID, JsonObject>, members: map<RoomID, map<UserID, JsonObject>>, joins: seq<JoinedRoom>)
    : (map<RoomID, JsonObject>, map<RoomID, map<UserID, JsonObject>>)
  {
    if joins == [] then (rooms, members)
    else
      var w := WriteRooms(rooms, members, joins[..|joins| - 1]);
      WriteRoom(w.0, w.1, joins[|joins| - 1])
  }

  /** `update_cache`: one transaction storing the resume cursor, each joined room's JSON and its member changes. */
  function UpdatedStore(s: Store, sync: Sync): Store {
    var w := WriteRooms(s.rooms, s.members, sync.join);
    Store(s.state[NextBatchKey := Utf8(sync.nextBatch.value)], w.0, w.1)
  }

  function JoinedIds(joins: seq<JoinedRoom>): set<RoomID> {
    set k | 0 <= k < |joins| :: joins[k].id
  }

  /**
   * The rooms written are the joined rooms of the reply, each with a member
   * database beside it; every other room keeps its entries.
   */
  lemma {:induction false} WriteRoomsOutcome(rooms: map<RoomID, JsonObject>, members: map<RoomID, map<UserID, JsonObject>>, joins: seq<JoinedRoom>)
    ensures var w := WriteRooms(rooms, members, joins);
      && w.0.Keys == rooms.Keys + JoinedIds(joins)
      && w.1.Keys == members.Keys + JoinedIds(joins)
      && (forall id :: id in rooms && id !in JoinedIds(joins) ==> w.0[id] == rooms[id])
      && (forall id :: id in members && id !in JoinedIds(joins) ==> w.1[id] == members[id])
    decreases |joins|
  {
    if joins != [] {
      var n := |joins| - 1;
      WriteRoomsOutcome(rooms, members, joins[..n]);
      JoinedIdsStep(joins, n);
      assert joins[..n + 1] == joins;
    }
  }

  lemma JoinedIdsStep(joins: seq<JoinedRoom>, i: nat)
    requires i < |joins|
    ensures JoinedIds(joins[..i + 1]) == JoinedIds(joins[..i]) + {joins[i].id}
  {
    var a := joins[..i + 1];
    assert forall k :: 0 <= k < i ==> a[k] == joins[..i][k];
  }

  /** A cache update keeps the store well formed and consistent, and stores the cursor to resume from. */
  lemma UpdatedStoreValid(s: Store, sync: Sync)
    requires WellFormed(s.state) && CacheConsistent(s)
    ensures var r := UpdatedStore(s, sync);
      && WellFormed(r.state) && CacheConsistent(r)
      && StoredNextBatch(r.state) == Some(sync.nextBatch)
      && (WordReadable(s.state, CacheFormatVersionKey) && Compatible(s) ==> Compatible(r))
      && (forall key :: key in s.state && key != NextBatchKey ==> key in r.state && r.state[key] == s.state[key])
  {
    WriteRoomsOutcome(s.rooms, s.members, sync.join);
  }

  // --- loading at start-up -------------------------------------------------------

  /** The keys a database cursor walks are distinct. */
  predicate DistinctKeys<V>(entries: seq<(RoomID, V)>) {
    forall a, b :: 0 <= a < b < |entries| ==> entries[a].0 != entries[b].0
  }

  /** A room read back from the cache: its id, its stored JSON and its stored members. */
  datatype LoadedRoom = LoadedRoom(id: RoomID, state: JsonObject, members: map<UserID, JsonObject>)

  /** The keys of a room's stored JSON, as `Room::to_json` writes them. */
  const StoredRoomKeys: set<string> := {"state", "buffer", "highlight_count", "notification_count", "receipts"}

  /** The first entry, in cursor order, that the validating `MemberContent` refuses, with its error. */
  function FirstMemberError(entries: seq<(RoomID, JsonObject)>): (r: Option<EventError>)
    ensures r.None? <==> forall k :: 0 <= k < |entries| ==> ParseMemberContent(entries[k].1).Ok?
    ensures r.Some? ==> exists k :: 0 <= k < |entries| && ParseMemberContent(entries[k].1) == Err(r.value)
  {
    if entries == [] then None
    else match ParseMemberContent(entries[0].1)
      case Err(e) => Some(e)
      case Ok(_) =>
        var rest := FirstMemberError(entries[1..]);
        assert forall k :: 1 <= k < |entries| ==> entries[k] == entries[1..][k - 1];
        if rest.Some? then
          var j :| 0 <= j < |entries[1..]| && ParseMemberContent(entries[1..][j].1) == Err(rest.value);
          assert ParseMemberContent(entries[j + 1].1) == Err(rest.value);
          rest
        else rest
  }

  /**
   * The start-up load loop as written: the loop meant to walk the room's
   * member database advances the rooms cursor instead. Each entry it reads
   * is taken as a member and validated as `MemberContent`; the first that
   * fails throws out of start-up. If none fails, the first room is loaded
   * with the remaining rooms' entries as its members, and the outer loop
   * then finds the rooms cursor exhausted. `entries` is the rooms database
   * in cursor order.
   */
  function LoadRoomsAsWritten(entries: seq<(RoomID, JsonObject)>): (r: Result<seq<LoadedRoom>, EventError>)
    requires DistinctKeys(entries)
    ensures r.Ok? ==> |r.value| == if entries == [] then 0 else 1
    ensures r.Err? <==> |entries| >= 2 && FirstMemberError(entries[1..]).Some?
  {
    if entries == [] then Ok([])
    else match FirstMemberError(entries[1..])
      case Some(e) => Err(e)
      case None => Ok([LoadedRoom(entries[0].0, entries[0].1, map k | 1 <= k < |entries| :: entries[k].0 := entries[k].1)])
  }

  /**
   * With two rooms stored, start-up throws `missing_field` for
   * "content.membership": the second room's JSON is read as a member, and a
   * stored room has no "membership" key.
   */
  lemma LoadRoomsAsWrittenFailsOnTwoRooms(entries: seq<(RoomID, JsonObject)>)
    requires |entries| == 2 && DistinctKeys(entries)
    requires entries[1].1.Keys <= StoredRoomKeys
    ensures LoadRoomsAsWritten(entries) == Err(MissingField("content.membership"))
  {
    var c := entries[1].1;
    assert "membership" !in c;
    assert CheckFields(c, MemberContentFields) == Some(MissingField("content.membership"));
    assert entries[1..] == [entries[1]];
  }

  /** With one room stored, it is loaded with no members: its own member database is never read. */
  lemma LoadRoomsAsWrittenOneRoom(entries: seq<(RoomID, JsonObject)>)
    requires |entries| == 1
    ensures LoadRoomsAsWritten(entries) == Ok([LoadedRoom(entries[0].0, entries[0].1, map[])])
  {
  }

  /** The start-up load loop with each room's members read from its own member database. */
  function LoadRooms(entries: seq<(RoomID, JsonObject)>, members: map<RoomID, map<UserID, JsonObject>>): (r: seq<LoadedRoom>)
    ensures |r| == |entries|
    ensures forall k :: 0 <= k < |r| ==> r[k].id == entries[k].0 && r[k].state == entries[k].1
    ensures forall k :: 0 <= k < |r| ==> r[k].members == (if entries[k].0 in members then members[entries[k].0] else map[])
  {
    seq(|entries|, k requires 0 <= k < |entries| =>
      LoadedRoom(entries[k].0, entries[k].1, if entries[k].0 in members then members[entries[k].0] else map[]))
  }

  // --- media URLs --------------------------------------------------------------

  /** `ensure_http`: an `mxc` URL becomes the homeserver's download URL for its content; any other URL is returned unchanged. */
  function EnsureHttp(url: Url, homeserver: Url): (r: Url)
    ensures url.scheme != MxcScheme ==> r == url
    ensures url.scheme == MxcScheme ==>
      && r.scheme == homeserver.scheme && r.host == homeserver.host && r.query == homeserver.query
      && r.path == DownloadPrefix + url.host + "/" + ParseContent(url).value.id
  {
    if url.scheme == MxcScheme then DownloadUrl(ParseContent(url).value, homeserver) else url
  }

  /** On a homeserver reached over anything but `mxc`, rewriting a rewritten URL changes nothing more. */
  lemma EnsureHttpIdempotent(url: Url, homeserver: Url)
    requires homeserver.scheme != MxcScheme
    ensures EnsureHttp(EnsureHttp(url, homeserver), homeserver) == EnsureHttp(url, homeserver)
  {
  }

  // --- the session ---------------------------------------------------------------

  class Session {
    const homeserver: Url
    /** The cache. */
    var store: Store
    /** The member databases this session has a handle for (`member_dbs_`). */
    var openMemberDbs: set<RoomID>
    var nextBatch: Option<SyncCursor>
    var synced: bool
    /** Steady-clock time of the last failed sync, in nanoseconds. */
    var lastSyncError: int
    /** The sync requests issued, oldest first. */
    var requests: seq<Query>
    var notices: seq<Notice>

    /**
     * The cache is of this format and consistent, and the cursor in memory is
     * the one on disk, so a restarted session resumes where this one stands.
     */
    ghost predicate Valid()
      reads this
    {
      && WellFormed(store.state) && Compatible(store) && CacheConsistent(store)
      && nextBatch == StoredNextBatch(store.state)
    }

    /**
     * Opening the cache found on disk (`newCache` when there was none) and
     * issuing the first sync, whose `filter` item is the rendered timeline
     * filter.
     */
    constructor (homeserver: Url, newCache: bool, disk: Store, filter: string)
      requires WellFormed(disk.state) && CacheConsistent(disk)
      ensures Valid()
      ensures this.homeserver == homeserver && store == InitStore(newCache, disk)
      ensures nextBatch == StoredNextBatch(store.state)
      ensures openMemberDbs == (if nextBatch.Some? then store.rooms.Keys else {})
      ensures !synced && lastSyncError == 0 && notices == []
      ensures requests == [SyncQuery([("filter", filter)], nextBatch)]
    {
      this.homeserver := homeserver;
      var s := InitStore(newCache, disk);
      store := s;
      var batch := StoredNextBatch(s.state);
      nextBatch := batch;
      openMemberDbs := if batch.Some? then s.rooms.Keys else {};
      synced := false;
      lastSyncError := 0;
      notices := [];
      requests := [SyncQuery([("filter", filter)], batch)];
    }

    /** `sync(query)`: issue a sync request. */
    method Sync(query: Query)
      modifies this`requests
      ensures requests == old(requests) + [SyncQuery(query, nextBatch)]
    {
      requests := requests + [SyncQuery(query, nextBatch)];
    }

    /**
     * `get_transaction_id`: the stored counter (0 when none is stored) in
     * base 36; the counter is stored again incremented, wrapping at 2^64.
     */
    method GetTransactionId() returns (id: TransactionID)
      requires Valid()
      modifies this`store
      ensures Valid()
      ensures id == ID(ToBase(StoredWord(old(store).state, TransactionIdKey), 36))
      ensures StoredWord(store.state, TransactionIdKey) == CounterAfter(StoredWord(old(store).state, TransactionIdKey), 1)
      ensures store.rooms == old(store).rooms && store.members == old(store).members
      ensures forall key :: key in old(store).state && key != TransactionIdKey ==> key in store.state && store.state[key] == old(store).state[key]
    {
      var value: nat;
      if TransactionIdKey in store.state {
        value := ReadLittleEndian(store.state[TransactionIdKey].bytes, WordSize);
      } else {
        value := 0;
      }
      WordRange();
      var data := new Byte[WordSize];
      ToLittleEndian((value + 1) % Modulus, data, WordSize);
      assert data[..] == data[..WordSize];
      assert Bytes(data[..]) == Word((value + 1) % Modulus);
      store := store.(state := store.state[TransactionIdKey := Bytes(data[..])]);
      id := ID(ToBase(value, 36));
    }

    /** `update_cache`: write the reply into the cache in one transaction, then register the new member databases. */
    method UpdateCache(sync: Sync)
      modifies this`store, this`openMemberDbs
      ensures store == UpdatedStore(old(store), sync)
      ensures openMemberDbs == old(openMemberDbs) + JoinedIds(sync.join)
    {
      var newMemberDbs: set<RoomID> := {};
      var state := store.state[NextBatchKey := Utf8(sync.nextBatch.value)];
      var rooms := store.rooms;
      var members := store.members;
      for i := 0 to |sync.join|
        invariant store == old(store) && openMemberDbs == old(openMemberDbs)
        invariant (rooms, members) == WriteRooms(store.rooms, store.members, sync.join[..i])
        invariant openMemberDbs + newMemberDbs == openMemberDbs + JoinedIds(sync.join[..i])
      {
        var j := sync.join[i];
        if j.id !in openMemberDbs {
          newMemberDbs := newMemberDbs + {j.id};
        }
        var db := if j.id in members then members[j.id] else map[];
        rooms := rooms[j.id := j.json];
        db := WriteMemberChanges(db, j.changedMembers);
        members := members[j.id := db];
        JoinedIdsStep(sync.join, i);
        assert sync.join[..i + 1][..i] == sync.join[..i];
      }
      assert sync.join[..|sync.join|] == sync.join;
      store := Store(state, rooms, members);
      openMemberDbs := openMemberDbs + newMemberDbs;
    }

    /** `dispatch`: adopt the reply's cursor, write the cache and report the session synced. */
    method Dispatch(sync: Sync)
      requires Valid()
      modifies this`nextBatch, this`store, this`openMemberDbs, this`synced, this`notices
      ensures Valid() && synced
      ensures nextBatch == Some(sync.nextBatch)
      ensures store == UpdatedStore(old(store), sync)
      ensures openMemberDbs == old(openMemberDbs) + JoinedIds(sync.join)
      ensures notices == old(notices) + [SyncComplete]
    {
      UpdatedStoreValid(store, sync);
      nextBatch := Some(sync.nextBatch);
      UpdateCache(sync);
      synced := true;
      notices := notices + [SyncComplete];
    }

    /**
     * `handle_sync_reply` at steady-clock time `now`: a failed reply marks the
     * session unsynced; a failure within 10 s of the previous one schedules
     * the next sync for 10 s after that failure (to the millisecond, the
     * returned delay); otherwise the next sync is issued at once.
     */
    method HandleSyncReply(reply: Result<Sync, string>, now: int) returns (retryDelayMs: Option<int>)
      requires Valid()
      modifies this`store, this`openMemberDbs, this`nextBatch, this`synced, this`lastSyncError, this`requests, this`notices
      ensures Valid()
      ensures synced <==> reply.Ok?
      ensures reply.Ok? ==> store == UpdatedStore(old(store), reply.value) && nextBatch == Some(reply.value.nextBatch)
      ensures reply.Err? ==> store == old(store) && nextBatch == old(nextBatch) && openMemberDbs == old(openMemberDbs)
      ensures notices == old(notices) + ReplyNotices(old(synced), reply)
      ensures lastSyncError == if reply.Ok? then old(lastSyncError) else now
      ensures retryDelayMs.Some? <==> reply.Err? && now - old(lastSyncError) < RetryInterval
      ensures retryDelayMs.Some? ==>
        && old(lastSyncError) + RetryInterval - Millisecond < now + retryDelayMs.value * Millisecond <= old(lastSyncError) + RetryInterval
        && retryDelayMs.value >= 0
      ensures requests == old(requests) + (if retryDelayMs.Some? then [] else [SyncQuery([], nextBatch)])
    {
      var wasSynced := synced;
      match reply {
        case Err(message) =>
          synced := false;
          notices := notices + [SyncError(message)];
        case Ok(sync) =>
          Dispatch(sync);
      }
      if wasSynced != synced {
        notices := notices + [SyncedChanged];
      }
      var sinceLastError := now - lastSyncError;
      if !synced && sinceLastError < RetryInterval {
        retryDelayMs := Some((RetryInterval - sinceLastError) / Millisecond);
      } else {
        retryDelayMs := None;
        Sync([]);
      }
      if !synced {
        lastSyncError := now;
      }
    }
  }

  /** The signals a sync reply raises. */
  function ReplyNotices(wasSynced: bool, reply: Result<Sync, string>): seq<Notice> {
    (if reply.Err? then [SyncError(reply.error)] else [SyncComplete])
    + (if wasSynced != reply.Ok? then [SyncedChanged] else [])
  }

  /** The writes of one room's member changes, in order. */
  method WriteMemberChanges(db: map<UserID, JsonObject>, changes: seq<(UserID, MemberContent)>) returns (r: map<UserID, JsonObject>)
    ensures r == ApplyMemberChanges(db, changes)
  {
    r := db;
    for k := 0 to |changes|
      invariant r == ApplyMemberChanges(db, changes[..k])
    {
      assert changes[..k + 1][..k] == changes[..k];
      match changes[k].1.membership
      case Invite | Join => r := r[changes[k].0 := changes[k].1.json];
      case Leave | Ban => r := r - {changes[k].0};
    }
    assert changes[..|changes|] == changes;
  }
}
