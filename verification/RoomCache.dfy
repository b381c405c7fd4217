/**
 Rooms behind a cache: reads fill the cache in the background, writes go to the table first
 and then to the cache. Entries expire, cache calls fail, and a fill may still be on its way
 while other rooms are used.
 */
module RoomCache {
  import opened Wrappers

  datatype RoomType = Personal | Private | Group | VideoCall | Other(name: string)

  datatype Settings = Settings(readOnly: bool, moderateMsgs: bool, allowFiles: bool, maxMembers: int, autoArchive: bool)

  datatype Room = Room(
    id: string,
    kind: RoomType,
    ownerId: string,
    name: string,
    members: seq<string>,
    createdAt: int,
    updatedAt: int,
    settings: Settings,
    avatar: string)

  /** Agreement on the columns that every write sets. */
  predicate SameContent(a: Room, b: Room) {
    a.name == b.name && a.members == b.members && a.settings == b.settings && a.avatar == b.avatar
  }

  type Rooms = map<string, Room>

  /** A background write of `room` to the cache that has not happened yet. */
  datatype Fill = Fill(id: string, room: Room)

  datatype State = State(rows: Rooms, cache: Rooms, fills: seq<Fill>)

  // ---------- The table ----------

  function Overwrite(row: Room, room: Room, updatedAt: int): Room {
    row.(name := room.name, members := room.members, settings := room.settings, updatedAt := updatedAt,
        avatar := room.avatar)
  }

  /** INSERT … ON CONFLICT (id) DO UPDATE: an existing row keeps its type, owner and creation time. */
  function Upsert(rows: Rooms, room: Room): Rooms {
    rows[room.id := if room.id in rows then Overwrite(rows[room.id], room, room.updatedAt) else room]
  }

  /** UPDATE … WHERE id: no row, no change. */
  function UpdateRow(rows: Rooms, room: Room, now: int): Rooms {
    if room.id in rows then rows[room.id := Overwrite(rows[room.id], room, now)] else rows
  }

  // ---------- The service, one step at a time ----------

  datatype Action =
    | Get(id: string, cacheUp: bool, storageUp: bool)
    | Create(room: Room, now: int, storageOk: bool)
    | Update(room: Room, now: int, storedAt: int, storageOk: bool, cacheOk: bool)
    | Delete(id: string, storageOk: bool, cacheOk: bool)
    | RunFill(k: nat, ok: bool)
    | Expire(id: string)

  predicate ValidRoom(room: Room) {
    room.id != "" && room.ownerId != ""
        && (room.kind.Personal? || room.kind.Private? || room.kind.Group? || room.kind.VideoCall?)
  }

  function Prepared(room: Room, now: int): Room {
    var members := if room.kind.Group? && room.members == [] then [room.ownerId] else room.members;
    room.(members := members, createdAt := now, updatedAt := now)
  }

  /** None is an error. */
  function GetResult(s: State, id: string, cacheUp: bool, storageUp: bool): Option<Room> {
    if cacheUp && id in s.cache then Some(s.cache[id])
    else if storageUp && id in s.rows then Some(s.rows[id])
    else None
  }

  function AfterGet(s: State, id: string, cacheUp: bool, storageUp: bool): State {
    if !(cacheUp && id in s.cache) && storageUp && id in s.rows then s.(fills := s.fills + [Fill(id, s.rows[id])])
    else s
  }

  function AfterCreate(s: State, room: Room, now: int, storageOk: bool): State {
    if !ValidRoom(room) || !storageOk then s
    else
      var r := Prepared(room, now);
      State(Upsert(s.rows, r), s.cache, s.fills + [Fill(r.id, r)])
  }

  function AfterUpdate(s: State, room: Room, now: int, storedAt: int, storageOk: bool, cacheOk: bool): State {
    if !storageOk then s
    else
      var r := room.(updatedAt := now);
      s.(rows := UpdateRow(s.rows, r, storedAt), cache := if cacheOk then s.cache[r.id := r] else s.cache)
  }

  function AfterDelete(s: State, id: string, storageOk: bool, cacheOk: bool): State {
    if !storageOk then s else s.(rows := s.rows - {id}, cache := if cacheOk then s.cache - {id} else s.cache)
  }

  function AfterFill(s: State, k: nat, ok: bool): State {
    if k >= |s.fills| then s
    else
      var f := s.fills[k];
      s.(cache := if ok then s.cache[f.id := f.room] else s.cache, fills := s.fills[..k] + s.fills[k + 1..])
  }

  function Step(s: State, a: Action): State {
    match a
    case Get(id, cacheUp, storageUp) => AfterGet(s, id, cacheUp, storageUp)
    case Create(room, now, storageOk) => AfterCreate(s, room, now, storageOk)
    case Update(room, now, storedAt, storageOk, cacheOk) => AfterUpdate(s, room, now, storedAt, storageOk, cacheOk)
    case Delete(id, storageOk, cacheOk) => AfterDelete(s, id, storageOk, cacheOk)
    case RunFill(k, ok) => AfterFill(s, k, ok)
    case Expire(id) => s.(cache := s.cache - {id})
  }

  function Run(s: State, actions: seq<Action>): State
    decreases actions
  {
    if actions == [] then s else Run(Step(s, actions[0]), actions[1..])
  }

  class RoomService {
    var rows: Rooms
    var cache: Rooms
    ghost var fills: seq<Fill>

    constructor ()
      ensures Contents() == State(map[], map[], [])
    {
      rows, cache, fills := map[], map[], [];
    }

    ghost function Contents(): State
      reads this
    {
      State(rows, cache, fills)
    }

    method GetRoom(id: string, cacheUp: bool, storageUp: bool) returns (r: Option<Room>)
      modifies this
      ensures r == GetResult(old(Contents()), id, cacheUp, storageUp)
      ensures Contents() == AfterGet(old(Contents()), id, cacheUp, storageUp)
    {
      if cacheUp && id in cache {
        return Some(cache[id]);
      }
      if !storageUp || id !in rows {
        return None;
      }
      fills := fills + [Fill(id, rows[id])];
      return Some(rows[id]);
    }

    method IsRoomMember(id: string, userId: string, cacheUp: bool, storageUp: bool) returns (r: Option<bool>)
      modifies this
      ensures r == MemberResult(old(Contents()), id, userId, cacheUp, storageUp)
      ensures Contents() == AfterGet(old(Contents()), id, cacheUp, storageUp)
    {
      var room := GetRoom(id, cacheUp, storageUp);
      if room.None? {
        return None;
      }
      var members := room.value.members;
      for i := 0 to |members|
        invariant userId !in members[..i]
      {
        if members[i] == userId {
          return Some(true);
        }
      }
      return Some(false);
    }

    method CreateRoom(room: Room, now: int, storageOk: bool) returns (ok: bool)
      modifies this
      ensures ok <==> ValidRoom(room) && storageOk
      ensures Contents() == AfterCreate(old(Contents()), room, now, storageOk)
    {
      if room.id == "" || room.ownerId == "" {
        return false;
      }
      match room.kind {
        case Personal | Private | Group | VideoCall =>
        case _ => return false;
      }
      var r := room;
      if r.kind.Group? && |r.members| == 0 {
        r := r.(members := r.members + [r.ownerId]);
        assert r.members == [r.ownerId];
      }
      r := r.(createdAt := now, updatedAt := now);
      if !storageOk {
        return false;
      }
      if r.id in rows {
        rows := rows[r.id := Overwrite(rows[r.id], r, r.updatedAt)];
      } else {
        rows := rows[r.id := r];
      }
      fills := fills + [Fill(r.id, r)];
      return true;
    }

    method UpdateRoom(room: Room, now: int, storedAt: int, storageOk: bool, cacheOk: bool) returns (ok: bool)
      modifies this
      ensures ok <==> storageOk && cacheOk
      ensures Contents() == AfterUpdate(old(Contents()), room, now, storedAt, storageOk, cacheOk)
    {
      var r := room.(updatedAt := now);
      if !storageOk {
        return false;
      }
      if r.id in rows {
        rows := rows[r.id := Overwrite(rows[r.id], r, storedAt)];
      }
      if cacheOk {
        cache := cache[r.id := r];
      }
      return cacheOk;
    }

    method DeleteRoom(id: string, storageOk: bool, cacheOk: bool) returns (ok: bool)
      modifies this
      ensures ok <==> storageOk && cacheOk
      ensures Contents() == AfterDelete(old(Contents()), id, storageOk, cacheOk)
    {
      if !storageOk {
        return false;
      }
      rows := rows - {id};
      if cacheOk {
        cache := cache - {id};
      }
      return cacheOk;
    }
  }

  function MemberResult(s: State, id: string, userId: string, cacheUp: bool, storageUp: bool): Option<bool> {
    match GetResult(s, id, cacheUp, storageUp)
    case None => None
    case Some(room) => Some(userId in room.members)
  }

  // ---------- Agreement ----------

  ghost predicate Pending(s: State, id: string) { exists k :: 0 <= k < |s.fills| && s.fills[k].id == id }

  ghost predicate FillsAgree(s: State) {
    && (forall k :: 0 <= k < |s.fills| ==>
         s.fills[k].id in s.rows && SameContent(s.fills[k].room, s.rows[s.fills[k].id]))
    && forall k, l :: 0 <= k < l < |s.fills| ==> s.fills[k].id != s.fills[l].id
  }

  ghost predicate Cached(s: State, id: string) { id in s.cache && id in s.rows && SameContent(s.cache[id], s.rows[id]) }

  /** Every cached room without a fill under way is in the table and has the table's content. */
  ghost predicate Agrees(s: State) {
    FillsAgree(s) && forall id :: id in s.cache ==> Pending(s, id) || Cached(s, id)
  }

  /** Each fill is finished before the next operation on its room. */
  ghost predicate Free(s: State, a: Action) {
    match a
    case Get(id, _, _) => !Pending(s, id)
    case Create(room, _, _) => !Pending(s, room.id)
    case Update(room, _, _, _, _) => !Pending(s, room.id)
    case Delete(id, _, _) => !Pending(s, id)
    case RunFill(k, _) => k < |s.fills|
    case Expire(_) => true
  }

  /** The cached room, if there is one, would not be left behind by a write of `room`. */
  predicate NotStale(s: State, id: string, room: Room) { id in s.cache ==> SameContent(s.cache[id], room) }

  /** What must be true before the step for agreement to survive it. */
  predicate Safe(s: State, a: Action) {
    match a
    case Get(_, _, _) => true
    case Create(_, _, _) => true
    case Update(room, _, _, storageOk, cacheOk) =>
      storageOk ==> if cacheOk then room.id in s.rows else room.id in s.rows ==> NotStale(s, room.id, room)
    case Delete(id, storageOk, cacheOk) => storageOk && !cacheOk ==> id !in s.cache
    case RunFill(k, ok) => ok || k >= |s.fills| || NotStale(s, s.fills[k].id, s.fills[k].room)
    case Expire(_) => true
  }

  lemma PendingAppend(s: State, f: Fill, id: string)
    ensures Pending(s.(fills := s.fills + [f]), id) <==> Pending(s, id) || f.id == id
  {
    var t := s.(fills := s.fills + [f]);
    assert t.fills[|s.fills|] == f;
    assert forall k :: 0 <= k < |s.fills| ==> t.fills[k] == s.fills[k];
  }

  lemma CreateKeeps(s: State, room: Room, now: int, storageOk: bool)
    requires Agrees(s) && !Pending(s, room.id)
    ensures Agrees(AfterCreate(s, room, now, storageOk))
  {
    var t := AfterCreate(s, room, now, storageOk);
    var r := Prepared(room, now);
    if t != s {
      forall id ensures Pending(t, id) <==> Pending(s, id) || r.id == id {
        PendingAppend(s.(rows := t.rows), Fill(r.id, r), id);
        assert Pending(s.(rows := t.rows), id) <==> Pending(s, id);
      }
      assert SameContent(r, t.rows[r.id]);
    }
  }

  lemma GetKeeps(s: State, id: string, cacheUp: bool, storageUp: bool)
    requires Agrees(s) && !Pending(s, id)
    ensures Agrees(AfterGet(s, id, cacheUp, storageUp))
  {
    var t := AfterGet(s, id, cacheUp, storageUp);
    if t != s {
      forall i ensures Pending(t, i) <==> Pending(s, i) || id == i {
        PendingAppend(s, Fill(id, s.rows[id]), i);
      }
    }
  }

  lemma UpdateKeepsIff(s: State, a: Action)
    requires a.Update? && Agrees(s) && !Pending(s, a.room.id)
    ensures Agrees(Step(s, a)) <==> Safe(s, a)
  {
    var t := Step(s, a);
    assert forall i :: Pending(t, i) <==> Pending(s, i);
    assert forall i :: i != a.room.id ==> (Cached(t, i) <==> Cached(s, i));
    assert Cached(t, a.room.id) || a.room.id !in t.cache <==> Safe(s, a);
  }

  lemma DeleteKeepsIff(s: State, a: Action)
    requires a.Delete? && Agrees(s) && !Pending(s, a.id)
    ensures Agrees(Step(s, a)) <==> Safe(s, a)
  {
    var t := Step(s, a);
    assert forall i :: Pending(t, i) <==> Pending(s, i);
    assert forall i :: i != a.id ==> (Cached(t, i) <==> Cached(s, i));
    assert Cached(t, a.id) || a.id !in t.cache <==> Safe(s, a);
  }

  lemma FillKeepsIff(s: State, k: nat, ok: bool)
    requires Agrees(s) && k < |s.fills|
    ensures Agrees(AfterFill(s, k, ok)) <==> Safe(s, RunFill(k, ok))
  {
    var t := AfterFill(s, k, ok);
    var id := s.fills[k].id;
    forall i ensures Pending(t, i) <==> Pending(s, i) && i != id {
      if Pending(s, i) && i != id {
        var l :| 0 <= l < |s.fills| && s.fills[l].id == i;
        assert t.fills[if l < k then l else l - 1] == s.fills[l];
      }
    }
    assert forall i :: i != id ==> (Cached(t, i) <==> Cached(s, i));
    assert Cached(t, id) || id !in t.cache <==> Safe(s, RunFill(k, ok));
  }

  /** Exactly the safe steps keep agreement: the condition can be read off before the step. */
  lemma StepKeepsIff(s: State, a: Action)
    requires Agrees(s) && Free(s, a)
    ensures Agrees(Step(s, a)) <==> Safe(s, a)
  {
    match a
    case Get(id, cacheUp, storageUp) => GetKeeps(s, id, cacheUp, storageUp);
    case Create(room, now, storageOk) => CreateKeeps(s, room, now, storageOk);
    case Update(_, _, _, _, _) => UpdateKeepsIff(s, a);
    case Delete(_, _, _) => DeleteKeepsIff(s, a);
    case RunFill(k, ok) => FillKeepsIff(s, k, ok);
    case Expire(id) =>
      var t := Step(s, a);
      assert forall i :: Pending(t, i) <==> Pending(s, i);
      assert forall i :: i != id ==> (Cached(t, i) <==> Cached(s, i));
  }

  // ---------- Whole runs ----------

  const START := State(map[], map[], [])

  /** Every step is taken with the room's fills finished, and is safe. */
  ghost predicate Orderly(s: State, actions: seq<Action>)
    decreases actions
  {
    actions == [] || (Free(s, actions[0]) && Safe(s, actions[0]) && Orderly(Step(s, actions[0]), actions[1..]))
  }

  lemma {:induction false} RunAgrees(s: State, actions: seq<Action>)
    requires Agrees(s) && Orderly(s, actions)
    ensures Agrees(Run(s, actions))
    decreases actions
  {
    if actions != [] {
      StepKeepsIff(s, actions[0]);
      RunAgrees(Step(s, actions[0]), actions[1..]);
    }
  }

  /**
   After any orderly run a cached room is in the table and agrees with it, and membership is the same with and
   without the cache.
   */
  lemma MemberSameWithoutCache(actions: seq<Action>, id: string, userId: string)
    requires Orderly(START, actions) && !Pending(Run(START, actions), id)
    ensures var s := Run(START, actions);
            && (id in s.cache ==> id in s.rows && SameContent(s.cache[id], s.rows[id]))
            && MemberResult(s, id, userId, true, true) == MemberResult(s, id, userId, false, true)
            && (MemberResult(s, id, userId, true, true).Some? <==> id in s.rows)
  {
    RunAgrees(START, actions);
  }

  /** A fill that finishes after the room is deleted brings the deleted room back: the order matters. */
  lemma LateFillBringsRoomBack(room: Room, now: int)
    requires ValidRoom(room)
    ensures var s := Run(START, [Create(room, now, true), Delete(room.id, true, true), RunFill(0, true)]);
            room.id in s.cache && room.id !in s.rows
            && MemberResult(s, room.id, room.ownerId, true, true) != MemberResult(s, room.id, room.ownerId, false, true)
  {
    var create, delete, fill := Create(room, now, true), Delete(room.id, true, true), RunFill(0, true);
    var s1 := Step(START, create);
    var s2 := Step(s1, delete);
    var s3 := Step(s2, fill);
    assert [create, delete, fill][1..] == [delete, fill] && [delete, fill][1..] == [fill] && [fill][1..] == [];
    assert s1.fills == [Fill(room.id, Prepared(room, now))] == s2.fills;
    assert Run(START, [create, delete, fill]) == Run(s1, [delete, fill]) == Run(s2, [fill]) == Run(s3, []);
  }

  /** The step writes the room, or takes it out of the cache. */
  predicate TouchesRoom(a: Action, id: string) {
    match a
    case Create(room, _, _) => room.id == id
    case Update(room, _, _, _, _) => room.id == id
    case Delete(id', _, _) => id' == id
    case Expire(id') => id' == id
    case _ => false
  }

  /** Fills on their way for the room come from its row. */
  ghost predicate FillsStored(s: State, id: string) {
    forall k :: 0 <= k < |s.fills| && s.fills[k].id == id ==> id in s.rows
  }

  lemma {:induction false} UntouchedStays(s: State, actions: seq<Action>, id: string)
    requires id in s.cache && FillsStored(s, id) && forall a <- actions :: !TouchesRoom(a, id)
    ensures id in Run(s, actions).cache && (id in Run(s, actions).rows <==> id in s.rows)
    decreases actions
  {
    if actions != [] {
      assert !TouchesRoom(actions[0], id);
      UntouchedStays(Step(s, actions[0]), actions[1..], id);
    }
  }

  /**
   An update succeeds whether or not the room is stored. Through every continuation that does not
   write the room or take it out of the cache, it is then a phantom, read through the cache and
   missing from the table, exactly if it was not stored.
   */
  lemma UpdateOfMissingRoom(s: State, room: Room, now: int, storedAt: int, actions: seq<Action>)
    requires Agrees(s) && !Pending(s, room.id) && forall a <- actions :: !TouchesRoom(a, room.id)
    ensures var t := Run(AfterUpdate(s, room, now, storedAt, true, true), actions);
            && GetResult(t, room.id, true, true) != None
            && (GetResult(t, room.id, false, true) == None <==> room.id !in s.rows)
  {
    var u := AfterUpdate(s, room, now, storedAt, true, true);
    UntouchedStays(u, actions, room.id);
    hide Run;
  }

  /**
   Creating over a stored room: the table keeps the type, the owner and the creation time, the
   fill caches the new ones. They agree on each exactly if the new value is the old one.
   */
  lemma RecreateAgreesIff(s: State, room: Room, now: int)
    requires Agrees(s) && !Pending(s, room.id) && room.id in s.rows && ValidRoom(room)
    ensures var t := AfterFill(AfterCreate(s, room, now, true), |s.fills|, true);
            && room.id in t.cache && room.id in t.rows && SameContent(t.cache[room.id], t.rows[room.id])
            && (t.cache[room.id].kind == t.rows[room.id].kind <==> room.kind == s.rows[room.id].kind)
            && (t.cache[room.id].ownerId == t.rows[room.id].ownerId <==> room.ownerId == s.rows[room.id].ownerId)
            && (t.cache[room.id].createdAt == t.rows[room.id].createdAt <==> now == s.rows[room.id].createdAt)
  {
  }

  // ---------- What one call leaves, in terms of the room it is given ----------

  /**
   A stored create: the row has the given name, settings and avatar, and the given members, or the owner
   alone for a group without any; a new row has the given type and owner and this moment as its
   creation. The fill on its way carries the same. Other rows stay.
   */
  lemma CreatedRoom(s: State, room: Room, now: int)
    requires ValidRoom(room)
    ensures var t := AfterCreate(s, room, now, true);
            var members := if room.kind == Group && room.members == [] then [room.ownerId] else room.members;
            && room.id in t.rows && (forall id :: id != room.id ==> (id in t.rows <==> id in s.rows))
            && (forall id <- t.rows :: id != room.id ==> t.rows[id] == s.rows[id])
            && t.rows[room.id].name == room.name && t.rows[room.id].settings == room.settings
            && t.rows[room.id].avatar == room.avatar && t.rows[room.id].members == members
            && t.rows[room.id].updatedAt == now
            && (room.id !in s.rows ==> t.rows[room.id] == room.(members := members, createdAt := now, updatedAt := now))
            && (room.id in s.rows ==>
                  && t.rows[room.id].kind == s.rows[room.id].kind
                  && t.rows[room.id].ownerId == s.rows[room.id].ownerId
                  && t.rows[room.id].createdAt == s.rows[room.id].createdAt)
            && t.cache == s.cache && |t.fills| == |s.fills| + 1 && t.fills[..|s.fills|] == s.fills
            && t.fills[|s.fills|] == Fill(room.id, room.(members := members, createdAt := now, updatedAt := now))
  {
  }

  /** A room is refused exactly for an empty id or owner or a type that is none of the four. */
  lemma RefusedRoomIff(room: Room)
    ensures !ValidRoom(room) <==> room.id == "" || room.ownerId == "" || room.kind.Other?
  {
  }

  /** After a stored create and its fill, membership is that of the room given, with or without the cache. */
  lemma MembersOfCreated(s: State, room: Room, now: int, userId: string, cacheUp: bool)
    requires ValidRoom(room) && !Pending(s, room.id)
    ensures var t := AfterFill(AfterCreate(s, room, now, true), |s.fills|, true);
            MemberResult(t, room.id, userId, cacheUp, true)
            == Some(userId in room.members || (room.kind == Group && room.members == [] && userId == room.ownerId))
  {
    CreatedRoom(s, room, now);
  }

  /**
   A stored update: a row that exists takes the given name, members, settings and avatar and keeps its
   type, owner and creation time, and none appears that did not exist; the cache takes the room.
   */
  lemma UpdatedRoom(s: State, room: Room, now: int, storedAt: int)
    ensures var t := AfterUpdate(s, room, now, storedAt, true, true);
            && t.rows.Keys == s.rows.Keys && (forall id <- s.rows :: id != room.id ==> t.rows[id] == s.rows[id])
            && (room.id in s.rows ==>
                  t.rows[room.id] == s.rows[room.id].(name := room.name, members := room.members,
                                                      settings := room.settings, avatar := room.avatar,
                                                      updatedAt := storedAt))
            && room.id in t.cache && t.cache[room.id] == room.(updatedAt := now)
            && (forall id :: id != room.id ==> (id in t.cache <==> id in s.cache))
            && (forall id <- t.cache :: id != room.id ==> t.cache[id] == s.cache[id])
  {
  }

  /** A delete that goes through leaves the room neither stored nor cached, and no other one touched. */
  lemma DeletedRoom(s: State, id: string)
    ensures var t := AfterDelete(s, id, true, true);
            && t.rows.Keys == s.rows.Keys - {id} && (forall i <- t.rows :: t.rows[i] == s.rows[i])
            && t.cache.Keys == s.cache.Keys - {id} && (forall i <- t.cache :: t.cache[i] == s.cache[i])
            && forall cacheUp :: GetResult(t, id, cacheUp, true) == None
  {
  }

  /** A read that the cache cannot answer gives the row and, when its fill has run, the cache gives it too. */
  lemma ReadFillsCache(s: State, id: string)
    requires id !in s.cache && id in s.rows
    ensures GetResult(s, id, true, true) == Some(s.rows[id])
    ensures var t := AfterFill(AfterGet(s, id, true, true), |s.fills|, true);
            && t.rows == s.rows && t.fills == s.fills && t.cache == s.cache[id := s.rows[id]]
            && GetResult(t, id, true, false) == Some(s.rows[id])
  {
  }

  /** Calls that are refused, by their own tests or by storage, and reads that the cache answers, leave no trace. */
  lemma LeavesNoTrace(s: State, room: Room, id: string, now: int, storedAt: int, ok: bool)
    ensures !ValidRoom(room) || !ok ==> AfterCreate(s, room, now, ok) == s
    ensures AfterUpdate(s, room, now, storedAt, false, ok) == s && AfterDelete(s, id, false, ok) == s
    ensures id in s.cache ==> GetResult(s, id, true, ok) == Some(s.cache[id]) && AfterGet(s, id, true, ok) == s
    ensures id !in s.rows || !ok ==> forall cacheUp :: AfterGet(s, id, cacheUp, ok) == s
  {
  }
}
