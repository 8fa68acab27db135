/**
 What every sequence of registry operations keeps, with the two halves of each deletion interleaved
 with anything else (internal/rooms/manager.go).
 */
module RegistryInvariant {
  import opened Prelude
  import opened RegistrySpec

  datatype Step =
    | Create(hostName: GoString, codes: nat -> GoString, roomId: GoString, hostId: GoString)
    | Register(roomId: GoString, name: GoString, newId: GoString)
    | Promote(roomId: GoString, hostId: GoString)
    | Save(roomId: GoString, cp: Checkpoint, saves: bool)
    | Claim(roomId: GoString, playerId: GoString, version: int, lastStrokeIndex: int)
    | Tag(roomId: GoString, finished: bool)
    | Evict(roomId: GoString)
    | Sweep(limits: Limits)
    | Drop(removal: Removal, deletes: bool)

  // `known` holds every room id minted so far or named in a deletion, `created` those that became rooms,
  // `kept` those whose checkpoint could not be deleted.
  datatype History = History(reg: Registry, known: set<GoString>, created: set<GoString>, kept: set<GoString>)

  const EMPTY := History(Registry(map[], map[], map[], multiset{}, []), {}, {}, {})

  /** What an operation needs: ids it mints are new, and a drop follows an eviction. */
  predicate Possible(h: History, s: Step) {
    match s
    case Create(_, _, roomId, _) => roomId !in h.known
    case Register(roomId, _, newId) =>
      roomId in h.reg.byID ==>
        && newId != h.reg.byID[roomId].hostId
        && forall p :: p in h.reg.byID[roomId].players ==> p.id != newId
    case Drop(x, _) => x in h.reg.dropping
    case _ => true
  }

  function Next(h: History, s: Step, now: int): History {
    match s
    case Create(name, codes, roomId, hostId) =>
      var (reg, result) := Created(h.reg, name, codes, roomId, hostId, now);
      h.(reg := reg, known := h.known + {roomId}, created := if result.Ok? then h.created + {roomId} else h.created)
    case Register(roomId, name, newId) => h.(reg := Registered(h.reg, roomId, name, newId, now).0)
    case Promote(roomId, hostId) => h.(reg := HostUpdated(h.reg, roomId, hostId, now).0)
    case Save(roomId, cp, saves) => h.(reg := CheckpointSaved(h.reg, roomId, cp, saves, now).0)
    case Claim(roomId, playerId, version, last) => h.(reg := HostClaimed(h.reg, roomId, playerId, version, last, now).0)
    case Tag(roomId, finished) => h.(reg := Finish(h.reg, roomId, finished, now).0)
    case Evict(roomId) => h.(reg := Evicted(h.reg, roomId), known := h.known + {roomId})
    case Sweep(limits) => h.(reg := Swept(h.reg, limits, now))
    case Drop(x, deletes) => h.(reg := Dropped(h.reg, x, deletes), kept := if deletes then h.kept else h.kept + {x.id})
  }

  // ---- the invariant ----

  /** The two indexes are inverse to each other. */
  ghost predicate IndexesAgree(r: Registry) {
    && (forall id :: id in r.byID ==> r.byID[id].id == id && r.byID[id].code in r.byCode && r.byCode[r.byID[id].code] == id)
    && (forall code :: code in r.byCode ==> r.byCode[code] in r.byID && r.byID[r.byCode[code]].code == code)
  }

  ghost predicate RoomOk(room: Room) {
    forall p :: p in room.players ==> (p.isHost <==> p.id == room.hostId)
  }

  /** A live room's stored checkpoint is the one the room's version names; none is stored before the first. */
  ghost predicate StoreAgrees(r: Registry) {
    forall id :: id in r.byID ==>
      if id in r.store then r.store[id].version == r.byID[id].snapshotVersion > 0 && r.byID[id].started
      else r.byID[id].snapshotVersion == 0 && !r.byID[id].started
  }

  predicate AwaitsDeletion(r: Registry, id: GoString) {
    Removal(id, true) in r.dropping || Removal(id, false) in r.dropping
  }

  /** A stored checkpoint belongs to a live room, to one awaiting its deletion, or to a failed deletion. */
  ghost predicate StoreOwned(h: History) {
    forall id :: id in h.reg.store ==> id in h.reg.byID || AwaitsDeletion(h.reg, id) || id in h.kept
  }

  /** How often the hook was called, or is still to be called, with an id. */
  function Hooks(r: Registry, id: GoString): nat {
    r.dropping[Removal(id, true)] + multiset(r.notified)[id]
  }

  /** The hook is owed, or was called, exactly once for every room evicted, and never for another id. */
  ghost predicate HooksOk(h: History) {
    && h.reg.byID.Keys <= h.created <= h.known
    && forall id :: Hooks(h.reg, id) == if id in h.created && id !in h.reg.byID then 1 else 0
  }

  ghost predicate IdsKnown(h: History) {
    && h.reg.byID.Keys <= h.known && h.reg.store.Keys <= h.known && h.kept <= h.known
    && (forall x :: x in h.reg.dropping ==> x.id in h.known && x.id !in h.reg.byID)
    && h.kept !! h.reg.byID.Keys
  }

  ghost predicate BaseOk(h: History) {
    && IndexesAgree(h.reg)
    && (forall id :: id in h.reg.byID ==> RoomOk(h.reg.byID[id]))
    && StoreAgrees(h.reg)
    && StoreOwned(h)
    && IdsKnown(h)
  }

  ghost predicate HistoryOk(h: History) {
    BaseOk(h) && HooksOk(h)
  }

  lemma CreateKeeps(h: History, s: Step, now: int)
    requires BaseOk(h) && Possible(h, s) && s.Create?
    ensures BaseOk(Next(h, s, now))
  {
    var r, r' := h.reg, Next(h, s, now).reg;
    var code := FirstFree(r.byCode, s.codes, 0);
    if code.Some? {
      assert r'.byID == r.byID[s.roomId := r'.byID[s.roomId]] && r'.byCode == r.byCode[code.value := s.roomId];
    }
  }

  lemma WithoutAgrees(r: Registry, ids: set<GoString>)
    requires IndexesAgree(r)
    ensures IndexesAgree(WithoutRooms(r, ids))
    ensures WithoutRooms(r, ids).byID.Keys == r.byID.Keys - ids
  {
    var r' := WithoutRooms(r, ids);
    forall code | code in r'.byCode ensures r'.byCode[code] in r'.byID && r'.byID[r'.byCode[code]].code == code {
      var id := r.byCode[code];
      assert id in r.byID && r.byID[id].code == code;
    }
    forall id | id in r'.byID
      ensures r'.byID[id].id == id && r'.byID[id].code in r'.byCode && r'.byCode[r'.byID[id].code] == id
    {
      forall other | other in ids && other in r.byID ensures r.byID[other].code != r.byID[id].code {
        assert r.byCode[r.byID[other].code] == other;
      }
    }
  }

  lemma EvictKeeps(h: History, s: Step, now: int)
    requires BaseOk(h) && Possible(h, s) && s.Evict?
    ensures BaseOk(Next(h, s, now))
  {
    WithoutAgrees(h.reg, {s.roomId});
  }

  lemma SweepKeeps(h: History, s: Step, now: int)
    requires BaseOk(h) && Possible(h, s) && s.Sweep?
    ensures BaseOk(Next(h, s, now))
  {
    WithoutAgrees(h.reg, OutlivedIds(h.reg, s.limits, now));
  }

  lemma DropKeeps(h: History, s: Step, now: int)
    requires BaseOk(h) && Possible(h, s) && s.Drop?
    ensures BaseOk(Next(h, s, now))
  {
    var h' := Next(h, s, now);
    forall id | id in h'.reg.store ensures id in h'.reg.byID || AwaitsDeletion(h'.reg, id) || id in h'.kept {
      assert id != s.removal.id ==> (AwaitsDeletion(h'.reg, id) <==> AwaitsDeletion(h.reg, id));
    }
  }

  lemma FlaggedIsOk(room: Room, hostId: GoString)
    ensures RoomOk(room.(hostId := hostId, players := Flagged(room.players, hostId)))
  {
  }

  lemma SameRoomKeeps(h: History, roomId: GoString, room: Room)
    requires BaseOk(h) && roomId in h.reg.byID && RoomOk(room)
    requires room.id == roomId && room.code == h.reg.byID[roomId].code
    requires room.snapshotVersion == h.reg.byID[roomId].snapshotVersion && room.started == h.reg.byID[roomId].started
    ensures BaseOk(h.(reg := WithRoom(h.reg, roomId, room)))
  {
  }

  lemma RegisterKeeps(h: History, s: Step, now: int)
    requires BaseOk(h) && Possible(h, s) && s.Register?
    ensures BaseOk(Next(h, s, now))
  {
    if s.roomId in h.reg.byID {
      var room := h.reg.byID[s.roomId];
      if Named(room.players, s.name).None? {
        SameRoomKeeps(h, s.roomId, room.(players := room.players + [PlayerStub(s.newId, s.name, false, false)], updatedAt := now));
      }
    }
  }

  lemma PromoteKeeps(h: History, s: Step, now: int)
    requires BaseOk(h) && s.Promote?
    ensures BaseOk(Next(h, s, now))
  {
    if s.roomId in h.reg.byID {
      var room := h.reg.byID[s.roomId];
      FlaggedIsOk(room, s.hostId);
      SameRoomKeeps(h, s.roomId, room.(hostId := s.hostId, players := Flagged(room.players, s.hostId), updatedAt := now));
    }
  }

  lemma ClaimKeeps(h: History, s: Step, now: int)
    requires BaseOk(h) && s.Claim?
    ensures BaseOk(Next(h, s, now))
  {
    if s.roomId in h.reg.byID {
      var room := h.reg.byID[s.roomId];
      FlaggedIsOk(room, s.playerId);
      hide BaseOk, Flagged, Rejected;
      assert room.id == s.roomId && RoomOk(room) by { RoomsOk(h, s.roomId); }
      SameRoomKeeps(h, s.roomId, Claimed(room, s.playerId, s.version, s.lastStrokeIndex, now).0);
    }
  }

  lemma RoomsOk(h: History, id: GoString)
    requires BaseOk(h) && id in h.reg.byID
    ensures h.reg.byID[id].id == id && RoomOk(h.reg.byID[id])
  {
  }

  lemma TagKeeps(h: History, s: Step, now: int)
    requires BaseOk(h) && s.Tag?
    ensures BaseOk(Next(h, s, now))
  {
    if s.roomId in h.reg.byID {
      var room := h.reg.byID[s.roomId];
      SameRoomKeeps(h, s.roomId, room.(finishedAt := if s.finished then Some(now) else None, updatedAt := now));
    }
  }

  lemma SaveKeeps(h: History, s: Step, now: int)
    requires BaseOk(h) && Possible(h, s) && s.Save?
    ensures BaseOk(Next(h, s, now))
  {
    if CheckpointSaved(h.reg, s.roomId, s.cp, s.saves, now).1.Ok? {
      StoredKeeps(h, s.roomId, s.cp, now);
    }
  }

  lemma StoredKeeps(h: History, roomId: GoString, cp: Checkpoint, now: int)
    requires BaseOk(h) && roomId in h.reg.byID && cp.version > h.reg.byID[roomId].snapshotVersion
    ensures BaseOk(h.(reg := CheckpointSaved(h.reg, roomId, cp, true, now).0))
  {
    var r, r' := h.reg, CheckpointSaved(h.reg, roomId, cp, true, now).0;
    var room := r.byID[roomId].(snapshotVersion := cp.version, started := true, updatedAt := now);
    assert r'.byID == r.byID[roomId := room] && r'.byCode == r.byCode && r'.dropping == r.dropping;
    assert r'.store.Keys == r.store.Keys + {roomId};
    assert RoomOk(r.byID[roomId]);
    assert r.byID[roomId].snapshotVersion >= 0;
  }

  // ---- the hook ----

  lemma EvictHooks(h: History, s: Step, now: int)
    requires HooksOk(h) && s.Evict?
    ensures HooksOk(Next(h, s, now))
  {
    var r, r' := h.reg, Next(h, s, now).reg;
    forall id ensures Hooks(r', id) == if id in h.created && id !in r'.byID then 1 else 0 {
      assert r'.dropping[Removal(id, true)] == r.dropping[Removal(id, true)] + if id == s.roomId && id in r.byID then 1 else 0;
    }
  }

  lemma SweepHooks(h: History, s: Step, now: int)
    requires HooksOk(h) && s.Sweep?
    ensures HooksOk(Next(h, s, now))
  {
    var r, r' := h.reg, Next(h, s, now).reg;
    var ids := OutlivedIds(r, s.limits, now);
    forall id ensures Hooks(r', id) == if id in h.created && id !in r'.byID then 1 else 0 {
      assert r'.dropping[Removal(id, true)] == r.dropping[Removal(id, true)] + if id in ids then 1 else 0 by {
        assert multiset(Removals(ids))[Removal(id, true)] == if Removal(id, true) in Removals(ids) then 1 else 0;
      }
    }
  }

  lemma DropHooks(h: History, s: Step, now: int)
    requires HooksOk(h) && s.Drop? && Possible(h, s)
    ensures HooksOk(Next(h, s, now))
  {
    var r, r' := h.reg, Next(h, s, now).reg;
    forall id ensures Hooks(r', id) == Hooks(r, id) {
      if s.removal == Removal(id, true) {
        assert r'.dropping[s.removal] == r.dropping[s.removal] - 1;
        assert multiset(r'.notified) == multiset(r.notified) + multiset{id};
      } else {
        assert r'.dropping[Removal(id, true)] == r.dropping[Removal(id, true)];
        assert multiset(r'.notified)[id] == multiset(r.notified)[id];
      }
    }
  }

  lemma OtherHooks(h: History, s: Step, now: int)
    requires HooksOk(h) && IdsKnown(h) && Possible(h, s) && !s.Evict? && !s.Sweep? && !s.Drop?
    ensures HooksOk(Next(h, s, now))
  {
    var r, r' := h.reg, Next(h, s, now).reg;
    assert r'.dropping == r.dropping && r'.notified == r.notified;
    assert forall id :: Hooks(r', id) == Hooks(r, id);
  }

  lemma StepKeeps(h: History, s: Step, now: int)
    requires HistoryOk(h) && Possible(h, s)
    ensures HistoryOk(Next(h, s, now))
  {
    BaseKeeps(h, s, now);
    hide BaseOk, HooksOk, Next;
    match s
    case Evict(_) => EvictHooks(h, s, now);
    case Sweep(_) => SweepHooks(h, s, now);
    case Drop(_, _) => DropHooks(h, s, now);
    case _ =>
      BaseKnows(h);
      OtherHooks(h, s, now);
  }

  lemma BaseKnows(h: History)
    requires BaseOk(h)
    ensures IdsKnown(h)
  {
  }

  lemma BaseKeeps(h: History, s: Step, now: int)
    requires BaseOk(h) && Possible(h, s)
    ensures BaseOk(Next(h, s, now))
  {
    hide BaseOk, Possible, Next;
    match s
    case Create(_, _, _, _) => CreateKeeps(h, s, now);
    case Evict(_) => EvictKeeps(h, s, now);
    case Sweep(_) => SweepKeeps(h, s, now);
    case Drop(_, _) => DropKeeps(h, s, now);
    case Save(_, _, _) => SaveKeeps(h, s, now);
    case Register(_, _, _) => RegisterKeeps(h, s, now);
    case Promote(_, _) => PromoteKeeps(h, s, now);
    case Claim(_, _, _, _) => ClaimKeeps(h, s, now);
    case Tag(_, _) => TagKeeps(h, s, now);
  }

  // ---- runs ----

  datatype Timed = Timed(step: Step, now: int)

  predicate PossibleRun(h: History, steps: seq<Timed>)
    decreases |steps|
  {
    steps != [] ==> Possible(h, steps[0].step) && PossibleRun(Next(h, steps[0].step, steps[0].now), steps[1..])
  }

  function Run(h: History, steps: seq<Timed>): History
    decreases |steps|
  {
    if steps == [] then h else Run(Next(h, steps[0].step, steps[0].now), steps[1..])
  }

  lemma {:induction false} RunKeeps(h: History, steps: seq<Timed>)
    requires HistoryOk(h) && PossibleRun(h, steps)
    ensures HistoryOk(Run(h, steps))
    decreases |steps|
  {
    if steps != [] {
      StepKeeps(h, steps[0].step, steps[0].now);
      RunKeeps(Next(h, steps[0].step, steps[0].now), steps[1..]);
    }
  }

  /** From an empty registry, every run leaves it consistent. */
  lemma RegistryStaysConsistent(steps: seq<Timed>)
    requires PossibleRun(EMPTY, steps)
    ensures var h := Run(EMPTY, steps);
            && IndexesAgree(h.reg)
            && (forall id, p :: id in h.reg.byID && p in h.reg.byID[id].players ==> (p.isHost <==> p.id == h.reg.byID[id].hostId))
            && StoreAgrees(h.reg) && StoreOwned(h)
  {
    RunKeeps(EMPTY, steps);
  }

  /** Once nothing is left to finish, the hook was called exactly once for every room evicted, and for no other. */
  lemma EveryEvictionIsNotifiedOnce(steps: seq<Timed>, id: GoString)
    requires PossibleRun(EMPTY, steps)
    ensures var h := Run(EMPTY, steps);
            && multiset(h.reg.notified)[id] <= (if id in h.created && id !in h.reg.byID then 1 else 0)
            && (h.reg.dropping == multiset{} ==>
                  multiset(h.reg.notified)[id] == if id in h.created && id !in h.reg.byID then 1 else 0)
  {
    RunKeeps(EMPTY, steps);
    var h := Run(EMPTY, steps);
    assert Hooks(h.reg, id) == h.reg.dropping[Removal(id, true)] + multiset(h.reg.notified)[id];
  }

  // ---- nothing goes back ----

  /** What happened to one known room between two moments. */
  ghost predicate Onward(h: History, h': History, id: GoString) {
    if id in h'.reg.byID then
      && id in h.reg.byID
      && h.reg.byID[id].snapshotVersion <= h'.reg.byID[id].snapshotVersion
      && (id in h.reg.store ==> id in h'.reg.store)
    else if id in h.reg.byID then true
    else id in h'.reg.store ==> id in h.reg.store && h'.reg.store[id] == h.reg.store[id]
  }

  lemma StepGoesOn(h: History, s: Step, now: int, id: GoString)
    requires BaseOk(h) && Possible(h, s) && id in h.known
    ensures Onward(h, Next(h, s, now), id)
  {
    match s
    case Evict(_) => WithoutAgrees(h.reg, {s.roomId});
    case Sweep(_) => WithoutAgrees(h.reg, OutlivedIds(h.reg, s.limits, now));
    case _ =>
  }

  lemma KnownGrows(h: History, s: Step, now: int)
    ensures h.known <= Next(h, s, now).known
  {
  }

  /**
   Nothing goes back, whatever the order of calls, late writes and half-done deletions. A live room's
   snapshot version never falls. An evicted room never comes back, and nothing writes its checkpoint
   again: the stored one stays as it was until it is deleted, and then none is stored ever after.
   */
  lemma {:induction false} NothingGoesBack(h: History, steps: seq<Timed>, id: GoString)
    requires HistoryOk(h) && PossibleRun(h, steps) && id in h.known
    ensures Onward(h, Run(h, steps), id)
    decreases |steps|
  {
    if steps != [] {
      var h1 := Next(h, steps[0].step, steps[0].now);
      hide BaseOk, HooksOk, Possible, Next;
      StepKeeps(h, steps[0].step, steps[0].now);
      StepGoesOn(h, steps[0].step, steps[0].now, id);
      KnownGrows(h, steps[0].step, steps[0].now);
      NothingGoesBack(h1, steps[1..], id);
    }
  }

  /** So the checkpoint of a live room never regresses. */
  lemma StoredVersionNeverFalls(h: History, steps: seq<Timed>, id: GoString)
    requires HistoryOk(h) && PossibleRun(h, steps) && id in h.reg.store
    requires id in Run(h, steps).reg.byID
    ensures id in Run(h, steps).reg.store && h.reg.store[id].version <= Run(h, steps).reg.store[id].version
  {
    RunKeeps(h, steps);
    NothingGoesBack(h, steps, id);
  }

  // ---- single operations ----

  /** A new room gets the first of fifty codes that is free; with none free nothing changes. */
  lemma CreateUsesAFreeCode(r: Registry, name: GoString, codes: nat -> GoString, roomId: GoString, hostId: GoString, now: int)
    ensures var (r', result) := Created(r, name, codes, roomId, hostId, now);
            if forall i :: 0 <= i < ROOM_CODE_ATTEMPTS ==> codes(i) in r.byCode then result == Err(CodeExhausted) && r' == r
            else
              && result.Ok? && result.value.code !in r.byCode
              && LookedUp(r', result.value.code) == Ok(result.value)
              && forall code :: code in r.byCode && r.byCode[code] != roomId ==> LookedUp(r', code) == LookedUp(r, code)
  {
  }

  /** Registering a name twice attaches to the same player; an empty name is always a new player. */
  lemma RegisterIsIdempotentByName(r: Registry, roomId: GoString, name: GoString, id1: GoString, id2: GoString, t1: int, t2: int)
    requires roomId in r.byID
    ensures var (r1, s1) := Registered(r, roomId, name, id1, t1);
            var (r2, s2) := Registered(r1, roomId, name, id2, t2);
            && s1.Ok? && s2.Ok?
            && (name != [] ==> r2 == r1 && s2 == s1)
            && (name == [] ==> s2.value.id == id2 && |r2.byID[roomId].players| == |r.byID[roomId].players| + 2)
  {
    var room := r.byID[roomId];
    if Named(room.players, name).None? {
      NamedAfterAppend(room.players, PlayerStub(id1, name, false, false), name);
    }
  }

  lemma {:induction false} NamedAfterAppend(players: seq<PlayerStub>, p: PlayerStub, name: GoString)
    requires Named(players, name).None? && p.name == name
    ensures Named(players + [p], name) == if name == [] then None else Some(|players|)
  {
    if players != [] && name != [] {
      assert (players + [p])[1..] == players[1..] + [p];
      NamedAfterAppend(players[1..], p, name);
    }
  }

  /** A sweep removes exactly the rooms that outlived their limit, with their codes, and no other. */
  lemma SweepIsExact(r: Registry, limits: Limits, now: int, id: GoString)
    requires IndexesAgree(r) && id in r.byID
    ensures var r', room := Swept(r, limits, now), r.byID[id];
            var goes := now - room.updatedAt > limits.idleTTL ||
                        (room.finishedAt.Some? && now - room.updatedAt > limits.finishedGrace);
            && (id in r'.byID <==> !goes)
            && (if goes then LookedUp(r', room.code) == Err(RoomNotFound) else LookedUp(r', room.code) == Ok(room))
            && r'.dropping[Removal(id, true)] == r.dropping[Removal(id, true)] + (if goes then 1 else 0)
            && r'.store == r.store
  {
    WithoutAgrees(r, OutlivedIds(r, limits, now));
    var gone := Removals(OutlivedIds(r, limits, now));
    assert multiset(gone)[Removal(id, true)] == if Removal(id, true) in gone then 1 else 0;
  }
}
