/**
 What the operations of the server's room registry do (internal/rooms/manager.go), on values.

 A Go string is its bytes and a time is a number of nanoseconds; the clock, the random codes and the
 minted ids are arguments. Each operation is one section under the manager's lock. DeleteRoom and
 SweepOnce delete checkpoints, and call the OnRoomDeleted hook, only after unlocking, so they are two
 operations each; `dropping` holds the removals that running calls have still to finish, and `notified`
 the ids the hook was called with.
 */
module RegistrySpec {
  import opened Prelude
  import opened Utf8
  import opened IdOrder

  type GoString = Bytes

  datatype PlayerStub = PlayerStub(id: GoString, name: GoString, isHost: bool, connected: bool)

  datatype ClaimRecord = ClaimRecord(playerId: GoString, version: int, lastStrokeIndex: int, at: int)

  datatype Room = Room(
    id: GoString,
    code: GoString,
    hostId: GoString,
    players: seq<PlayerStub>,
    started: bool,
    snapshotVersion: int,
    createdAt: int,
    updatedAt: int,
    finishedAt: Option<int>,
    lastClaim: Option<ClaimRecord>)

  datatype Checkpoint = Checkpoint(version: int, state: Bytes, logTailFromIndex: int, logTail: Bytes, updatedAt: int)

  datatype RoomError = RoomNotFound | CodeExhausted | StaleCheckpoint(version: int, current: int) | StoreFailed

  datatype ClaimReply = ClaimReply(hostId: GoString, version: int, lastStrokeIndex: int, endorsed: bool)

  datatype Limits = Limits(idleTTL: int, finishedGrace: int)

  const ROOM_CODE_ATTEMPTS: nat := 50
  const CLAIM_GRACE_WINDOW := 2_000_000_000
  const DEFAULT_LIMITS := Limits(600_000_000_000, 60_000_000_000)

  // A removal past its unlock; `existed` is whether the room was there.
  datatype Removal = Removal(id: GoString, existed: bool)

  datatype Registry = Registry(
    byID: map<GoString, Room>,
    byCode: map<GoString, GoString>,
    store: map<GoString, Checkpoint>,
    dropping: multiset<Removal>,
    notified: seq<GoString>)

  // ---- rooms ----

  /** The first of the candidate codes that is not taken. */
  function FirstFree(byCode: map<GoString, GoString>, codes: nat -> GoString, from: nat): (r: Option<GoString>)
    requires from <= ROOM_CODE_ATTEMPTS
    ensures r.Some? ==> r.value !in byCode
    ensures r.None? <==> forall i :: from <= i < ROOM_CODE_ATTEMPTS ==> codes(i) in byCode
    decreases ROOM_CODE_ATTEMPTS - from
  {
    if from == ROOM_CODE_ATTEMPTS then None
    else if codes(from) !in byCode then Some(codes(from))
    else FirstFree(byCode, codes, from + 1)
  }

  function Created(r: Registry, hostName: GoString, codes: nat -> GoString, roomId: GoString, hostId: GoString, now: int)
    : (Registry, Result<Room, RoomError>)
  {
    match FirstFree(r.byCode, codes, 0)
    case None => (r, Err(CodeExhausted))
    case Some(code) =>
      var room := Room(roomId, code, hostId, [PlayerStub(hostId, hostName, true, false)], false, 0, now, now, None, None);
      (r.(byID := r.byID[roomId := room], byCode := r.byCode[code := roomId]), Ok(room))
  }

  function LookedUp(r: Registry, code: GoString): Result<Room, RoomError> {
    if code !in r.byCode || r.byCode[code] !in r.byID then Err(RoomNotFound) else Ok(r.byID[r.byCode[code]])
  }

  /** The first player with this name, unless the name is empty. */
  function Named(players: seq<PlayerStub>, name: GoString): (r: Option<nat>)
    ensures r.Some? ==> r.value < |players| && players[r.value].name == name
  {
    if players == [] || name == [] then None
    else if players[0].name == name then Some(0)
    else match Named(players[1..], name) case None => None case Some(k) => Some(k + 1)
  }

  function WithRoom(r: Registry, roomId: GoString, room: Room): Registry {
    r.(byID := r.byID[roomId := room])
  }

  function Registered(r: Registry, roomId: GoString, name: GoString, newId: GoString, now: int): (Registry, Result<PlayerStub, RoomError>) {
    if roomId !in r.byID then (r, Err(RoomNotFound))
    else
      var room := r.byID[roomId];
      match Named(room.players, name)
      case Some(k) => (r, Ok(room.players[k]))
      case None =>
        var stub := PlayerStub(newId, name, false, false);
        (WithRoom(r, roomId, room.(players := room.players + [stub], updatedAt := now)), Ok(stub))
  }

  /** Every player's flag says whether it is the host. */
  function Flagged(players: seq<PlayerStub>, hostId: GoString): seq<PlayerStub> {
    seq(|players|, i requires 0 <= i < |players| => players[i].(isHost := players[i].id == hostId))
  }

  function HostUpdated(r: Registry, roomId: GoString, hostId: GoString, now: int): (Registry, Result<(), RoomError>) {
    if roomId !in r.byID then (r, Err(RoomNotFound))
    else
      var room := r.byID[roomId];
      (WithRoom(r, roomId, room.(hostId := hostId, players := Flagged(room.players, hostId), updatedAt := now)), Ok(()))
  }

  function CheckpointSaved(r: Registry, roomId: GoString, cp: Checkpoint, saves: bool, now: int): (Registry, Result<(), RoomError>) {
    if roomId !in r.byID then (r, Err(RoomNotFound))
    else if cp.version <= r.byID[roomId].snapshotVersion then (r, Err(StaleCheckpoint(cp.version, r.byID[roomId].snapshotVersion)))
    else if !saves then (r, Err(StoreFailed))
    else
      var room := r.byID[roomId].(snapshotVersion := cp.version, started := true, updatedAt := now);
      (WithRoom(r, roomId, room).(store := r.store[roomId := cp.(updatedAt := now)]), Ok(()))
  }

  function Finish(r: Registry, roomId: GoString, finished: bool, now: int): (Registry, Result<(), RoomError>) {
    if roomId !in r.byID then (r, Err(RoomNotFound))
    else (WithRoom(r, roomId, r.byID[roomId].(finishedAt := if finished then Some(now) else None, updatedAt := now)), Ok(()))
  }

  // ---- host claims ----

  /** Higher version first, then more strokes, then the smaller id. */
  predicate TupleBeats(vA: int, sA: int, pA: GoString, vB: int, sB: int, pB: GoString) {
    if vA != vB then vA > vB else if sA != sB then sA > sB else LtBytes(pA, pB)
  }

  /** A host is in place, and either no claim is on record, it is too old, or this one does not beat it. */
  predicate Rejected(room: Room, playerId: GoString, version: int, lastStrokeIndex: int, now: int) {
    room.hostId != [] &&
    match room.lastClaim
    case None => true
    case Some(best) =>
      || now - best.at > CLAIM_GRACE_WINDOW
      || !TupleBeats(version, lastStrokeIndex, playerId, best.version, best.lastStrokeIndex, best.playerId)
  }

  function Claimed(room: Room, playerId: GoString, version: int, lastStrokeIndex: int, now: int): (Room, ClaimReply) {
    if room.hostId == playerId && playerId != [] then
      (room.(updatedAt := now), ClaimReply(playerId, version, lastStrokeIndex, true))
    else if Rejected(room, playerId, version, lastStrokeIndex, now) then
      (room, match room.lastClaim
             case None => ClaimReply(room.hostId, room.snapshotVersion, 0, false)
             case Some(best) => ClaimReply(room.hostId, best.version, best.lastStrokeIndex, false))
    else
      (room.(hostId := playerId, players := Flagged(room.players, playerId),
             lastClaim := Some(ClaimRecord(playerId, version, lastStrokeIndex, now)), updatedAt := now),
       ClaimReply(playerId, version, lastStrokeIndex, true))
  }

  function HostClaimed(r: Registry, roomId: GoString, playerId: GoString, version: int, lastStrokeIndex: int, now: int)
    : (Registry, Result<ClaimReply, RoomError>)
  {
    if roomId !in r.byID then (r, Err(RoomNotFound))
    else
      var (room, reply) := Claimed(r.byID[roomId], playerId, version, lastStrokeIndex, now);
      (WithRoom(r, roomId, room), Ok(reply))
  }

  // ---- removal ----

  predicate Outlived(room: Room, limits: Limits, now: int) {
    var idle := now - room.updatedAt;
    !(idle <= limits.idleTTL && (room.finishedAt.None? || idle <= limits.finishedGrace))
  }

  function WithoutRooms(r: Registry, ids: set<GoString>): Registry {
    r.(byID := r.byID - ids, byCode := r.byCode - set id | id in ids && id in r.byID :: r.byID[id].code)
  }

  function Removals(ids: set<GoString>): set<Removal> {
    set id | id in ids :: Removal(id, true)
  }

  /** The locked half of DeleteRoom. */
  function Evicted(r: Registry, roomId: GoString): Registry {
    WithoutRooms(r, {roomId}).(dropping := r.dropping + multiset{Removal(roomId, roomId in r.byID)})
  }

  function OutlivedIds(r: Registry, limits: Limits, now: int): set<GoString> {
    set id | id in r.byID && Outlived(r.byID[id], limits, now)
  }

  /** The locked half of SweepOnce. */
  function Swept(r: Registry, limits: Limits, now: int): Registry {
    var ids := OutlivedIds(r, limits, now);
    WithoutRooms(r, ids).(dropping := r.dropping + multiset(Removals(ids)))
  }

  /** The unlocked half of either, for one removal: the store, then the hook. */
  function Dropped(r: Registry, x: Removal, deletes: bool): Registry {
    r.(store := if deletes then r.store - {x.id} else r.store,
       dropping := r.dropping - multiset{x},
       notified := if x.existed then r.notified + [x.id] else r.notified)
  }
}
