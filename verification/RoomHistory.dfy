/**
 What a room is, read off the operations that led to it (internal/rooms/manager.go): its stored checkpoint,
 its activity and its mark, over every run of the registry.
 */
module RoomHistory {
  import opened Prelude
  import opened RegistrySpec
  import opened RegistryInvariant

  lemma {:induction false} RunOneMore(h: History, steps: seq<Timed>, s: Timed)
    ensures Run(h, steps + [s]) == Next(Run(h, steps), s.step, s.now)
    decreases |steps|
  {
    if steps == [] {
      assert ([] + [s])[1..] == [];
      assert Run(Next(h, s.step, s.now), []) == Next(h, s.step, s.now);
    } else {
      assert (steps + [s])[1..] == steps[1..] + [s];
      RunOneMore(Next(h, steps[0].step, steps[0].now), steps[1..], s);
    }
  }

  lemma {:induction false} PossibleOneMore(h: History, steps: seq<Timed>, s: Timed)
    ensures PossibleRun(h, steps + [s]) <==> PossibleRun(h, steps) && Possible(Run(h, steps), s.step)
    decreases |steps|
  {
    if steps == [] {
      assert ([] + [s])[1..] == [];
    } else {
      assert (steps + [s])[1..] == steps[1..] + [s];
      PossibleOneMore(Next(h, steps[0].step, steps[0].now), steps[1..], s);
    }
  }

  // ---- read off the steps, newest first ----

  // What is remembered of a room: its last accepted checkpoint, when it was last active, and its mark.
  datatype Record = Record(saved: Option<Checkpoint>, active: int, finished: Option<int>)

  /** A checkpoint is accepted that is newer than the room's, if storage works. */
  predicate Accepted(room: Room, s: Step) {
    s.Save? && s.saves && s.cp.version > room.snapshotVersion
  }

  /** Somebody registers under a name that is new to the room, or without one. */
  predicate Enters(room: Room, s: Step) {
    s.Register? && (s.name == [] || forall p :: p in room.players ==> p.name != s.name)
  }

  /** A claim that is endorsed. */
  predicate Endorsed(room: Room, s: Step, now: int) {
    s.Claim? && Claimed(room, s.playerId, s.version, s.lastStrokeIndex, now).1.endorsed
  }

  /** The steps that a room counts as activity. */
  predicate Touches(room: Room, s: Step, now: int) {
    s.Promote? || s.Tag? || Accepted(room, s) || Enters(room, s) || Endorsed(room, s, now)
  }

  predicate About(s: Step, id: GoString) {
    match s
    case Register(roomId, _, _) => roomId == id
    case Promote(roomId, _) => roomId == id
    case Save(roomId, _, _) => roomId == id
    case Claim(roomId, _, _, _) => roomId == id
    case Tag(roomId, _) => roomId == id
    case _ => false
  }

  function Noted(r: Record, room: Room, s: Step, now: int): Record {
    Record(
      if Accepted(room, s) then Some(s.cp.(updatedAt := now)) else r.saved,
      if Touches(room, s, now) then now else r.active,
      if s.Tag? then (if s.finished then Some(now) else None) else r.finished)
  }

  /** The record of a room after some steps. */
  function RecordOf(steps: seq<Timed>, id: GoString): Record
    decreases |steps|
  {
    if steps == [] then Record(None, 0, None)
    else
      var n := |steps| - 1;
      var before, s := Run(EMPTY, steps[..n]).reg, steps[n];
      if s.step.Create? && s.step.roomId == id then Record(None, s.now, None)
      else if About(s.step, id) && id in before.byID then Noted(RecordOf(steps[..n], id), before.byID[id], s.step, s.now)
      else RecordOf(steps[..n], id)
  }

  // ---- the room agrees with it ----

  ghost predicate Agrees(r: Registry, id: GoString, rec: Record) {
    id in r.byID ==>
      && r.byID[id].updatedAt == rec.active && r.byID[id].finishedAt == rec.finished
      && (id in r.store <==> rec.saved.Some?)
      && (rec.saved.Some? ==> r.store[id] == rec.saved.value)
  }

  lemma {:induction false} NamedIs(players: seq<PlayerStub>, name: GoString)
    ensures Named(players, name).None? <==> name == [] || forall p :: p in players ==> p.name != name
  {
    if players != [] && name != [] {
      NamedIs(players[1..], name);
    }
  }

  /** A step about the room itself. */
  lemma OwnStepAgrees(h: History, s: Step, now: int, id: GoString, rec: Record)
    requires id in h.reg.byID && About(s, id) && Agrees(h.reg, id, rec)
    ensures Agrees(Next(h, s, now).reg, id, Noted(rec, h.reg.byID[id], s, now))
  {
    var room := h.reg.byID[id];
    hide Rejected, Flagged;
    if s.Register? {
      NamedIs(room.players, s.name);
    }
  }

  /** Any other step leaves the room as it is, or takes it away. */
  lemma OtherStepAgrees(h: History, s: Step, now: int, id: GoString, rec: Record)
    requires HistoryOk(h) && Possible(h, s) && Agrees(h.reg, id, rec)
    requires !(s.Create? && s.roomId == id) && !(About(s, id) && id in h.reg.byID)
    ensures Agrees(Next(h, s, now).reg, id, rec)
  {
    hide HooksOk, RoomOk, StoreAgrees, StoreOwned, IndexesAgree, Rejected, Flagged;
  }

  lemma NewRoomAgrees(h: History, s: Step, now: int)
    requires HistoryOk(h) && Possible(h, s) && s.Create?
    ensures Agrees(Next(h, s, now).reg, s.roomId, Record(None, now, None))
  {
    hide HooksOk, RoomOk, StoreAgrees, StoreOwned, IndexesAgree;
  }

  /**
   In every run a live room's stored checkpoint is the last one accepted for it, whole, with the time it
   came; its activity is the time of the last step that touched it; its mark is the last one set.
   */
  lemma {:induction false} RoomsRememberTheLast(steps: seq<Timed>, id: GoString)
    requires PossibleRun(EMPTY, steps)
    ensures Agrees(Run(EMPTY, steps).reg, id, RecordOf(steps, id))
    decreases |steps|
  {
    if steps != [] {
      hide Possible, Next, Agrees, Noted, HistoryOk;
      var n := |steps| - 1;
      var front, s := steps[..n], steps[n];
      assert steps == front + [s];
      PossibleOneMore(EMPTY, front, s);
      RunOneMore(EMPTY, front, s);
      RoomsRememberTheLast(front, id);
      assert HistoryOk(EMPTY) by { EmptyOk(); }
      RunKeeps(EMPTY, front);
      var h := Run(EMPTY, front);
      if s.step.Create? && s.step.roomId == id {
        NewRoomAgrees(h, s.step, s.now);
      } else if About(s.step, id) && id in h.reg.byID {
        OwnStepAgrees(h, s.step, s.now, id, RecordOf(front, id));
      } else {
        OtherStepAgrees(h, s.step, s.now, id, RecordOf(front, id));
      }
    }
  }

  lemma EmptyOk()
    ensures HistoryOk(EMPTY)
  {
  }

  /** So a sweep takes a room exactly when its last activity is too long ago, by the shorter limit if it is marked. */
  lemma SweepGoesByTheHistory(steps: seq<Timed>, id: GoString, limits: Limits, now: int)
    requires PossibleRun(EMPTY, steps) && id in Run(EMPTY, steps).reg.byID
    ensures var rec := RecordOf(steps, id);
            id in Swept(Run(EMPTY, steps).reg, limits, now).byID <==>
            now - rec.active <= limits.idleTTL && (rec.finished.Some? ==> now - rec.active <= limits.finishedGrace)
  {
    hide HistoryOk, RecordOf, Run, PossibleRun;
    RoomsRememberTheLast(steps, id);
  }

  // ---- single operations ----

  /**
   A checkpoint is refused for a room that is gone, and for a version that is not newer, which is told
   with the current one; when storage fails it is lost; and none of these changes anything. Otherwise it
   is stored as it came, but for the time.
   */
  lemma SaveDecidedExactly(r: Registry, roomId: GoString, cp: Checkpoint, saves: bool, now: int)
    ensures var (r', result) := CheckpointSaved(r, roomId, cp, saves, now);
            if roomId !in r.byID then result == Err(RoomNotFound) && r' == r
            else if cp.version <= r.byID[roomId].snapshotVersion then
              result == Err(StaleCheckpoint(cp.version, r.byID[roomId].snapshotVersion)) && r' == r
            else if !saves then result == Err(StoreFailed) && r' == r
            else
              && result.Ok? && roomId in r'.store && r' == r.(byID := r'.byID, store := r.store[roomId := r'.store[roomId]])
              && r'.store[roomId] == Checkpoint(cp.version, cp.state, cp.logTailFromIndex, cp.logTail, now)
              && r'.byID == r.byID[roomId := r.byID[roomId].(snapshotVersion := cp.version, started := true, updatedAt := now)]
  {
  }

  /** A new room has its creator, and nobody else, who is its host. */
  lemma CreatedRoomIs(r: Registry, name: GoString, codes: nat -> GoString, roomId: GoString, hostId: GoString, now: int)
    ensures var (r', result) := Created(r, name, codes, roomId, hostId, now);
            result.Ok? ==>
              && result.value == Room(roomId, result.value.code, hostId, [PlayerStub(hostId, name, true, false)], false, 0, now, now, None, None)
              && r' == r.(byID := r.byID[roomId := result.value], byCode := r.byCode[result.value.code := roomId])
              && exists i: nat :: i < 50 && codes(i) == result.value.code && forall j: nat :: j < i ==> codes(j) in r.byCode
  {
    if FirstFree(r.byCode, codes, 0).Some? {
      var i := FirstFreeIs(r.byCode, codes, 0);
    }
  }

  lemma {:induction false} FirstFreeIs(byCode: map<GoString, GoString>, codes: nat -> GoString, from: nat) returns (i: nat)
    requires from <= ROOM_CODE_ATTEMPTS && FirstFree(byCode, codes, from).Some?
    ensures from <= i < ROOM_CODE_ATTEMPTS && codes(i) == FirstFree(byCode, codes, from).value
    ensures forall j: nat :: from <= j < i ==> codes(j) in byCode
    decreases ROOM_CODE_ATTEMPTS - from
  {
    if codes(from) !in byCode {
      i := from;
    } else {
      i := FirstFreeIs(byCode, codes, from + 1);
    }
  }

  /**
   Registering attaches to the first player with the name, changing nothing; or it seats a new player,
   last, who is not the host.
   */
  lemma RegisteredPlayerIs(r: Registry, roomId: GoString, name: GoString, newId: GoString, now: int)
    requires roomId in r.byID
    ensures var (r', result), room := Registered(r, roomId, name, newId, now), r.byID[roomId];
            && result.Ok?
            && if name == [] || forall p :: p in room.players ==> p.name != name then
                 && result.value == PlayerStub(newId, name, false, false)
                 && r' == r.(byID := r.byID[roomId := room.(players := room.players + [result.value], updatedAt := now)])
               else
                 && r' == r && result.value.name == name
                 && exists k :: 0 <= k < |room.players| && room.players[k] == result.value
                      && forall j :: 0 <= j < k ==> room.players[j].name != name
  {
    NamedIs(r.byID[roomId].players, name);
    NamedIsFirst(r.byID[roomId].players, name);
  }

  lemma {:induction false} NamedIsFirst(players: seq<PlayerStub>, name: GoString)
    ensures var k := Named(players, name); k.Some? ==> forall j :: 0 <= j < k.value ==> players[j].name != name
  {
    if players != [] && name != [] {
      NamedIsFirst(players[1..], name);
    }
  }
}
