/** The registry as an object: internal/rooms/manager.go, method by method. */
module RoomManager {
  import opened Prelude
  import opened Utf8
  import opened IdOrder
  import opened RegistrySpec

  class Manager {
    var byID: map<GoString, Room>
    var byCode: map<GoString, GoString>
    var store: map<GoString, Checkpoint>
    var dropping: multiset<Removal>
    var notified: seq<GoString>
    const limits: Limits

    constructor (limits: Limits)
      ensures Core() == Registry(map[], map[], map[], multiset{}, []) && this.limits == limits
    {
      byID, byCode, store, dropping, notified := map[], map[], map[], multiset{}, [];
      this.limits := limits;
    }

    function Core(): Registry
      reads this
    {
      Registry(byID, byCode, store, dropping, notified)
    }

    /** Up to fifty random codes are tried. */
    method MintCode(codes: nat -> GoString) returns (r: Result<GoString, RoomError>)
      ensures r == match FirstFree(byCode, codes, 0) case None => Err(CodeExhausted) case Some(code) => Ok(code)
    {
      var i := 0;
      while i < ROOM_CODE_ATTEMPTS
        invariant 0 <= i <= ROOM_CODE_ATTEMPTS
        invariant FirstFree(byCode, codes, 0) == FirstFree(byCode, codes, i)
      {
        var code := codes(i);
        if code !in byCode {
          return Ok(code);
        }
        i := i + 1;
      }
      return Err(CodeExhausted);
    }

    method CreateRoom(hostName: GoString, codes: nat -> GoString, roomId: GoString, hostId: GoString, now: int)
      returns (r: Result<Room, RoomError>)
      modifies this`byID, this`byCode
      ensures (Core(), r) == Created(old(Core()), hostName, codes, roomId, hostId, now)
    {
      var minted := MintCode(codes);
      if minted.Err? {
        return Err(minted.error);
      }
      var host := PlayerStub(hostId, hostName, true, false);
      var room := Room(roomId, minted.value, hostId, [host], false, 0, now, now, None, None);
      byID := byID[roomId := room];
      byCode := byCode[minted.value := roomId];
      return Ok(room);
    }

    method LookupByCode(code: GoString) returns (r: Result<Room, RoomError>)
      ensures r == LookedUp(Core(), code)
    {
      if code !in byCode {
        return Err(RoomNotFound);
      }
      var id := byCode[code];
      if id !in byID {
        return Err(RoomNotFound);
      }
      return Ok(byID[id]);
    }

    method RegisterPlayer(roomId: GoString, name: GoString, newId: GoString, now: int) returns (r: Result<PlayerStub, RoomError>)
      modifies this`byID
      ensures (Core(), r) == Registered(old(Core()), roomId, name, newId, now)
    {
      if roomId !in byID {
        return Err(RoomNotFound);
      }
      var room := byID[roomId];
      var i := 0;
      while i < |room.players|
        invariant 0 <= i <= |room.players|
        invariant match Named(room.players[i..], name)
                  case None => Named(room.players, name).None?
                  case Some(k) => Named(room.players, name) == Some(k + i)
      {
        assert room.players[i..][1..] == room.players[i + 1..];
        if room.players[i].name == name && name != [] {
          return Ok(room.players[i]);
        }
        i := i + 1;
      }
      var stub := PlayerStub(newId, name, false, false);
      byID := byID[roomId := room.(players := room.players + [stub], updatedAt := now)];
      return Ok(stub);
    }

    /** The loop that sets every player's flag. */
    method FlagHost(players: seq<PlayerStub>, hostId: GoString) returns (flagged: seq<PlayerStub>)
      ensures flagged == Flagged(players, hostId)
    {
      flagged := players;
      var i := 0;
      while i < |flagged|
        invariant 0 <= i <= |flagged| == |players|
        invariant forall k :: 0 <= k < |players| ==>
          flagged[k] == if k < i then players[k].(isHost := players[k].id == hostId) else players[k]
      {
        flagged := flagged[i := flagged[i].(isHost := flagged[i].id == hostId)];
        i := i + 1;
      }
    }

    method UpdateHost(roomId: GoString, newHostId: GoString, now: int) returns (r: Result<(), RoomError>)
      modifies this`byID
      ensures (Core(), r) == HostUpdated(old(Core()), roomId, newHostId, now)
    {
      if roomId !in byID {
        return Err(RoomNotFound);
      }
      var room := byID[roomId];
      var players := FlagHost(room.players, newHostId);
      byID := byID[roomId := room.(hostId := newHostId, players := players, updatedAt := now)];
      return Ok(());
    }

    method SaveCheckpoint(roomId: GoString, cp: Checkpoint, saves: bool, now: int) returns (r: Result<(), RoomError>)
      modifies this`byID, this`store
      ensures (Core(), r) == CheckpointSaved(old(Core()), roomId, cp, saves, now)
    {
      if roomId !in byID {
        return Err(RoomNotFound);
      }
      var room := byID[roomId];
      if cp.version <= room.snapshotVersion {
        return Err(StaleCheckpoint(cp.version, room.snapshotVersion));
      }
      if !saves {
        return Err(StoreFailed);
      }
      store := store[roomId := cp.(updatedAt := now)];
      byID := byID[roomId := room.(snapshotVersion := cp.version, started := true, updatedAt := now)];
      return Ok(());
    }

    method ClaimHost(roomId: GoString, playerId: GoString, version: int, lastStrokeIndex: int, now: int)
      returns (r: Result<ClaimReply, RoomError>)
      modifies this`byID
      ensures (Core(), r) == HostClaimed(old(Core()), roomId, playerId, version, lastStrokeIndex, now)
    {
      if roomId !in byID {
        return Err(RoomNotFound);
      }
      var room := byID[roomId];
      if room.hostId == playerId && playerId != [] {
        byID := byID[roomId := room.(updatedAt := now)];
        return Ok(ClaimReply(playerId, version, lastStrokeIndex, true));
      }
      if room.hostId != [] {
        if room.lastClaim.None? || now - room.lastClaim.value.at > CLAIM_GRACE_WINDOW {
          assert byID[roomId := room] == byID;
          if room.lastClaim.None? {
            return Ok(ClaimReply(room.hostId, room.snapshotVersion, 0, false));
          }
          return Ok(ClaimReply(room.hostId, room.lastClaim.value.version, room.lastClaim.value.lastStrokeIndex, false));
        }
        var best := room.lastClaim.value;
        if !TupleBeats(version, lastStrokeIndex, playerId, best.version, best.lastStrokeIndex, best.playerId) {
          assert byID[roomId := room] == byID;
          return Ok(ClaimReply(room.hostId, best.version, best.lastStrokeIndex, false));
        }
      }
      var players := FlagHost(room.players, playerId);
      byID := byID[roomId := room.(
        hostId := playerId, players := players,
        lastClaim := Some(ClaimRecord(playerId, version, lastStrokeIndex, now)), updatedAt := now)];
      return Ok(ClaimReply(playerId, version, lastStrokeIndex, true));
    }

    method SetFinished(roomId: GoString, finished: bool, now: int) returns (r: Result<(), RoomError>)
      modifies this`byID
      ensures (Core(), r) == Finish(old(Core()), roomId, finished, now)
    {
      if roomId !in byID {
        return Err(RoomNotFound);
      }
      byID := byID[roomId := byID[roomId].(finishedAt := if finished then Some(now) else None, updatedAt := now)];
      return Ok(());
    }

    /** DeleteRoom up to the unlock. */
    method EvictRoom(roomId: GoString) returns (existed: bool)
      modifies this`byID, this`byCode, this`dropping
      ensures Core() == Evicted(old(Core()), roomId) && existed == (roomId in old(byID))
    {
      existed := roomId in byID;
      if existed {
        byCode := byCode - {byID[roomId].code};
        byID := byID - {roomId};
      }
      dropping := dropping + multiset{Removal(roomId, existed)};
    }

    /** SweepOnce up to the unlock, visiting the rooms in any order. */
    method EvictOutlived(now: int) returns (deleted: seq<GoString>)
      modifies this`byID, this`byCode, this`dropping
      ensures Core() == Swept(old(Core()), limits, now)
      ensures multiset(deleted) == multiset(OutlivedIds(old(Core()), limits, now))
    {
      hide WithoutRooms, OutlivedIds, Outlived;
      deleted := [];
      ghost var r := Core();
      ghost var gone: set<GoString> := {};
      WithoutNone(r);
      var removals: set<Removal> := {};
      var todo := byID.Keys;
      while todo != {}
        invariant todo <= byID.Keys && todo !! gone && todo <= r.byID.Keys
        invariant forall id :: id in r.byID && id !in todo ==> (id in gone <==> Outlived(r.byID[id], limits, now))
        invariant gone <= r.byID.Keys
        invariant multiset(deleted) == multiset(gone) && removals == Removals(gone)
        invariant byID == WithoutRooms(r, gone).byID && byCode == WithoutRooms(r, gone).byCode
        invariant store == r.store && dropping == r.dropping && notified == r.notified
        decreases |todo|
      {
        var id :| id in todo;
        WithoutKeeps(r, gone, id);
        WithoutOneMore(r, gone, id);
        todo := todo - {id};
        var room := byID[id];
        OutlivedMeans(room, limits, now);
        var idle := now - room.updatedAt;
        if idle <= limits.idleTTL && (room.finishedAt.None? || idle <= limits.finishedGrace) {
          continue;
        }
        byCode := byCode - {room.code};
        byID := byID - {id};
        deleted := deleted + [id];
        removals := removals + {Removal(id, true)};
        OneMoreRemoval(gone, id);
        gone := gone + {id};
      }
      OutlivedSet(r, limits, now, gone);
      dropping := dropping + multiset(removals);
    }

    /** What follows either, for one removal: the store deletion, which may fail, and the hook. */
    method FinishRemoval(x: Removal, deletes: bool)
      modifies this`store, this`dropping, this`notified
      ensures Core() == Dropped(old(Core()), x, deletes)
    {
      if deletes {
        store := store - {x.id};
      }
      dropping := dropping - multiset{x};
      if x.existed {
        notified := notified + [x.id];
      }
    }
  }

  lemma OneMoreRemoval(ids: set<GoString>, id: GoString)
    ensures Removals(ids + {id}) == Removals(ids) + {Removal(id, true)}
  {
  }

  lemma OutlivedMeans(room: Room, limits: Limits, now: int)
    ensures var idle := now - room.updatedAt;
            Outlived(room, limits, now) <==> !(idle <= limits.idleTTL && (room.finishedAt.None? || idle <= limits.finishedGrace))
  {
  }

  lemma WithoutNone(r: Registry)
    ensures WithoutRooms(r, {}).byID == r.byID && WithoutRooms(r, {}).byCode == r.byCode
  {
  }

  lemma WithoutKeeps(r: Registry, ids: set<GoString>, id: GoString)
    requires id in r.byID && id !in ids
    ensures id in WithoutRooms(r, ids).byID && WithoutRooms(r, ids).byID[id] == r.byID[id]
  {
  }

  lemma WithoutOneMore(r: Registry, ids: set<GoString>, id: GoString)
    requires id in r.byID
    ensures WithoutRooms(r, ids + {id}).byID == WithoutRooms(r, ids).byID - {id}
    ensures WithoutRooms(r, ids + {id}).byCode == WithoutRooms(r, ids).byCode - {r.byID[id].code}
  {
    var codes := set x | x in ids && x in r.byID :: r.byID[x].code;
    assert (set x | x in ids + {id} && x in r.byID :: r.byID[x].code) == codes + {r.byID[id].code};
  }

  lemma OutlivedSet(r: Registry, limits: Limits, now: int, gone: set<GoString>)
    requires gone <= r.byID.Keys
    requires forall id :: id in r.byID ==> (id in gone <==> Outlived(r.byID[id], limits, now))
    ensures gone == OutlivedIds(r, limits, now)
    ensures Swept(r, limits, now) ==
            Registry(WithoutRooms(r, gone).byID, WithoutRooms(r, gone).byCode, r.store, r.dropping + multiset(Removals(gone)), r.notified)
  {
  }
}
