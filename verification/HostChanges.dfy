/**
 When a room changes its host (internal/rooms/manager.go:174-277): one claim exactly, and over runs of the
 whole registry.
 */
module HostChanges {
  import opened Prelude
  import opened IdOrder
  import opened RegistrySpec
  import opened RegistryInvariant

  /** The record holds a claim not older than the window, and this one is better by version, strokes, id. */
  predicate Displaces(room: Room, playerId: GoString, version: int, strokes: int, now: int) {
    && room.lastClaim.Some?
    && var best := room.lastClaim.value;
    && now <= best.at + 2_000_000_000
    && (|| version > best.version
        || (version == best.version && strokes > best.lastStrokeIndex)
        || (version == best.version && strokes == best.lastStrokeIndex && LtBytes(playerId, best.playerId)))
  }

  /** What a rejected claimant is told: who holds the slot, and with what. */
  function Standing(room: Room): ClaimReply {
    match room.lastClaim
    case None => ClaimReply(room.hostId, room.snapshotVersion, 0, false)
    case Some(best) => ClaimReply(room.hostId, best.version, best.lastStrokeIndex, false)
  }

  /**
   One claim. The host in place is endorsed and nothing but the room's activity changes. Anyone else
   is endorsed exactly when the slot is empty or the claim displaces the one on record; it then is the
   host, the only player flagged so, and its claim the one on record. Otherwise the room is as before,
   and the answer is the standing host's.
   */
  lemma ClaimDecidedExactly(room: Room, playerId: GoString, version: int, strokes: int, now: int)
    ensures var (room', reply) := Claimed(room, playerId, version, strokes, now);
            if playerId != [] && playerId == room.hostId then
              room' == room.(updatedAt := now) && reply == ClaimReply(playerId, version, strokes, true)
            else if room.hostId == [] || Displaces(room, playerId, version, strokes, now) then
              && reply == ClaimReply(playerId, version, strokes, true)
              && room' == room.(hostId := playerId, players := room'.players, updatedAt := now,
                                lastClaim := Some(ClaimRecord(playerId, version, strokes, now)))
              && |room'.players| == |room.players|
              && forall i :: 0 <= i < |room.players| ==> room'.players[i] == room.players[i].(isHost := room.players[i].id == playerId)
            else room' == room && reply == Standing(room)
  {
  }

  /** A host that took its slot without a claim, as a room's creator does, cannot be displaced by one. */
  lemma AHostWithoutAClaimStands(room: Room, playerId: GoString, version: int, strokes: int, now: int)
    requires room.hostId != [] && room.lastClaim.None? && playerId != room.hostId
    ensures Claimed(room, playerId, version, strokes, now) == (room, ClaimReply(room.hostId, room.snapshotVersion, 0, false))
  {
    ClaimDecidedExactly(room, playerId, version, strokes, now);
  }

  // ---- over runs ----

  function HostOf(h: History, id: GoString): GoString
    requires id in h.reg.byID
  {
    h.reg.byID[id].hostId
  }

  /** The three ways a step gives a room another host. */
  predicate GivesHost(h: History, s: Step, now: int, id: GoString, host: GoString)
    requires id in h.reg.byID
  {
    var room := h.reg.byID[id];
    match s
    case Promote(roomId, hostId) => roomId == id && host == hostId
    case Claim(roomId, playerId, version, strokes) =>
      roomId == id && host == playerId && (room.hostId == [] || Displaces(room, playerId, version, strokes, now))
    case _ => false
  }

  /**
   A room that stays changes its host exactly by an update to another host, by a claim on an empty slot,
   or by a claim of another player that displaces the one on record; and the new host is the one named.
   */
  lemma HostChangesExactlyWhen(h: History, s: Step, now: int, id: GoString)
    requires HistoryOk(h) && Possible(h, s) && id in h.reg.byID && id in Next(h, s, now).reg.byID
    ensures var host := HostOf(Next(h, s, now), id);
            && (host != HostOf(h, id) ==> GivesHost(h, s, now, id, host))
            && (forall other :: GivesHost(h, s, now, id, other) ==> host == other)
  {
    hide HooksOk, StoreAgrees, StoreOwned, RoomOk, TupleBeats;
    if s.Claim? && s.roomId == id {
      ClaimDecidedExactly(h.reg.byID[id], s.playerId, s.version, s.lastStrokeIndex, now);
    }
  }

  /** Nobody but its creator: what holds of a room until its host is updated. */
  ghost predicate HeldByCreator(h: History, id: GoString, creator: GoString) {
    id in h.reg.byID ==> h.reg.byID[id].hostId == creator && h.reg.byID[id].lastClaim.None?
  }

  predicate Updates(steps: seq<Timed>, id: GoString) {
    exists i :: 0 <= i < |steps| && steps[i].step.Promote? && steps[i].step.roomId == id
  }

  lemma CreatorHolds(h: History, s: Step, now: int, id: GoString, creator: GoString)
    requires HistoryOk(h) && Possible(h, s) && id in h.known && creator != []
    requires HeldByCreator(h, id, creator) && !(s.Promote? && s.roomId == id)
    ensures HeldByCreator(Next(h, s, now), id, creator)
  {
    hide HooksOk, StoreAgrees, StoreOwned, IdsKnown, RoomOk;
    if s.Claim? && s.roomId == id && id in h.reg.byID {
      ClaimDecidedExactly(h.reg.byID[id], s.playerId, s.version, s.lastStrokeIndex, now);
    }
  }

  lemma {:induction false} CreatorHoldsOn(h: History, steps: seq<Timed>, id: GoString, creator: GoString)
    requires HistoryOk(h) && PossibleRun(h, steps) && id in h.known && creator != []
    requires HeldByCreator(h, id, creator) && !Updates(steps, id)
    ensures HeldByCreator(Run(h, steps), id, creator)
    decreases |steps|
  {
    if steps != [] {
      hide HistoryOk, HeldByCreator, Possible, Next;
      var h1 := Next(h, steps[0].step, steps[0].now);
      CreatorHolds(h, steps[0].step, steps[0].now, id, creator);
      StepKeeps(h, steps[0].step, steps[0].now);
      KnownGrows(h, steps[0].step, steps[0].now);
      assert forall i :: 0 <= i < |steps[1..]| ==> steps[1..][i] == steps[i + 1];
      CreatorHoldsOn(h1, steps[1..], id, creator);
    }
  }

  /**
   No claim ever moves the host of a room: from its creation on, through any run in which its host is
   not updated, which no handler of the server does, its creator stays the host as long as the room lives.
   */
  lemma ClaimsNeverUnseatTheCreator(h: History, s: Step, now: int, steps: seq<Timed>)
    requires HistoryOk(h) && Possible(h, s) && s.Create? && s.hostId != [] && FirstFree(h.reg.byCode, s.codes, 0).Some?
    requires PossibleRun(Next(h, s, now), steps) && !Updates(steps, s.roomId)
    ensures var h' := Run(Next(h, s, now), steps);
            s.roomId in h'.reg.byID ==> h'.reg.byID[s.roomId].hostId == s.hostId
  {
    StepKeeps(h, s, now);
    CreatorHoldsOn(Next(h, s, now), steps, s.roomId, s.hostId);
  }
}
