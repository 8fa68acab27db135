/** The replica object of frontend/p2p/replica.ts. */
module ReplicaObject {
  import opened Prelude
  import opened Models
  import opened ReplicaSpec

  lemma TaggedOneMore(epoch: nat, round: nat, ws: seq<Indexed>, n: nat)
    requires n < |ws|
    ensures Tagged(epoch, round, ws[..n + 1]) == Tagged(epoch, round, ws[..n]) + [Delivery(epoch, round, ws[n].index, ws[n].stroke)]
  {
  }

  predicate FloorIsReset(floor: Option<Floor>, round: Option<Round>) {
    if round.None? then floor.Some? else floor.None? || floor.value.round != round.value.index
  }

  class Replica {
    var state: Option<GameState>
    var myId: Option<string>
    var myRole: Option<(bool, Option<string>)>
    var lastVersion: nat
    var lastStrokeIndex: int
    var expectedNext: Option<Floor>
    var pending: seq<Indexed>
    var syncInFlight: bool
    const hooked: bool
    ghost var epoch: nat
    // What the stroke listeners, the sync hook and the error listeners were called with.
    ghost var delivered: seq<Delivery>
    ghost var requests: seq<Request>
    ghost var errors: seq<ErrorText>

    ghost function Now(): View
      reads this
    {
      View(state, myId, myRole, lastVersion, lastStrokeIndex, expectedNext, pending, syncInFlight, hooked,
           epoch, delivered, requests, errors)
    }

    constructor (hooked: bool)
      ensures Now() == NewView(hooked)
    {
      state, myId, myRole := None, None, None;
      lastVersion, lastStrokeIndex := 0, -1;
      expectedNext, pending, syncInFlight := None, [], false;
      this.hooked := hooked;
      epoch, delivered, requests, errors := 0, [], [], [];
    }

    method Apply(evt: ServerEvent)
      modifies this
      ensures Now() == ReplicaSpec.Apply(old(Now()), evt)
    {
      match evt
      case StateUpdate(st) => ApplyState(st);
      case PlayerWelcome(id) => myId := Some(id);
      case YourRole(isFake, word) => myRole := Some((isFake, word));
      case StrokeAdded(stroke, next) => ApplyStroke(stroke, next);
      case ErrorEvent(message) => errors := errors + [message];
    }

    method ApplyFrame(st: GameState, frames: seq<Frame>)
      modifies this
      ensures Now() == ApplySyncRes(old(Now()), st, frames)
    {
      EnterSyncContext(st);
      ApplyStrokes(frames);
      DrainPending();
      ApplyState(st);
      syncInFlight := false;
      DrainPending();
    }

    method EnterSyncContext(st: GameState)
      modifies this
      ensures Now() == SyncContext(old(Now()), st) && expectedNext.Some?
    {
      var round := if st.currentRound.Some? then st.currentRound.value.index
                   else if expectedNext.Some? then expectedNext.value.round else 0;
      if expectedNext.None? || expectedNext.value.round != round {
        MoveFloor(Some(Floor(round, 0)));
        pending := [];
      }
    }

    method ApplyStrokes(frames: seq<Frame>)
      requires expectedNext.Some?
      modifies this
      ensures Now() == ReplicaSpec.ApplyStrokes(old(Now()), frames)
    {
      var i := 0;
      while i < |frames|
        invariant 0 <= i <= |frames|
        invariant expectedNext.Some? && Now() == ReplicaSpec.ApplyStrokes(old(Now()), frames[..i])
      {
        assert frames[..i + 1][..i] == frames[..i];
        var f := frames[i];
        if f.strokeIndex >= expectedNext.value.idx {
          DeliverStroke(f.stroke, f.strokeIndex);
          expectedNext := Some(expectedNext.value.(idx := f.strokeIndex + 1));
        }
        i := i + 1;
      }
      assert frames[..i] == frames;
    }

    method ApplyState(st: GameState)
      modifies this
      ensures Now() == ReplicaSpec.ApplyState(old(Now()), st)
    {
      state := Some(st);
      lastVersion := lastVersion + 1;
      FollowRound(st.currentRound);
      if st.status == LOBBY || st.status == WRITING {
        myRole := None;
      }
    }

    /** The part of applyState about the floor: set anew with another round, and never lowered within one. */
    method FollowRound(round: Option<Round>)
      modifies this`lastStrokeIndex, this`expectedNext, this`epoch, this`pending
      ensures round.None? ==> expectedNext == None && pending == [] && lastStrokeIndex == old(lastStrokeIndex)
      ensures round.Some? ==>
                && lastStrokeIndex == round.value.strokeIndex - 1
                && if old(expectedNext).None? || old(expectedNext).value.round != round.value.index then
                     expectedNext == Some(Floor(round.value.index, round.value.strokeIndex)) && pending == []
                   else
                     && pending == old(pending)
                     && expectedNext == Some(Floor(round.value.index, Max(old(expectedNext).value.idx, round.value.strokeIndex)))
      ensures epoch == old(epoch) + if FloorIsReset(old(expectedNext), round) then 1 else 0
    {
      if round.Some? {
        var r := round.value;
        lastStrokeIndex := r.strokeIndex - 1;
        if expectedNext.None? || expectedNext.value.round != r.index {
          MoveFloor(Some(Floor(r.index, r.strokeIndex)));
          pending := [];
        } else if r.strokeIndex > expectedNext.value.idx {
          expectedNext := Some(expectedNext.value.(idx := r.strokeIndex));
        }
      } else {
        if expectedNext.Some? {
          MoveFloor(None);
        }
        pending := [];
      }
    }

    method ApplyStroke(stroke: Stroke, nextIdx: nat)
      modifies this
      ensures Now() == ReplicaSpec.ApplyStroke(old(Now()), stroke, nextIdx)
    {
      hide ReplicaSpec.DrainPending;
      var appliedIdx := nextIdx - 1;
      var round := if state.Some? && state.value.currentRound.Some? then state.value.currentRound.value.index
                   else if expectedNext.Some? then expectedNext.value.round else 0;
      if expectedNext.None? {
        MoveFloor(Some(Floor(round, 0)));
      }
      if round != expectedNext.value.round {
        return;
      }
      if appliedIdx < expectedNext.value.idx {
        return;
      }
      if appliedIdx == expectedNext.value.idx {
        DeliverStroke(stroke, appliedIdx);
        expectedNext := Some(expectedNext.value.(idx := expectedNext.value.idx + 1));
        DrainPending();
        return;
      }
      pending := pending + [Indexed(appliedIdx, stroke)];
      RequestSyncIfNeeded(round, expectedNext.value.idx);
    }

    method DrainPending()
      modifies this`pending, this`expectedNext, this`delivered, this`lastStrokeIndex
      ensures Now() == ReplicaSpec.DrainPending(old(Now()))
    {
      hide SortByIndex, RunLength, DropBelow, Tagged;
      if expectedNext.None? {
        return;
      }
      pending := SortByIndex(pending);
      DeliverRun();
      pending := DropBelow(pending, expectedNext.value.idx);
    }

    /** The loop of drainPending, on the sorted buffer. */
    method DeliverRun()
      requires expectedNext.Some?
      modifies this`pending, this`expectedNext, this`delivered, this`lastStrokeIndex
      ensures var f, k := old(expectedNext).value, RunLength(old(pending), old(expectedNext).value.idx);
              && pending == old(pending)[k..]
              && expectedNext == Some(Floor(f.round, f.idx + k))
              && delivered == old(delivered) + Tagged(epoch, f.round, old(pending)[..k])
              && lastStrokeIndex == if k > 0 then f.idx + k - 1 else old(lastStrokeIndex)
    {
      hide RunLength;
      ghost var sorted, f, n := pending, expectedNext.value, 0;
      while |pending| > 0 && pending[0].index == expectedNext.value.idx
        invariant 0 <= n <= |sorted| && pending == sorted[n..]
        invariant expectedNext == Some(Floor(f.round, f.idx + n))
        invariant forall i :: 0 <= i < n ==> sorted[i].index == f.idx + i
        invariant delivered == old(delivered) + Tagged(epoch, f.round, sorted[..n])
        invariant lastStrokeIndex == if n > 0 then f.idx + n - 1 else old(lastStrokeIndex)
        decreases |pending|
      {
        var next := pending[0];
        pending := pending[1..];
        TaggedOneMore(epoch, f.round, sorted, n);
        DeliverStroke(next.stroke, next.index);
        expectedNext := Some(expectedNext.value.(idx := expectedNext.value.idx + 1));
        n := n + 1;
      }
      assert n == RunLength(sorted, f.idx);
    }

    method DeliverStroke(stroke: Stroke, appliedIdx: int)
      requires expectedNext.Some?
      modifies this`lastStrokeIndex, this`delivered
      ensures Now() == Deliver(old(Now()), stroke, appliedIdx)
    {
      lastStrokeIndex := appliedIdx;
      delivered := delivered + [Delivery(epoch, expectedNext.value.round, appliedIdx, stroke)];
    }

    method MoveFloor(floor: Option<Floor>)
      modifies this`expectedNext, this`epoch
      ensures Now() == ResetFloor(old(Now()), floor)
    {
      expectedNext := floor;
      epoch := epoch + 1;
    }

    method RequestSyncIfNeeded(round: nat, fromIdx: nat)
      modifies this`syncInFlight, this`requests
      ensures Now() == Ask(old(Now()), round, fromIdx)
    {
      if syncInFlight || !hooked {
        return;
      }
      syncInFlight := true;
      requests := requests + [Request(epoch, round, fromIdx)];
    }

    method RequestSync()
      modifies this`syncInFlight, this`requests
      ensures Now() == ReplicaSpec.RequestSync(old(Now()))
    {
      if !hooked || syncInFlight {
        return;
      }
      var round := if state.Some? && state.value.currentRound.Some? then state.value.currentRound.value.index else 0;
      var from := if expectedNext.Some? then expectedNext.value.idx else 0;
      RequestSyncIfNeeded(round, from);
    }
  }
}
