/**
 What a replica asks for (frontend/p2p/replica.ts:158-220), over every run, and what the host's answer
 to the request it made does.
 */
module SyncRequests {
  import opened Prelude
  import opened Models
  import opened ReplicaSpec
  import opened BufferDrain
  import opened HostBridges
  import opened SyncProtocol
  import S = ReplicaSafety

  // ---- what one call asks ----

  /** What a view becomes that asks, if it may, from an index of a round. */
  ghost predicate AsksFor(v: View, w: View, round: nat, from: nat) {
    if v.hooked && !v.syncInFlight then
      w.syncInFlight && w.requests == v.requests + [Request(w.epoch, round, from)]
    else w.syncInFlight == v.syncInFlight && w.requests == v.requests
  }

  /** Where a stroke finds the floor: a replica without one starts its round at 0. */
  function FloorAt(v: View): Floor {
    if v.floor.Some? then v.floor.value else Floor(RoundContext(v), 0)
  }

  /**
   The fate of a stroke, whose index is one less than the count it carries. In another round or below
   the floor it changes nothing. Above the floor it is buffered as it is, nothing is drawn, and the gap
   is asked for from the floor. At the floor it is drawn, nothing is asked, and the floor passes it.
   */
  lemma FateOfAStroke(v: View, stroke: Stroke, next: nat)
    ensures var w, f := ApplyStroke(v, stroke, next), FloorAt(v);
            && w.state == v.state && w.myRole == v.myRole && w.lastVersion == v.lastVersion && w.hooked == v.hooked
            && w.epoch == v.epoch + (if v.floor.Some? then 0 else 1)
            && w.floor.Some? && w.floor.value.round == f.round
            && if RoundContext(v) == f.round && next - 1 > f.idx then
                 && w.pending == v.pending + [Indexed(next - 1, stroke)] && w.delivered == v.delivered && w.floor == Some(f)
                 && AsksFor(v, w, f.round, f.idx)
               else if RoundContext(v) == f.round && next - 1 == f.idx then
                 && v.delivered + [Delivery(w.epoch, f.round, f.idx, stroke)] <= w.delivered && w.floor.value.idx > f.idx
                 && w.requests == v.requests && w.syncInFlight == v.syncInFlight
               else
                 && w.pending == v.pending && w.delivered == v.delivered && w.floor == Some(f)
                 && w.requests == v.requests && w.syncInFlight == v.syncInFlight
  {
    hide SortByIndex, DropBelow, RunLength;
  }

  /** A request by hand asks from the floor of the round on show, and changes nothing else. */
  lemma ManualAsksFromTheFloor(v: View)
    ensures var w := RequestSync(v);
            && w == v.(requests := w.requests, syncInFlight := w.syncInFlight)
            && AsksFor(v, w, if v.state.Some? && v.state.value.currentRound.Some? then v.state.value.currentRound.value.index else 0,
                       if v.floor.Some? then v.floor.value.idx else 0)
  {
  }

  /**
   The fate of a state. It is shown as it is. Within the floor's round the floor only rises to its count;
   another round sets the floor anew and empties the buffer, as does a state without a round. Nothing is
   drawn and nothing asked.
   */
  lemma FateOfAState(v: View, st: GameState)
    ensures var w := ApplyState(v, st);
            var role := if st.status in {LOBBY, WRITING} then None else v.myRole;
            match st.currentRound
            case None =>
              w == v.(state := Some(st), lastVersion := v.lastVersion + 1, myRole := role, floor := None, pending := [],
                      epoch := v.epoch + if v.floor.Some? then 1 else 0)
            case Some(r) =>
              if v.floor.Some? && v.floor.value.round == r.index then
                w == v.(state := Some(st), lastVersion := v.lastVersion + 1, myRole := role, lastStrokeIndex := r.strokeIndex - 1,
                        floor := Some(Floor(r.index, Max(v.floor.value.idx, r.strokeIndex))))
              else
                w == v.(state := Some(st), lastVersion := v.lastVersion + 1, myRole := role, lastStrokeIndex := r.strokeIndex - 1,
                        floor := Some(Floor(r.index, r.strokeIndex)), pending := [], epoch := v.epoch + 1)
  {
  }

  /** An answer for another round than the floor's starts its round at 0 with an empty buffer. */
  lemma ContextOfAnAnswer(v: View, st: GameState)
    ensures var x := SyncContext(v, st);
            if v.floor.Some? && (st.currentRound.None? || st.currentRound.value.index == v.floor.value.round) then x == v
            else x == v.(floor := Some(Floor(if st.currentRound.Some? then st.currentRound.value.index else 0, 0)), pending := [], epoch := v.epoch + 1)
  {
  }

  // ---- over runs ----

  /** The round on show; 0 when none is. */
  function Shown(v: View): nat {
    if v.state.Some? && v.state.value.currentRound.Some? then v.state.value.currentRound.value.index else 0
  }

  /**
   The floor is in the round on show. A request in flight was made in this epoch or before; if in this
   one, then for this round and from no higher than the floor now is.
   */
  ghost predicate AskedOk(v: View) {
    && (v.floor.Some? ==> v.floor.value.round == Shown(v))
    && (v.state.Some? && v.state.value.currentRound.Some? ==> v.floor.Some?)
    && (v.syncInFlight ==>
          && v.requests != []
          && var q := v.requests[|v.requests| - 1];
          && q.epoch <= v.epoch
          && (q.epoch == v.epoch ==> q.round == Shown(v) && q.from <= if v.floor.Some? then v.floor.value.idx else 0))
  }

  /** What drains, deliveries and the strokes of an answer leave alone, while the floor only rises. */
  ghost predicate Rises(v: View, w: View) {
    && w == v.(floor := w.floor, pending := w.pending, delivered := w.delivered, lastStrokeIndex := w.lastStrokeIndex)
    && v.floor.Some? == w.floor.Some?
    && (v.floor.Some? ==> w.floor.value.round == v.floor.value.round && w.floor.value.idx >= v.floor.value.idx)
  }

  lemma DrainRises(v: View)
    ensures Rises(v, DrainPending(v))
  {
    hide SortByIndex, DropBelow, RunLength, Tagged;
  }

  lemma {:induction false} StrokesRise(v: View, frames: seq<Frame>)
    requires v.floor.Some?
    ensures Rises(v, ApplyStrokes(v, frames))
  {
    if frames != [] {
      StrokesRise(v, frames[..|frames| - 1]);
    }
  }

  lemma StateAsked(v: View, st: GameState)
    requires AskedOk(v)
    ensures AskedOk(ApplyState(v, st))
  {
  }

  lemma StrokeAsked(v: View, stroke: Stroke, next: nat)
    requires AskedOk(v)
    ensures AskedOk(ApplyStroke(v, stroke, next))
  {
    FateOfAStroke(v, stroke, next);
    hide ApplyStroke;
    assert Shown(ApplyStroke(v, stroke, next)) == Shown(v);
  }

  lemma AnswerAsked(v: View, st: GameState, frames: seq<Frame>)
    ensures AskedOk(ApplySyncRes(v, st, frames))
  {
    hide DrainPending, ApplyStrokes;
    var x := SyncContext(v, st);
    StrokesRise(x, frames);
    var y := DrainPending(ApplyStrokes(x, frames));
    DrainRises(ApplyStrokes(x, frames));
    var z := ApplyState(y, st).(syncInFlight := false);
    DrainRises(z);
  }

  lemma StepAsked(v: View, a: S.Arrival)
    requires AskedOk(v)
    ensures AskedOk(S.Step(v, a))
  {
    match a
    case Event(StateUpdate(st)) => StateAsked(v, st);
    case Event(StrokeAdded(stroke, next)) => StrokeAsked(v, stroke, next);
    case SyncRes(st, frames) => AnswerAsked(v, st, frames);
    case _ =>
  }

  lemma {:induction false} RunAsked(v: View, arrivals: seq<S.Arrival>)
    requires AskedOk(v)
    ensures AskedOk(S.Run(v, arrivals))
    decreases |arrivals|
  {
    if arrivals != [] {
      hide AskedOk;
      StepAsked(v, arrivals[0]);
      RunAsked(S.Step(v, arrivals[0]), arrivals[1..]);
    }
  }

  /**
   Whatever arrives, the floor of a replica is in the round its state shows, and the request in flight,
   unless the floor was reset since, is for that round and from at or below the floor.
   */
  lemma RequestsStayBelowTheFloor(hooked: bool, arrivals: seq<S.Arrival>)
    ensures AskedOk(S.Run(NewView(hooked), arrivals))
  {
    RunAsked(NewView(hooked), arrivals);
  }

  /**
   The check for a stroke of another round never fires: a stroke names no round, and the round it is
   compared with is the replica's own. A stroke late for its round is taken for one of the next.
   */
  lemma NoStrokeIsOfAnotherRound(hooked: bool, arrivals: seq<S.Arrival>)
    ensures var v := S.Run(NewView(hooked), arrivals); RoundContext(v) == FloorAt(v).round
  {
    RequestsStayBelowTheFloor(hooked, arrivals);
  }

  // ---- the answer to a request ----

  /** The host's strokes from the floor on are drawn, all of them, by the strokes of an answer. */
  ghost predicate Fills(v: View, host: GameState, frames: seq<Frame>)
    requires host.currentRound.Some?
  {
    var x := SyncContext(v, host);
    ApplyStrokes(x, frames).delivered
    == x.delivered + Strokes(x.epoch, host.currentRound.value.index, host.currentRound.value.strokes, x.floor.value.idx)
  }

  /**
   An answer from memory fills the gap exactly when there is none, or the host is still in the round
   asked for and was asked from the guest's floor or below it.
   */
  lemma AnswerFillsExactlyWhen(v: View, host: GameState, round: nat, from: nat)
    requires host.currentRound.Some? && host.currentRound.value.strokeIndex == |host.currentRound.value.strokes|
    ensures var idx := SyncContext(v, host).floor.value.idx;
            Fills(v, host, Served(host, round, from))
            <==> |host.currentRound.value.strokes| <= idx || (round == host.currentRound.value.index && from <= idx)
  {
    var x, strokes := SyncContext(v, host), host.currentRound.value.strokes;
    var idx, frames := x.floor.value.idx, Served(host, round, from);
    assert x.delivered + [] == x.delivered;
    if round == host.currentRound.value.index && from <= idx {
      StrokesServed(x, host, from);
    } else if frames == [] {
      if |strokes| > idx {
        assert |x.delivered + Strokes(x.epoch, host.currentRound.value.index, strokes, idx)| > |x.delivered|;
      }
    } else {
      FirstFrameAbove(x, frames, from);
      var all := Strokes(x.epoch, host.currentRound.value.index, strokes, idx);
      var w := ApplyStrokes(x, frames);
      assert (x.delivered + all)[|x.delivered|] == all[0];
      assert all[0].index == idx;
    }
  }

  /** Frames that begin above the floor are drawn with the hole before them. */
  lemma {:induction false} FirstFrameAbove(v: View, frames: seq<Frame>, from: nat)
    requires v.floor.Some? && frames != [] && from > v.floor.value.idx
    requires forall i :: 0 <= i < |frames| ==> frames[i].strokeIndex == from + i
    ensures var w := ApplyStrokes(v, frames);
            && |w.delivered| == |v.delivered| + |frames| && w.delivered[|v.delivered|].index == from
            && w.floor.value.idx == from + |frames|
  {
    var front := frames[..|frames| - 1];
    if front == [] {
      assert ApplyStrokes(v, front) == v;
    } else {
      FirstFrameAbove(v, front, from);
    }
  }

  /**
   The request a replica made, answered from memory while the host is in its round and the floor has
   not been reset since: the guest draws exactly the host's strokes from its floor on, then a run of
   its buffer, and keeps exactly what lies from its new floor on.
   */
  lemma RequestedSyncClosesTheGap(hooked: bool, arrivals: seq<S.Arrival>, host: GameState) returns (run: seq<Indexed>)
    requires var v := S.Run(NewView(hooked), arrivals);
             && v.syncInFlight && v.requests != []
             && var q := v.requests[|v.requests| - 1];
             && q.epoch == v.epoch
             && host.currentRound.Some? && host.currentRound.value.index == q.round
             && host.currentRound.value.strokeIndex == |host.currentRound.value.strokes|
    ensures var v := S.Run(NewView(hooked), arrivals);
            var q := v.requests[|v.requests| - 1];
            var x := SyncContext(v, host);
            var w := ApplySyncRes(v, host, Served(host, q.round, q.from));
            && Fills(v, host, Served(host, q.round, q.from))
            && (v.floor.Some? ==> x == v)
            && w.delivered == v.delivered + Strokes(x.epoch, q.round, host.currentRound.value.strokes, x.floor.value.idx) + Tagged(x.epoch, q.round, run)
            && HoleFree(run, CaughtUp(x, host), x.pending)
            && w.floor == Some(Floor(q.round, CaughtUp(x, host) + |run|)) && w.state == Some(host) && !w.syncInFlight
            && (forall s :: s in w.pending <==> s in x.pending && s.index >= w.floor.value.idx)
  {
    hide ApplyStrokes, DrainPending, Strokes, Served;
    var v := S.Run(NewView(hooked), arrivals);
    var q := v.requests[|v.requests| - 1];
    var x := SyncContext(v, host);
    RequestsStayBelowTheFloor(hooked, arrivals);
    assert v.floor.Some? ==> x == v;
    AnswerFillsExactlyWhen(v, host, q.round, q.from);
    run := SyncClosesTheGap(x, host, q.from);
    assert SyncContext(x, host) == x;
    assert ApplySyncRes(x, host, Served(host, q.round, q.from)) == ApplySyncRes(v, host, Served(host, q.round, q.from));
  }
}
