/** What the replica guarantees whatever the network does to its input. */
module ReplicaSafety {
  import opened Prelude
  import opened Models
  import opened ReplicaSpec

  datatype Arrival =
    | Event(evt: ServerEvent)
    | SyncRes(state: GameState, frames: seq<Frame>)
    | Manual   // the guest asks for a sync itself

  function Step(v: View, a: Arrival): View {
    match a
    case Event(evt) => Apply(v, evt)
    case SyncRes(st, frames) => ApplySyncRes(v, st, frames)
    case Manual => RequestSync(v)
  }

  function Run(v: View, arrivals: seq<Arrival>): View
    decreases |arrivals|
  {
    if arrivals == [] then v else Run(Step(v, arrivals[0]), arrivals[1..])
  }

  /** Within an epoch the indices delivered strictly increase, and epochs never go back. */
  ghost predicate InOrder(log: seq<Delivery>) {
    forall i, j :: 0 <= i < j < |log| ==>
      log[i].epoch < log[j].epoch || (log[i].epoch == log[j].epoch && log[i].round == log[j].round && log[i].index < log[j].index)
  }

  ghost predicate Safe(v: View) {
    && InOrder(v.delivered)
    && forall i :: 0 <= i < |v.delivered| ==>
         var d := v.delivered[i];
         d.epoch < v.epoch || (d.epoch == v.epoch && v.floor.Some? && d.round == v.floor.value.round && d.index < v.floor.value.idx)
  }

  /** Between floor resets the floor stays in its round and never decreases; nothing delivered is taken back. */
  ghost predicate Onward(v: View, w: View) {
    && v.delivered <= w.delivered
    && (|| v.epoch < w.epoch
        || (v.epoch == w.epoch && v.floor.None? && w.floor.None? && v.delivered == w.delivered)
        || (v.epoch == w.epoch && v.floor.Some? && w.floor.Some?
            && v.floor.value.round == w.floor.value.round && v.floor.value.idx <= w.floor.value.idx))
  }

  lemma OnwardTransitive(u: View, v: View, w: View)
    requires Onward(u, v) && Onward(v, w)
    ensures Onward(u, w)
  {
  }

  /** Delivering at or above the floor, and moving the floor past it, is safe. */
  lemma DeliverSafe(v: View, stroke: Stroke, index: int, floor: Floor)
    requires Safe(v) && v.floor.Some? && v.floor.value.idx <= index < floor.idx && floor.round == v.floor.value.round
    ensures var w := Deliver(v, stroke, index).(floor := Some(floor)); Safe(w) && Onward(v, w)
  {
  }

  lemma DrainSafe(v: View)
    requires Safe(v)
    ensures Safe(DrainPending(v)) && Onward(v, DrainPending(v))
  {
  }

  lemma ApplyStateSafe(v: View, st: GameState)
    requires Safe(v)
    ensures Safe(ApplyState(v, st)) && Onward(v, ApplyState(v, st))
  {
    assert ApplyState(v, st).delivered == v.delivered;
  }

  lemma ApplyStrokeSafe(v: View, stroke: Stroke, nextIdx: nat)
    requires Safe(v)
    ensures Safe(ApplyStroke(v, stroke, nextIdx)) && Onward(v, ApplyStroke(v, stroke, nextIdx))
  {
    var round := RoundContext(v);
    var w := if v.floor.None? then ResetFloor(v, Some(Floor(round, 0))) else v;
    assert Safe(w) && Onward(v, w);
    var f := w.floor.value;
    if round == f.round && nextIdx - 1 == f.idx {
      DeliverSafe(w, stroke, f.idx, f.(idx := f.idx + 1));
      var x := Deliver(w, stroke, f.idx).(floor := Some(f.(idx := f.idx + 1)));
      DrainSafe(x);
      OnwardTransitive(w, x, DrainPending(x));
      OnwardTransitive(v, w, DrainPending(x));
    }
  }

  lemma {:induction false} ApplyStrokesSafe(v: View, frames: seq<Frame>)
    requires Safe(v) && v.floor.Some?
    ensures Safe(ApplyStrokes(v, frames)) && Onward(v, ApplyStrokes(v, frames))
  {
    if frames != [] {
      var w := ApplyStrokes(v, frames[..|frames| - 1]);
      var last := frames[|frames| - 1];
      ApplyStrokesSafe(v, frames[..|frames| - 1]);
      if last.strokeIndex >= w.floor.value.idx {
        DeliverSafe(w, last.stroke, last.strokeIndex, w.floor.value.(idx := last.strokeIndex + 1));
      }
      OnwardTransitive(v, w, ApplyStrokes(v, frames));
    }
  }

  lemma ApplySyncResSafe(v: View, st: GameState, frames: seq<Frame>)
    requires Safe(v)
    ensures Safe(ApplySyncRes(v, st, frames)) && Onward(v, ApplySyncRes(v, st, frames))
  {
    var a := SyncContext(v, st);
    var b := ApplyStrokes(a, frames);
    var c := DrainPending(b);
    var d := ApplyState(c, st);
    var e := d.(syncInFlight := false);
    ApplyStrokesSafe(a, frames);
    DrainSafe(b);
    ApplyStateSafe(c, st);
    assert Safe(e) && Onward(d, e);
    DrainSafe(e);
    OnwardTransitive(v, a, b);
    OnwardTransitive(v, b, c);
    OnwardTransitive(v, c, d);
    OnwardTransitive(v, d, e);
    OnwardTransitive(v, e, DrainPending(e));
  }

  lemma StepSafe(v: View, a: Arrival)
    requires Safe(v)
    ensures Safe(Step(v, a)) && Onward(v, Step(v, a))
  {
    match a
    case Event(StateUpdate(st)) => ApplyStateSafe(v, st);
    case Event(StrokeAdded(stroke, next)) => ApplyStrokeSafe(v, stroke, next);
    case SyncRes(st, frames) => ApplySyncResSafe(v, st, frames);
    case _ =>
  }

  /**
   Whatever arrives, in any order, with anything lost or repeated: no stroke of an epoch is drawn
   twice, strokes are drawn in order, and between resets the floor never goes back.
   */
  lemma {:induction false} NothingIsDrawnTwice(v: View, arrivals: seq<Arrival>)
    requires Safe(v)
    ensures Safe(Run(v, arrivals)) && Onward(v, Run(v, arrivals))
    decreases |arrivals|
  {
    if arrivals != [] {
      StepSafe(v, arrivals[0]);
      NothingIsDrawnTwice(Step(v, arrivals[0]), arrivals[1..]);
      OnwardTransitive(v, Step(v, arrivals[0]), Run(v, arrivals));
    }
  }

  // ---- sync requests ----

  function Answers(arrivals: seq<Arrival>): nat {
    if arrivals == [] then 0
    else Answers(arrivals[..|arrivals| - 1]) + if arrivals[|arrivals| - 1].SyncRes? then 1 else 0
  }

  lemma {:induction false} ApplyStrokesAsksNothing(v: View, frames: seq<Frame>)
    requires v.floor.Some?
    ensures var w := ApplyStrokes(v, frames); w.requests == v.requests && w.syncInFlight == v.syncInFlight && w.hooked == v.hooked
  {
    if frames != [] {
      ApplyStrokesAsksNothing(v, frames[..|frames| - 1]);
    }
  }

  ghost predicate AsksLike(v: View, w: View) {
    w.requests == v.requests && w.syncInFlight == v.syncInFlight && w.hooked == v.hooked
  }

  lemma StrokeAsks(v: View, stroke: Stroke, next: nat)
    ensures var w := ApplyStroke(v, stroke, next);
            AsksLike(v, w) || (!v.syncInFlight && w.syncInFlight && exists r :: w.requests == v.requests + [r])
  {
    var round := RoundContext(v);
    var x := if v.floor.None? then ResetFloor(v, Some(Floor(round, 0))) else v;
    var q := Request(x.epoch, round, x.floor.value.idx);
    assert v.requests + [q] == x.requests + [q];
  }

  lemma SyncSettles(v: View, st: GameState, frames: seq<Frame>)
    ensures var w := ApplySyncRes(v, st, frames); w.requests == v.requests && !w.syncInFlight
  {
    var x := SyncContext(v, st);
    var y := ApplyStrokes(x, frames);
    var z := ApplyState(DrainPending(y), st).(syncInFlight := false);
    ApplyStrokesAsksNothing(x, frames);
    assert z.requests == v.requests;
  }

  /** A step asks at most once, only when nothing is outstanding; only a SYNC_RES settles a request. */
  lemma AskingStep(v: View, a: Arrival)
    ensures var w := Step(v, a);
            && |w.requests| - |v.requests| == (if w.syncInFlight && !v.syncInFlight then 1 else 0)
            && v.requests <= w.requests
            && (a.SyncRes? ==> !w.syncInFlight)
            && (!a.SyncRes? && v.syncInFlight ==> w.syncInFlight)
  {
    match a
    case Event(StrokeAdded(stroke, next)) => StrokeAsks(v, stroke, next);
    case SyncRes(st, frames) => SyncSettles(v, st, frames);
    case Event(StateUpdate(st)) => assert AsksLike(v, ApplyState(v, st));
    case _ =>
  }

  /**
   At most one request is outstanding: over any run from a replica with none in flight, the
   requests sent exceed the answers received by at most one. Once one is in flight and its answer
   is lost, no run without a SYNC_RES ever asks again.
   */
  lemma {:induction false} OneRequestOutstanding(v: View, arrivals: seq<Arrival>)
    ensures var w := Run(v, arrivals);
            && |w.requests| - |v.requests| <= Answers(arrivals) + (if v.syncInFlight then 0 else 1)
            && (v.syncInFlight && Answers(arrivals) == 0 ==> w.requests == v.requests && w.syncInFlight)
    decreases |arrivals|
  {
    if arrivals != [] {
      var w := Step(v, arrivals[0]);
      AskingStep(v, arrivals[0]);
      OneRequestOutstanding(w, arrivals[1..]);
      AnswersOfFirst(arrivals);
    }
  }

  lemma {:induction false} AnswersOfFirst(arrivals: seq<Arrival>)
    requires arrivals != []
    ensures Answers(arrivals) == (if arrivals[0].SyncRes? then 1 else 0) + Answers(arrivals[1..])
  {
    if |arrivals| > 1 {
      var front := arrivals[..|arrivals| - 1];
      AnswersOfFirst(front);
      assert front[1..] == arrivals[1..][..|arrivals| - 2];
    }
  }
}
