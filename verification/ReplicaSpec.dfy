/** What each input does to the read-side view of frontend/p2p/replica.ts. */
module ReplicaSpec {
  import opened Prelude
  import opened Models

  // The next stroke expected: `expectedNext` of the source.
  datatype Floor = Floor(round: nat, idx: nat)

  datatype Indexed = Indexed(index: int, stroke: Stroke)

  /**
   One call of the stroke listeners. `index` is the 0-based position in the round. `epoch` counts
   how often the floor had been reset before the call.
   */
  datatype Delivery = Delivery(epoch: nat, round: nat, index: int, stroke: Stroke)

  /** One call of the sync hook, with the epoch of the floor at the time. */
  datatype Request = Request(epoch: nat, round: nat, from: nat)

  datatype Frame = Frame(roundIndex: nat, strokeIndex: nat, stroke: Stroke)

  datatype View = View(
    state: Option<GameState>,
    myId: Option<string>,
    myRole: Option<(bool, Option<string>)>,
    lastVersion: nat,
    lastStrokeIndex: int,
    floor: Option<Floor>,
    pending: seq<Indexed>,
    syncInFlight: bool,
    hooked: bool,
    epoch: nat,
    delivered: seq<Delivery>,
    // oldest first
    requests: seq<Request>,
    errors: seq<ErrorText>)

  function NewView(hooked: bool): View {
    View(None, None, None, 0, -1, None, [], false, hooked, 0, [], [], [])
  }

  function ResetFloor(v: View, floor: Option<Floor>): View {
    v.(floor := floor, epoch := v.epoch + 1)
  }

  function Deliver(v: View, stroke: Stroke, index: int): View
    requires v.floor.Some?
  {
    v.(lastStrokeIndex := index, delivered := v.delivered + [Delivery(v.epoch, v.floor.value.round, index, stroke)])
  }

  // ---- the reorder buffer ----

  /** Stable insertion by index: entries with equal indices keep their order. */
  function Insert(w: Indexed, sorted: seq<Indexed>): seq<Indexed> {
    if sorted == [] || sorted[|sorted| - 1].index <= w.index then sorted + [w]
    else Insert(w, sorted[..|sorted| - 1]) + [sorted[|sorted| - 1]]
  }

  function SortByIndex(p: seq<Indexed>): seq<Indexed> {
    if p == [] then [] else Insert(p[|p| - 1], SortByIndex(p[..|p| - 1]))
  }

  function DropBelow(p: seq<Indexed>, idx: int): seq<Indexed> {
    if p == [] then []
    else (if p[0].index >= idx then [p[0]] else []) + DropBelow(p[1..], idx)
  }

  /** How many entries at the head of the buffer continue idx without a hole. */
  function RunLength(p: seq<Indexed>, idx: int): (k: nat)
    ensures k <= |p|
    ensures forall i :: 0 <= i < k ==> p[i].index == idx + i
    ensures k < |p| ==> p[k].index != idx + k
  {
    if p == [] || p[0].index != idx then 0 else 1 + RunLength(p[1..], idx + 1)
  }

  function Tagged(epoch: nat, round: nat, ws: seq<Indexed>): seq<Delivery> {
    seq(|ws|, i requires 0 <= i < |ws| => Delivery(epoch, round, ws[i].index, ws[i].stroke))
  }

  /** The sorted buffer gives up the run at its head; what has fallen below the floor is dropped. */
  function DrainPending(v: View): View {
    if v.floor.None? then v
    else
      var sorted, f := SortByIndex(v.pending), v.floor.value;
      var k := RunLength(sorted, f.idx);
      v.(pending := DropBelow(sorted[k..], f.idx + k),
         floor := Some(Floor(f.round, f.idx + k)),
         delivered := v.delivered + Tagged(v.epoch, f.round, sorted[..k]),
         lastStrokeIndex := if k > 0 then f.idx + k - 1 else v.lastStrokeIndex)
  }

  // ---- inputs ----

  function RoundContext(v: View): nat {
    if v.state.Some? && v.state.value.currentRound.Some? then v.state.value.currentRound.value.index
    else if v.floor.Some? then v.floor.value.round
    else 0
  }

  function Ask(v: View, round: nat, from: nat): View {
    if v.syncInFlight || !v.hooked then v
    else v.(syncInFlight := true, requests := v.requests + [Request(v.epoch, round, from)])
  }

  function ApplyState(v: View, st: GameState): View {
    var role := if st.status == LOBBY || st.status == WRITING then None else v.myRole;
    var w := v.(state := Some(st), lastVersion := v.lastVersion + 1, myRole := role);
    match st.currentRound
    case None => (if v.floor.Some? then ResetFloor(w, None) else w).(pending := [])
    case Some(r) =>
      var x := w.(lastStrokeIndex := r.strokeIndex - 1);
      if v.floor.None? || v.floor.value.round != r.index then ResetFloor(x, Some(Floor(r.index, r.strokeIndex))).(pending := [])
      else if r.strokeIndex > v.floor.value.idx then x.(floor := Some(Floor(r.index, r.strokeIndex)))
      else x
  }

  function ApplyStroke(v: View, stroke: Stroke, nextIdx: nat): View {
    var round := RoundContext(v);
    var w := if v.floor.None? then ResetFloor(v, Some(Floor(round, 0))) else v;
    var f := w.floor.value;
    if round != f.round || nextIdx - 1 < f.idx then w
    else if nextIdx - 1 == f.idx then DrainPending(Deliver(w, stroke, f.idx).(floor := Some(f.(idx := f.idx + 1))))
    else Ask(w.(pending := w.pending + [Indexed(nextIdx - 1, stroke)]), round, f.idx)
  }

  /** The strokes of a SYNC_RES: everything not below the floor is delivered. */
  function ApplyStrokes(v: View, frames: seq<Frame>): (r: View)
    requires v.floor.Some?
    ensures r.floor.Some?
  {
    if frames == [] then v
    else
      var w := ApplyStrokes(v, frames[..|frames| - 1]);
      var last := frames[|frames| - 1];
      if last.strokeIndex < w.floor.value.idx then w
      else Deliver(w, last.stroke, last.strokeIndex).(floor := Some(w.floor.value.(idx := last.strokeIndex + 1)))
  }

  function SyncContext(v: View, st: GameState): View {
    var round := if st.currentRound.Some? then st.currentRound.value.index else if v.floor.Some? then v.floor.value.round else 0;
    if v.floor.None? || v.floor.value.round != round then ResetFloor(v, Some(Floor(round, 0))).(pending := []) else v
  }

  function ApplySyncRes(v: View, st: GameState, frames: seq<Frame>): View
  {
    var w := SyncContext(v, st);
    DrainPending(ApplyState(DrainPending(ApplyStrokes(w, frames)), st).(syncInFlight := false))
  }

  function RequestSync(v: View): View {
    Ask(v, if v.state.Some? && v.state.value.currentRound.Some? then v.state.value.currentRound.value.index else 0,
        if v.floor.Some? then v.floor.value.idx else 0)
  }

  function Apply(v: View, evt: ServerEvent): View {
    match evt
    case StateUpdate(st) => ApplyState(v, st)
    case PlayerWelcome(id) => v.(myId := Some(id))
    case YourRole(isFake, word) => v.(myRole := Some((isFake, word)))
    case StrokeAdded(stroke, next) => ApplyStroke(v, stroke, next)
    case ErrorEvent(message) => v.(errors := v.errors + [message])
  }

  function ApplyAll(v: View, events: seq<ServerEvent>): View {
    if events == [] then v else Apply(ApplyAll(v, events[..|events| - 1]), events[|events| - 1])
  }
}
