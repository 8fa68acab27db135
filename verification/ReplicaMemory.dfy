/** What a replica shows of all that has arrived (frontend/p2p/replica.ts:76-156). */
module ReplicaMemory {
  import opened Prelude
  import opened Models
  import opened ReplicaSpec
  import opened ReplicaSafety

  // ---- read off the arrivals, newest first ----

  function StateIn(a: Arrival): Option<GameState> {
    match a
    case Event(StateUpdate(st)) => Some(st)
    case SyncRes(st, _) => Some(st)
    case _ => None
  }

  function LastState(arrivals: seq<Arrival>): Option<GameState> {
    if arrivals == [] then None
    else
      var st := StateIn(arrivals[|arrivals| - 1]);
      if st.Some? then st else LastState(arrivals[..|arrivals| - 1])
  }

  function States(arrivals: seq<Arrival>): nat {
    if arrivals == [] then 0
    else States(arrivals[..|arrivals| - 1]) + if StateIn(arrivals[|arrivals| - 1]).Some? then 1 else 0
  }

  /** The last role told, unless a state before the first round has come since. */
  function LastRole(arrivals: seq<Arrival>): Option<(bool, Option<string>)> {
    if arrivals == [] then None
    else
      var last := arrivals[|arrivals| - 1];
      if last.Event? && last.evt.YourRole? then Some((last.evt.isFake, last.evt.word))
      else if StateIn(last).Some? && StateIn(last).value.status in {LOBBY, WRITING} then None
      else LastRole(arrivals[..|arrivals| - 1])
  }

  function LastWelcome(arrivals: seq<Arrival>): Option<string> {
    if arrivals == [] then None
    else
      var last := arrivals[|arrivals| - 1];
      if last.Event? && last.evt.PlayerWelcome? then Some(last.evt.id) else LastWelcome(arrivals[..|arrivals| - 1])
  }

  function Errors(arrivals: seq<Arrival>): seq<ErrorText> {
    if arrivals == [] then []
    else
      var last := arrivals[|arrivals| - 1];
      Errors(arrivals[..|arrivals| - 1]) + if last.Event? && last.evt.ErrorEvent? then [last.evt.message] else []
  }

  // ---- what the replica shows ----

  lemma {:induction false} RunOneMore(v: View, arrivals: seq<Arrival>, a: Arrival)
    ensures Run(v, arrivals + [a]) == Step(Run(v, arrivals), a)
    decreases |arrivals|
  {
    if arrivals == [] {
      assert ([] + [a])[1..] == [];
    } else {
      assert (arrivals + [a])[1..] == arrivals[1..] + [a];
      RunOneMore(Step(v, arrivals[0]), arrivals[1..], a);
    }
  }

  ghost predicate SameFace(v: View, w: View) {
    v.state == w.state && v.myId == w.myId && v.myRole == w.myRole && v.lastVersion == w.lastVersion && v.errors == w.errors
  }

  lemma {:induction false} StrokesKeepFace(v: View, frames: seq<Frame>)
    requires v.floor.Some?
    ensures SameFace(v, ApplyStrokes(v, frames))
  {
    if frames != [] {
      StrokesKeepFace(v, frames[..|frames| - 1]);
    }
  }

  lemma DrainKeepsFace(v: View)
    ensures SameFace(v, DrainPending(v))
  {
    hide SortByIndex, DropBelow, RunLength, Tagged;
  }

  lemma StateSetsFace(v: View, st: GameState)
    ensures var w := ApplyState(v, st);
            && w.state == Some(st) && w.lastVersion == v.lastVersion + 1 && w.myId == v.myId && w.errors == v.errors
            && w.myRole == if st.status in {LOBBY, WRITING} then None else v.myRole
  {
  }

  lemma AnswerSetsFace(v: View, st: GameState, frames: seq<Frame>)
    ensures var w := ApplySyncRes(v, st, frames);
            && w.state == Some(st) && w.lastVersion == v.lastVersion + 1 && w.myId == v.myId && w.errors == v.errors
            && w.myRole == if st.status in {LOBBY, WRITING} then None else v.myRole
  {
    hide DrainPending, ApplyStrokes, ApplyState;
    var x := SyncContext(v, st);
    StrokesKeepFace(x, frames);
    DrainKeepsFace(ApplyStrokes(x, frames));
    StateSetsFace(DrainPending(ApplyStrokes(x, frames)), st);
    DrainKeepsFace(ApplyState(DrainPending(ApplyStrokes(x, frames)), st).(syncInFlight := false));
  }

  lemma StrokeKeepsFace(v: View, stroke: Stroke, next: nat)
    ensures SameFace(v, ApplyStroke(v, stroke, next))
  {
    hide SortByIndex, DropBelow, RunLength, Tagged;
  }

  /**
   After any arrivals a replica shows the last state of them, counts the states, knows the last id it
   was welcomed with and every error in order, and has the last role told since the last state that was
   before the first round.
   */
  lemma {:induction false} ShowsTheLast(hooked: bool, arrivals: seq<Arrival>)
    ensures var v := Run(NewView(hooked), arrivals);
            && v.state == LastState(arrivals) && v.lastVersion == States(arrivals)
            && v.myRole == LastRole(arrivals) && v.myId == LastWelcome(arrivals) && v.errors == Errors(arrivals)
  {
    if arrivals != [] {
      hide Run, ApplyState, ApplyStroke, ApplySyncRes;
      var front, last := arrivals[..|arrivals| - 1], arrivals[|arrivals| - 1];
      assert arrivals == front + [last];
      ShowsTheLast(hooked, front);
      RunOneMore(NewView(hooked), front, last);
      var v := Run(NewView(hooked), front);
      match last
      case Event(StateUpdate(st)) => StateSetsFace(v, st);
      case Event(StrokeAdded(stroke, next)) => StrokeKeepsFace(v, stroke, next);
      case SyncRes(st, frames) => AnswerSetsFace(v, st, frames);
      case _ =>
    }
  }
}
