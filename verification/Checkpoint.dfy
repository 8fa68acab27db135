/**
 The host's checkpoint dispatcher (frontend/p2p/checkpoint.ts), as the steps between its awaits.

 `flights` holds the flushes that are suspended: in a log read, or in a post. Whether there can be more
 than one is a question, not an assumption. The engine's version and state, the clock, the log's answer
 and the answers to the posts come from outside.
 */
module Checkpoints {
  import opened Prelude
  import opened Models
  import opened Sanitizer

  datatype Logged = Logged(strokeIndex: nat, stroke: Stroke)

  datatype Body = Body(version: nat, state: GameState, tailFrom: nat, tail: seq<Logged>)

  // Flushes suspended in the log read, or waiting for the answer to the n-th post.
  datatype Flight = Reading(version: nat, state: GameState) | Posting(body: Body, attempt: nat)

  datatype Options = Options(strokeThreshold: int, timeMs: int, hasLog: bool)

  datatype Dispatcher = Dispatcher(
    strokesSinceFlush: nat,
    lastStatus: Option<Status>,
    lastFlushAt: int,
    lastFlushedVersion: int,
    flushing: bool,
    pending: bool,
    flights: seq<Flight>,
    posts: seq<Body>)

  const LOG_TAIL_SIZE: nat := 64
  const ATTEMPTS: nat := 5

  // What the dispatcher reads off the engine.
  datatype Engine = Engine(version: nat, state: GameState)

  function Initial(): Dispatcher {
    Dispatcher(0, None, 0, -1, false, false, [], [])
  }

  // ---- what each step does ----

  /** The last 64 strokes of the log. */
  function Tail(all: seq<Logged>): seq<Logged> {
    if |all| <= LOG_TAIL_SIZE then all else all[|all| - LOG_TAIL_SIZE..]
  }

  function BodyOf(version: nat, state: GameState, all: seq<Logged>): (b: Body)
    ensures b.version == version
  {
    var tail := Tail(all);
    Body(version, state, if tail == [] then 0 else tail[0].strokeIndex, tail)
  }

  /** flush, up to its first await. */
  function Flushed(d: Dispatcher, e: Engine, o: Options): Dispatcher {
    if d.flushing then d.(pending := true)
    else
      var state := Sanitize(e.state);
      if o.hasLog && state.currentRound.Some? then
        d.(flushing := true, flights := d.flights + [Reading(e.version, state)])
      else
        var body := BodyOf(e.version, state, []);
        d.(flushing := true, flights := d.flights + [Posting(body, 0)], posts := d.posts + [body])
  }

  function Observed(d: Dispatcher, evt: ServerEvent, e: Engine, o: Options): Dispatcher {
    match evt
    case StrokeAdded(_, _) =>
      var d' := d.(strokesSinceFlush := d.strokesSinceFlush + 1);
      if d'.strokesSinceFlush >= o.strokeThreshold then Flushed(d', e, o) else d'
    case StateUpdate(state) =>
      (if d.lastStatus.Some? && state.status != d.lastStatus.value then Flushed(d, e, o) else d)
      .(lastStatus := Some(state.status))
    case _ => d
  }

  function Ticked(d: Dispatcher, e: Engine, now: int, o: Options): Dispatcher {
    if d.flushing || e.version == d.lastFlushedVersion || now - d.lastFlushAt < o.timeMs then d else Flushed(d, e, o)
  }

  /** The end of a flush, successful or not. */
  function Ended(d: Dispatcher, i: nat, e: Engine, o: Options): Dispatcher
    requires i < |d.flights|
  {
    var d' := d.(flushing := false, flights := Without(d.flights, i), pending := false);
    if d.pending then Flushed(d', e, o) else d'
  }

  /** The log read of flush i gives its strokes, or fails. */
  function LogRead(d: Dispatcher, i: nat, answer: Option<seq<Logged>>, e: Engine, o: Options): Dispatcher
    requires i < |d.flights| && d.flights[i].Reading?
  {
    match answer
    case None => Ended(d, i, e, o)
    case Some(all) =>
      var body := BodyOf(d.flights[i].version, d.flights[i].state, all);
      d.(flights := d.flights[i := Posting(body, 0)], posts := d.posts + [body])
  }

  /** A post of flush i is answered: taken (2xx), refused as stale (409), or failed. */
  function Answered(d: Dispatcher, i: nat, terminal: bool, e: Engine, now: int, o: Options): Dispatcher
    requires i < |d.flights| && d.flights[i].Posting?
  {
    var f := d.flights[i];
    if !terminal && f.attempt + 1 < ATTEMPTS then
      d.(flights := d.flights[i := Posting(f.body, f.attempt + 1)], posts := d.posts + [f.body])
    else
      Ended(d.(lastFlushedVersion := f.body.version, lastFlushAt := now, strokesSinceFlush := 0), i, e, o)
  }

  // ---- the object ----

  class CheckpointDispatcher {
    var strokesSinceFlush: nat
    var lastStatus: Option<Status>
    var lastFlushAt: int
    var lastFlushedVersion: int
    var flushing: bool
    var pending: bool
    var flights: seq<Flight>
    var posts: seq<Body>
    const o: Options

    constructor (o: Options)
      ensures Core() == Initial() && this.o == o
    {
      this.o := o;
      strokesSinceFlush, lastStatus, lastFlushAt, lastFlushedVersion := 0, None, 0, -1;
      flushing, pending := false, false;
      flights, posts := [], [];
    }

    function Core(): Dispatcher
      reads this
    {
      Dispatcher(strokesSinceFlush, lastStatus, lastFlushAt, lastFlushedVersion, flushing, pending, flights, posts)
    }

    method Flush(e: Engine)
      modifies this
      ensures Core() == Flushed(old(Core()), e, o)
    {
      if flushing {
        pending := true;
        return;
      }
      flushing := true;
      var state := Sanitize(e.state);
      if o.hasLog && state.currentRound.Some? {
        flights := flights + [Reading(e.version, state)];
        return;
      }
      var body := Body(e.version, state, 0, []);
      flights := flights + [Posting(body, 0)];
      posts := posts + [body];
    }

    method Observe(evt: ServerEvent, e: Engine)
      modifies this
      ensures Core() == Observed(old(Core()), evt, e, o)
    {
      if evt.StrokeAdded? {
        strokesSinceFlush := strokesSinceFlush + 1;
        if strokesSinceFlush >= o.strokeThreshold {
          Flush(e);
        }
        return;
      }
      if evt.StateUpdate? {
        var status := evt.state.status;
        if lastStatus.Some? && status != lastStatus.value {
          Flush(e);
        }
        lastStatus := Some(status);
      }
    }

    method MaybeFlushByTime(e: Engine, now: int)
      modifies this
      ensures Core() == Ticked(old(Core()), e, now, o)
    {
      if flushing {
        return;
      }
      if e.version == lastFlushedVersion {
        return;
      }
      if now - lastFlushAt < o.timeMs {
        return;
      }
      Flush(e);
    }

    method EndFlush(i: nat, e: Engine)
      requires i < |flights|
      modifies this
      ensures Core() == Ended(old(Core()), i, e, o)
    {
      flushing := false;
      flights := flights[..i] + flights[i + 1..];
      if pending {
        pending := false;
        Flush(e);
      }
    }

    method OnLogRead(i: nat, answer: Option<seq<Logged>>, e: Engine)
      requires i < |flights| && flights[i].Reading?
      modifies this
      ensures Core() == LogRead(old(Core()), i, answer, e, o)
    {
      if answer.None? {
        EndFlush(i, e);
        return;
      }
      var slice := Tail(answer.value);
      var tailFrom := if |slice| > 0 then slice[0].strokeIndex else 0;
      var body := Body(flights[i].version, flights[i].state, tailFrom, slice);
      flights := flights[i := Posting(body, 0)];
      posts := posts + [body];
    }

    method OnPostAnswered(i: nat, terminal: bool, e: Engine, now: int)
      requires i < |flights| && flights[i].Posting?
      modifies this
      ensures Core() == Answered(old(Core()), i, terminal, e, now, o)
    {
      var body, attempt := flights[i].body, flights[i].attempt;
      if !terminal && attempt + 1 < ATTEMPTS {
        flights := flights[i := Posting(body, attempt + 1)];
        posts := posts + [body];
        return;
      }
      lastFlushedVersion := body.version;
      lastFlushAt := now;
      strokesSinceFlush := 0;
      EndFlush(i, e);
    }
  }

  // ---- runs ----

  datatype Step =
    | Event(evt: ServerEvent, e: Engine)
    | Tick(e: Engine, now: int)
    | Log(i: nat, answer: Option<seq<Logged>>, e: Engine)
    | Post(i: nat, terminal: bool, e: Engine, now: int)

  // Beside the dispatcher: the engine's version, the versions at which snapshots were taken, the strokes
  // broadcast since the last one, the version at the last trigger, and whether no snapshot has been taken
  // since that trigger came.
  datatype World = World(
    d: Dispatcher, version: nat, snapshots: seq<nat>, sinceSnapshot: nat, trigger: Option<nat>, unanswered: bool)

  predicate Possible(w: World, s: Step) {
    && s.e.version >= w.version
    && match s
       case Log(i, _, _) => i < |w.d.flights| && w.d.flights[i].Reading?
       case Post(i, _, _, _) => i < |w.d.flights| && w.d.flights[i].Posting?
       case _ => true
  }

  /** The steps that ask for a flush. */
  predicate Triggers(w: World, s: Step, o: Options) {
    match s
    case Event(StrokeAdded(_, _), _) => w.d.strokesSinceFlush + 1 >= o.strokeThreshold
    case Event(StateUpdate(state), _) => w.d.lastStatus.Some? && state.status != w.d.lastStatus.value
    case _ => false
  }

  function Applied(d: Dispatcher, s: Step, o: Options): Dispatcher
    requires s.Log? ==> s.i < |d.flights| && d.flights[s.i].Reading?
    requires s.Post? ==> s.i < |d.flights| && d.flights[s.i].Posting?
  {
    match s
    case Event(evt, e) => Observed(d, evt, e, o)
    case Tick(e, now) => Ticked(d, e, now, o)
    case Log(i, answer, e) => LogRead(d, i, answer, e, o)
    case Post(i, terminal, e, now) => Answered(d, i, terminal, e, now, o)
  }

  /** The steps in which the flush in flight comes to its end. */
  predicate Ends(d: Dispatcher, s: Step)
    requires s.Post? ==> s.i < |d.flights| && d.flights[s.i].Posting?
  {
    match s
    case Log(_, answer, _) => answer.None?
    case Post(i, terminal, _, _) => terminal || d.flights[i].attempt + 1 >= ATTEMPTS
    case _ => false
  }

  /** The steps that take a snapshot: a flush is in flight afterwards that was not before. */
  predicate Snaps(w: World, s: Step, o: Options)
    requires Possible(w, s)
  {
    Applied(w.d, s, o).flushing && (!w.d.flushing || Ends(w.d, s))
  }

  function Next(w: World, s: Step, o: Options): World
    requires Possible(w, s)
  {
    var stroke := if s.Event? && s.evt.StrokeAdded? then 1 else 0;
    World(
      Applied(w.d, s, o),
      s.e.version,
      if Snaps(w, s, o) then w.snapshots + [s.e.version] else w.snapshots,
      if Snaps(w, s, o) then 0 else w.sinceSnapshot + stroke,
      if Triggers(w, s, o) then Some(s.e.version) else w.trigger,
      !Snaps(w, s, o) && (Triggers(w, s, o) || w.unanswered))
  }

  predicate PossibleRun(w: World, steps: seq<Step>, o: Options)
    decreases |steps|
  {
    steps != [] ==> Possible(w, steps[0]) && PossibleRun(Next(w, steps[0], o), steps[1..], o)
  }

  function Run(w: World, steps: seq<Step>, o: Options): World
    requires PossibleRun(w, steps, o)
    decreases |steps|
  {
    if steps == [] then w else Run(Next(w, steps[0], o), steps[1..], o)
  }

  const START := World(Initial(), 0, [], 0, None, false)

  // ---- what every step keeps ----

  function VersionOf(f: Flight): nat {
    if f.Reading? then f.version else f.body.version
  }

  function Last(s: seq<nat>): int {
    if s == [] then -1 else s[|s| - 1]
  }

  ghost predicate NeverFalling(s: seq<nat>) {
    forall i, j :: 0 <= i < j < |s| ==> s[i] <= s[j]
  }

  function PostedVersions(posts: seq<Body>): seq<nat> {
    seq(|posts|, i requires 0 <= i < |posts| => posts[i].version)
  }

  /** At most one flush, and it works on the last snapshot. */
  ghost predicate OneFlight(w: World) {
    && |w.d.flights| == (if w.d.flushing then 1 else 0)
    && (w.d.pending ==> w.d.flushing)
    && (w.d.flushing ==> VersionOf(w.d.flights[0]) == Last(w.snapshots))
    && (w.d.flushing && w.d.flights[0].Posting? ==> w.d.flights[0].attempt < ATTEMPTS)
  }

  ghost predicate InOrder(w: World) {
    && NeverFalling(w.snapshots) && Last(w.snapshots) <= w.version
    && NeverFalling(PostedVersions(w.d.posts)) && Last(PostedVersions(w.d.posts)) <= Last(w.snapshots)
  }

  /** A trigger has been followed by a snapshot, at least as new, or a flush is pending. */
  ghost predicate TriggerHeard(w: World) {
    && (w.unanswered ==> w.d.pending)
    && (w.trigger.Some? ==> w.trigger.value <= w.version && (w.d.pending || w.trigger.value <= Last(w.snapshots)))
  }

  function Slack(o: Options): nat {
    if o.strokeThreshold <= 1 then 0 else o.strokeThreshold - 1
  }

  function Min(a: nat, b: nat): nat {
    if a <= b then a else b
  }

  /**
   In flight with nothing pending, the strokes since the snapshot have not reached the threshold; with
   no flush in flight, what was missed during the last one comes on top of those counted since.
   */
  predicate FewStrokes(w: World, o: Options) {
    && (w.d.flushing && !w.d.pending ==>
          w.sinceSnapshot <= Slack(o) && (w.sinceSnapshot > 0 ==> w.sinceSnapshot <= w.d.strokesSinceFlush <= Slack(o)))
    && (!w.d.flushing ==> w.sinceSnapshot <= Slack(o) + Min(w.d.strokesSinceFlush, Slack(o)))
  }

  ghost predicate WorldOk(w: World, o: Options) {
    OneFlight(w) && InOrder(w) && TriggerHeard(w) && FewStrokes(w, o)
  }

  lemma OneMore(s: seq<nat>, v: nat)
    requires NeverFalling(s) && Last(s) <= v
    ensures NeverFalling(s + [v]) && Last(s + [v]) == v
  {
  }

  lemma PostedOneMore(posts: seq<Body>, b: Body)
    ensures PostedVersions(posts + [b]) == PostedVersions(posts) + [b.version]
  {
  }

  lemma EventKeeps(w: World, s: Step, o: Options)
    requires WorldOk(w, o) && Possible(w, s) && (s.Event? || s.Tick?)
    ensures WorldOk(Next(w, s, o), o)
  {
    hide Sanitize, NeverFalling, PostedVersions, Last, BodyOf;
    OneMore(w.snapshots, s.e.version);
    OneMore(PostedVersions(w.d.posts), s.e.version);
    PostedOneMore(w.d.posts, BodyOf(s.e.version, Sanitize(s.e.state), []));
  }

  lemma LogKeeps(w: World, s: Step, o: Options)
    requires WorldOk(w, o) && Possible(w, s) && s.Log?
    ensures WorldOk(Next(w, s, o), o)
  {
    hide Sanitize, NeverFalling, PostedVersions, Last, BodyOf;
    assert Without(w.d.flights, 0) == [];
    OneMore(w.snapshots, s.e.version);
    OneMore(PostedVersions(w.d.posts), s.e.version);
    PostedOneMore(w.d.posts, BodyOf(s.e.version, Sanitize(s.e.state), []));
    var v := VersionOf(w.d.flights[0]);
    OneMore(PostedVersions(w.d.posts), v);
    if s.answer.Some? {
      PostedOneMore(w.d.posts, BodyOf(v, w.d.flights[0].state, s.answer.value));
    }
  }

  lemma PostKeeps(w: World, s: Step, o: Options)
    requires WorldOk(w, o) && Possible(w, s) && s.Post?
    ensures WorldOk(Next(w, s, o), o)
  {
    hide Sanitize, NeverFalling, PostedVersions, Last, BodyOf;
    assert Without(w.d.flights, 0) == [];
    OneMore(w.snapshots, s.e.version);
    OneMore(PostedVersions(w.d.posts), s.e.version);
    PostedOneMore(w.d.posts, BodyOf(s.e.version, Sanitize(s.e.state), []));
    OneMore(PostedVersions(w.d.posts), VersionOf(w.d.flights[0]));
    PostedOneMore(w.d.posts, w.d.flights[0].body);
  }

  lemma StepKeeps(w: World, s: Step, o: Options)
    requires WorldOk(w, o) && Possible(w, s)
    ensures WorldOk(Next(w, s, o), o)
  {
    hide WorldOk, Next, Possible;
    match s
    case Log(_, _, _) => LogKeeps(w, s, o);
    case Post(_, _, _, _) => PostKeeps(w, s, o);
    case Event(_, _) => EventKeeps(w, s, o);
    case Tick(_, _) => EventKeeps(w, s, o);
  }

  lemma {:induction false} RunKeeps(w: World, steps: seq<Step>, o: Options)
    requires WorldOk(w, o) && PossibleRun(w, steps, o)
    ensures WorldOk(Run(w, steps, o), o)
    decreases |steps|
  {
    if steps != [] {
      hide WorldOk, Next;
      StepKeeps(w, steps[0], o);
      RunKeeps(Next(w, steps[0], o), steps[1..], o);
    }
  }

  lemma StartOk(o: Options)
    ensures WorldOk(START, o)
  {
    assert PostedVersions([]) == [];
  }

  // ---- results ----

  /** At most one flush is ever in flight, and the versions posted never fall. */
  lemma OneFlushAtATime(steps: seq<Step>, o: Options)
    requires PossibleRun(START, steps, o)
    ensures var d := Run(START, steps, o).d;
            && |d.flights| <= 1
            && (d.flushing <==> |d.flights| == 1)
            && forall i, j :: 0 <= i < j < |d.posts| ==> d.posts[i].version <= d.posts[j].version
  {
    StartOk(o);
    RunKeeps(START, steps, o);
    var posts := Run(START, steps, o).d.posts;
    forall i, j | 0 <= i < j < |posts| ensures posts[i].version <= posts[j].version {
      assert PostedVersions(posts)[i] <= PostedVersions(posts)[j];
    }
  }

  /**
   No trigger is lost. Once nothing is in flight, a snapshot has been taken since the last trigger came,
   in its step or later, of a state at least as new.
   */
  lemma NoTriggerIsLost(steps: seq<Step>, o: Options)
    requires PossibleRun(START, steps, o)
    ensures var w := Run(START, steps, o);
            !w.d.flushing ==>
              && !w.unanswered
              && (w.trigger.Some? ==> w.snapshots != [] && w.trigger.value <= w.snapshots[|w.snapshots| - 1])
  {
    StartOk(o);
    RunKeeps(START, steps, o);
  }

  /** And while a flush is in flight, a trigger not yet followed by a snapshot has another flush pending. */
  lemma UnansweredMeansPending(steps: seq<Step>, o: Options)
    requires PossibleRun(START, steps, o)
    ensures var w := Run(START, steps, o); w.unanswered ==> w.d.flushing && w.d.pending
  {
    StartOk(o);
    RunKeeps(START, steps, o);
  }

  /**
   Whenever no flush is in flight, at most 2 * (threshold - 1) strokes were broadcast since the last
   snapshot was taken; a threshold below one counts as one.
   */
  lemma FewStrokesAreUnsaved(steps: seq<Step>, o: Options)
    requires PossibleRun(START, steps, o)
    ensures var w, t := Run(START, steps, o), if o.strokeThreshold < 1 then 1 else o.strokeThreshold;
            !w.d.flushing ==> w.sinceSnapshot <= 2 * (t - 1)
  {
    StartOk(o);
    RunKeeps(START, steps, o);
  }

  // ---- the ghost columns mean what they say ----

  /**
   A step takes a snapshot exactly when a trigger, or the time, finds nothing in flight, or a flush ends
   with another pending; and the flush it starts works on the engine's redacted state and version then.
   */
  lemma SnapshotsAreTheFlushes(w: World, s: Step, o: Options)
    requires WorldOk(w, o) && Possible(w, s)
    ensures Snaps(w, s, o) <==>
            match s
            case Event(_, _) => Triggers(w, s, o) && !w.d.flushing
            case Tick(e, now) => !w.d.flushing && e.version != w.d.lastFlushedVersion && now - w.d.lastFlushAt >= o.timeMs
            case _ => Ends(w.d, s) && w.d.pending
    ensures Snaps(w, s, o) ==>
            var f := Next(w, s, o).d.flights[0];
            f == Reading(s.e.version, Sanitize(s.e.state)) || f == Posting(BodyOf(s.e.version, Sanitize(s.e.state), []), 0)
  {
    hide Sanitize, BodyOf;
    if |w.d.flights| == 1 {
      assert Without(w.d.flights, 0) == [];
    }
  }

  /** What is posted with a log is the end of it: the last strokes, in order, at most 64. */
  lemma TailIsTheEnd(version: nat, state: GameState, all: seq<Logged>)
    ensures var body := BodyOf(version, state, all);
            && |body.tail| == (if |all| < LOG_TAIL_SIZE then |all| else LOG_TAIL_SIZE)
            && all == all[..|all| - |body.tail|] + body.tail
            && (body.tail != [] ==> body.tailFrom == all[|all| - |body.tail|].strokeIndex)
  {
  }

  /**
   Giving up counts as saving. When the fifth post of a flush fails and nothing is pending, no passage
   of time alone flushes again: not until the engine's version moves on.
   */
  lemma GivingUpCountsAsSaving(w: World, e: Engine, now: int, later: int, o: Options)
    requires WorldOk(w, o) && w.d.flushing && !w.d.pending
    requires w.d.flights[0].Posting? && w.d.flights[0].attempt + 1 == ATTEMPTS
    ensures var d := Answered(w.d, 0, false, e, now, o);
            var again := Engine(w.d.flights[0].body.version, e.state);
            Ticked(d, again, later, o) == d
  {
  }
}
