/** What the checkpoint dispatcher posts (frontend/p2p/checkpoint.ts:67-126), step by step and over runs. */
module CheckpointPosts {
  import opened Prelude
  import opened Models
  import opened Sanitizer
  import opened Checkpoints

  /** A checkpoint of a version and a state, with the end of a log: its last strokes, 64 at most, and the first one's index. */
  ghost predicate Covers(b: Body, version: nat, state: GameState, log: seq<Logged>) {
    && b.version == version && b.state == state
    && |b.tail| <= 64 && (|b.tail| < 64 ==> |b.tail| == |log|)
    && |b.tail| <= |log| && log[|log| - |b.tail|..] == b.tail
    && b.tailFrom == if b.tail == [] then 0 else b.tail[0].strokeIndex
  }

  /** A post that failed and is repeated: not answered for good, and not for the fifth time. */
  predicate PostsAgain(w: World, s: Step)
    requires Possible(w, s)
  {
    s.Post? && !s.terminal && w.d.flights[s.i].attempt < 4
  }

  /** A snapshot that waits for the log before it is posted. */
  predicate WaitsForLog(s: Step, o: Options) {
    o.hasLog && s.e.state.currentRound.Some?
  }

  /**
   Each step posts at most once. The log's answer posts the flight's snapshot with the end of the log; a
   failed post is repeated as it was; a snapshot that need not wait for the log is posted at once,
   without strokes. Nothing else is ever posted, and nothing posted changes.
   */
  lemma PostsExactly(w: World, s: Step, o: Options)
    requires WorldOk(w, o) && Possible(w, s)
    ensures var posts, posts' := w.d.posts, Next(w, s, o).d.posts;
            if s.Log? && s.answer.Some? then
              && |posts'| == |posts| + 1 && posts'[..|posts|] == posts
              && Covers(posts'[|posts|], w.d.flights[s.i].version, w.d.flights[s.i].state, s.answer.value)
            else if PostsAgain(w, s) then posts' == posts + [w.d.flights[s.i].body]
            else if Snaps(w, s, o) && !WaitsForLog(s, o) then posts' == posts + [Body(s.e.version, Sanitize(s.e.state), 0, [])]
            else posts' == posts
  {
    hide StripPool, StripRound, NeverFalling, PostedVersions, Last;
    SnapshotsAreTheFlushes(w, s, o);
    if s.Log? && s.answer.Some? {
      TailIsTheEnd(w.d.flights[s.i].version, w.d.flights[s.i].state, s.answer.value);
    }
  }

  // ---- over runs ----

  // A snapshot: the version and the redacted state of the engine at some step.
  datatype Snapshot = Snapshot(version: nat, state: GameState)

  /** The snapshots a run takes. */
  ghost function Taken(w: World, steps: seq<Step>, o: Options): set<Snapshot>
    requires PossibleRun(w, steps, o)
    decreases |steps|
  {
    if steps == [] then {}
    else
      (if Snaps(w, steps[0], o) then {Snapshot(steps[0].e.version, Sanitize(steps[0].e.state))} else {})
      + Taken(Next(w, steps[0], o), steps[1..], o)
  }

  function StateOf(f: Flight): GameState {
    if f.Reading? then f.state else f.body.state
  }

  ghost predicate Honest(d: Dispatcher, shots: set<Snapshot>) {
    && (forall i :: 0 <= i < |d.flights| ==> Snapshot(VersionOf(d.flights[i]), StateOf(d.flights[i])) in shots)
    && forall i :: 0 <= i < |d.posts| ==> Snapshot(d.posts[i].version, d.posts[i].state) in shots
  }

  lemma HonestStep(w: World, s: Step, o: Options, shots: set<Snapshot>)
    requires WorldOk(w, o) && Possible(w, s) && Honest(w.d, shots)
    ensures Honest(Next(w, s, o).d, if Snaps(w, s, o) then shots + {Snapshot(s.e.version, Sanitize(s.e.state))} else shots)
  {
    hide Sanitize, NeverFalling, PostedVersions, Last, Tail;
    if |w.d.flights| == 1 {
      assert Without(w.d.flights, 0) == [];
    }
  }

  lemma HonestMore(d: Dispatcher, shots: set<Snapshot>, more: set<Snapshot>)
    requires Honest(d, shots) && shots <= more
    ensures Honest(d, more)
  {
  }

  lemma {:induction false} HonestRun(w: World, steps: seq<Step>, o: Options, shots: set<Snapshot>)
    requires WorldOk(w, o) && PossibleRun(w, steps, o) && Honest(w.d, shots)
    ensures Honest(Run(w, steps, o).d, shots + Taken(w, steps, o))
    decreases |steps|
  {
    if steps == [] {
      assert shots + {} == shots;
    } else {
      hide WorldOk, Honest, Next, Snaps, Sanitize;
      var s := steps[0];
      var now := if Snaps(w, s, o) then {Snapshot(s.e.version, Sanitize(s.e.state))} else {};
      HonestStep(w, s, o, shots);
      assert shots + {} == shots;
      StepKeeps(w, s, o);
      HonestRun(Next(w, s, o), steps[1..], o, shots + now);
      assert (shots + now) + Taken(Next(w, s, o), steps[1..], o) == shots + Taken(w, steps, o);
    }
  }

  /** Over any run, whatever is posted is a snapshot the run has taken: a version with the redacted state it had then. */
  lemma PostsAreSnapshots(steps: seq<Step>, o: Options)
    requires PossibleRun(START, steps, o)
    ensures var posts := Run(START, steps, o).d.posts;
            forall i :: 0 <= i < |posts| ==> Snapshot(posts[i].version, posts[i].state) in Taken(START, steps, o)
  {
    StartOk(o);
    HonestRun(START, steps, o, {});
    assert {} + Taken(START, steps, o) == Taken(START, steps, o);
  }

  // ---- what is remembered between flushes ----

  function StatusIn(s: Step): Option<Status> {
    if s.Event? && s.evt.StateUpdate? then Some(s.evt.state.status) else None
  }

  /** The status of the last state broadcast. */
  function LastSeen(before: Option<Status>, steps: seq<Step>): Option<Status>
    decreases |steps|
  {
    if steps == [] then before
    else LastSeen(if StatusIn(steps[0]).Some? then StatusIn(steps[0]) else before, steps[1..])
  }

  lemma SeenStep(w: World, s: Step, o: Options)
    requires Possible(w, s)
    ensures Next(w, s, o).d.lastStatus == if StatusIn(s).Some? then StatusIn(s) else w.d.lastStatus
  {
    hide Sanitize, BodyOf;
  }

  /** The status a new one is compared with is that of the last state broadcast. */
  lemma {:induction false} StatusIsTheLastSeen(w: World, steps: seq<Step>, o: Options)
    requires PossibleRun(w, steps, o)
    ensures Run(w, steps, o).d.lastStatus == LastSeen(w.d.lastStatus, steps)
    decreases |steps|
  {
    if steps != [] {
      hide Next;
      SeenStep(w, steps[0], o);
      StatusIsTheLastSeen(Next(w, steps[0], o), steps[1..], o);
    }
  }

  /**
   The flushed version, the time and the count of strokes change exactly with a flush that ends posted:
   to its version, to now, and to none.
   */
  lemma FlushedIsRecorded(w: World, s: Step, o: Options)
    requires WorldOk(w, o) && Possible(w, s)
    ensures var d, d' := w.d, Next(w, s, o).d;
            if s.Post? && !PostsAgain(w, s) then
              d'.lastFlushedVersion == d.flights[s.i].body.version && d'.lastFlushAt == s.now && d'.strokesSinceFlush == 0
            else
              && d'.lastFlushedVersion == d.lastFlushedVersion && d'.lastFlushAt == d.lastFlushAt
              && d'.strokesSinceFlush == d.strokesSinceFlush + if s.Event? && s.evt.StrokeAdded? then 1 else 0
  {
    hide Sanitize, BodyOf, NeverFalling, PostedVersions, Last;
  }
}
