/**
 End to end: a replica attached to the engine by the loopback before the first command shows, after
 every command, exactly the redacted engine state, and has drawn exactly the strokes of each round.
 */
module Refinement {
  import opened Prelude
  import opened Models
  import opened Sanitizer
  import opened EngineSpec
  import opened EngineInvariant
  import opened EngineTheorems
  import opened ReplicaSpec
  import opened Transports

  /** The strokes drawn for one round, in the order drawn. */
  function DrawnIn(log: seq<Delivery>, round: nat): seq<Stroke> {
    if log == [] then []
    else DrawnIn(log[..|log| - 1], round) + if log[|log| - 1].round == round then [log[|log| - 1].stroke] else []
  }

  /** The strokes the engine holds for a round: the open one, or an archived one. */
  function StrokesOf(st: GameState, round: nat): seq<Stroke> {
    if st.currentRound.Some? && st.currentRound.value.index == round then st.currentRound.value.strokes
    else if round < |st.pastRounds| then st.pastRounds[round].strokes
    else []
  }

  function FloorOf(st: GameState): Option<Floor> {
    if st.currentRound.Some? then Some(Floor(st.currentRound.value.index, st.currentRound.value.strokeIndex)) else None
  }

  ghost predicate InSync(c: Core, v: View) {
    && v.lastVersion == c.version
    && (if c.version == 0 then v.state.None? && c.st.status == LOBBY && c.st.currentRound.None? else v.state == Some(Sanitize(c.st)))
    && v.floor == FloorOf(c.st)
    && v.pending == [] && v.requests == [] && !v.syncInFlight
    && forall k: nat :: DrawnIn(v.delivered, k) == StrokesOf(c.st, k)
  }

  /** The one state the replica can miss: the engine ended the game without announcing it. */
  ghost predicate MissedTheEnd(c: Core, v: View) {
    exists st: GameState :: st.status == WRITING && st.currentRound.None? && c.st == GameOver(st) && InSync(c.(st := st), v)
  }

  /** What a view shares with another when only welcomes, roles and errors came between. */
  ghost predicate SameBoard(v: View, w: View) {
    && v.state == w.state && v.lastVersion == w.lastVersion && v.floor == w.floor && v.pending == w.pending
    && v.delivered == w.delivered && v.requests == w.requests && v.syncInFlight == w.syncInFlight
  }

  ghost predicate Private(e: Emission) {
    e.Direct? && (e.evt.PlayerWelcome? || e.evt.YourRole? || e.evt.ErrorEvent?)
  }

  // ---- events one by one ----

  lemma HearOneMore(self: string, v: View, sent: seq<Emission>, e: Emission)
    ensures var before := ApplyAll(v, HeardBy(self, sent));
            ApplyAll(v, HeardBy(self, sent + [e])) == if e.Broadcast? || e.playerId == self then Apply(before, e.evt) else before
  {
    assert (sent + [e])[..|sent|] == sent;
    var heard := HeardBy(self, sent);
    assert (heard + [e.evt])[..|heard|] == heard;
    assert heard + [] == heard;
  }

  lemma PrivateEvent(v: View, e: Emission)
    requires Private(e)
    ensures SameBoard(v, Apply(v, e.evt))
  {
  }

  lemma {:induction false} PrivateKeepsBoard(self: string, v: View, sent: seq<Emission>, tail: seq<Emission>)
    requires forall e :: e in tail ==> Private(e)
    ensures SameBoard(ApplyAll(v, HeardBy(self, sent)), ApplyAll(v, HeardBy(self, sent + tail)))
  {
    hide ApplyAll, HeardBy, Apply;
    if tail == [] {
      assert sent + tail == sent;
    } else {
      var front, last := tail[..|tail| - 1], tail[|tail| - 1];
      assert last in tail;
      PrivateKeepsBoard(self, v, sent, front);
      HearOneMore(self, v, sent + front, last);
      PrivateEvent(ApplyAll(v, HeardBy(self, sent + front)), last);
      assert sent + tail == (sent + front) + [last];
    }
  }

  lemma SameBoardKeepsSync(c: Core, v: View, w: View)
    requires SameBoard(v, w) && InSync(c, v)
    ensures InSync(c, w)
  {
  }

  /** Strokes already drawn stay in the books of c', and c' opens no hole. */
  ghost predicate Continues(st: GameState, st': GameState) {
    && (forall k: nat :: StrokesOf(st', k) == StrokesOf(st, k))
    && (st.currentRound.Some? ==> st'.currentRound.Some?)
    && (st.currentRound.Some? && st'.currentRound.value.index == st.currentRound.value.index ==>
          st'.currentRound.value.strokeIndex == st.currentRound.value.strokeIndex)
  }

  lemma StateUpdateSync(c: Core, v: View, c': Core)
    requires InSync(c, v) && c'.version == c.version + 1 && Continues(c.st, c'.st)
    ensures InSync(c', ApplyState(v, Sanitize(c'.st)))
  {
  }

  /** Private messages, then the announcement, then private messages. */
  lemma AnnouncedSync(self: string, c: Core, v: View, c': Core, before: seq<Emission>, after: seq<Emission>)
    requires InSync(c, v) && c'.version == c.version && Continues(c.st, c'.st)
    requires (forall e :: e in before ==> Private(e)) && (forall e :: e in after ==> Private(e))
    ensures InSync(Announce(c', before).core, ApplyAll(v, HeardBy(self, Announce(c', before).sent + after)))
  {
    var out := Announce(c', before);
    var w := ApplyAll(v, HeardBy(self, before));
    PrivateKeepsBoard(self, v, [], before);
    assert [] + before == before;
    SameBoardKeepsSync(c, v, w);
    HearOneMore(self, v, before, Broadcast(StateUpdate(Sanitize(c'.st))));
    StateUpdateSync(c, w, out.core);
    PrivateKeepsBoard(self, v, out.sent, after);
    SameBoardKeepsSync(out.core, ApplyAll(v, HeardBy(self, out.sent)), ApplyAll(v, HeardBy(self, out.sent + after)));
  }

  lemma PlainAnnounceSync(self: string, c: Core, v: View, c': Core)
    requires InSync(c, v) && c'.version == c.version && Continues(c.st, c'.st)
    ensures InSync(Announce(c', []).core, ApplyAll(v, HeardBy(self, Announce(c', []).sent)))
  {
    AnnouncedSync(self, c, v, c', [], []);
    assert Announce(c', []).sent + [] == Announce(c', []).sent;
  }

  lemma PrivateSync(self: string, c: Core, v: View, sent: seq<Emission>)
    requires InSync(c, v) && forall e :: e in sent ==> Private(e)
    ensures InSync(c, ApplyAll(v, HeardBy(self, sent)))
  {
    PrivateKeepsBoard(self, v, [], sent);
    assert [] + sent == sent;
    SameBoardKeepsSync(c, v, ApplyAll(v, HeardBy(self, sent)));
  }

  // ---- the handlers ----

  ghost predicate StaysInSync(self: string, v: View, out: Outcomes) {
    InSync(out.core, ApplyAll(v, HeardBy(self, out.sent)))
  }

  lemma JoinSync(self: string, c: Core, v: View, id: string, name: string, from: string, env: Env)
    requires InSync(c, v)
    ensures StaysInSync(self, v, HandleJoin(c, id, name, from, env))
  {
    var wanted := if id != "" then id else from;
    var known := if wanted == "" then None else FindPlayer(c.st.players, wanted);
    if known.Some? {
      WelcomeSync(self, c, v, Rejoin(c, known.value, name), wanted);
    } else if c.st.status == LOBBY || c.st.status == WRITING {
      WelcomeSync(self, c, v, Enter(c, wanted, name, env), NewPlayerId(wanted, env, c.pos));
    } else {
      PrivateSync(self, c, v, [Direct(from, ErrorEvent(GameInProgress))]);
    }
  }

  lemma WelcomeSync(self: string, c: Core, v: View, c': Core, id: string)
    requires InSync(c, v) && c'.version == c.version && Continues(c.st, c'.st)
    ensures StaysInSync(self, v, Welcome(c', id))
  {
    var hello := [Direct(id, PlayerWelcome(id))];
    AnnouncedSync(self, c, v, c', hello, ResendRole(Announce(c', hello).core, id));
  }

  /** The command that ends a game in which nobody submitted a word. */
  predicate StartsOnEmptyPool(c: Core, cmd: Command, from: string) {
    && cmd.StartRound? && from == c.st.hostId && c.st.status == WRITING && AllSubmitted(c.st.players)
    && |c.st.players| >= c.st.config.minPlayers && Available(c.st.pool) == []
  }

  /** The current round, if any, is in the archive, and nothing lies beyond it. */
  ghost predicate Archived(st: GameState) {
    && |st.pastRounds| <= NextIndex(st)
    && (st.currentRound.Some? ==>
          var k := st.currentRound.value.index;
          k < |st.pastRounds| && st.pastRounds[k].strokes == st.currentRound.value.strokes)
  }

  lemma PrepareRoundContinues(c: Core, env: Env)
    requires Archived(c.st)
    ensures var out := PrepareRound(c, env).1;
            && Continues(c.st, out.core.st) && out.core.version == c.version
            && forall e :: e in out.sent ==> Private(e)
  {
    if |c.st.players| >= c.st.config.minPlayers && Available(c.st.pool) != [] {
      DealtCore(c, env);
    }
  }

  lemma OpenedSync(self: string, c: Core, v: View, c0: Core, env: Env)
    requires InSync(c0, v) && c == c0.(st := c.st) && Continues(c0.st, c.st) && Archived(c.st)
    requires c0.st.currentRound == c.st.currentRound
    ensures var out := PrepareRound(c, env).1;
            StaysInSync(self, v, Announce(out.core, out.sent))
  {
    hide PrepareRound;
    var out := PrepareRound(c, env).1;
    PrepareRoundContinues(c, env);
    AnnouncedSync(self, c0, v, out.core, out.sent, []);
    assert Announce(out.core, out.sent).sent + [] == Announce(out.core, out.sent).sent;
  }

  lemma StartRoundSync(self: string, c: Core, v: View, from: string, env: Env)
    requires InSync(c, v) && Inv(c, env)
    ensures var out := HandleStartRound(c, from, env);
            if StartsOnEmptyPool(c, StartRound, from)
            then MissedTheEnd(out.core, ApplyAll(v, HeardBy(self, out.sent)))
            else StaysInSync(self, v, out)
  {
    if StartsOnEmptyPool(c, StartRound, from) {
      PrivateSync(self, c, v, [Direct(from, ErrorEvent(CannotStart))]);
      assert c == c.(st := c.st);
    } else if from == c.st.hostId && c.st.status == WRITING {
      if AllSubmitted(c.st.players) {
        OpenedSync(self, c, v, c, env);
      } else {
        PrivateSync(self, c, v, [Direct(from, ErrorEvent(WaitingForWords))]);
      }
    } else if from == c.st.hostId && c.st.status == ROUND_ANNOUNCE {
      PlainAnnounceSync(self, c, v, c.(st := c.st.(status := DRAWING)));
    }
  }

  lemma NextRoundSync(self: string, c: Core, v: View, from: string, env: Env)
    requires InSync(c, v) && Inv(c, env)
    ensures StaysInSync(self, v, HandleNextRound(c, from, env))
  {
    if from == c.st.hostId && c.st.status == ROUND_SUMMARY {
      hide InSync, ApplyAll, HeardBy, PrepareRound, Sanitize;
      ArchiveAppends(c.st, env);
      var c1 := c.(st := Archive(c.st));
      assert Continues(c.st, c1.st);
      if IsOver(c1.st) {
        PlainAnnounceSync(self, c, v, c1.(st := GameOver(c1.st)));
      } else {
        OpenedSync(self, c1, v, c, env);
      }
    }
  }

  lemma EndGameSync(self: string, c: Core, v: View, from: string, env: Env)
    requires InSync(c, v) && Inv(c, env)
    ensures StaysInSync(self, v, HandleEndGame(c, from))
  {
    if from == c.st.hostId {
      if c.st.status == ROUND_SUMMARY {
        ArchiveAppends(c.st, env);
      }
      var st' := GameOver(if c.st.status == ROUND_SUMMARY then Archive(c.st) else c.st);
      PlainAnnounceSync(self, c, v, c.(st := st'));
    }
  }

  lemma DrawnOneMore(log: seq<Delivery>, d: Delivery, k: nat)
    ensures DrawnIn(log + [d], k) == DrawnIn(log, k) + if d.round == k then [d.stroke] else []
  {
    assert (log + [d])[..|log|] == log;
  }

  lemma SubmitStrokeSync(self: string, c: Core, v: View, points: seq<Point>, from: string, env: Env)
    requires InSync(c, v) && Inv(c, env)
    ensures StaysInSync(self, v, HandleSubmitStroke(c, points, from))
  {
    if c.st.status == DRAWING && from != CurrentTurn(c.st.currentRound.value) {
      PrivateSync(self, c, v, [Direct(from, ErrorEvent(NotYourTurn))]);
    } else if HandleSubmitStroke(c, points, from).core != c {
      StrokeSync(self, c, v, points, from);
    }
  }

  lemma StrokeSync(self: string, c: Core, v: View, points: seq<Point>, from: string)
    requires InSync(c, v) && c.st.currentRound.Some? && c.version > 0
    requires c.st.currentRound.value.strokeIndex == |c.st.currentRound.value.strokes|
    requires HandleSubmitStroke(c, points, from).core.version == c.version + 1
    ensures StaysInSync(self, v, HandleSubmitStroke(c, points, from))
  {
    var stroke := StrokeShape(c, points, from);
    var out, r := HandleSubmitStroke(c, points, from), c.st.currentRound.value;
    hide HandleSubmitStroke, ApplyAll, HeardBy, ReplicaSpec.ApplyStroke, ApplyState, InSync, Sanitize;
    StrokeThenState(c, v, out.core, stroke);
    HeardBoth(self, v, stroke, r.strokeIndex + 1, Sanitize(out.core.st));
  }

  lemma HeardBoth(self: string, v: View, stroke: Stroke, idx: nat, st: GameState)
    ensures ApplyAll(v, HeardBy(self, [Broadcast(StrokeAdded(stroke, idx)), Broadcast(StateUpdate(st))]))
         == ApplyState(ApplyStroke(v, stroke, idx), st)
  {
    hide ApplyAll, HeardBy, ReplicaSpec.ApplyStroke, ApplyState;
    var drawn, update := Broadcast(StrokeAdded(stroke, idx)), Broadcast(StateUpdate(st));
    HearOneMore(self, v, [], drawn);
    HearOneMore(self, v, [drawn], update);
    NothingHeard(self, v);
    assert [] + [drawn] == [drawn] && [drawn] + [update] == [drawn, update];
  }

  lemma StrokeThenState(c: Core, v: View, c': Core, stroke: Stroke)
    requires InSync(c, v) && c.st.currentRound.Some? && c.version > 0 && c'.version == c.version + 1
    requires c'.st.pastRounds == c.st.pastRounds
    requires var r := c.st.currentRound.value;
             c'.st.currentRound == Some(r.(strokes := r.strokes + [stroke], strokeIndex := r.strokeIndex + 1))
    ensures var r := c.st.currentRound.value;
            InSync(c', ApplyState(ApplyStroke(v, stroke, r.strokeIndex + 1), Sanitize(c'.st)))
  {
    hide ReplicaSpec.ApplyStroke, ApplyState, Sanitize;
    var r := c.st.currentRound.value;
    SyncedContext(c, v);
    StrokeIsDrawn(v, stroke, r.index, r.strokeIndex);
    SeenStroke(c, ApplyStroke(v, stroke, r.strokeIndex + 1), c', Delivery(v.epoch, r.index, r.strokeIndex, stroke), v.delivered);
  }

  lemma SyncedContext(c: Core, v: View)
    requires InSync(c, v) && c.st.currentRound.Some? && c.version > 0
    ensures RoundContext(v) == c.st.currentRound.value.index
  {
  }

  lemma NothingHeard(self: string, v: View)
    ensures ApplyAll(v, HeardBy(self, [])) == v
  {
  }

  lemma StrokeShape(c: Core, points: seq<Point>, from: string) returns (stroke: Stroke)
    requires c.st.currentRound.Some? && HandleSubmitStroke(c, points, from).core.version == c.version + 1
    ensures var out, r := HandleSubmitStroke(c, points, from), c.st.currentRound.value;
            && out.sent == [Broadcast(StrokeAdded(stroke, r.strokeIndex + 1)), Broadcast(StateUpdate(Sanitize(out.core.st)))]
            && out.core.st.currentRound == Some(r.(strokes := r.strokes + [stroke], strokeIndex := r.strokeIndex + 1))
            && out.core.st.pastRounds == c.st.pastRounds
  {
    stroke := HandleSubmitStroke(c, points, from).core.st.currentRound.value.strokes[|c.st.currentRound.value.strokes|];
  }

  /** A stroke that comes exactly at the floor, with nothing buffered, is drawn at once. */
  lemma StrokeIsDrawn(v: View, stroke: Stroke, round: nat, idx: nat)
    requires v.floor == Some(Floor(round, idx)) && v.pending == [] && RoundContext(v) == round
    ensures var w := ApplyStroke(v, stroke, idx + 1);
            && w.delivered == v.delivered + [Delivery(v.epoch, round, idx, stroke)]
            && w == v.(floor := Some(Floor(round, idx + 1)), delivered := w.delivered, lastStrokeIndex := w.lastStrokeIndex)
  {
  }

  lemma SeenStroke(c: Core, w: View, c': Core, d: Delivery, log: seq<Delivery>)
    requires c.st.currentRound.Some? && c'.st.currentRound.Some? && c'.version == c.version + 1
    requires var r, r' := c.st.currentRound.value, c'.st.currentRound.value;
             && r' == r.(strokes := r.strokes + [d.stroke], strokeIndex := r.strokeIndex + 1)
             && d.round == r.index && w.floor == Some(Floor(r.index, r'.strokeIndex))
    requires c'.st.pastRounds == c.st.pastRounds
    requires w.lastVersion == c.version && w.pending == [] && w.requests == [] && !w.syncInFlight
    requires w.delivered == log + [d] && forall k: nat :: DrawnIn(log, k) == StrokesOf(c.st, k)
    ensures InSync(c', ApplyState(w, Sanitize(c'.st)))
  {
    forall k: nat ensures DrawnIn(w.delivered, k) == StrokesOf(c'.st, k) {
      DrawnOneMore(log, d, k);
    }
  }

  lemma CastVoteSync(self: string, c: Core, v: View, suspect: string, from: string)
    requires InSync(c, v)
    ensures StaysInSync(self, v, HandleCastVote(c, suspect, from))
  {
    if c.st.status == VOTING && c.st.currentRound.Some? && from in c.st.currentRound.value.turnOrder && suspect in c.st.currentRound.value.turnOrder {
      BallotStep(c, suspect, from);
      var r := c.st.currentRound.value;
      var votes := Votes(r)[from := suspect];
      var c' := c.(st := c.st.(currentRound := Some(r.(votes := Some(votes), votesCast := |votes|))));
      PlainAnnounceSync(self, c, v, AfterBallot(c'));
    }
  }

  lemma FakeGuessSync(self: string, c: Core, v: View, guess: string, from: string, env: Env)
    requires InSync(c, v)
    ensures StaysInSync(self, v, HandleFakeGuess(c, guess, from, env))
  {
    var out := HandleFakeGuess(c, guess, from, env);
    if out.core != c {
      PlainAnnounceSync(self, c, v, out.core.(version := c.version));
    }
  }

  lemma LobbySync(self: string, c: Core, v: View, cmd: Command, from: string, env: Env)
    requires InSync(c, v) && (cmd.ConfigureGame? || cmd.SubmitWords? || cmd.StartGame?)
    ensures StaysInSync(self, v, Dispatch(c, cmd, from, env))
  {
    var out := Dispatch(c, cmd, from, env);
    if out.core != c {
      PlainAnnounceSync(self, c, v, out.core.(version := c.version));
    } else if out.sent != [] {
      PrivateSync(self, c, v, out.sent);
    }
  }

  /** One command keeps the replica in sync, except for the start of a game nobody wrote a word for. */
  lemma DispatchSync(self: string, c: Core, v: View, cmd: Command, from: string, env: Env)
    requires InSync(c, v) && Inv(c, env)
    ensures var out := Dispatch(c, cmd, from, env);
            var w := ApplyAll(v, HeardBy(self, out.sent));
            && (InSync(out.core, w) <==> !StartsOnEmptyPool(c, cmd, from))
            && (StartsOnEmptyPool(c, cmd, from) ==> MissedTheEnd(out.core, w))
  {
    match cmd
    case JoinGame(id, name) => JoinSync(self, c, v, id, name, from, env);
    case StartRound => StartRoundSync(self, c, v, from, env);
    case SubmitStroke(points) => SubmitStrokeSync(self, c, v, points, from, env);
    case CastVote(suspect) => CastVoteSync(self, c, v, suspect, from);
    case SubmitFakeGuess(guess) => FakeGuessSync(self, c, v, guess, from, env);
    case NextRound => NextRoundSync(self, c, v, from, env);
    case EndGame => EndGameSync(self, c, v, from, env);
    case _ => LobbySync(self, c, v, cmd, from, env);
  }

  /** After a missed end the next announcement, if any, brings the replica back in sync. */
  lemma MissedEndIsRepaired(self: string, c: Core, v: View, cmd: Command, from: string, env: Env)
    requires MissedTheEnd(c, v) && !c.drawer
    ensures var out := Dispatch(c, cmd, from, env);
            var w := ApplyAll(v, HeardBy(self, out.sent));
            if out.core.version > c.version then InSync(out.core, w) else out.core == c && MissedTheEnd(c, w)
  {
    var st: GameState :| st.status == WRITING && st.currentRound.None? && c.st == GameOver(st) && InSync(c.(st := st), v);
    var c0 := c.(st := st);
    assert Continues(c0.st, c.st);
    RepairOrSilence(self, c0, c, v, cmd, from, env);
  }

  lemma RepairOrSilence(self: string, c0: Core, c: Core, v: View, cmd: Command, from: string, env: Env)
    requires c0.st.status == WRITING && c0.st.currentRound.None? && c == c0.(st := GameOver(c0.st)) && !c.drawer
    requires InSync(c0, v) && Continues(c0.st, c.st)
    ensures var out := Dispatch(c, cmd, from, env);
            var w := ApplyAll(v, HeardBy(self, out.sent));
            if out.core.version > c.version then InSync(out.core, w) else out.core == c && InSync(c0, w)
  {
    hide InSync, ApplyAll, HeardBy;
    match cmd
    case JoinGame(id, name) =>
      var wanted := if id != "" then id else from;
      var known := if wanted == "" then None else FindPlayer(c.st.players, wanted);
      if known.Some? {
        WelcomeSync(self, c0, v, Rejoin(c, known.value, name), wanted);
      } else {
        PrivateSync(self, c0, v, [Direct(from, ErrorEvent(GameInProgress))]);
      }
    case EndGame =>
      if from == c.st.hostId {
        PlainAnnounceSync(self, c0, v, c.(st := GameOver(c.st)));
      } else {
        NothingHeard(self, v);
      }
    case _ => NothingHeard(self, v);
  }

  /** The replica after a run of commands. */
  ghost function Watch(self: string, c: Core, v: View, inputs: seq<Input>, env: Env): View
    decreases |inputs|
  {
    if inputs == [] then v
    else
      var out := Dispatch(c, inputs[0].cmd, inputs[0].from, env);
      Watch(self, out.core, ApplyAll(v, HeardBy(self, out.sent)), inputs[1..], env)
  }

  /** The last command that changed the game started it on an empty pool. `missed` is where we begin. */
  ghost predicate EndsUnannounced(c: Core, inputs: seq<Input>, env: Env, missed: bool)
    decreases |inputs|
  {
    if inputs == [] then missed
    else
      var c' := Dispatch(c, inputs[0].cmd, inputs[0].from, env).core;
      EndsUnannounced(c', inputs[1..], env,
        StartsOnEmptyPool(c, inputs[0].cmd, inputs[0].from) || (c' == c && missed))
  }

  lemma NeverBoth(c: Core, v: View)
    requires MissedTheEnd(c, v)
    ensures !InSync(c, v) && v.state != Some(Sanitize(c.st))
  {
    var st: GameState :| st.status == WRITING && st.currentRound.None? && c.st == GameOver(st) && InSync(c.(st := st), v);
    assert Sanitize(st).status == WRITING && Sanitize(c.st).status == GAME_OVER;
  }

  /** One command: in sync, or behind an unannounced end, exactly as the commands say. */
  lemma WatchedStep(self: string, c: Core, v: View, cmd: Command, from: string, env: Env, missed: bool)
    requires Inv(c, env) && (if missed then MissedTheEnd(c, v) else InSync(c, v))
    ensures var out := Dispatch(c, cmd, from, env);
            var w := ApplyAll(v, HeardBy(self, out.sent));
            if StartsOnEmptyPool(c, cmd, from) || (out.core == c && missed) then MissedTheEnd(out.core, w) else InSync(out.core, w)
  {
    hide InSync, ApplyAll, HeardBy;
    if missed {
      EndedCannotStart(c, v, cmd, from);
      MissedEndIsRepaired(self, c, v, cmd, from, env);
      NothingLost(c, cmd, from, env);
    } else {
      DispatchSync(self, c, v, cmd, from, env);
    }
  }

  lemma EndedCannotStart(c: Core, v: View, cmd: Command, from: string)
    requires MissedTheEnd(c, v)
    ensures !StartsOnEmptyPool(c, cmd, from)
  {
  }

  lemma NothingLost(c: Core, cmd: Command, from: string, env: Env)
    ensures Dispatch(c, cmd, from, env).core == c ==> !(Dispatch(c, cmd, from, env).core.version > c.version)
  {
  }

  lemma {:induction false} WatchingStaysInSync(self: string, c: Core, v: View, inputs: seq<Input>, env: Env, missed: bool)
    requires Inv(c, env) && FreshRun(c, inputs, env)
    requires if missed then MissedTheEnd(c, v) else InSync(c, v)
    ensures var c', v' := Run(c, inputs, env), Watch(self, c, v, inputs, env);
            if EndsUnannounced(c, inputs, env, missed) then MissedTheEnd(c', v') else InSync(c', v')
    decreases |inputs|
  {
    if inputs != [] {
      hide InSync, MissedTheEnd, ApplyAll, HeardBy, Dispatch, Inv, StartsOnEmptyPool, FreshIds;
      var cmd, from := inputs[0].cmd, inputs[0].from;
      DispatchKeeps(c, cmd, from, env);
      WatchedStep(self, c, v, cmd, from, env, missed);
      var out := Dispatch(c, cmd, from, env);
      WatchingStaysInSync(self, out.core, ApplyAll(v, HeardBy(self, out.sent)), inputs[1..], env,
                          StartsOnEmptyPool(c, cmd, from) || (out.core == c && missed));
    }
  }

  /**
   A replica attached before the first command: after any run its version counts the engine's
   broadcasts, it has drawn exactly the strokes of every round in order and each once, it buffers
   and asks for nothing, and once anything was broadcast its state is the redacted engine state exactly
   unless the last command that changed the game was a start on an empty pool.
   */
  lemma LoopbackShowsTheGame(self: string, hooked: bool, roomId: string, config: Config, inputs: seq<Input>, env: Env)
    requires config.strokesPerArtist >= 1 && FreshRun(Fresh(roomId, config, false), inputs, env)
    ensures var c := Run(Fresh(roomId, config, false), inputs, env);
            var v := Watch(self, Fresh(roomId, config, false), NewView(hooked), inputs, env);
            && v.lastVersion == c.version && v.pending == [] && v.requests == []
            && v.floor == FloorOf(c.st)
            && (forall k: nat :: DrawnIn(v.delivered, k) == StrokesOf(c.st, k))
            && (c.version > 0 ==>
                  (v.state == Some(Sanitize(c.st)) <==> !EndsUnannounced(Fresh(roomId, config, false), inputs, env, false)))
  {
    var c0 := Fresh(roomId, config, false);
    StartsInSync(roomId, config, hooked);
    hide Fresh, NewView, Inv, Run, Watch, EndsUnannounced, Sanitize;
    NewGameOk(roomId, config, env);
    WatchingStaysInSync(self, c0, NewView(hooked), inputs, env, false);
    SyncMeans(Run(c0, inputs, env), Watch(self, c0, NewView(hooked), inputs, env));
  }

  lemma StartsInSync(roomId: string, config: Config, hooked: bool)
    ensures InSync(Fresh(roomId, config, false), NewView(hooked))
  {
  }

  lemma NewGameOk(roomId: string, config: Config, env: Env)
    requires config.strokesPerArtist >= 1
    ensures Inv(Fresh(roomId, config, false), env)
  {
  }

  lemma SyncMeans(c: Core, v: View)
    requires InSync(c, v) || MissedTheEnd(c, v)
    ensures v.lastVersion == c.version && v.pending == [] && v.requests == [] && v.floor == FloorOf(c.st)
    ensures forall k: nat :: DrawnIn(v.delivered, k) == StrokesOf(c.st, k)
    ensures c.version > 0 ==> (v.state == Some(Sanitize(c.st)) <==> InSync(c, v))
    ensures MissedTheEnd(c, v) ==> !InSync(c, v)
  {
    if MissedTheEnd(c, v) {
      NeverBoth(c, v);
      var st: GameState :| st.status == WRITING && st.currentRound.None? && c.st == GameOver(st) && InSync(c.(st := st), v);
      forall k: nat ensures DrawnIn(v.delivered, k) == StrokesOf(c.st, k) {
        assert StrokesOf(st, k) == StrokesOf(c.st, k);
      }
    }
  }

  // ---- guests ----

  // The version and the round the host stamps on the n-th frame.
  type Stamps = nat -> (nat, nat)

  /** What a guest hears when every frame arrives, in order, as an envelope. */
  function HeardOverTheWire(self: string, sent: seq<Emission>, stamps: Stamps): seq<ServerEvent> {
    if sent == [] then []
    else
      var n := |sent| - 1;
      var evt := EnvToEvent(EventToEnv(sent[n].evt, stamps(n).0, stamps(n).1));
      HeardOverTheWire(self, sent[..n], stamps)
      + if (sent[n].Broadcast? || sent[n].playerId == self) && evt.Some? then [evt.value] else []
  }

  /** Packing into envelopes and back loses nothing, so a guest behind a reliable channel sees what the host sees. */
  lemma {:induction false} WireIsTransparent(self: string, sent: seq<Emission>, stamps: Stamps)
    ensures HeardOverTheWire(self, sent, stamps) == HeardBy(self, sent)
  {
    if sent != [] {
      WireIsTransparent(self, sent[..|sent| - 1], stamps);
    }
  }
}
