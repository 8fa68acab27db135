/**
 What a command is answered with (frontend/p2p/engine.ts): the error its sender gets, the welcome of a
 join, and what is told to everyone, in games with local draws.
 */
module Replies {
  import opened Prelude
  import opened Models
  import opened Sanitizer
  import opened EngineSpec
  import opened EngineInvariant
  import opened EngineTheorems
  import opened GameRules

  /** The reason a command is refused aloud, if it is. */
  ghost function Refusal(st: GameState, cmd: Command, from: string): Option<ErrorText> {
    match cmd
    case JoinGame(id, _) =>
      var wanted := if id != "" then id else from;
      if st.status !in {LOBBY, WRITING} && (wanted == "" || forall i :: 0 <= i < |st.players| ==> st.players[i].id != wanted)
      then Some(GameInProgress) else None
    case StartGame =>
      if from == st.hostId && st.status == LOBBY && |st.players| < st.config.minPlayers then Some(NeedPlayers(st.config.minPlayers)) else None
    case StartRound =>
      if from != st.hostId || st.status != WRITING then None
      else if !EveryoneWrote(st) then Some(WaitingForWords)
      else if !CardLeft(st) then Some(CannotStart)
      else None
    case SubmitStroke(_) =>
      if st.status == DRAWING && st.currentRound.Some? && (st.currentRound.value.turnOrder == [] || from != Artist(st.currentRound.value))
      then Some(NotYourTurn) else None
    case _ => None
  }

  /** The errors of a list of emissions, and whom they go to. */
  function ErrorsIn(sent: seq<Emission>): seq<(string, ErrorText)> {
    if sent == [] then []
    else
      var last := sent[|sent| - 1];
      ErrorsIn(sent[..|sent| - 1]) + if last.Direct? && last.evt.ErrorEvent? then [(last.playerId, last.evt.message)] else []
  }

  ghost predicate Errorless(sent: seq<Emission>) {
    forall e :: e in sent ==> !(e.Direct? && e.evt.ErrorEvent?)
  }

  lemma {:induction false} NoErrors(sent: seq<Emission>)
    requires Errorless(sent)
    ensures ErrorsIn(sent) == []
  {
    if sent != [] {
      NoErrors(sent[..|sent| - 1]);
    }
  }

  lemma OneError(to: string, why: ErrorText)
    ensures ErrorsIn([Direct(to, ErrorEvent(why))]) == [(to, why)]
  {
    assert [Direct(to, ErrorEvent(why))][..0] == [];
  }

  lemma DealIsErrorless(c: Core, env: Env)
    ensures Errorless(PrepareRound(c, env).1.sent)
    ensures !PrepareRound(c, env).0 ==> PrepareRound(c, env).1.sent == []
    ensures PrepareRound(c, env).0 <==> |c.st.players| >= c.st.config.minPlayers && Available(c.st.pool) != []
  {
    hide Deal, Available;
  }

  lemma StartReplies(c: Core, from: string, env: Env)
    requires Inv(c, env)
    ensures ErrorsIn(HandleStartRound(c, from, env).sent)
         == (match Refusal(c.st, StartRound, from) case None => [] case Some(why) => [(from, why)])
  {
    StartFacts(c, env);
    OneError(from, WaitingForWords);
    OneError(from, CannotStart);
    hide Inv, PrepareRound, CardLeft, EveryoneWrote, AllSubmitted, ErrorsIn;
    if Refusal(c.st, StartRound, from).None? {
      StartIsErrorless(c, from, env);
      NoErrors(HandleStartRound(c, from, env).sent);
    } else {
      StartRefused(c, from, env);
    }
  }

  lemma StartFacts(c: Core, env: Env)
    requires Inv(c, env)
    ensures !c.drawer && Errorless(PrepareRound(c, env).1.sent) && (!PrepareRound(c, env).0 ==> PrepareRound(c, env).1.sent == [])
    ensures AllSubmitted(c.st.players) <==> EveryoneWrote(c.st)
    ensures c.st.status == WRITING ==> (PrepareRound(c, env).0 <==> CardLeft(c.st))
  {
    OverIs(c.st);
    CardLeftIs(c.st);
    DealIsErrorless(c, env);
    EnoughToWrite(c, env);
  }

  lemma StartIsErrorless(c: Core, from: string, env: Env)
    requires !c.drawer && Errorless(PrepareRound(c, env).1.sent)
    requires from == c.st.hostId && c.st.status == WRITING ==> AllSubmitted(c.st.players) && PrepareRound(c, env).0
    ensures Errorless(HandleStartRound(c, from, env).sent)
  {
    hide PrepareRound, AllSubmitted, Sanitize;
  }

  lemma StartRefused(c: Core, from: string, env: Env)
    requires !c.drawer && from == c.st.hostId && c.st.status == WRITING
    requires !PrepareRound(c, env).0 ==> PrepareRound(c, env).1.sent == []
    ensures !AllSubmitted(c.st.players) ==> HandleStartRound(c, from, env).sent == [Direct(from, ErrorEvent(WaitingForWords))]
    ensures AllSubmitted(c.st.players) && !PrepareRound(c, env).0 ==> HandleStartRound(c, from, env).sent == [Direct(from, ErrorEvent(CannotStart))]
  {
    hide PrepareRound, AllSubmitted, Sanitize;
  }

  lemma EnoughToWrite(c: Core, env: Env)
    requires Inv(c, env)
    ensures !c.drawer && (c.st.status == WRITING ==> |c.st.players| >= c.st.config.minPlayers)
  {
  }

  lemma StrokeReplies(c: Core, points: seq<Point>, from: string, env: Env)
    requires Inv(c, env)
    ensures ErrorsIn(HandleSubmitStroke(c, points, from).sent)
         == (match Refusal(c.st, SubmitStroke(points), from) case None => [] case Some(why) => [(from, why)])
  {
    OneError(from, NotYourTurn);
    hide NoDup, Permutation, ArchiveOk, LedgerOk, Available, CardsDistinct, Sanitize, ErrorsIn, BallotsValid;
    if Refusal(c.st, SubmitStroke(points), from).None? {
      NoErrors(HandleSubmitStroke(c, points, from).sent);
    }
  }

  lemma SeatReplies(c: Core, cmd: Command, from: string, env: Env)
    requires cmd.JoinGame? || cmd.StartGame?
    ensures ErrorsIn(Dispatch(c, cmd, from, env).sent)
         == (match Refusal(c.st, cmd, from) case None => [] case Some(why) => [(from, why)])
  {
    OneError(from, GameInProgress);
    OneError(from, NeedPlayers(c.st.config.minPlayers));
    hide Sanitize, ErrorsIn, PickColor;
    if cmd.JoinGame? {
      KnownIs(c.st.players, if cmd.id != "" then cmd.id else from);
    }
    if Refusal(c.st, cmd, from).None? {
      NoErrors(Dispatch(c, cmd, from, env).sent);
    }
  }

  lemma KnownIs(players: seq<Player>, id: string)
    ensures id in Ids(players) <==> exists i :: 0 <= i < |players| && players[i].id == id
  {
    if id in Ids(players) {
      var i :| 0 <= i < |players| && Ids(players)[i] == id;
    }
    if i :| 0 <= i < |players| && players[i].id == id {
      assert Ids(players)[i] == id;
    }
  }

  lemma OtherReplies(c: Core, cmd: Command, from: string, env: Env)
    requires Inv(c, env) && !cmd.JoinGame? && !cmd.StartGame? && !cmd.StartRound? && !cmd.SubmitStroke?
    ensures ErrorsIn(Dispatch(c, cmd, from, env).sent) == []
  {
    if cmd.NextRound? {
      DealIsErrorless(c.(st := Archive(c.st)), env);
    }
    hide Sanitize, ErrorsIn, PrepareRound, Archive, IsOver, AwardFake, AwardArtists, Caught, GuessIsRight;
    NoErrors(Dispatch(c, cmd, from, env).sent);
  }

  /**
   A command is answered with an error exactly when the rules give a reason to refuse it, with that
   reason, once, and to nobody but its sender. Everything else that is refused is refused in silence.
   */
  lemma RefusalsAreExplained(c: Core, cmd: Command, from: string, env: Env)
    requires Reachable(c, env)
    ensures ErrorsIn(Dispatch(c, cmd, from, env).sent)
         == (match Refusal(c.st, cmd, from) case None => [] case Some(why) => [(from, why)])
  {
    ReachableOk(c, env);
    hide Reachable;
    match cmd
    case StartRound => StartReplies(c, from, env);
    case SubmitStroke(points) => StrokeReplies(c, points, from, env);
    case JoinGame(_, _) => SeatReplies(c, cmd, from, env);
    case StartGame => SeatReplies(c, cmd, from, env);
    case _ => OtherReplies(c, cmd, from, env);
  }

  lemma ResentToItself(c: Core, id: string)
    ensures forall e :: e in ResendRole(c, id) ==> e.Direct? && e.playerId == id && e.evt.YourRole?
  {
  }

  /** A join that is not refused is welcomed by the id of its seat, first, and then announced to everyone. */
  lemma JoinIsWelcomed(c: Core, asked: string, name: string, from: string, env: Env)
    requires Refusal(c.st, JoinGame(asked, name), from).None?
    ensures var out := HandleJoin(c, asked, name, from, env);
            var wanted := if asked != "" then asked else from;
            var id := if wanted != "" then wanted else env.playerId(c.pos);
            && |out.sent| >= 2 && out.sent[0] == Direct(id, PlayerWelcome(id)) && id in Ids(out.core.st.players)
            && out.sent[1] == Broadcast(StateUpdate(Sanitize(out.core.st)))
            && forall e :: e in out.sent[2..] ==> e.Direct? && e.playerId == id && e.evt.YourRole?
  {
    hide Sanitize, PickColor, ResendRole;
    var wanted := if asked != "" then asked else from;
    KnownIs(c.st.players, wanted);
    forall d: Core, id ensures forall e :: e in ResendRole(d, id) ==> e.Direct? && e.playerId == id && e.evt.YourRole? {
      ResentToItself(d, id);
    }
    var out := HandleJoin(c, asked, name, from, env);
    if wanted != "" && wanted in Ids(c.st.players) {
      assert Ids(Rejoin(c, FindPlayer(c.st.players, wanted).value, name).st.players) == Ids(c.st.players);
    } else {
      assert Ids(out.core.st.players)[|c.st.players|] == NewPlayerId(wanted, env, c.pos);
    }
  }

  /** What is told to everyone: the new state, redacted, when the version rises by one; and before it a stroke. */
  ghost predicate ToldProperly(c: Core, out: Outcomes, stroke: bool) {
    && c.version <= out.core.version <= c.version + 1
    && forall e :: e in out.sent && e.Broadcast? ==>
         && out.core.version == c.version + 1
         && (e.evt == StateUpdate(Sanitize(out.core.st)) || (stroke && e.evt.StrokeAdded?))
  }

  /** Everyone is told the redacted state whenever the version rises, by one, and strokes just before it. */
  lemma ToldToEveryone(c: Core, cmd: Command, from: string, env: Env)
    requires Reachable(c, env)
    ensures ToldProperly(c, Dispatch(c, cmd, from, env), cmd.SubmitStroke?)
  {
    ReachableOk(c, env);
    NoDrawer(c, env);
    hide Reachable, ToldProperly;
    match cmd
    case JoinGame(id, name) => JoinAnnounced(c, id, name, from, env);
    case StartRound => StartAnnounced(c, from, env);
    case NextRound => NextAnnounced(c, from, env);
    case _ => OtherAnnounced(c, cmd, from, env);
  }

  lemma StartAnnounced(c: Core, from: string, env: Env)
    requires !c.drawer
    ensures ToldProperly(c, HandleStartRound(c, from, env), false)
  {
    DealTellsNobody(c, env);
    hide PrepareRound, AllSubmitted, Sanitize;
  }

  lemma NextAnnounced(c: Core, from: string, env: Env)
    requires !c.drawer
    ensures ToldProperly(c, HandleNextRound(c, from, env), false)
  {
    DealTellsNobody(c.(st := Archive(c.st)), env);
    hide PrepareRound, Archive, IsOver, Sanitize, GameOver;
  }

  lemma OtherAnnounced(c: Core, cmd: Command, from: string, env: Env)
    requires !cmd.JoinGame? && !cmd.StartRound? && !cmd.NextRound?
    ensures ToldProperly(c, Dispatch(c, cmd, from, env), cmd.SubmitStroke?)
  {
    hide Archive, AwardFake, AwardArtists, Caught, GuessIsRight, Sanitize, GameOver, MintCards, PatchConfig;
  }

  lemma NoDrawer(c: Core, env: Env)
    requires Inv(c, env)
    ensures !c.drawer
  {
  }

  lemma JoinAnnounced(c: Core, asked: string, name: string, from: string, env: Env)
    ensures ToldProperly(c, HandleJoin(c, asked, name, from, env), false)
  {
    hide PickColor, Sanitize;
  }

  lemma DealTellsNobody(c: Core, env: Env)
    ensures PrepareRound(c, env).1.core.version == c.version
    ensures forall e :: e in PrepareRound(c, env).1.sent ==> e.Direct?
  {
    hide Available;
  }
}
