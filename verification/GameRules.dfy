/**
 The rules of the game, written down apart from the handlers, and what every reachable state owes to
 them (frontend/p2p/engine.ts), with local draws.
 */
module GameRules {
  import opened Prelude
  import opened Models
  import opened EngineSpec
  import opened EngineInvariant
  import opened EngineTheorems

  // ---- the phases ----

  /** More votes for one suspect than for any other. */
  ghost predicate LeadsAlone(votes: map<string, string>, suspect: string) {
    forall t :: t != suspect ==> |VotersFor(votes, t)| < |VotersFor(votes, suspect)|
  }

  /** Somebody has the points to win. */
  predicate Won(st: GameState) {
    exists i :: 0 <= i < |st.players| && st.players[i].score >= st.config.targetScore
  }

  predicate CardLeft(st: GameState) {
    exists k :: 0 <= k < |st.pool| && !st.pool[k].used
  }

  predicate EveryoneWrote(st: GameState) {
    forall i :: 0 <= i < |st.players| ==> st.players[i].hasSubmitted
  }

  /** The artist whose turn it is. */
  function Artist(r: Round): string
    requires r.turnOrder != []
  {
    r.turnOrder[|r.strokes| % |r.turnOrder|]
  }

  /** The phase a command leads to. */
  ghost function NextPhase(st: GameState, cmd: Command, from: string): Status {
    match cmd
    case StartGame =>
      if st.status == LOBBY && from == st.hostId && |st.players| >= st.config.minPlayers then WRITING else st.status
    case StartRound =>
      if from != st.hostId then st.status
      else if st.status == WRITING && EveryoneWrote(st) then (if CardLeft(st) then ROUND_ANNOUNCE else GAME_OVER)
      else if st.status == ROUND_ANNOUNCE then DRAWING
      else st.status
    case NextRound =>
      if from != st.hostId || st.status != ROUND_SUMMARY then st.status
      else if Won(st) || !CardLeft(st) then GAME_OVER
      else ROUND_ANNOUNCE
    case EndGame => if from == st.hostId then GAME_OVER else st.status
    case _ => if st.currentRound.None? then st.status else PhaseInRound(st, st.currentRound.value, cmd, from)
  }

  /** And the commands of a round that is open. */
  ghost function PhaseInRound(st: GameState, r: Round, cmd: Command, from: string): Status {
    match cmd
    case SubmitStroke(points) =>
      if st.status == DRAWING && r.turnOrder != [] && from == Artist(r) && |points| >= 2
         && |r.strokes| + 1 == st.config.strokesPerArtist * |r.turnOrder| then VOTING
      else st.status
    case CastVote(suspect) =>
      if st.status == VOTING && from in r.turnOrder && suspect in r.turnOrder
         && r.votes.Some? && r.fakeId.Some? && forall v :: v in r.turnOrder ==> v == from || v in r.votes.value
      then (if LeadsAlone(r.votes.value[from := suspect], r.fakeId.value) then FAKE_GUESS else ROUND_SUMMARY)
      else st.status
    case SubmitFakeGuess(_) => if st.status == FAKE_GUESS && r.fakeId == Some(from) then ROUND_SUMMARY else st.status
    case _ => st.status
  }

  lemma CardLeftIs(st: GameState)
    ensures CardLeft(st) <==> Available(st.pool) != []
    ensures CardLeft(st) <==> !(forall card :: card in st.pool ==> card.used)
  {
    if CardLeft(st) {
      var k :| 0 <= k < |st.pool| && !st.pool[k].used;
      assert st.pool[k] in st.pool && st.pool[k] in Available(st.pool);
    }
    if Available(st.pool) != [] {
      var card := Available(st.pool)[0];
      assert card in Available(st.pool);
      var k :| 0 <= k < |st.pool| && st.pool[k] == card;
    }
  }

  lemma OverIs(st: GameState)
    ensures IsOver(st) <==> Won(st) || !CardLeft(st)
    ensures AllSubmitted(st.players) <==> EveryoneWrote(st)
  {
    CardLeftIs(st);
    if Won(st) {
      var i :| 0 <= i < |st.players| && st.players[i].score >= st.config.targetScore;
      assert st.players[i] in st.players;
    }
    if EveryoneWrote(st) {
      forall p | p in st.players ensures p.hasSubmitted {
        var i :| 0 <= i < |st.players| && st.players[i] == p;
      }
    }
    if AllSubmitted(st.players) {
      forall i | 0 <= i < |st.players| ensures st.players[i].hasSubmitted {
        assert st.players[i] in st.players;
      }
    }
  }

  lemma FirstOpens(c: Core, env: Env)
    requires Inv(c, env) && c.st.status == WRITING
    ensures !c.drawer && PrepareRound(c, env).1.core.st.status == if CardLeft(c.st) then ROUND_ANNOUNCE else GAME_OVER
  {
    PrepareRoundKeeps(c, env);
    CardLeftIs(c.st);
  }

  lemma StartPhase(c: Core, from: string, env: Env)
    requires Inv(c, env)
    ensures HandleStartRound(c, from, env).core.st.status == NextPhase(c.st, StartRound, from)
  {
    hide Inv, PrepareRound, Available, CardLeft, EveryoneWrote, AllSubmitted, Sanitizer.Sanitize, IsOver, Won;
    OverIs(c.st);
    if c.st.status == WRITING {
      FirstOpens(c, env);
    }
  }

  lemma NextOpens(c: Core, env: Env)
    requires Inv(c, env) && c.st.status == ROUND_SUMMARY
    ensures var c1 := c.(st := Archive(c.st));
            && !c.drawer && (IsOver(c1.st) <==> Won(c.st) || !CardLeft(c.st))
            && (!IsOver(c1.st) ==> PrepareRound(c1, env).1.core.st.status == ROUND_ANNOUNCE)
  {
    ArchiveAppends(c.st, env);
    var c1 := c.(st := Archive(c.st));
    OverIs(c1.st);
    CardLeftIs(c1.st);
    assert Won(c1.st) == Won(c.st) && CardLeft(c1.st) == CardLeft(c.st);
    hide Won, CardLeft, IsOver, PrepareRound;
    if !IsOver(c1.st) {
      PrepareRoundKeeps(c1, env);
    }
  }

  lemma NextRoundPhase(c: Core, from: string, env: Env)
    requires Inv(c, env)
    ensures HandleNextRound(c, from, env).core.st.status == NextPhase(c.st, NextRound, from)
  {
    hide Inv, PrepareRound, CardLeft, Sanitizer.Sanitize, IsOver, Won, Archive;
    if c.st.status == ROUND_SUMMARY {
      NextOpens(c, env);
    }
  }

  lemma StrokePhase(c: Core, points: seq<Point>, from: string, env: Env)
    requires Inv(c, env)
    ensures HandleSubmitStroke(c, points, from).core.st.status == NextPhase(c.st, SubmitStroke(points), from)
  {
    hide Permutation, NoDup, CardsDistinct, Available, ArchiveOk, LedgerOk, BallotsValid;
    if c.st.status == DRAWING && from == CurrentTurn(c.st.currentRound.value) {
      PermutationMembers(c.st.currentRound.value.turnOrder, Ids(c.st.players));
      var r := c.st.currentRound.value;
      assert from in r.turnOrder;
    }
  }

  lemma VotePhase(c: Core, suspect: string, from: string, env: Env)
    requires Inv(c, env)
    ensures HandleCastVote(c, suspect, from).core.st.status == NextPhase(c.st, CastVote(suspect), from)
  {
    if c.st.status == VOTING {
      RoundFacts(c, env);
      VotingFacts(c, env);
      var r := c.st.currentRound.value;
      PermutationNoDup(Ids(c.st.players), r.turnOrder);
      hide Inv, NoDup, Permutation, BallotsValid;
      OpenVotePhase(c, suspect, from);
    } else {
      assert HandleCastVote(c, suspect, from).core == c;
    }
  }

  lemma OpenVotePhase(c: Core, suspect: string, from: string)
    requires c.st.status == VOTING && c.st.currentRound.Some?
    requires var r := c.st.currentRound.value; BallotsValid(r) && NoDup(r.turnOrder) && r.fakeId.Some? && r.votes.Some?
    ensures HandleCastVote(c, suspect, from).core.st.status == NextPhase(c.st, CastVote(suspect), from)
  {
    hide Plurality, HandleCastVote, NoDup, BallotsValid, LeadsAlone, VotersFor, Votes;
    var r := c.st.currentRound.value;
    assert Votes(r) == r.votes.value by { VotesAre(r); }
    if from in r.turnOrder && suspect in r.turnOrder {
      var votes := r.votes.value[from := suspect];
      VoteOutcome(c, suspect, from);
      LeadIsPlurality(votes, r.fakeId.value);
      assert (forall v :: v in r.turnOrder ==> v in votes) <==> (forall v :: v in r.turnOrder ==> v == from || v in r.votes.value);
    } else {
      StrangeBallot(c, suspect, from);
    }
  }

  lemma VotesAre(r: Round)
    requires r.votes.Some?
    ensures Votes(r) == r.votes.value
  {
  }

  /** A ballot by or for someone who is not in the round changes nothing. */
  lemma StrangeBallot(c: Core, suspect: string, from: string)
    requires c.st.currentRound.Some? && !(from in c.st.currentRound.value.turnOrder && suspect in c.st.currentRound.value.turnOrder)
    ensures HandleCastVote(c, suspect, from) == Quiet(c)
  {
  }

  lemma LeadIsPlurality(votes: map<string, string>, s: string)
    ensures LeadsAlone(votes, s) <==> Plurality(votes, s)
  {
    hide Plurality, VotersFor;
    PluralityIsStrictMaximum(votes, s);
  }

  lemma RoundFacts(c: Core, env: Env)
    requires Inv(c, env) && c.st.status == VOTING
    ensures c.st.currentRound.Some? && c.st.currentRound.value.fakeId.Some? && c.st.currentRound.value.votes.Some?
  {
  }

  /** In every reachable state every command leads to the phase the rules say. */
  lemma PhasesFollowTheRules(c: Core, cmd: Command, from: string, env: Env)
    requires Reachable(c, env)
    ensures Dispatch(c, cmd, from, env).core.st.status == NextPhase(c.st, cmd, from)
  {
    ReachableOk(c, env);
    hide Reachable;
    match cmd
    case StartRound => StartPhase(c, from, env);
    case NextRound => NextRoundPhase(c, from, env);
    case SubmitStroke(points) => StrokePhase(c, points, from, env);
    case CastVote(suspect) => VotePhase(c, suspect, from, env);
    case _ => OtherPhase(c, cmd, from, env);
  }

  lemma OtherPhase(c: Core, cmd: Command, from: string, env: Env)
    requires Inv(c, env) && !cmd.StartRound? && !cmd.NextRound? && !cmd.SubmitStroke? && !cmd.CastVote?
    ensures Dispatch(c, cmd, from, env).core.st.status == NextPhase(c.st, cmd, from)
  {
    hide Permutation, NoDup, CardsDistinct, Available, ArchiveOk, LedgerOk, BallotsValid, AwardFake, AwardArtists, PickColor;
  }
}
