/**
 What every run of the engine keeps when rounds are drawn locally (no server drawer): phases,
 turn fairness, the vote count, the archive, the card count and the score ledger.
 */
module EngineInvariant {
  import opened Prelude
  import opened Models
  import opened EngineSpec

  // ---- rounds ----

  ghost predicate TurnsAlternate(r: Round) {
    r.turnOrder != [] && forall i :: 0 <= i < |r.strokes| ==> r.strokes[i].playerId == r.turnOrder[i % |r.turnOrder|]
  }

  ghost predicate BallotsValid(r: Round) {
    && r.votes.Some?
    && r.votesCast == |r.votes.value|
    && forall v :: v in r.votes.value ==> v in r.turnOrder && r.votes.value[v] in r.turnOrder
  }

  ghost predicate RoundOk(r: Round, players: seq<Player>) {
    && Permutation(r.turnOrder, Ids(players))
    && r.fakeId.Some? && r.fakeId.value in r.turnOrder
    && r.cardId.Some?
    && r.strokeIndex == |r.strokes|
    && TurnsAlternate(r)
    && BallotsValid(r)
  }

  predicate Undecided(r: Round) {
    r.outcome == Unset && r.fakeGuess.None? && r.revealedWord.None?
  }

  /** The rule: a guess wins that says something and, trimmed and in lower case, is the word. */
  predicate Guesses(guess: string, word: string, env: Env) {
    env.lower(env.trim(guess)) != "" && env.lower(env.trim(guess)) == env.lower(env.trim(word))
  }

  predicate GuessedRight(r: Round, env: Env) {
    r.fakeGuess.Some? && Guesses(r.fakeGuess.value, OrEmpty(r.revealedWord), env)
  }

  /** A finished round: everyone voted, and the outcome is the one the votes and the guess give. */
  ghost predicate Decided(r: Round, env: Env) {
    && r.revealedWord.Some?
    && |Votes(r)| == |r.turnOrder|
    && (Caught(r) <==> r.fakeGuess.Some?)
    && r.outcome == if Caught(r) && !GuessedRight(r, env) then ArtistsWon else FakeWon
  }

  // ---- the ledger ----

  /** The rules of the game: what one finished round is worth to a player. */
  ghost function Points(r: Round, id: string, env: Env): int {
    var isFake := r.fakeId == Some(id);
    if !Caught(r) then (if isFake then 1 else 0)
    else if GuessedRight(r, env) then (if isFake then 2 else 0)
    else if id in r.turnOrder && !isFake then 1 else 0
  }

  ghost function Total(rounds: seq<Round>, id: string, env: Env): int {
    if rounds == [] then 0
    else Total(rounds[..|rounds| - 1], id, env) + Points(rounds[|rounds| - 1], id, env)
  }

  /** The finished rounds: the archive, and the current round while its summary is shown. */
  function Finished(st: GameState): seq<Round> {
    if st.status == ROUND_SUMMARY && st.currentRound.Some? then st.pastRounds + [st.currentRound.value] else st.pastRounds
  }

  ghost predicate LedgerOk(st: GameState, env: Env) {
    forall i :: 0 <= i < |st.players| ==> st.players[i].score == Total(Finished(st), st.players[i].id, env)
  }

  // ---- the state ----

  predicate CardsDistinct(pool: seq<WordCard>) {
    forall i, j :: 0 <= i < j < |pool| ==> pool[i].id != pool[j].id
  }

  function Drawn(st: GameState): nat {
    if st.currentRound.Some? then st.currentRound.value.index + 1 else 0
  }

  ghost predicate ArchiveOk(st: GameState, env: Env) {
    forall i :: 0 <= i < |st.pastRounds| ==>
      && st.pastRounds[i].index == i
      && RoundOk(st.pastRounds[i], st.players)
      && Decided(st.pastRounds[i], env)
  }

  function StrokesNeeded(st: GameState, r: Round): int {
    st.config.strokesPerArtist * |r.turnOrder|
  }

  /** What each status says about the current round. */
  ghost predicate PhaseOk(st: GameState, env: Env) {
    match st.status
    case LOBBY => st.currentRound.None? && st.pastRounds == [] && st.pool == []
    case WRITING => st.currentRound.None? && st.pastRounds == []
    case GAME_OVER =>
      if st.currentRound.None? then st.pastRounds == []
      else
        || st.currentRound.value.index == |st.pastRounds|
        || (|st.pastRounds| > 0 && st.currentRound.value == st.pastRounds[|st.pastRounds| - 1])
    case _ =>
      && st.currentRound.Some?
      && var r := st.currentRound.value;
      && r.index == |st.pastRounds|
      && (st.status != ROUND_SUMMARY ==> Undecided(r))
      && match st.status
         case ROUND_ANNOUNCE => r.strokes == [] && Votes(r) == map[]
         case DRAWING => |r.strokes| < StrokesNeeded(st, r) && Votes(r) == map[]
         case VOTING => |r.strokes| == StrokesNeeded(st, r) && |Votes(r)| < |r.turnOrder|
         case FAKE_GUESS => |r.strokes| == StrokesNeeded(st, r) && |Votes(r)| == |r.turnOrder| && Caught(r)
         case _ => |r.strokes| == StrokesNeeded(st, r) && Decided(r, env)
  }

  ghost predicate StateOk(st: GameState, env: Env) {
    && NoDup(Ids(st.players))
    && CardsDistinct(st.pool)
    && |Available(st.pool)| + Drawn(st) == |st.pool|
    && st.config.strokesPerArtist >= 1
    && (st.status !in {LOBBY, GAME_OVER} ==> |st.players| >= st.config.minPlayers)
    && (st.players == [] ==> st.pool == [])
    && (st.currentRound.Some? ==> RoundOk(st.currentRound.value, st.players))
    && PhaseOk(st, env)
    && ArchiveOk(st, env)
    && LedgerOk(st, env)
  }

  ghost predicate Inv(c: Core, env: Env) {
    !c.drawer && c.awaiting == [] && StateOk(c.st, env)
  }

  /** The environment assumption: identifiers it mints on this command are new. */
  ghost predicate FreshIds(c: Core, cmd: Command, from: string, env: Env) {
    match cmd
    case JoinGame(id, _) => id == "" && from == "" ==> env.playerId(c.pos) !in Ids(c.st.players)
    case SubmitWords(words) => CardsDistinct(c.st.pool + MintCards(words, from, env, c.pos).0)
    case _ => true
  }

  // ---- cards ----

  lemma {:induction false} MarkingOneCard(pool: seq<WordCard>, card: WordCard)
    requires CardsDistinct(pool) && card in Available(pool)
    ensures |Available(MarkUsed(pool, card.id))| == |Available(pool)| - 1
    ensures |MarkUsed(pool, card.id)| == |pool| && CardsDistinct(MarkUsed(pool, card.id))
  {
    var k := FindCard(pool, card.id).value;
    if k == 0 {
      assert pool[0] == card;
      var marked := MarkUsed(pool, card.id);
      assert marked[1..] == pool[1..];
    } else {
      assert card in pool[1..];
      MarkingOneCard(pool[1..], card);
      assert MarkUsed(pool, card.id)[1..] == MarkUsed(pool[1..], card.id);
    }
  }

  lemma {:induction false} AvailableOfUnused(pool: seq<WordCard>)
    requires forall c :: c in pool ==> !c.used
    ensures Available(pool) == pool
  {
    if pool != [] {
      AvailableOfUnused(pool[1..]);
    }
  }

  lemma {:induction false} AvailableAtMost(pool: seq<WordCard>)
    ensures |Available(pool)| <= |pool|
    ensures |Available(pool)| == |pool| ==> forall c :: c in pool ==> !c.used
  {
    if pool != [] {
      AvailableAtMost(pool[1..]);
    }
  }

  lemma {:induction false} MintedUnused(words: seq<string>, author: string, env: Env, pos: nat)
    ensures forall c :: c in MintCards(words, author, env, pos).0 ==> !c.used && c.authorId == author
  {
    if words != [] {
      MintedUnused(words[..|words| - 1], author, env, pos);
    }
  }

  // ---- the shuffle ----

  lemma {:induction false} ShuffledPermutes(s: seq<string>, i: nat, env: Env, pos: nat)
    requires i < |s|
    ensures Permutation(Shuffled(s, i, env, pos), s)
    decreases i
  {
    if i > 0 {
      var t := Swap(s, i, Pick(env.rng(pos), i + 1));
      ShuffledPermutes(t, i - 1, env, pos + 1);
      assert multiset(t) == multiset(s);
    }
  }

  lemma TurnOrderPermutes(ids: seq<string>, env: Env, pos: nat)
    ensures Permutation(TurnOrder(ids, env, pos), ids)
  {
    if ids != [] {
      ShuffledPermutes(ids, |ids| - 1, env, pos);
    }
  }

  // ---- scores ----

  /** b is a with every score raised by `gain` of the player's id, and nothing else changed. */
  ghost predicate Raised(a: seq<Player>, b: seq<Player>, gain: string -> int) {
    && |a| == |b|
    && forall i :: 0 <= i < |a| ==> b[i] == a[i].(score := a[i].score + gain(a[i].id))
  }

  lemma AddScoreRaises(players: seq<Player>, id: string, n: int)
    requires NoDup(Ids(players))
    ensures Raised(players, AddScore(players, id, n), x => if x == id then n else 0)
  {
    forall i | 0 <= i < |players| && players[i].id == id ensures FindPlayer(players, id) == Some(i) {
      assert Ids(players)[i] == id;
      var k := FindPlayer(players, id).value;
      assert Ids(players)[k] == id;
    }
  }

  lemma {:induction false} AwardArtistsRaises(players: seq<Player>, order: seq<string>, fake: Option<string>)
    requires NoDup(Ids(players)) && NoDup(order)
    ensures Raised(players, AwardArtists(players, order, fake), x => if x in order && Some(x) != fake then 1 else 0)
    decreases |order|
  {
    if order != [] {
      var first := if Some(order[0]) == fake then players else AddScore(players, order[0], 1);
      AddScoreRaises(players, order[0], 1);
      assert Ids(first) == Ids(players);
      AwardArtistsRaises(first, order[1..], fake);
      assert order[0] !in order[1..];
    }
  }

  lemma TotalOfOneMore(rounds: seq<Round>, r: Round, id: string, env: Env)
    ensures Total(rounds + [r], id, env) == Total(rounds, id, env) + Points(r, id, env)
  {
    assert (rounds + [r])[..|rounds|] == rounds;
  }

  // ---- each handler keeps the invariant ----

  /** The invariant reads nothing of the players but their ids and scores. */
  lemma OnlyIdsAndScoresMatter(st: GameState, players: seq<Player>, env: Env)
    requires StateOk(st, env)
    requires Ids(players) == Ids(st.players)
    requires forall i :: 0 <= i < |players| ==> players[i].score == st.players[i].score
    ensures StateOk(st.(players := players), env)
  {
    var st' := st.(players := players);
    assert |players| == |Ids(players)| == |st.players|;
    assert forall i :: 0 <= i < |players| ==> players[i].id == Ids(players)[i] == st.players[i].id;
    assert Finished(st') == Finished(st);
    hide NoDup, CardsDistinct, Available, Decided, Total, Votes;
  }

  lemma RejoinKeeps(c: Core, k: nat, name: string, env: Env)
    requires Inv(c, env) && k < |c.st.players|
    ensures Inv(Rejoin(c, k, name), env)
  {
    var players := Rejoin(c, k, name).st.players;
    assert Ids(players) == Ids(c.st.players);
    OnlyIdsAndScoresMatter(c.st, players, env);
  }

  lemma EnterKeeps(c: Core, wanted: string, name: string, env: Env)
    requires Inv(c, env) && (c.st.status == LOBBY || c.st.status == WRITING)
    requires NewPlayerId(wanted, env, c.pos) !in Ids(c.st.players)
    ensures Inv(Enter(c, wanted, name, env), env)
  {
    var st' := Enter(c, wanted, name, env).st;
    assert Ids(st'.players) == Ids(c.st.players) + [NewPlayerId(wanted, env, c.pos)];
    assert Finished(st') == [];
  }

  lemma JoinKeeps(c: Core, asked: string, name: string, from: string, env: Env)
    requires Inv(c, env) && FreshIds(c, JoinGame(asked, name), from, env)
    ensures Inv(HandleJoin(c, asked, name, from, env).core, env)
  {
    var wanted := if asked != "" then asked else from;
    var known := if wanted == "" then None else FindPlayer(c.st.players, wanted);
    if known.Some? {
      RejoinKeeps(c, known.value, name, env);
    } else if c.st.status == LOBBY || c.st.status == WRITING {
      EnterKeeps(c, wanted, name, env);
    }
  }

  lemma ConfigureKeeps(c: Core, patch: ConfigPatch, from: string, env: Env)
    requires Inv(c, env)
    ensures Inv(HandleConfigure(c, patch, from).core, env)
  {
  }

  lemma SubmitWordsKeeps(c: Core, words: seq<string>, from: string, env: Env)
    requires Inv(c, env) && FreshIds(c, SubmitWords(words), from, env)
    ensures Inv(HandleSubmitWords(c, words, from, env).core, env)
  {
    var st, st' := c.st, HandleSubmitWords(c, words, from, env).core.st;
    assert Ids(st'.players) == Ids(st.players);
    if st' != st {
      AvailableAtMost(st.pool);
      MintedUnused(words, from, env, c.pos);
      AvailableOfUnused(st'.pool);
    }
  }

  lemma StartGameKeeps(c: Core, from: string, env: Env)
    requires Inv(c, env)
    ensures Inv(HandleStartGame(c, from).core, env)
  {
  }

  lemma AtLeastOneStroke(spa: int, n: int)
    requires spa >= 1 && n >= 1
    ensures spa * n >= 1
  {
  }

  /** Opening a round from the writing phase or from an archived one. */
  lemma PrepareRoundKeeps(c: Core, env: Env)
    requires !c.drawer && c.awaiting == []
    requires c.st.status == WRITING || (c.st.status == ROUND_SUMMARY && c.st.currentRound.Some? && |c.st.pastRounds| == Drawn(c.st))
    requires StateOk(c.st.(status := if c.st.status == WRITING then WRITING else GAME_OVER), env)
    requires |c.st.players| >= c.st.config.minPlayers
    ensures Inv(PrepareRound(c, env).1.core, env)
    ensures PrepareRound(c, env).1.core.st.status == if Available(c.st.pool) == [] then GAME_OVER else ROUND_ANNOUNCE
  {
    var available := Available(c.st.pool);
    if available != [] {
      DealtCore(c, env);
      DealKeeps(c.(pos := c.pos + 1), available[Pick(env.rng(c.pos), |available|)], env);
    } else {
      GameOverKeeps(c.st, env);
      assert PrepareRound(c, env).1.core == c.(st := GameOver(c.st));
    }
  }

  lemma DealtCore(c: Core, env: Env)
    requires |c.st.players| >= c.st.config.minPlayers && Available(c.st.pool) != []
    ensures var available := Available(c.st.pool);
            PrepareRound(c, env).1.core == Deal(c.(pos := c.pos + 1), available[Pick(env.rng(c.pos), |available|)], env)
  {
    hide Available, MarkUsed, TurnOrder, RoleMessages, NewRound;
  }

  lemma GameOverKeeps(st: GameState, env: Env)
    requires StateOk(st.(status := GAME_OVER), env) || (st.status == WRITING && StateOk(st, env))
    ensures StateOk(GameOver(st), env)
  {
    assert Finished(GameOver(st)) == st.pastRounds;
  }

  lemma NewRoundOk(players: seq<Player>, index: nat, cardId: string, env: Env, pos: nat)
    requires players != []
    ensures var order := TurnOrder(Ids(players), env, pos);
            && |order| == |players|
            && RoundOk(NewRound(index, cardId, Some(order[Pick(env.rng(pos + ShuffleCalls(|order|)), |order|)]), order), players)
  {
    TurnOrderPermutes(Ids(players), env, pos);
  }

  lemma DealKeeps(c: Core, card: WordCard, env: Env)
    requires !c.drawer && c.awaiting == []
    requires c.st.status == WRITING || (c.st.status == ROUND_SUMMARY && |c.st.pastRounds| == Drawn(c.st))
    requires StateOk(c.st.(status := if c.st.status == WRITING then WRITING else GAME_OVER), env)
    requires |c.st.players| >= c.st.config.minPlayers && card in Available(c.st.pool)
    ensures Inv(Deal(c, card, env), env)
  {
    hide Total, Decided, Caught, NoDup, CardsDistinct, RoundOk, Available, TurnOrder, MarkUsed, Points;
    MarkingOneCard(c.st.pool, card);
    NewRoundOk(c.st.players, NextIndex(c.st), card.id, env, c.pos);
    var st' := Deal(c, card, env).st;
    assert Finished(st') == c.st.pastRounds;
    assert PhaseOk(st', env) && ArchiveOk(st', env);
  }

  lemma StartRoundKeeps(c: Core, from: string, env: Env)
    requires Inv(c, env)
    ensures Inv(HandleStartRound(c, from, env).core, env)
  {
    if from == c.st.hostId && c.st.status == WRITING && AllSubmitted(c.st.players) {
      PrepareRoundKeeps(c, env);
    } else if from == c.st.hostId && c.st.status == ROUND_ANNOUNCE {
      AtLeastOneStroke(c.st.config.strokesPerArtist, |c.st.currentRound.value.turnOrder|);
    }
  }

  /** A stroke added to the open round; the last one needed opens the vote. */
  function Stroked(st: GameState, stroke: Stroke): GameState
    requires st.currentRound.Some?
  {
    var r := st.currentRound.value;
    var r' := r.(strokes := r.strokes + [stroke], strokeIndex := r.strokeIndex + 1);
    st.(currentRound := Some(r'), status := if r'.strokeIndex >= StrokesNeeded(st, r) then VOTING else DRAWING)
  }

  lemma StrokedRoundOk(r: Round, stroke: Stroke, players: seq<Player>)
    requires RoundOk(r, players) && stroke.playerId == CurrentTurn(r)
    ensures RoundOk(r.(strokes := r.strokes + [stroke], strokeIndex := r.strokeIndex + 1), players)
  {
    hide NoDup, Permutation;
  }

  lemma StrokedOk(st: GameState, stroke: Stroke, env: Env)
    requires StateOk(st, env) && st.status == DRAWING && stroke.playerId == CurrentTurn(st.currentRound.value)
    ensures StateOk(Stroked(st, stroke), env)
  {
    StrokedRoundOk(st.currentRound.value, stroke, st.players);
    NoVotesYet(st.currentRound.value, st.players);
    hide RoundOk, Decided, Total, NoDup, CardsDistinct, Available, Caught;
    var st' := Stroked(st, stroke);
    assert Finished(st') == Finished(st);
    assert ArchiveOk(st', env) by { hide LedgerOk, PhaseOk; }
    assert LedgerOk(st', env) by { hide ArchiveOk, PhaseOk; }
    hide ArchiveOk, LedgerOk;
  }

  lemma NoVotesYet(r: Round, players: seq<Player>)
    requires RoundOk(r, players)
    ensures r.strokeIndex == |r.strokes| && (Votes(r) == map[] ==> |Votes(r)| < |r.turnOrder|)
  {
  }

  lemma StrokeHandled(c: Core, points: seq<Point>, from: string) returns (stroke: Stroke)
    requires c.st.status == DRAWING && c.st.currentRound.Some?
    ensures stroke.playerId == CurrentTurn(c.st.currentRound.value)
    ensures var c' := HandleSubmitStroke(c, points, from).core;
            c' == c || c' == c.(st := Stroked(c.st, stroke), version := c.version + 1)
  {
    stroke := Stroke(CurrentTurn(c.st.currentRound.value), "", []);
    if from == stroke.playerId && from in Ids(c.st.players) {
      stroke := Stroke(from, c.st.players[FindPlayer(c.st.players, from).value].color, points);
    }
  }

  lemma SubmitStrokeKeeps(c: Core, points: seq<Point>, from: string, env: Env)
    requires Inv(c, env)
    ensures Inv(HandleSubmitStroke(c, points, from).core, env)
  {
    if c.st.status == DRAWING && c.st.currentRound.Some? {
      hide HandleSubmitStroke, StateOk, Stroked;
      var stroke := StrokeHandled(c, points, from);
      StrokedOk(c.st, stroke, env);
    }
  }

  lemma FinalizeKeeps(c: Core, caught: bool, right: bool, env: Env)
    requires !c.drawer && c.awaiting == []
    requires c.st.status == VOTING || c.st.status == FAKE_GUESS
    requires StateOk(c.st.(status := GAME_OVER), env) && |c.st.players| >= c.st.config.minPlayers
    requires c.st.currentRound.Some?
    requires var r := c.st.currentRound.value;
             && r.index == |c.st.pastRounds| && |r.strokes| == StrokesNeeded(c.st, r) && |Votes(r)| == |r.turnOrder|
             && caught == Caught(r) == r.fakeGuess.Some?
             && right == (r.fakeGuess.Some? && GuessIsRight(c.word, r.fakeGuess.value, env))
    ensures Inv(Finalize(c, caught, right), env)
  {
    hide Points, Total, Permutation, TurnsAlternate, BallotsValid, Caught, GuessIsRight, NoDup;
    var st' := Finalize(c, caught, right).st;
    FinishedRoundIsDecided(c, caught, right, env);
    FinalizedLedger(c, caught, right, env);
    StillRoundOk(c.st.currentRound.value, st'.currentRound.value, c.st.players, st'.players);
    assert PhaseOk(st', env) && ArchiveOk(st', env);
  }

  lemma StillRoundOk(r: Round, r': Round, players: seq<Player>, players': seq<Player>)
    requires RoundOk(r, players) && Ids(players') == Ids(players)
    requires r' == r.(revealedWord := r'.revealedWord, outcome := r'.outcome)
    ensures RoundOk(r', players')
  {
  }

  lemma FinishedRoundIsDecided(c: Core, caught: bool, right: bool, env: Env)
    requires c.st.currentRound.Some?
    requires var r := c.st.currentRound.value;
             && |Votes(r)| == |r.turnOrder|
             && caught == Caught(r) == r.fakeGuess.Some?
             && right == (r.fakeGuess.Some? && GuessIsRight(c.word, r.fakeGuess.value, env))
    ensures var r, r' := c.st.currentRound.value, Finalize(c, caught, right).st.currentRound.value;
            && r' == r.(revealedWord := r'.revealedWord, outcome := r'.outcome)
            && Decided(r', env) && Caught(r') == caught && GuessedRight(r', env) == right
  {
  }

  lemma FinalizedLedger(c: Core, caught: bool, right: bool, env: Env)
    requires StateOk(c.st.(status := GAME_OVER), env) && c.st.currentRound.Some?
    requires var r := c.st.currentRound.value;
             && caught == Caught(r) == r.fakeGuess.Some?
             && right == (r.fakeGuess.Some? && GuessIsRight(c.word, r.fakeGuess.value, env))
    ensures var st' := Finalize(c, caught, right).st;
            && Finished(st') == c.st.pastRounds + [st'.currentRound.value]
            && LedgerOk(st', env) && Ids(st'.players) == Ids(c.st.players)
  {
    hide Points, Total, PhaseOk, ArchiveOk;
    var st' := Finalize(c, caught, right).st;
    var r' := st'.currentRound.value;
    FinalizeAwardsPoints(c, caught, right, env);
    assert Finished(c.st.(status := GAME_OVER)) == c.st.pastRounds;
    forall i | 0 <= i < |st'.players|
      ensures st'.players[i].score == Total(Finished(st'), st'.players[i].id, env)
    {
      TotalOfOneMore(c.st.pastRounds, r', st'.players[i].id, env);
    }
  }

  /** The code's award loops add exactly the points of the finished round. */
  lemma FinalizeAwardsPoints(c: Core, caught: bool, right: bool, env: Env)
    requires c.st.currentRound.Some?
    requires var r := c.st.currentRound.value;
             && NoDup(Ids(c.st.players)) && Permutation(r.turnOrder, Ids(c.st.players)) && r.fakeId.Some?
             && caught == Caught(r)
             && (caught ==> r.fakeGuess.Some? && right == GuessIsRight(c.word, r.fakeGuess.value, env))
    ensures var st' := Finalize(c, caught, right).st;
            && Raised(c.st.players, st'.players, x => Points(st'.currentRound.value, x, env))
            && Ids(st'.players) == Ids(c.st.players)
  {
    var r := c.st.currentRound.value;
    var st' := Finalize(c, caught, right).st;
    var r' := st'.currentRound.value;
    assert Caught(r') == Caught(r);
    assert caught ==> GuessedRight(r', env) == right;
    PermutationNoDup(Ids(c.st.players), r.turnOrder);
    AddScoreRaises(c.st.players, r.fakeId.value, 2);
    AddScoreRaises(c.st.players, r.fakeId.value, 1);
    AwardArtistsRaises(c.st.players, r.turnOrder, r.fakeId);
    assert Ids(st'.players) == Ids(c.st.players);
  }

  /** Casting a ballot keeps the ballots valid, and there are never more ballots than artists. */
  lemma BallotKeeps(r: Round, from: string, suspect: string)
    requires BallotsValid(r) && NoDup(r.turnOrder) && from in r.turnOrder && suspect in r.turnOrder
    ensures var votes := Votes(r)[from := suspect];
            && BallotsValid(r.(votes := Some(votes), votesCast := |votes|))
            && |votes| <= |r.turnOrder|
            && (|votes| == |r.turnOrder| <==> forall v :: v in r.turnOrder ==> v in votes)
  {
    var votes := Votes(r)[from := suspect];
    var artists := set x | x in r.turnOrder;
    NoDupCardinality(r.turnOrder);
    assert votes.Keys <= artists;
    SubsetSize(votes.Keys, artists);
    assert |votes| == |votes.Keys|;
    if |votes| == |r.turnOrder| {
      SubsetSameSize(votes.Keys, artists);
    }
    if forall v :: v in r.turnOrder ==> v in votes {
      assert votes.Keys == artists;
    }
  }

  /** What follows a recorded ballot: nothing, the fake's guess, or the end of the round. */
  ghost function AfterBallot(c: Core): Core
    requires c.st.currentRound.Some?
  {
    var r := c.st.currentRound.value;
    if |Votes(r)| < |r.turnOrder| then c
    else if Caught(r) then c.(st := c.st.(status := FAKE_GUESS))
    else Finalize(c, false, false)
  }

  lemma LastBallotKeeps(c: Core, env: Env)
    requires !c.drawer && c.awaiting == [] && c.st.status == VOTING && c.st.currentRound.Some?
    requires |c.st.players| >= c.st.config.minPlayers
    requires var r := c.st.currentRound.value;
             && StateOk(c.st.(status := GAME_OVER), env)
             && (|Votes(r)| < |r.turnOrder| ==> StateOk(c.st, env))
             && (|Votes(r)| == |r.turnOrder| && Caught(r) ==> StateOk(c.st.(status := FAKE_GUESS), env))
             && |Votes(r)| <= |r.turnOrder| && r.fakeGuess.None?
             && r.index == |c.st.pastRounds| && |r.strokes| == StrokesNeeded(c.st, r)
    ensures Inv(AfterBallot(c), env)
  {
    var r := c.st.currentRound.value;
    if |Votes(r)| >= |r.turnOrder| && !Caught(r) {
      FinalizeKeeps(c, false, false, env);
    }
  }

  lemma RecordedBallotOk(c: Core, c': Core, env: Env)
    requires Inv(c, env) && c.st.status == VOTING
    requires c'.st.currentRound.Some? && BallotsValid(c'.st.currentRound.value)
    requires var r' := c'.st.currentRound.value;
             && c' == c.(st := c.st.(currentRound := Some(r')))
             && r' == c.st.currentRound.value.(votes := r'.votes, votesCast := r'.votesCast)
             && |Votes(r')| <= |r'.turnOrder|
    ensures var r' := c'.st.currentRound.value;
            && StateOk(c'.st.(status := GAME_OVER), env)
            && (|Votes(r')| < |r'.turnOrder| ==> StateOk(c'.st, env))
            && (|Votes(r')| == |r'.turnOrder| && Caught(r') ==> StateOk(c'.st.(status := FAKE_GUESS), env))
  {
    hide StateOk, BallotsValid, Caught;
    var r' := c'.st.currentRound.value;
    BallotedOk(c.st, r', GAME_OVER, env);
    if |Votes(r')| < |r'.turnOrder| {
      BallotedOk(c.st, r', VOTING, env);
    } else if Caught(r') {
      BallotedOk(c.st, r', FAKE_GUESS, env);
    }
  }

  lemma BallotedOk(st: GameState, r': Round, status: Status, env: Env)
    requires StateOk(st, env) && st.status == VOTING && BallotsValid(r')
    requires r' == st.currentRound.value.(votes := r'.votes, votesCast := r'.votesCast)
    requires status in {GAME_OVER, VOTING, FAKE_GUESS}
    requires status == VOTING ==> |Votes(r')| < |r'.turnOrder|
    requires status == FAKE_GUESS ==> |Votes(r')| == |r'.turnOrder| && Caught(r')
    ensures StateOk(st.(currentRound := Some(r'), status := status), env)
  {
    var st' := st.(currentRound := Some(r'), status := status);
    BallotedRoundOk(st.currentRound.value, r', st.players);
    BallotedPhase(st, r', status, env);
    hide Total, Decided, Caught, NoDup, CardsDistinct, RoundOk, Available, BallotsValid, PhaseOk;
    assert Finished(st') == Finished(st);
    assert ArchiveOk(st', env) by { hide LedgerOk; }
    assert LedgerOk(st', env) by { hide ArchiveOk; }
    hide ArchiveOk, LedgerOk;
  }

  lemma BallotedPhase(st: GameState, r': Round, status: Status, env: Env)
    requires PhaseOk(st, env) && st.status == VOTING
    requires r' == st.currentRound.value.(votes := r'.votes, votesCast := r'.votesCast)
    requires status in {GAME_OVER, VOTING, FAKE_GUESS}
    requires status == VOTING ==> |Votes(r')| < |r'.turnOrder|
    requires status == FAKE_GUESS ==> |Votes(r')| == |r'.turnOrder| && Caught(r')
    ensures PhaseOk(st.(currentRound := Some(r'), status := status), env)
  {
    hide Caught, Decided, Votes;
  }

  lemma BallotedRoundOk(r: Round, r': Round, players: seq<Player>)
    requires RoundOk(r, players) && BallotsValid(r')
    requires r' == r.(votes := r'.votes, votesCast := r'.votesCast)
    ensures RoundOk(r', players)
  {
  }

  lemma BallotStep(c: Core, suspect: string, from: string)
    requires c.st.status == VOTING && c.st.currentRound.Some?
    requires from in c.st.currentRound.value.turnOrder && suspect in c.st.currentRound.value.turnOrder
    ensures var r := c.st.currentRound.value;
            var votes := Votes(r)[from := suspect];
            var c' := c.(st := c.st.(currentRound := Some(r.(votes := Some(votes), votesCast := |votes|))));
            HandleCastVote(c, suspect, from) == Announce(AfterBallot(c'), [])
  {
  }

  lemma BallotCounted(c: Core, suspect: string, from: string, env: Env)
    requires Inv(c, env) && c.st.status == VOTING
    requires from in c.st.currentRound.value.turnOrder && suspect in c.st.currentRound.value.turnOrder
    ensures var r := c.st.currentRound.value;
            var votes := Votes(r)[from := suspect];
            Inv(AfterBallot(c.(st := c.st.(currentRound := Some(r.(votes := Some(votes), votesCast := |votes|))))), env)
  {
    hide AfterBallot, Inv, StateOk, BallotsValid, NoDup, Permutation, Caught;
    VotingFacts(c, env);
    var r := c.st.currentRound.value;
    PermutationNoDup(Ids(c.st.players), r.turnOrder);
    BallotKeeps(r, from, suspect);
    var votes := Votes(r)[from := suspect];
    var c' := c.(st := c.st.(currentRound := Some(r.(votes := Some(votes), votesCast := |votes|))));
    RecordedBallotOk(c, c', env);
    LastBallotKeeps(c', env);
  }

  lemma VotingFacts(c: Core, env: Env)
    requires Inv(c, env) && c.st.status == VOTING
    ensures !c.drawer && c.awaiting == [] && c.st.currentRound.Some? && |c.st.players| >= c.st.config.minPlayers
    ensures var r := c.st.currentRound.value;
            && NoDup(Ids(c.st.players)) && Permutation(Ids(c.st.players), r.turnOrder) && BallotsValid(r)
            && r.fakeGuess.None? && r.index == |c.st.pastRounds| && |r.strokes| == StrokesNeeded(c.st, r)
  {
  }

  lemma InvIgnoresVersion(c: Core, version: nat, env: Env)
    requires Inv(c, env)
    ensures Inv(c.(version := version), env)
  {
  }

  lemma CastVoteKeeps(c: Core, suspect: string, from: string, env: Env)
    requires Inv(c, env)
    ensures Inv(HandleCastVote(c, suspect, from).core, env)
  {
    if c.st.status == VOTING && c.st.currentRound.Some? && from in c.st.currentRound.value.turnOrder && suspect in c.st.currentRound.value.turnOrder {
      hide Inv, AfterBallot, HandleCastVote;
      BallotCounted(c, suspect, from, env);
      BallotStep(c, suspect, from);
      var r := c.st.currentRound.value;
      var votes := Votes(r)[from := suspect];
      var c' := AfterBallot(c.(st := c.st.(currentRound := Some(r.(votes := Some(votes), votesCast := |votes|)))));
      InvIgnoresVersion(c', c'.version + 1, env);
    }
  }

  lemma FakeGuessKeeps(c: Core, guess: string, from: string, env: Env)
    requires Inv(c, env)
    ensures Inv(HandleFakeGuess(c, guess, from, env).core, env)
  {
    if c.st.status == FAKE_GUESS && c.st.currentRound.value.fakeId == Some(from) {
      var r' := c.st.currentRound.value.(fakeGuess := Some(guess));
      var c' := c.(st := c.st.(currentRound := Some(r')));
      assert Caught(r');
      FinalizeKeeps(c', true, GuessIsRight(c.word, guess, env), env);
    }
  }

  /** Archiving the summarised round moves it, unchanged, to the end of the archive. */
  lemma ArchiveAppends(st: GameState, env: Env)
    requires StateOk(st, env) && st.status == ROUND_SUMMARY
    ensures Archive(st) == st.(pastRounds := st.pastRounds + [st.currentRound.value])
    ensures StateOk(Archive(st).(status := GAME_OVER), env)
  {
    var st' := Archive(st).(status := GAME_OVER);
    assert Finished(st') == Finished(st);
  }

  lemma NextRoundKeeps(c: Core, from: string, env: Env)
    requires Inv(c, env)
    ensures Inv(HandleNextRound(c, from, env).core, env)
  {
    if from == c.st.hostId && c.st.status == ROUND_SUMMARY {
      ArchiveAppends(c.st, env);
      var c1 := c.(st := Archive(c.st));
      if !IsOver(c1.st) {
        PrepareRoundKeeps(c1, env);
      }
    }
  }

  lemma EndGameKeeps(c: Core, from: string, env: Env)
    requires Inv(c, env)
    ensures Inv(HandleEndGame(c, from).core, env)
  {
    if from == c.st.hostId {
      var st' := if c.st.status == ROUND_SUMMARY then Archive(c.st) else c.st;
      hide StateOk, Archive;
      if c.st.status == ROUND_SUMMARY {
        ArchiveAppends(c.st, env);
      } else {
        MayEnd(c.st, env);
      }
      GameOverKeeps(st', env);
    }
  }

  lemma MayEnd(st: GameState, env: Env)
    requires StateOk(st, env) && st.status != ROUND_SUMMARY
    ensures StateOk(st.(status := GAME_OVER), env)
  {
    hide Total, Decided, Caught, NoDup, CardsDistinct, RoundOk, Available;
    assert Finished(st) == st.pastRounds;
  }

  lemma DispatchKeeps(c: Core, cmd: Command, from: string, env: Env)
    requires Inv(c, env) && FreshIds(c, cmd, from, env)
    ensures Inv(Dispatch(c, cmd, from, env).core, env)
  {
    match cmd
    case JoinGame(id, name) => JoinKeeps(c, id, name, from, env);
    case ConfigureGame(patch) => ConfigureKeeps(c, patch, from, env);
    case SubmitWords(words) => SubmitWordsKeeps(c, words, from, env);
    case StartGame => StartGameKeeps(c, from, env);
    case StartRound => StartRoundKeeps(c, from, env);
    case SubmitStroke(points) => SubmitStrokeKeeps(c, points, from, env);
    case CastVote(suspect) => CastVoteKeeps(c, suspect, from, env);
    case SubmitFakeGuess(guess) => FakeGuessKeeps(c, guess, from, env);
    case NextRound => NextRoundKeeps(c, from, env);
    case EndGame => EndGameKeeps(c, from, env);
  }
}
