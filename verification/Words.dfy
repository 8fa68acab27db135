/**
 The secret word through a game with local draws (frontend/p2p/engine.ts): the word kept back during a
 round, compared with the guess and revealed after it, is that of the card the round was drawn from.
 */
module Words {
  import opened Prelude
  import opened Models
  import opened EngineSpec
  import opened EngineInvariant
  import opened EngineTheorems

  /** A used card of the pool has this id and this word. */
  ghost predicate Holds(pool: seq<WordCard>, id: string, word: string) {
    exists k :: 0 <= k < |pool| && pool[k].id == id && pool[k].used && pool[k].word == Some(word)
  }

  predicate Playing(status: Status) {
    status in {ROUND_ANNOUNCE, DRAWING, VOTING, FAKE_GUESS}
  }

  ghost predicate Written(pool: seq<WordCard>) {
    forall k :: 0 <= k < |pool| ==> pool[k].word.Some? && pool[k].word.value != ""
  }

  /** The word kept back is the one of the round's card. */
  ghost predicate KeptBack(pool: seq<WordCard>, r: Round, word: Option<string>) {
    r.cardId.Some? && word.Some? && Holds(pool, r.cardId.value, word.value)
  }

  /** A finished round shows the word of its card. */
  ghost predicate Shows(pool: seq<WordCard>, r: Round) {
    KeptBack(pool, r, r.revealedWord)
  }

  ghost predicate WordsOk(c: Core) {
    && Written(c.st.pool)
    && (Playing(c.st.status) && c.st.currentRound.Some? ==> KeptBack(c.st.pool, c.st.currentRound.value, c.word))
    && forall r :: r in Finished(c.st) ==> Shows(c.st.pool, r)
  }

  // ---- the pool only grows, and its words stay ----

  ghost predicate Grows(pool: seq<WordCard>, pool': seq<WordCard>) {
    && |pool| <= |pool'|
    && forall k :: 0 <= k < |pool| ==> pool'[k].id == pool[k].id && pool'[k].word == pool[k].word && (pool[k].used ==> pool'[k].used)
  }

  lemma HoldsStays(pool: seq<WordCard>, pool': seq<WordCard>, id: string, word: string)
    requires Grows(pool, pool') && Holds(pool, id, word)
    ensures Holds(pool', id, word)
  {
    var k :| 0 <= k < |pool| && pool[k].id == id && pool[k].used && pool[k].word == Some(word);
    assert pool'[k].id == id;
  }

  lemma MarkingGrows(pool: seq<WordCard>, card: WordCard)
    requires CardsDistinct(pool) && card in pool && card.word.Some?
    ensures Grows(pool, MarkUsed(pool, card.id)) && Holds(MarkUsed(pool, card.id), card.id, card.word.value)
    ensures |MarkUsed(pool, card.id)| == |pool|
  {
    var k := FindCard(pool, card.id).value;
    var i :| 0 <= i < |pool| && pool[i] == card;
    assert i == k;
    assert MarkUsed(pool, card.id)[k].used;
  }

  lemma {:induction false} MintedAreWritten(words: seq<string>, author: string, env: Env, pos: nat)
    ensures Written(MintCards(words, author, env, pos).0)
  {
    if words != [] {
      MintedAreWritten(words[..|words| - 1], author, env, pos);
    }
  }

  // ---- one command ----

  /** Nothing is drawn, revealed or archived: the same pool, card and finished rounds. */
  lemma UntouchedKeeps(c: Core, c': Core)
    requires WordsOk(c) && Grows(c.st.pool, c'.st.pool) && Written(c'.st.pool) && c'.word == c.word
    requires Playing(c'.st.status) && c'.st.currentRound.Some? ==>
               Playing(c.st.status) && c.st.currentRound.Some? && c'.st.currentRound.value.cardId == c.st.currentRound.value.cardId
    requires forall r :: r in Finished(c'.st) ==> r in Finished(c.st)
    ensures WordsOk(c')
  {
    hide Finished;
    if Playing(c'.st.status) && c'.st.currentRound.Some? {
      HoldsStays(c.st.pool, c'.st.pool, c.st.currentRound.value.cardId.value, c.word.value);
    }
    forall r | r in Finished(c'.st) ensures Shows(c'.st.pool, r) {
      HoldsStays(c.st.pool, c'.st.pool, r.cardId.value, r.revealedWord.value);
    }
  }

  /** A finalized round shows the word that was kept back. */
  lemma FinalizeShows(c: Core, caught: bool, right: bool)
    requires WordsOk(c) && c.st.currentRound.Some? && Playing(c.st.status)
    ensures WordsOk(Finalize(c, caught, right))
  {
    var c' := Finalize(c, caught, right);
    forall r | r in Finished(c'.st) ensures Shows(c'.st.pool, r) {
      assert r in c.st.pastRounds || r == c'.st.currentRound.value;
    }
  }

  /** A dealt round keeps back the word of the card it was dealt. */
  lemma DealKeepsBack(c: Core, card: WordCard, env: Env)
    requires Written(c.st.pool) && CardsDistinct(c.st.pool) && card in Available(c.st.pool)
    requires forall r :: r in c.st.pastRounds ==> Shows(c.st.pool, r)
    ensures WordsOk(Deal(c, card, env))
  {
    hide Available, TurnOrder, MarkUsed;
    assert card in c.st.pool;
    MarkingGrows(c.st.pool, card);
    var c' := Deal(c, card, env);
    forall r | r in Finished(c'.st) ensures Shows(c'.st.pool, r) {
      HoldsStays(c.st.pool, c'.st.pool, r.cardId.value, r.revealedWord.value);
    }
  }

  lemma OpenKeeps(c: Core, env: Env)
    requires Written(c.st.pool) && CardsDistinct(c.st.pool)
    requires |c.st.players| >= c.st.config.minPlayers
    requires forall r :: r in c.st.pastRounds ==> Shows(c.st.pool, r)
    ensures WordsOk(PrepareRound(c, env).1.core)
  {
    var available := Available(c.st.pool);
    if available != [] {
      DealtCore(c, env);
      DealKeepsBack(c.(pos := c.pos + 1), available[Pick(env.rng(c.pos), |available|)], env);
    } else {
      assert PrepareRound(c, env).1.core == c.(st := GameOver(c.st));
    }
  }

  lemma ArchivedShow(c: Core, env: Env)
    requires Inv(c, env) && WordsOk(c) && c.st.status == ROUND_SUMMARY
    ensures forall r :: r in Archive(c.st).pastRounds ==> Shows(c.st.pool, r)
    ensures Archive(c.st).pool == c.st.pool && Archive(c.st).players == c.st.players && Archive(c.st).config == c.st.config
  {
    ArchiveAppends(c.st, env);
  }

  lemma FirstRoundWords(c: Core, from: string, env: Env)
    requires Inv(c, env) && WordsOk(c)
    ensures WordsOk(HandleStartRound(c, from, env).core)
  {
    if from == c.st.hostId && c.st.status == WRITING && AllSubmitted(c.st.players) {
      assert Finished(c.st) == c.st.pastRounds;
      OpenKeeps(c, env);
    } else {
      UntouchedKeeps(c, HandleStartRound(c, from, env).core);
    }
  }

  lemma NextRoundWords(c: Core, from: string, env: Env)
    requires Inv(c, env) && WordsOk(c)
    ensures WordsOk(HandleNextRound(c, from, env).core)
  {
    if from == c.st.hostId && c.st.status == ROUND_SUMMARY {
      ArchivedShow(c, env);
      var c1 := c.(st := Archive(c.st));
      if !IsOver(c1.st) {
        hide PrepareRound, Archive;
        OpenKeeps(c1, env);
      }
    }
  }

  lemma EndGameWords(c: Core, from: string, env: Env)
    requires Inv(c, env) && WordsOk(c)
    ensures WordsOk(HandleEndGame(c, from).core)
  {
    if from == c.st.hostId {
      if c.st.status == ROUND_SUMMARY {
        ArchivedShow(c, env);
      } else {
        assert Finished(c.st) == c.st.pastRounds;
      }
    }
  }

  lemma SubmitWordsWords(c: Core, words: seq<string>, from: string, env: Env)
    requires Inv(c, env) && WordsOk(c)
    ensures WordsOk(HandleSubmitWords(c, words, from, env).core)
  {
    MintedAreWritten(words, from, env, c.pos);
    UntouchedKeeps(c, HandleSubmitWords(c, words, from, env).core);
  }

  lemma BallotWords(c: Core, suspect: string, from: string, env: Env)
    requires Inv(c, env) && WordsOk(c)
    ensures WordsOk(HandleCastVote(c, suspect, from).core)
  {
    if c.st.status == VOTING && from in c.st.currentRound.value.turnOrder && suspect in c.st.currentRound.value.turnOrder {
      hide HandleCastVote, Finalize, Caught;
      BallotStep(c, suspect, from);
      var r := c.st.currentRound.value;
      var votes := Votes(r)[from := suspect];
      var c' := c.(st := c.st.(currentRound := Some(r.(votes := Some(votes), votesCast := |votes|))));
      UntouchedKeeps(c, c');
      FinalizeShows(c', false, false);
      assert Finished(c'.st.(status := FAKE_GUESS)) == Finished(c'.st);
    } else {
      assert HandleCastVote(c, suspect, from).core == c;
    }
  }

  lemma GuessWords(c: Core, guess: string, from: string, env: Env)
    requires Inv(c, env) && WordsOk(c)
    ensures WordsOk(HandleFakeGuess(c, guess, from, env).core)
  {
    if c.st.status == FAKE_GUESS && c.st.currentRound.value.fakeId == Some(from) {
      hide Finalize, GuessIsRight;
      var c' := c.(st := c.st.(currentRound := Some(c.st.currentRound.value.(fakeGuess := Some(guess)))));
      UntouchedKeeps(c, c');
      FinalizeShows(c', true, GuessIsRight(c.word, guess, env));
    }
  }

  lemma DispatchKeepsWords(c: Core, cmd: Command, from: string, env: Env)
    requires Inv(c, env) && WordsOk(c)
    ensures WordsOk(Dispatch(c, cmd, from, env).core)
  {
    match cmd
    case SubmitWords(words) => SubmitWordsWords(c, words, from, env);
    case StartRound => FirstRoundWords(c, from, env);
    case CastVote(suspect) => BallotWords(c, suspect, from, env);
    case SubmitFakeGuess(guess) => GuessWords(c, guess, from, env);
    case NextRound => NextRoundWords(c, from, env);
    case EndGame => EndGameWords(c, from, env);
    case SubmitStroke(points) => StrokeWords(c, points, from, env);
    case _ => SeatsAndSettingsWords(c, cmd, from, env);
  }

  lemma StrokeWords(c: Core, points: seq<Point>, from: string, env: Env)
    requires Inv(c, env) && WordsOk(c)
    ensures WordsOk(HandleSubmitStroke(c, points, from).core)
  {
    UntouchedKeeps(c, HandleSubmitStroke(c, points, from).core);
  }

  lemma SeatsAndSettingsWords(c: Core, cmd: Command, from: string, env: Env)
    requires Inv(c, env) && WordsOk(c) && (cmd.JoinGame? || cmd.ConfigureGame? || cmd.StartGame?)
    ensures WordsOk(Dispatch(c, cmd, from, env).core)
  {
    UntouchedKeeps(c, Dispatch(c, cmd, from, env).core);
  }

  lemma {:induction false} RunKeepsWords(c: Core, inputs: seq<Input>, env: Env)
    requires Inv(c, env) && FreshRun(c, inputs, env) && WordsOk(c)
    ensures WordsOk(Run(c, inputs, env))
    decreases |inputs|
  {
    if inputs != [] {
      hide Inv, WordsOk, Dispatch, FreshIds;
      DispatchKeeps(c, inputs[0].cmd, inputs[0].from, env);
      DispatchKeepsWords(c, inputs[0].cmd, inputs[0].from, env);
      RunKeepsWords(Dispatch(c, inputs[0].cmd, inputs[0].from, env).core, inputs[1..], env);
    }
  }

  /**
   In every reachable state every card has a word, the word kept back in an open round is that of the
   round's card, and every finished round shows the word of its card.
   */
  lemma WordsAreTheCards(c: Core, env: Env)
    requires Reachable(c, env)
    ensures WordsOk(c)
  {
    hide Inv, WordsOk, Run, FreshRun;
    var roomId: string, config: Config, inputs: seq<Input> :|
      && config.strokesPerArtist >= 1
      && FreshRun(Fresh(roomId, config, false), inputs, env)
      && c == Run(Fresh(roomId, config, false), inputs, env);
    NewGameWords(roomId, config, env);
    RunKeepsWords(Fresh(roomId, config, false), inputs, env);
  }

  lemma NewGameWords(roomId: string, config: Config, env: Env)
    requires config.strokesPerArtist >= 1
    ensures Inv(Fresh(roomId, config, false), env) && WordsOk(Fresh(roomId, config, false))
  {
  }

  // ---- the guess ----

  /** The scores and the outcome that a guess at this word must lead to. */
  ghost predicate Judged(before: GameState, after: GameState, fake: string, guess: string, word: string, env: Env) {
    var right := Guesses(guess, word, env);
    && after.status == ROUND_SUMMARY && after.currentRound.Some?
    && after.currentRound.value.revealedWord == Some(word)
    && after.currentRound.value.outcome == (if right then FakeWon else ArtistsWon)
    && |after.players| == |before.players|
    && forall i :: 0 <= i < |before.players| ==>
         var p := before.players[i];
         var gain := if right then (if p.id == fake then 2 else 0) else (if p.id == fake then 0 else 1);
         after.players[i] == p.(score := p.score + gain)
  }

  /**
   The verdict on the fake's guess: it wins exactly when, trimmed and in lower case, it says something
   and is the word of the round's card. Then the fake gets two points; otherwise every artist gets one.
   */
  lemma VerdictOnTheGuess(c: Core, guess: string, from: string, env: Env) returns (word: string)
    requires Reachable(c, env) && c.st.status == FAKE_GUESS && c.st.currentRound.Some?
    requires c.st.currentRound.value.fakeId == Some(from)
    ensures c.st.currentRound.value.cardId.Some? && Holds(c.st.pool, c.st.currentRound.value.cardId.value, word)
    ensures Judged(c.st, HandleFakeGuess(c, guess, from, env).core.st, from, guess, word, env)
  {
    hide Judged, Reachable, HandleFakeGuess;
    ReachableOk(c, env);
    WordsAreTheCards(c, env);
    GuessFacts(c, env);
    word := c.word.value;
    JudgedByTheWord(c, guess, from, word, env);
  }

  lemma GuessFacts(c: Core, env: Env)
    requires Inv(c, env) && WordsOk(c) && c.st.status == FAKE_GUESS && c.st.currentRound.Some?
    ensures var r := c.st.currentRound.value;
            && NoDup(Ids(c.st.players)) && Permutation(r.turnOrder, Ids(c.st.players)) && Caught(r)
            && KeptBack(c.st.pool, r, c.word)
  {
    hide ArchiveOk, LedgerOk, NoDup, Permutation, CardsDistinct, Available, Plurality;
  }

  lemma JudgedByTheWord(c: Core, guess: string, from: string, word: string, env: Env)
    requires c.st.status == FAKE_GUESS && c.st.currentRound.Some? && c.st.currentRound.value.fakeId == Some(from) && c.word == Some(word)
    requires var r := c.st.currentRound.value;
             NoDup(Ids(c.st.players)) && Permutation(r.turnOrder, Ids(c.st.players)) && Caught(r)
    ensures Judged(c.st, HandleFakeGuess(c, guess, from, env).core.st, from, guess, word, env)
  {
    hide HandleFakeGuess, Caught, NoDup, Permutation, Points, Guesses;
    var r := c.st.currentRound.value;
    var st' := HandleFakeGuess(c, guess, from, env).core.st;
    GuessRaises(c, guess, from, word, env);
    PermutationMembers(r.turnOrder, Ids(c.st.players));
    forall i | 0 <= i < |c.st.players|
      ensures Points(st'.currentRound.value, c.st.players[i].id, env)
           == if Guesses(guess, word, env) then (if c.st.players[i].id == from then 2 else 0) else (if c.st.players[i].id == from then 0 else 1)
    {
      assert Ids(c.st.players)[i] in Ids(c.st.players);
      PointsOfAGuess(r, st'.currentRound.value, c.st.players[i].id, guess, word, env);
    }
  }

  lemma GuessRaises(c: Core, guess: string, from: string, word: string, env: Env)
    requires c.st.status == FAKE_GUESS && c.st.currentRound.Some? && c.st.currentRound.value.fakeId == Some(from) && c.word == Some(word)
    requires var r := c.st.currentRound.value;
             NoDup(Ids(c.st.players)) && Permutation(r.turnOrder, Ids(c.st.players)) && Caught(r)
    ensures var r, st' := c.st.currentRound.value, HandleFakeGuess(c, guess, from, env).core.st;
            var outcome := if Guesses(guess, word, env) then FakeWon else ArtistsWon;
            && st'.status == ROUND_SUMMARY
            && st'.currentRound == Some(r.(fakeGuess := Some(guess), revealedWord := Some(word), outcome := outcome))
            && Raised(c.st.players, st'.players, x => Points(st'.currentRound.value, x, env))
  {
    hide NoDup, Permutation, AwardFake, AwardArtists, Plurality, Raised;
    var c' := c.(st := c.st.(currentRound := Some(c.st.currentRound.value.(fakeGuess := Some(guess)))));
    FinalizeAwardsPoints(c', true, GuessIsRight(c.word, guess, env), env);
  }

  lemma PointsOfAGuess(r: Round, r': Round, id: string, guess: string, word: string, env: Env)
    requires Caught(r) && id in r.turnOrder && r.fakeId.Some?
    requires r' == r.(fakeGuess := Some(guess), revealedWord := Some(word), outcome := r'.outcome)
    ensures Points(r', id, env)
         == if Guesses(guess, word, env) then (if id == r.fakeId.value then 2 else 0) else (if id == r.fakeId.value then 0 else 1)
  {
  }
}
