/** Settings and words (frontend/p2p/engine.ts:174-201): what a host sets and what a player writes. */
module Lobby {
  import opened Prelude
  import opened Models
  import opened EngineSpec
  import opened EngineTheorems

  // ---- settings ----

  /** A setting takes a value that is given and large enough. */
  predicate Takes(before: int, given: Option<int>, least: int, after: int) {
    after == if given.Some? && given.value >= least then given.value else before
  }

  /** The host's settings are taken one by one in the lobby, and nothing else ever changes them. */
  lemma SettingsTakenExactly(c: Core, cmd: Command, from: string, env: Env)
    ensures var before, after := c.st.config, Dispatch(c, cmd, from, env).core.st.config;
            if cmd.ConfigureGame? && from == c.st.hostId && c.st.status == LOBBY then
              && Takes(before.wordsPerPlayer, cmd.patch.wordsPerPlayer, 1, after.wordsPerPlayer)
              && Takes(before.targetScore, cmd.patch.targetScore, 1, after.targetScore)
              && Takes(before.strokesPerArtist, cmd.patch.strokesPerArtist, 1, after.strokesPerArtist)
              && Takes(before.minPlayers, cmd.patch.minPlayers, 1, after.minPlayers)
              && Takes(before.turnDuration, cmd.patch.turnDuration, 0, after.turnDuration)
            else after == before
  {
    hide AwardFake, AwardArtists, Available, TurnOrder, MarkUsed, Caught, PickColor, GuessIsRight, Sanitizer.Sanitize, ResendRole;
  }

  predicate Sensible(config: Config) {
    config.wordsPerPlayer > 0 && config.targetScore > 0 && config.strokesPerArtist > 0 && config.minPlayers > 0 && config.turnDuration >= 0
  }

  /** Sensible settings stay so, whatever a host sends. */
  lemma {:induction false} SettingsStaySensible(c: Core, inputs: seq<Input>, env: Env)
    requires Sensible(c.st.config)
    ensures Sensible(Run(c, inputs, env).st.config)
    decreases |inputs|
  {
    if inputs != [] {
      hide Dispatch;
      SettingsTakenExactly(c, inputs[0].cmd, inputs[0].from, env);
      SettingsStaySensible(Dispatch(c, inputs[0].cmd, inputs[0].from, env).core, inputs[1..], env);
    }
  }

  // ---- words ----

  /** The words that say something, trimmed. */
  function Kept(words: seq<string>, env: Env): seq<string> {
    if words == [] then []
    else (if env.trim(words[0]) == "" then [] else [env.trim(words[0])]) + Kept(words[1..], env)
  }

  lemma {:induction false} KeptOfSum(a: seq<string>, b: seq<string>, env: Env)
    ensures Kept(a + b, env) == Kept(a, env) + Kept(b, env)
  {
    if a == [] {
      assert a + b == b;
    } else {
      assert (a + b)[1..] == a[1..] + b;
      KeptOfSum(a[1..], b, env);
    }
  }

  /** Cards with these words in this order, all of one author and unused. */
  ghost predicate CardsOf(cards: seq<WordCard>, words: seq<string>, author: string) {
    && |cards| == |words|
    && forall k :: 0 <= k < |cards| ==> cards[k] == WordCard(cards[k].id, Some(words[k]), author, false)
  }

  lemma {:induction false} MintedAreKept(words: seq<string>, author: string, env: Env, pos: nat)
    ensures CardsOf(MintCards(words, author, env, pos).0, Kept(words, env), author)
  {
    if words != [] {
      var front, last := words[..|words| - 1], words[|words| - 1];
      MintedAreKept(front, author, env, pos);
      KeptOfSum(front, [last], env);
      assert words == front + [last];
      assert Kept([last], env) == if env.trim(last) == "" then [] else [env.trim(last)];
    }
  }

  /**
   A player's first submission while writing puts its words, trimmed and without the blank ones, at the
   end of the pool, in order and in the player's name. Any other changes nothing.
   */
  lemma WordsBecomeCards(c: Core, words: seq<string>, from: string, env: Env)
    ensures var st, st' := c.st, HandleSubmitWords(c, words, from, env).core.st;
            if st.status == WRITING && from in Ids(st.players) && !st.players[FindPlayer(st.players, from).value].hasSubmitted then
              && |st'.pool| >= |st.pool| && st'.pool[..|st.pool|] == st.pool
              && CardsOf(st'.pool[|st.pool|..], Kept(words, env), from)
              && st' == st.(pool := st'.pool, players := st'.players) && |st'.players| == |st.players|
              && forall i :: 0 <= i < |st.players| ==>
                   st'.players[i] == st.players[i].(hasSubmitted := st.players[i].hasSubmitted || i == FindPlayer(st.players, from).value)
            else HandleSubmitWords(c, words, from, env) == Quiet(c)
  {
    hide CardsOf, Kept, Sanitizer.Sanitize;
    MintedAreKept(words, from, env, c.pos);
    var cards := MintCards(words, from, env, c.pos).0;
    assert (c.st.pool + cards)[|c.st.pool|..] == cards && (c.st.pool + cards)[..|c.st.pool|] == c.st.pool;
  }
}
