/**
 Who is told what (frontend/p2p/engine.ts:128-172, 416-464), in games with local draws: the private
 messages of every command, over every run.
 */
module Roles {
  import opened Prelude
  import opened Models
  import opened EngineSpec
  import opened EngineInvariant
  import opened EngineTheorems
  import opened Words

  /** The roles told to one player by a list of emissions, in order. */
  function RolesTo(sent: seq<Emission>, id: string): seq<ServerEvent> {
    if sent == [] then []
    else
      var last := sent[|sent| - 1];
      RolesTo(sent[..|sent| - 1], id) + if last.Direct? && last.playerId == id && last.evt.YourRole? then [last.evt] else []
  }

  /** What a member of the turn order may learn: that it is the fake, or the word. */
  function RoleIn(r: Round, id: string, word: string): ServerEvent {
    if r.fakeId == Some(id) then YourRole(true, None) else YourRole(false, Some(word))
  }

  lemma {:induction false} RolesOfSum(a: seq<Emission>, b: seq<Emission>, id: string)
    ensures RolesTo(a + b, id) == RolesTo(a, id) + RolesTo(b, id)
  {
    if b == [] {
      assert a + b == a;
    } else {
      assert (a + b)[..|a + b| - 1] == a + b[..|b| - 1];
      RolesOfSum(a, b[..|b| - 1], id);
    }
  }

  /** Each entry of a list is told its role once. */
  lemma {:induction false} RolesOfMessages(order: seq<string>, fake: Option<string>, word: string, n: nat, id: string)
    requires n <= |order| && NoDup(order)
    ensures var told := RolesTo(RoleMessages(order, fake, word)[..n], id);
            if id in order[..n] then told == [YourRole(fake == Some(id), if fake == Some(id) then None else Some(word))] else told == []
  {
    var all := RoleMessages(order, fake, word);
    if n > 0 {
      RolesOfMessages(order, fake, word, n - 1, id);
      assert all[..n][..n - 1] == all[..n - 1];
      assert order[..n] == order[..n - 1] + [order[n - 1]];
      assert order[n - 1] !in order[..n - 1];
    }
  }

  // ---- opening a round ----

  /** Exactly the members of the turn order are told exactly their roles, once each. */
  ghost predicate ToldOnce(sent: seq<Emission>, r: Round, word: string) {
    forall id :: RolesTo(sent, id) == if id in r.turnOrder then [RoleIn(r, id, word)] else []
  }

  lemma MessagesTellOnce(r: Round, word: string)
    requires NoDup(r.turnOrder)
    ensures ToldOnce(RoleMessages(r.turnOrder, r.fakeId, word), r, word)
  {
    var all := RoleMessages(r.turnOrder, r.fakeId, word);
    forall id ensures RolesTo(all, id) == if id in r.turnOrder then [RoleIn(r, id, word)] else [] {
      RolesOfMessages(r.turnOrder, r.fakeId, word, |r.turnOrder|, id);
      assert r.turnOrder[..|r.turnOrder|] == r.turnOrder && all[..|r.turnOrder|] == all;
    }
  }

  /** What a deal sends, and the order it sends it in. */
  lemma DealSends(c: Core, card: WordCard, env: Env)
    requires |c.st.players| >= c.st.config.minPlayers && Available(c.st.pool) != []
    requires card == Available(c.st.pool)[Pick(env.rng(c.pos), |Available(c.st.pool)|)]
    ensures var out := PrepareRound(c, env).1;
            && out.core == Deal(c.(pos := c.pos + 1), card, env)
            && var r := out.core.st.currentRound.value;
            && out.sent == RoleMessages(r.turnOrder, r.fakeId, OrEmpty(card.word))
            && r.turnOrder == TurnOrder(Ids(c.st.players), env, c.pos + 1)
            && r.cardId == Some(card.id) && out.core.st.pool == MarkUsed(c.st.pool, card.id)
  {
    hide TurnOrder, MarkUsed, RoleMessages;
  }

  /** An unused card of the pool. */
  ghost predicate Undrawn(pool: seq<WordCard>, id: string, word: string) {
    exists k :: 0 <= k < |pool| && !pool[k].used && pool[k].id == id && pool[k].word == Some(word)
  }

  lemma DealTells(c: Core, env: Env) returns (word: string)
    requires Written(c.st.pool) && CardsDistinct(c.st.pool) && NoDup(Ids(c.st.players))
    requires |c.st.players| >= c.st.config.minPlayers && Available(c.st.pool) != []
    ensures var out := PrepareRound(c, env).1;
            && out.core.st.currentRound.Some?
            && var r := out.core.st.currentRound.value;
            && ToldOnce(out.sent, r, word)
            && r.cardId.Some? && Holds(out.core.st.pool, r.cardId.value, word) && Undrawn(c.st.pool, r.cardId.value, word)
  {
    var available := Available(c.st.pool);
    var card := available[Pick(env.rng(c.pos), |available|)];
    assert card in available && card in c.st.pool;
    assert Undrawn(c.st.pool, card.id, card.word.value);
    word := card.word.value;
    MarkingGrows(c.st.pool, card);
    hide Available, MarkUsed, Holds, Written, CardsDistinct, NoDup, TurnOrder, RoleMessages, ToldOnce, Deal, Undrawn, PrepareRound;
    DealSends(c, card, env);
    var r := PrepareRound(c, env).1.core.st.currentRound.value;
    TurnOrderPermutes(Ids(c.st.players), env, c.pos + 1);
    SwappedNoDup(Ids(c.st.players), r.turnOrder);
    MessagesTellOnce(r, word);
  }

  lemma SwappedNoDup(s: seq<string>, t: seq<string>)
    requires Permutation(t, s) && NoDup(s)
    ensures NoDup(t)
  {
    PermutationNoDup(s, t);
  }

  // ---- every command ----

  lemma {:induction false} ToldIsHeard(sent: seq<Emission>, e: Emission)
    requires e in sent && e.Direct? && e.evt.YourRole?
    ensures e.evt in RolesTo(sent, e.playerId)
  {
    var front, last := sent[..|sent| - 1], sent[|sent| - 1];
    assert sent == front + [last];
    if e in front {
      ToldIsHeard(front, e);
    }
  }

  lemma BroadcastTellsNobody(evt: ServerEvent, id: string)
    ensures RolesTo([Broadcast(evt)], id) == []
  {
    assert [Broadcast(evt)][..0] == [];
  }

  /** What is sent to one player only: a welcome, an error, or the player's own role in the round. */
  ghost predicate Proper(e: Emission, st: GameState) {
    e.Direct? ==>
      || e.evt.PlayerWelcome? || e.evt.ErrorEvent?
      || (&& e.evt.YourRole? && st.currentRound.Some?
          && var r := st.currentRound.value;
          && e.playerId in r.turnOrder && r.cardId.Some?
          && exists word :: Holds(st.pool, r.cardId.value, word) && e.evt == RoleIn(r, e.playerId, word))
  }

  ghost predicate AllProper(out: Outcomes) {
    forall e :: e in out.sent ==> Proper(e, out.core.st)
  }

  /** A command that opens a round tells every member of its turn order its role, once, and nobody else. */
  lemma OpeningTellsTheRoles(c: Core, cmd: Command, from: string, env: Env) returns (word: string)
    requires Reachable(c, env)
    requires c.st.status != ROUND_ANNOUNCE && Dispatch(c, cmd, from, env).core.st.status == ROUND_ANNOUNCE
    ensures var out := Dispatch(c, cmd, from, env);
            && out.core.st.currentRound.Some?
            && var r := out.core.st.currentRound.value;
            && ToldOnce(out.sent, r, word)
            && r.cardId.Some? && Holds(out.core.st.pool, r.cardId.value, word) && Undrawn(c.st.pool, r.cardId.value, word)
  {
    ReachableOk(c, env);
    WordsAreTheCards(c, env);
    hide Reachable;
    word := OpeningTells(c, cmd, from, env);
  }

  /** The state a round is opened from: the last round is archived first. */
  function Opener(c: Core, cmd: Command): Core {
    if cmd.NextRound? then c.(st := Archive(c.st)) else c
  }

  lemma OnlyTwoOpen(c: Core, cmd: Command, from: string, env: Env)
    requires Inv(c, env)
    requires c.st.status != ROUND_ANNOUNCE && Dispatch(c, cmd, from, env).core.st.status == ROUND_ANNOUNCE
    ensures cmd.StartRound? || cmd.NextRound?
    ensures var c0 := Opener(c, cmd);
            && c0.st.pool == c.st.pool && c0.st.players == c.st.players
            && |c0.st.players| >= c0.st.config.minPlayers && Available(c0.st.pool) != []
            && var out := PrepareRound(c0, env).1;
               Dispatch(c, cmd, from, env) == Announce(out.core, out.sent)
  {
    LocalDraws(c, env);
    hide Inv, HandleStartRound, HandleNextRound, HandleJoin, HandleConfigure, HandleSubmitWords, HandleStartGame, HandleSubmitStroke,
         HandleCastVote, HandleFakeGuess, HandleEndGame, PrepareRound, Archive, Available, Sanitizer.Sanitize;
    if !cmd.StartRound? && !cmd.NextRound? {
      OtherOpensNothing(c, cmd, from, env);
    } else if cmd.StartRound? {
      StartOpens(c, from, env);
    } else {
      NextOpens(c, from, env);
    }
  }

  lemma LocalDraws(c: Core, env: Env)
    requires Inv(c, env)
    ensures !c.drawer
  {
  }

  lemma OtherOpensNothing(c: Core, cmd: Command, from: string, env: Env)
    requires c.st.status != ROUND_ANNOUNCE && !cmd.StartRound? && !cmd.NextRound?
    ensures Dispatch(c, cmd, from, env).core.st.status != ROUND_ANNOUNCE
  {
    hide Archive, Sanitizer.Sanitize, Caught, AwardFake, AwardArtists, GuessIsRight, PickColor, MintCards, ResendRole;
  }

  lemma PreparedStatus(c: Core, env: Env)
    ensures var (ok, out) := PrepareRound(c, env);
            if |c.st.players| >= c.st.config.minPlayers && Available(c.st.pool) != [] then ok && out.core.st.status == ROUND_ANNOUNCE
            else !ok && (out.core.st.status == ROUND_ANNOUNCE ==> c.st.status == ROUND_ANNOUNCE)
  {
    hide Available, TurnOrder, MarkUsed, RoleMessages;
  }

  lemma StartOpens(c: Core, from: string, env: Env)
    requires !c.drawer && c.st.status != ROUND_ANNOUNCE && HandleStartRound(c, from, env).core.st.status == ROUND_ANNOUNCE
    ensures |c.st.players| >= c.st.config.minPlayers && Available(c.st.pool) != []
    ensures var out := PrepareRound(c, env).1; HandleStartRound(c, from, env) == Announce(out.core, out.sent)
  {
    PreparedStatus(c, env);
    hide PrepareRound, Available, Sanitizer.Sanitize, AllSubmitted;
  }

  lemma NextOpens(c: Core, from: string, env: Env)
    requires !c.drawer && c.st.status != ROUND_ANNOUNCE && HandleNextRound(c, from, env).core.st.status == ROUND_ANNOUNCE
    ensures var c0 := c.(st := Archive(c.st));
            && c0.st.pool == c.st.pool && c0.st.players == c.st.players && c0.st.config == c.st.config
            && |c.st.players| >= c.st.config.minPlayers && Available(c.st.pool) != []
            && var out := PrepareRound(c0, env).1; HandleNextRound(c, from, env) == Announce(out.core, out.sent)
  {
    var c0 := c.(st := Archive(c.st));
    assert c0.st == c.st.(pastRounds := c0.st.pastRounds);
    PreparedStatus(c0, env);
    hide PrepareRound, Available, Sanitizer.Sanitize, Archive, IsOver;
  }

  lemma OpeningTells(c: Core, cmd: Command, from: string, env: Env) returns (word: string)
    requires Inv(c, env) && WordsOk(c)
    requires c.st.status != ROUND_ANNOUNCE && Dispatch(c, cmd, from, env).core.st.status == ROUND_ANNOUNCE
    ensures var out := Dispatch(c, cmd, from, env);
            && out.core.st.currentRound.Some?
            && var r := out.core.st.currentRound.value;
            && ToldOnce(out.sent, r, word)
            && r.cardId.Some? && Holds(out.core.st.pool, r.cardId.value, word) && Undrawn(c.st.pool, r.cardId.value, word)
  {
    OnlyTwoOpen(c, cmd, from, env);
    hide Dispatch, PrepareRound, Holds, Written, Undrawn, Available, Sanitizer.Sanitize;
    var c0 := Opener(c, cmd);
    word := DealTells(c0, env);
    var out := PrepareRound(c0, env).1;
    var r := out.core.st.currentRound.value;
    var news := Broadcast(StateUpdate(Sanitizer.Sanitize(out.core.st)));
    forall id ensures RolesTo(out.sent + [news], id) == if id in r.turnOrder then [RoleIn(r, id, word)] else [] {
      RolesOfSum(out.sent, [news], id);
      BroadcastTellsNobody(StateUpdate(Sanitizer.Sanitize(out.core.st)), id);
    }
  }

  lemma DealSendsRoles(c: Core, env: Env)
    ensures forall e :: e in PrepareRound(c, env).1.sent ==> e.Direct? && e.evt.YourRole?
  {
    hide Deal, Available;
  }

  lemma OpeningIsProper(c: Core, cmd: Command, from: string, env: Env)
    requires Inv(c, env) && WordsOk(c)
    requires c.st.status != ROUND_ANNOUNCE && Dispatch(c, cmd, from, env).core.st.status == ROUND_ANNOUNCE
    ensures AllProper(Dispatch(c, cmd, from, env))
  {
    var word := OpeningTells(c, cmd, from, env);
    OnlyTwoOpen(c, cmd, from, env);
    DealSendsRoles(Opener(c, cmd), env);
    hide Inv, WordsOk, Dispatch, Holds, Undrawn, Available, PrepareRound, Archive, RolesTo, Sanitizer.Sanitize, NoDup;
    RolesAreProper(Dispatch(c, cmd, from, env), word);
  }

  lemma RolesAreProper(out: Outcomes, word: string)
    requires out.core.st.currentRound.Some? && out.core.st.currentRound.value.cardId.Some?
    requires ToldOnce(out.sent, out.core.st.currentRound.value, word)
    requires Holds(out.core.st.pool, out.core.st.currentRound.value.cardId.value, word)
    requires forall e :: e in out.sent && e.Direct? ==> e.evt.YourRole?
    ensures AllProper(out)
  {
    hide Holds, RolesTo;
    forall e | e in out.sent ensures Proper(e, out.core.st) {
      if e.Direct? && e.evt.YourRole? {
        ToldIsHeard(out.sent, e);
      }
    }
  }

  // ---- joining again ----

  lemma WelcomeTells(c: Core, welcomed: string, id: string)
    ensures RolesTo(Welcome(c, welcomed).sent, id) == RolesTo(ResendRole(c, welcomed), id)
  {
    hide Sanitizer.Sanitize;
    var hello, news := Direct(welcomed, PlayerWelcome(welcomed)), Broadcast(StateUpdate(Sanitizer.Sanitize(c.st)));
    var c' := c.(version := c.version + 1);
    assert ResendRole(c', welcomed) == ResendRole(c, welcomed);
    assert Welcome(c, welcomed).sent == [hello, news] + ResendRole(c, welcomed);
    RolesOfSum([hello, news], ResendRole(c, welcomed), id);
    assert [hello, news][..1] == [hello] && [hello][..0] == [];
    assert RolesTo([hello], id) == [];
    assert RolesTo([hello, news], id) == [];
  }

  lemma ResendTells(c: Core, joined: string, id: string, env: Env)
    requires Inv(c, env) && WordsOk(c) && joined in Ids(c.st.players)
    ensures Playing(c.st.status) ==> c.st.currentRound.Some? && c.word.Some?
    ensures RolesTo(ResendRole(c, joined), id) ==
            if Playing(c.st.status) && id == joined then [RoleIn(c.st.currentRound.value, id, c.word.value)] else []
  {
    hide ArchiveOk, LedgerOk, NoDup, Available, Finished;
    if Playing(c.st.status) {
      var r := c.st.currentRound.value;
      PermutationMembers(r.turnOrder, Ids(c.st.players));
      var k :| 0 <= k < |c.st.pool| && c.st.pool[k].id == r.cardId.value && c.st.pool[k].used && c.st.pool[k].word == c.word;
      assert c.word.value != "";
      var e := Direct(joined, RoleIn(r, joined, c.word.value));
      assert ResendRole(c, joined) == [e];
      assert [e][..0] == [];
    }
  }

  /**
   A player who joins again while a round is open is told its role once more: that it is the fake, or
   the word of the round's card. Nobody else is told anything, and in other phases nobody is.
   */
  lemma RejoinTellsTheRole(c: Core, asked: string, name: string, from: string, env: Env, id: string) returns (word: string)
    requires Reachable(c, env)
    ensures var wanted := if asked != "" then asked else from;
            var out := HandleJoin(c, asked, name, from, env);
            if Playing(c.st.status) && wanted != "" && wanted in Ids(c.st.players) && id == wanted then
              && c.st.currentRound.Some?
              && var r := c.st.currentRound.value;
              && r.cardId.Some? && Holds(c.st.pool, r.cardId.value, word)
              && RolesTo(out.sent, id) == [RoleIn(r, id, word)]
            else RolesTo(out.sent, id) == []
  {
    ReachableOk(c, env);
    WordsAreTheCards(c, env);
    hide Reachable;
    word := OrEmpty(c.word);
    JoinTells(c, asked, name, from, env, id);
  }

  lemma JoinTells(c: Core, asked: string, name: string, from: string, env: Env, id: string)
    requires Inv(c, env) && WordsOk(c)
    ensures Playing(c.st.status) ==> c.st.currentRound.Some? && c.word.Some?
    ensures var wanted := if asked != "" then asked else from;
            RolesTo(HandleJoin(c, asked, name, from, env).sent, id) ==
            if Playing(c.st.status) && wanted != "" && wanted in Ids(c.st.players) && id == wanted
            then [RoleIn(c.st.currentRound.value, id, c.word.value)] else []
  {
    hide Inv, WordsOk, RolesTo, Welcome, PickColor, KeptBack;
    PlayingIsOpen(c, env);
    var wanted := if asked != "" then asked else from;
    var known := if wanted == "" then None else FindPlayer(c.st.players, wanted);
    if known.Some? {
      var c' := Rejoin(c, known.value, name);
      RejoinKeeps(c, known.value, name, env);
      RejoinKeepsWords(c, known.value, name);
      WelcomeTells(c', wanted, id);
      assert Ids(c'.st.players) == Ids(c.st.players);
      ResendTells(c', wanted, id, env);
    } else if c.st.status == LOBBY || c.st.status == WRITING {
      var c' := Enter(c, wanted, name, env);
      WelcomeTells(c', NewPlayerId(wanted, env, c.pos), id);
      NobodyTold(id);
    } else {
      RefusalTells(c, from, id);
    }
  }

  lemma NobodyTold(id: string)
    ensures RolesTo([], id) == []
  {
  }

  lemma RejoinKeepsWords(c: Core, k: nat, name: string)
    requires WordsOk(c) && k < |c.st.players|
    ensures WordsOk(Rejoin(c, k, name))
  {
    UntouchedKeeps(c, Rejoin(c, k, name));
  }

  lemma PlayingIsOpen(c: Core, env: Env)
    requires Inv(c, env) && WordsOk(c)
    ensures Playing(c.st.status) ==> c.st.currentRound.Some? && c.word.Some?
  {
  }

  lemma RefusalTells(c: Core, from: string, id: string)
    ensures RolesTo(Refuse(c, from, GameInProgress).sent, id) == []
  {
    assert [Direct(from, ErrorEvent(GameInProgress))][..0] == [];
  }

  // ---- nothing else is told in private ----

  lemma JoinIsProper(c: Core, asked: string, name: string, from: string, env: Env)
    requires Inv(c, env) && WordsOk(c)
    ensures AllProper(HandleJoin(c, asked, name, from, env))
  {
    var out := HandleJoin(c, asked, name, from, env);
    JoinSends(c, asked, name, from, env);
    hide WordsOk, HandleJoin, RolesTo, ArchiveOk, LedgerOk, NoDup, Available;
    forall e | e in out.sent ensures Proper(e, out.core.st) {
      if e.Direct? && e.evt.YourRole? {
        ToldIsHeard(out.sent, e);
        JoinTells(c, asked, name, from, env, e.playerId);
        PermutationMembers(c.st.currentRound.value.turnOrder, Ids(c.st.players));
        WordIsKept(c, env);
      }
    }
  }

  lemma WordIsKept(c: Core, env: Env)
    requires Inv(c, env) && WordsOk(c) && Playing(c.st.status)
    ensures c.st.currentRound.Some? && KeptBack(c.st.pool, c.st.currentRound.value, c.word)
  {
  }

  lemma JoinSends(c: Core, asked: string, name: string, from: string, env: Env)
    ensures var out := HandleJoin(c, asked, name, from, env);
            && out.core.st.currentRound == c.st.currentRound && out.core.st.pool == c.st.pool
            && forall e :: e in out.sent && e.Direct? ==> e.evt.PlayerWelcome? || e.evt.ErrorEvent? || e.evt.YourRole?
  {
    hide Sanitizer.Sanitize, PickColor;
  }

  lemma OthersSendErrors(c: Core, cmd: Command, from: string, env: Env)
    requires Inv(c, env) && !cmd.JoinGame?
    requires c.st.status == ROUND_ANNOUNCE || Dispatch(c, cmd, from, env).core.st.status != ROUND_ANNOUNCE
    ensures forall e :: e in Dispatch(c, cmd, from, env).sent && e.Direct? ==> e.evt.ErrorEvent?
  {
    LocalDraws(c, env);
    hide Inv;
    match cmd
    case StartRound => StartSendsErrors(c, from, env);
    case NextRound => NextSendsErrors(c, from, env);
    case _ => PlainSendsErrors(c, cmd, from, env);
  }

  lemma StartSendsErrors(c: Core, from: string, env: Env)
    requires !c.drawer && (c.st.status == ROUND_ANNOUNCE || HandleStartRound(c, from, env).core.st.status != ROUND_ANNOUNCE)
    ensures forall e :: e in HandleStartRound(c, from, env).sent && e.Direct? ==> e.evt.ErrorEvent?
  {
    PreparedStatus(c, env);
    UnpreparedSendsNothing(c, env);
    hide PrepareRound, Available, Sanitizer.Sanitize, AllSubmitted;
  }

  lemma NextSendsErrors(c: Core, from: string, env: Env)
    requires !c.drawer && (c.st.status == ROUND_ANNOUNCE || HandleNextRound(c, from, env).core.st.status != ROUND_ANNOUNCE)
    ensures forall e :: e in HandleNextRound(c, from, env).sent && e.Direct? ==> e.evt.ErrorEvent?
  {
    PreparedStatus(c.(st := Archive(c.st)), env);
    UnpreparedSendsNothing(c.(st := Archive(c.st)), env);
    hide PrepareRound, Available, Sanitizer.Sanitize, Archive, IsOver;
  }

  lemma UnpreparedSendsNothing(c: Core, env: Env)
    ensures !PrepareRound(c, env).0 ==> PrepareRound(c, env).1.sent == []
  {
    hide Available, Deal;
  }

  lemma PlainSendsErrors(c: Core, cmd: Command, from: string, env: Env)
    requires !cmd.JoinGame? && !cmd.StartRound? && !cmd.NextRound?
    ensures forall e :: e in Dispatch(c, cmd, from, env).sent && e.Direct? ==> e.evt.ErrorEvent?
  {
    hide Archive, Sanitizer.Sanitize, Caught, AwardFake, AwardArtists, GuessIsRight, MintCards;
  }

  /**
   Whatever the command, in every reachable state: what is sent to one player is a welcome, an error, or
   that player's own role in the round that is open then, where the fake gets no word and everyone else
   the word of the round's card.
   */
  lemma OnlyOwnRolesAreTold(c: Core, cmd: Command, from: string, env: Env)
    requires Reachable(c, env)
    ensures AllProper(Dispatch(c, cmd, from, env))
  {
    ReachableOk(c, env);
    WordsAreTheCards(c, env);
    hide Reachable, Inv, WordsOk, AllProper;
    if cmd.JoinGame? {
      JoinIsProper(c, cmd.id, cmd.playerName, from, env);
    } else if c.st.status != ROUND_ANNOUNCE && Dispatch(c, cmd, from, env).core.st.status == ROUND_ANNOUNCE {
      OpeningIsProper(c, cmd, from, env);
    } else {
      OthersSendErrors(c, cmd, from, env);
      ErrorsAreProper(Dispatch(c, cmd, from, env));
    }
  }

  lemma ErrorsAreProper(out: Outcomes)
    requires forall e :: e in out.sent && e.Direct? ==> e.evt.ErrorEvent?
    ensures AllProper(out)
  {
  }
}
