/**
 A round drawn by the server, at the host (frontend/p2p/engine.ts:345-412): what is asked for, and what
 the host makes of the answer to it.
 */
module DrawAnswers {
  import opened Prelude
  import opened Models
  import opened Sanitizer
  import opened EngineSpec
  import opened EngineInvariant
  import opened AsyncDraw
  import opened Roles
  import opened RevealedDraw
  import D = Draws

  // ---- the question ----

  /** The draws asked for but not answered yet, before and after a command; and what else it does. */
  lemma DrawIsAskedExactly(c: Core, from: string, env: Env)
    requires c.drawer && c.st.status == WRITING && from == c.st.hostId && AllSubmitted(c.st.players)
    requires |c.st.players| >= c.st.config.minPlayers
    ensures var out := HandleStartRound(c, from, env);
            && out.sent == [] && out.core == c.(awaiting := out.core.awaiting)
            && |out.core.awaiting| == |c.awaiting| + 1 && out.core.awaiting[..|c.awaiting|] == c.awaiting
            && var t := out.core.awaiting[|c.awaiting|];
            && t.host == from && t.players == Ids(c.st.players)
            && t.roundIndex == (if c.st.currentRound.None? then 0 else c.st.currentRound.value.index + 1)
            && (forall card :: card in t.pool <==> card in c.st.pool && !card.used)
  {
  }

  /** The request carries the captured players and, of every unused card, its id, word and author. */
  lemma RequestCarriesThePool(t: Ticket, host: Option<string>, chance: D.Chance)
    ensures var q := RequestOf(t, host, chance);
            && q.players == t.players && q.roundIndex == t.roundIndex && q.caller == t.host && |q.entries| == |t.pool|
            && forall i :: 0 <= i < |t.pool| ==>
                 q.entries[i].id == t.pool[i].id && q.entries[i].word == OrEmpty(t.pool[i].word) && q.entries[i].authorId == t.pool[i].authorId
  {
  }

  // ---- the answer ----

  lemma {:induction false} LookupFinds(listing: seq<(string, Assignment)>, id: string)
    requires NoDup(Keys(listing))
    ensures Lookup(listing, id).None? <==> id !in Keys(listing)
    ensures forall i :: 0 <= i < |listing| && listing[i].0 == id ==> Lookup(listing, id) == Some(listing[i].1)
  {
    if listing != [] {
      assert Keys(listing[1..]) == Keys(listing)[1..];
      assert Keys(listing)[0] == listing[0].0;
      LookupFinds(listing[1..], id);
      forall i | 0 < i < |listing| ensures listing[i].0 != listing[0].0 {
        assert Keys(listing)[i] != Keys(listing)[0];
      }
      forall i | 0 <= i < |listing| && listing[i].0 == id ensures Lookup(listing, id) == Some(listing[i].1) {
        assert i > 0 ==> listing[1..][i - 1] == listing[i];
      }
      assert Keys(listing) == [listing[0].0] + Keys(listing)[1..];
    }
  }

  lemma ListedRole(listing: seq<(string, Assignment)>, roles: map<string, D.Role>, id: string)
    requires Lists(listing, roles)
    ensures Lookup(listing, id) == if id in roles then Some(Wire(roles[id])) else None
  {
    LookupFinds(listing, id);
    if id in roles {
      var i :| 0 <= i < |listing| && Keys(listing)[i] == id;
      assert listing[i].0 == id;
    }
  }

  /** What the answer of one draw is as it reaches the host. */
  ghost predicate Arrives(res: DrawResponse, r: D.DrawResult, out: Outside) {
    && res.cardId == r.cardId && res.commitment == out.text(r.commitment)
    && res.assignments.Some? && Lists(res.assignments.value, r.assignments)
  }

  /** A role told to the host itself: the word is left out if it is empty. */
  function OwnRole(isFake: bool, word: string): ServerEvent {
    YourRole(isFake, if isFake || word == "" then None else Some(word))
  }

  /**
   A delivered draw opens the round that was asked for: with the card and the fake the server drew, in an
   order of the players captured then, empty of strokes and votes. The host, if it is one of them, is told
   its own role, and nobody else anything; everyone is told the redacted state. The word kept back is that
   of a card the server could pick, unless the fake plays alone.
   */
  lemma AnswerOpensTheDrawnRound(c: Core, i: nat, host: Option<string>, chance: D.Chance, server: D.DrawCore,
                                 res: DrawResponse, env: Env, out: Outside) returns (word: string)
    requires i < |c.awaiting| && NoDup(c.awaiting[i].players)
    requires var r := D.Drawn(out.server, server, RequestOf(c.awaiting[i], host, chance)).1; r.Ok? && Arrives(res, r.value, out)
    ensures var t := c.awaiting[i];
            var q := RequestOf(t, host, chance);
            var r := D.Drawn(out.server, server, q).1.value;
            var done := CompleteDraw(c, i, res, env);
            var fake := D.FakeOf(q);
            && Pickable(server, q, r.cardId, word)
            && done.core.st.status == ROUND_ANNOUNCE && done.core.st.currentRound.Some?
            && var round := done.core.st.currentRound.value;
            && round == Round(t.roundIndex, Some(r.cardId), Some(fake), round.turnOrder, 0, [], Some(map[]), 0, None, Unset, None)
            && Permutation(round.turnOrder, t.players)
            && done.core.word == Some(if exists p :: p in t.players && p != fake then word else "")
            && done.core.commitment == Some(out.text(r.commitment))
            && done.core.awaiting == c.awaiting[..i] + c.awaiting[i + 1..]
            && done.sent == (if t.host in t.players then [Direct(t.host, OwnRole(t.host == fake, word))] else [])
                            + [Broadcast(StateUpdate(Sanitize(done.core.st)))]
  {
    var t := c.awaiting[i];
    var q := RequestOf(t, host, chance);
    var (c', drawn) := D.Drawn(out.server, server, q);
    DrawKeepsWhatItTold(out.server, server, q);
    D.ExactlyOneFake(out.server, server, q);
    var secret := c'.secrets[q.roundIndex];
    word := secret.word;
    RolesAre(drawn.value, q, secret.fakeId, word);
    HostReadsTheDraw(res.assignments.value, t.players, secret.fakeId, word);
    ListedRole(res.assignments.value, drawn.value.assignments, t.host);
    TurnOrderPermutes(t.players, env, c.pos);
    hide D.Drawn, Lists, AssignedFake, AssignedWord, TurnOrder, MarkUsed, Sanitize, Pickable, Permutation;
  }

  lemma RolesAre(r: D.DrawResult, q: D.Request, fake: string, word: string)
    requires TellsOf(r, q.roundIndex, fake, word) && r.assignments.Keys == (set p | p in q.players)
    ensures r.assignments == D.Roles(q.players, fake, word)
  {
  }

  /** So does the next round with a drawer, after the finished round was archived, unless the game is over. */
  lemma NextDrawIsAskedExactly(c: Core, from: string, env: Env)
    requires c.drawer && c.st.status == ROUND_SUMMARY && from == c.st.hostId && c.st.currentRound.Some?
    requires forall i :: 0 <= i < |c.st.pastRounds| ==> c.st.pastRounds[i].index != c.st.currentRound.value.index
    requires |c.st.players| >= c.st.config.minPlayers
    requires (exists card :: card in c.st.pool && !card.used) && forall p :: p in c.st.players ==> p.score < c.st.config.targetScore
    ensures var out := HandleNextRound(c, from, env);
            && out.sent == []
            && out.core == c.(st := c.st.(pastRounds := c.st.pastRounds + [c.st.currentRound.value]), awaiting := out.core.awaiting)
            && |out.core.awaiting| == |c.awaiting| + 1 && out.core.awaiting[..|c.awaiting|] == c.awaiting
            && var t := out.core.awaiting[|c.awaiting|];
            && t.host == from && t.players == Ids(c.st.players) && t.roundIndex == c.st.currentRound.value.index + 1
            && (forall card :: card in t.pool <==> card in c.st.pool && !card.used)
  {
    assert Archive(c.st) == c.st.(pastRounds := c.st.pastRounds + [c.st.currentRound.value]);
    var card :| card in c.st.pool && !card.used;
    assert !IsOver(Archive(c.st));
    hide Archive, IsOver, Sanitize;
  }

  /** With too few players nothing is asked for. */
  lemma TooFewAskNothing(c: Core, from: string, env: Env)
    requires c.drawer && c.st.status == WRITING && AllSubmitted(c.st.players) && |c.st.players| < c.st.config.minPlayers
    ensures HandleStartRound(c, from, env) == Quiet(c)
  {
  }

  /** A draw that fails is over, and its host is told why; the game is as it was. */
  lemma FailedDrawIsOver(c: Core, i: nat, reason: string)
    requires i < |c.awaiting|
    ensures var out := FailDraw(c, i, reason);
            && out.core == c.(awaiting := c.awaiting[..i] + c.awaiting[i + 1..])
            && out.sent == [Direct(c.awaiting[i].host, ErrorEvent(DrawFailed(reason)))]
  {
  }
}
