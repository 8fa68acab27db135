/**
 Rounds drawn by the server: the engine's commands, the server's draws, and the answers that come back
 late, out of order or never, interleaved in any way (engine.ts:345-412 with draw.go:118-180).

 A draw is outstanding from the moment the engine awaits it. The server may handle it at any time, even
 more than once; then its answer may be delivered or lost. The host learns of a loss as a failure.
 */
module AsyncDraw {
  import opened Prelude
  import opened Models
  import opened EngineSpec
  import opened EngineInvariant
  import D = Draws

  datatype Flight = Asked | Answered(res: DrawResponse)

  // `drawn` records the cards the server has drawn, `roster` the players captured for the current round.
  datatype World = World(core: Core, server: D.DrawCore, flights: seq<Flight>, drawn: seq<string>, roster: seq<string>)

  datatype Step =
    | Act(cmd: Command, from: string)
    | Handle(i: nat, host: Option<string>, chance: D.Chance, listing: seq<(string, Assignment)>)
    | Deliver(i: nat)
    | Fail(i: nat, reason: string)

  // What the environment contributes besides the engine's own oracle.
  datatype Outside = Outside(server: D.Server, text: seq<bv16> -> string)

  // ---- the request and the answer on the wire ----

  function Entry(card: WordCard): D.PoolEntry {
    D.PoolEntry(card.id, OrEmpty(card.word), card.authorId, false)
  }

  function RequestOf(t: Ticket, host: Option<string>, chance: D.Chance): D.Request {
    D.Request(host, t.host, t.roundIndex, t.players,
              seq(|t.pool|, i requires 0 <= i < |t.pool| => Entry(t.pool[i])), chance)
  }

  /** A role as JSON carries it: an empty word is left out. */
  function Wire(role: D.Role): Assignment {
    Assignment(role.isFake, if role.word == "" then None else Some(role.word))
  }

  function Keys(listing: seq<(string, Assignment)>): seq<string> {
    seq(|listing|, i requires 0 <= i < |listing| => listing[i].0)
  }

  /** The members of a JSON object, in any order. */
  ghost predicate Lists(listing: seq<(string, Assignment)>, roles: map<string, D.Role>) {
    && NoDup(Keys(listing))
    && (forall id :: id in roles <==> id in Keys(listing))
    && forall i :: 0 <= i < |listing| && listing[i].0 in roles ==> listing[i].1 == Wire(roles[listing[i].0])
  }

  // ---- steps ----

  function Outcome(w: World, i: nat, host: Option<string>, chance: D.Chance, out: Outside): (D.DrawCore, Result<D.DrawResult, D.DrawError>)
    requires i < |w.core.awaiting|
  {
    D.Drawn(out.server, w.server, RequestOf(w.core.awaiting[i], host, chance))
  }

  ghost predicate Possible(w: World, s: Step, env: Env, out: Outside) {
    |w.flights| == |w.core.awaiting| &&
    match s
    case Act(cmd, from) => FreshIds(w.core, cmd, from, env)
    case Handle(i, host, chance, listing) =>
      && i < |w.flights|
      && var r := Outcome(w, i, host, chance, out).1;
         r.Ok? ==> Lists(listing, r.value.assignments)
    case Deliver(i) => i < |w.flights| && w.flights[i].Answered?
    case Fail(i, _) => i < |w.flights|
  }

  ghost function Next(w: World, s: Step, env: Env, out: Outside): World
    requires Possible(w, s, env, out)
  {
    match s
    case Act(cmd, from) =>
      var core := Dispatch(w.core, cmd, from, env).core;
      w.(core := core, flights := if |core.awaiting| > |w.flights| then w.flights + [Asked] else w.flights)
    case Handle(i, host, chance, listing) =>
      var (server, r) := Outcome(w, i, host, chance, out);
      if r.Err? then w.(server := server)
      else
        var res := DrawResponse(r.value.cardId, out.text(r.value.commitment), Some(listing));
        w.(server := server, flights := w.flights[i := Answered(res)], drawn := w.drawn + [r.value.cardId])
    case Deliver(i) =>
      w.(core := CompleteDraw(w.core, i, w.flights[i].res, env).core,
         flights := Without(w.flights, i), roster := w.core.awaiting[i].players)
    case Fail(i, reason) =>
      w.(core := FailDraw(w.core, i, reason).core, flights := Without(w.flights, i))
  }

  ghost predicate PossibleRun(w: World, steps: seq<Step>, env: Env, out: Outside)
    decreases |steps|
  {
    steps != [] ==> Possible(w, steps[0], env, out) && PossibleRun(Next(w, steps[0], env, out), steps[1..], env, out)
  }

  ghost function RunWorld(w: World, steps: seq<Step>, env: Env, out: Outside): World
    requires PossibleRun(w, steps, env, out)
    decreases |steps|
  {
    if steps == [] then w else RunWorld(Next(w, steps[0], env, out), steps[1..], env, out)
  }

  function NewWorld(roomId: string, config: Config): World {
    World(Fresh(roomId, config, true), D.DrawCore([], map[]), [], [], [])
  }

  // ---- what every step keeps ----

  ghost predicate AsyncRound(r: Round, roster: seq<string>, drawn: seq<string>) {
    && NoDup(roster)
    && Permutation(r.turnOrder, roster)
    && r.fakeId.Some? && r.fakeId.value in r.turnOrder
    && r.cardId.Some? && r.cardId.value in drawn
    && r.strokeIndex == |r.strokes|
    && TurnsAlternate(r)
    && BallotsValid(r)
  }

  predicate TicketOk(t: Ticket) {
    CardsDistinct(t.pool)
  }

  predicate AnswerOk(f: Flight, t: Ticket, drawn: seq<string>) {
    f.Answered? ==>
      && f.res.assignments.Some?
      && AssignedFake(f.res.assignments.value) in t.players
      && f.res.cardId in drawn
  }

  /** The engine's part: nothing in it depends on the draws outstanding. */
  ghost predicate HostOk(c: Core, roster: seq<string>, drawn: seq<string>) {
    && c.drawer
    && NoDup(Ids(c.st.players))
    && CardsDistinct(c.st.pool)
    && (forall card :: card in c.st.pool && card.used ==> card.id in drawn)
    && (c.st.currentRound.Some? ==> AsyncRound(c.st.currentRound.value, roster, drawn))
  }

  ghost predicate FlightsOk(w: World) {
    && |w.flights| == |w.core.awaiting|
    && forall i :: 0 <= i < |w.flights| ==>
         && TicketOk(w.core.awaiting[i]) && NoDup(w.core.awaiting[i].players)
         && AnswerOk(w.flights[i], w.core.awaiting[i], w.drawn)
  }

  ghost predicate WorldOk(w: World) {
    HostOk(w.core, w.roster, w.drawn) && FlightsOk(w) && D.Sound(w.server, w.drawn)
  }

  // ---- commands ----

  lemma {:induction false} AvailableDistinct(pool: seq<WordCard>)
    requires CardsDistinct(pool)
    ensures CardsDistinct(Available(pool))
  {
    if pool != [] {
      assert forall i :: 0 <= i < |pool| - 1 ==> pool[1..][i] == pool[i + 1];
      AvailableDistinct(pool[1..]);
      var rest := Available(pool[1..]);
      forall i | 0 <= i < |rest| ensures rest[i].id != pool[0].id {
        assert rest[i] in rest && rest[i] in pool[1..];
      }
    }
  }

  lemma BeginDrawKeeps(c: Core, from: string, roster: seq<string>, drawn: seq<string>)
    requires HostOk(c, roster, drawn)
    ensures var c' := BeginDraw(c, from);
            && HostOk(c', roster, drawn)
            && (c'.awaiting == c.awaiting || exists t :: c'.awaiting == c.awaiting + [t] && TicketOk(t) && NoDup(t.players))
  {
    AvailableDistinct(c.st.pool);
    var t := Ticket(from, Ids(c.st.players), Available(c.st.pool), NextIndex(c.st));
    assert TicketOk(t);
  }

  lemma FinalizeKeepsIds(c: Core, caught: bool, right: bool)
    requires c.st.currentRound.Some? && NoDup(Ids(c.st.players)) && NoDup(c.st.currentRound.value.turnOrder)
    ensures Ids(Finalize(c, caught, right).st.players) == Ids(c.st.players)
  {
    var r := c.st.currentRound.value;
    if r.fakeId.Some? {
      AddScoreRaises(c.st.players, r.fakeId.value, 2);
      AddScoreRaises(c.st.players, r.fakeId.value, 1);
    }
    AwardArtistsRaises(c.st.players, r.turnOrder, r.fakeId);
  }

  lemma FinalizeKeepsHost(c: Core, caught: bool, right: bool, roster: seq<string>, drawn: seq<string>)
    requires HostOk(c, roster, drawn) && c.st.currentRound.Some?
    ensures HostOk(Finalize(c, caught, right), roster, drawn)
  {
    PermutationNoDup(roster, c.st.currentRound.value.turnOrder);
    FinalizeKeepsIds(c, caught, right);
    var r, r' := c.st.currentRound.value, Finalize(c, caught, right).st.currentRound.value;
    assert r' == r.(revealedWord := r'.revealedWord, outcome := r'.outcome);
  }

  lemma JoinKeepsHost(c: Core, asked: string, name: string, from: string, env: Env, roster: seq<string>, drawn: seq<string>)
    requires HostOk(c, roster, drawn) && FreshIds(c, JoinGame(asked, name), from, env)
    ensures HostOk(HandleJoin(c, asked, name, from, env).core, roster, drawn)
  {
    var wanted := if asked != "" then asked else from;
    var known := if wanted == "" then None else FindPlayer(c.st.players, wanted);
    if known.Some? {
      assert Ids(Rejoin(c, known.value, name).st.players) == Ids(c.st.players);
    } else if c.st.status == LOBBY || c.st.status == WRITING {
      assert Ids(Enter(c, wanted, name, env).st.players) == Ids(c.st.players) + [NewPlayerId(wanted, env, c.pos)];
    }
  }

  lemma SubmitWordsKeepsHost(c: Core, words: seq<string>, from: string, env: Env, roster: seq<string>, drawn: seq<string>)
    requires HostOk(c, roster, drawn) && FreshIds(c, SubmitWords(words), from, env)
    ensures HostOk(HandleSubmitWords(c, words, from, env).core, roster, drawn)
  {
    MintedUnused(words, from, env, c.pos);
    assert Ids(HandleSubmitWords(c, words, from, env).core.st.players) == Ids(c.st.players);
  }

  lemma SubmitStrokeKeepsHost(c: Core, points: seq<Point>, from: string, roster: seq<string>, drawn: seq<string>)
    requires HostOk(c, roster, drawn)
    ensures HostOk(HandleSubmitStroke(c, points, from).core, roster, drawn)
  {
  }

  function WithBallot(c: Core, suspect: string, from: string): Core
    requires c.st.currentRound.Some?
  {
    var r := c.st.currentRound.value;
    var votes := Votes(r)[from := suspect];
    c.(st := c.st.(currentRound := Some(r.(votes := Some(votes), votesCast := |votes|))))
  }

  lemma WithBallotKeepsHost(c: Core, suspect: string, from: string, roster: seq<string>, drawn: seq<string>)
    requires HostOk(c, roster, drawn) && c.st.currentRound.Some?
    requires from in c.st.currentRound.value.turnOrder && suspect in c.st.currentRound.value.turnOrder
    ensures HostOk(WithBallot(c, suspect, from), roster, drawn)
  {
    PermutationNoDup(roster, c.st.currentRound.value.turnOrder);
    BallotKeeps(c.st.currentRound.value, from, suspect);
  }

  lemma AfterBallotKeepsHost(c: Core, roster: seq<string>, drawn: seq<string>)
    requires HostOk(c, roster, drawn) && c.st.currentRound.Some?
    ensures HostOk(AfterBallot(c), roster, drawn)
  {
    FinalizeKeepsHost(c, false, false, roster, drawn);
  }

  lemma CastVoteKeepsHost(c: Core, suspect: string, from: string, roster: seq<string>, drawn: seq<string>)
    requires HostOk(c, roster, drawn)
    ensures HostOk(HandleCastVote(c, suspect, from).core, roster, drawn)
  {
    if c.st.status == VOTING && c.st.currentRound.Some? && from in c.st.currentRound.value.turnOrder && suspect in c.st.currentRound.value.turnOrder {
      hide HostOk, Finalize, Caught;
      WithBallotKeepsHost(c, suspect, from, roster, drawn);
      var c' := AfterBallot(WithBallot(c, suspect, from));
      AfterBallotKeepsHost(WithBallot(c, suspect, from), roster, drawn);
      assert HandleCastVote(c, suspect, from).core == c'.(version := c'.version + 1);
      HostOkIgnoresVersion(c', c'.version + 1, roster, drawn);
    }
  }

  lemma HostOkIgnoresVersion(c: Core, version: nat, roster: seq<string>, drawn: seq<string>)
    requires HostOk(c, roster, drawn)
    ensures HostOk(c.(version := version), roster, drawn)
  {
  }

  lemma FakeGuessKeepsHost(c: Core, guess: string, from: string, env: Env, roster: seq<string>, drawn: seq<string>)
    requires HostOk(c, roster, drawn)
    ensures HostOk(HandleFakeGuess(c, guess, from, env).core, roster, drawn)
  {
    if c.st.status == FAKE_GUESS && c.st.currentRound.Some? && c.st.currentRound.value.fakeId == Some(from) {
      var c' := c.(st := c.st.(currentRound := Some(c.st.currentRound.value.(fakeGuess := Some(guess)))));
      assert HostOk(c', roster, drawn);
      FinalizeKeepsHost(c', true, GuessIsRight(c.word, guess, env), roster, drawn);
    }
  }

  /** A command keeps the host's part and begins at most one draw. */
  lemma ActKeeps(c: Core, cmd: Command, from: string, env: Env, roster: seq<string>, drawn: seq<string>)
    requires HostOk(c, roster, drawn) && FreshIds(c, cmd, from, env)
    ensures var c' := Dispatch(c, cmd, from, env).core;
            && HostOk(c', roster, drawn)
            && (c'.awaiting == c.awaiting || exists t :: c'.awaiting == c.awaiting + [t] && TicketOk(t) && NoDup(t.players))
  {
    match cmd
    case JoinGame(id, name) => JoinKeepsHost(c, id, name, from, env, roster, drawn);
    case SubmitWords(words) => SubmitWordsKeepsHost(c, words, from, env, roster, drawn);
    case SubmitStroke(points) => SubmitStrokeKeepsHost(c, points, from, roster, drawn);
    case CastVote(suspect) => CastVoteKeepsHost(c, suspect, from, roster, drawn);
    case SubmitFakeGuess(guess) => FakeGuessKeepsHost(c, guess, from, env, roster, drawn);
    case StartRound => BeginDrawKeeps(c, from, roster, drawn);
    case NextRound => BeginDrawKeeps(c.(st := Archive(c.st)), from, roster, drawn);
    case _ =>
  }

  // ---- the server's answer ----

  lemma {:induction false} ListedFake(listing: seq<(string, Assignment)>, fake: string)
    requires exists i :: 0 <= i < |listing| && listing[i].1.isFake
    requires forall i :: 0 <= i < |listing| && listing[i].1.isFake ==> listing[i].0 == fake
    ensures AssignedFake(listing) == fake
  {
    var n := |listing| - 1;
    if !listing[n].1.isFake {
      ListedFake(listing[..n], fake);
    }
  }

  lemma {:induction false} ListedWord(listing: seq<(string, Assignment)>, word: string)
    requires forall i :: 0 <= i < |listing| ==> listing[i].1.word == if listing[i].1.isFake || word == "" then None else Some(word)
    ensures AssignedWord(listing) == if exists i :: 0 <= i < |listing| && !listing[i].1.isFake then word else ""
  {
    if listing != [] {
      var n := |listing| - 1;
      ListedWord(listing[..n], word);
      if listing[n].1.isFake || word == "" {
        assert (exists i :: 0 <= i < |listing| && !listing[i].1.isFake) && word != "" ==> exists i :: 0 <= i < n && !listing[..n][i].1.isFake;
      }
    }
  }

  /**
   Whatever order the assignments arrive in, the host reads off the fake the server picked, and the
   card's word if anyone was given it.
   */
  lemma HostReadsTheDraw(listing: seq<(string, Assignment)>, players: seq<string>, fake: string, word: string)
    requires fake in players && Lists(listing, D.Roles(players, fake, word))
    ensures AssignedFake(listing) == fake
    ensures AssignedWord(listing) == if exists p :: p in players && p != fake then word else ""
  {
    var roles := D.Roles(players, fake, word);
    assert forall i :: 0 <= i < |listing| ==> listing[i].0 in Keys(listing) by {
      assert forall i :: 0 <= i < |listing| ==> listing[i].0 == Keys(listing)[i];
    }
    assert fake in Keys(listing);
    var at :| 0 <= at < |listing| && Keys(listing)[at] == fake;
    assert listing[at].1.isFake;
    ListedFake(listing, fake);
    ListedWord(listing, word);
    if p :| p in players && p != fake {
      assert p in roles && p in Keys(listing);
      var j :| 0 <= j < |listing| && Keys(listing)[j] == p;
      assert !listing[j].1.isFake;
    }
  }

  lemma HandleKeeps(w: World, i: nat, host: Option<string>, chance: D.Chance, listing: seq<(string, Assignment)>, env: Env, out: Outside)
    requires WorldOk(w) && Possible(w, Handle(i, host, chance, listing), env, out)
    ensures WorldOk(Next(w, Handle(i, host, chance, listing), env, out))
  {
    hide HostOk, D.Drawn, D.Sound, Lists, AssignedFake;
    var t := w.core.awaiting[i];
    var q := RequestOf(t, host, chance);
    EntriesDistinct(t, host, chance);
    D.DistinctRepeatsNothing(D.Known(w.server.pool), q.entries);
    D.DrawKeepsSound(out.server, w.server, q, w.drawn);
    var r := D.Drawn(out.server, w.server, q).1;
    if r.Ok? {
      AnswerNamesTheFake(w.server, t, host, chance, listing, out);
      MoreDrawn(w, r.value.cardId);
      var w1 := w.(drawn := w.drawn + [r.value.cardId]);
      FlightAnswered(w1, i, DrawResponse(r.value.cardId, out.text(r.value.commitment), Some(listing)));
    } else {
      assert w.drawn + [] == w.drawn;
    }
  }

  lemma EntriesDistinct(t: Ticket, host: Option<string>, chance: D.Chance)
    requires TicketOk(t)
    ensures NoDup(D.EntryIds(RequestOf(t, host, chance).entries))
  {
    assert forall k :: 0 <= k < |t.pool| ==> D.EntryIds(RequestOf(t, host, chance).entries)[k] == t.pool[k].id;
  }

  /** What the host reads off an answer is the fake the server keeps for the round. */
  lemma AnswerNamesTheFake(c: D.DrawCore, t: Ticket, host: Option<string>, chance: D.Chance, listing: seq<(string, Assignment)>, out: Outside)
    requires var r := D.Drawn(out.server, c, RequestOf(t, host, chance)).1;
             r.Ok? && Lists(listing, r.value.assignments)
    ensures var c' := D.Drawn(out.server, c, RequestOf(t, host, chance)).0;
            && t.roundIndex in c'.secrets
            && AssignedFake(listing) == c'.secrets[t.roundIndex].fakeId
            && AssignedFake(listing) in t.players
  {
    hide Lists, AssignedFake, D.Merged, D.Place;
    var q := RequestOf(t, host, chance);
    D.ExactlyOneFake(out.server, c, q);
    var (c', r) := D.Drawn(out.server, c, q);
    var secret := c'.secrets[t.roundIndex];
    assert r.value.assignments == D.Roles(t.players, secret.fakeId, secret.word);
    HostReadsTheDraw(listing, t.players, secret.fakeId, secret.word);
  }

  lemma FlightAnswered(w: World, i: nat, res: DrawResponse)
    requires FlightsOk(w) && i < |w.flights| && AnswerOk(Answered(res), w.core.awaiting[i], w.drawn)
    ensures FlightsOk(w.(flights := w.flights[i := Answered(res)]))
  {
    hide AnswerOk, TicketOk;
  }

  lemma MoreDrawn(w: World, card: string)
    requires HostOk(w.core, w.roster, w.drawn) && FlightsOk(w)
    ensures HostOk(w.core, w.roster, w.drawn + [card]) && FlightsOk(w.(drawn := w.drawn + [card]))
  {
  }

  // ---- delivery ----

  lemma MarkUsedMarks(pool: seq<WordCard>, id: string)
    ensures |MarkUsed(pool, id)| == |pool|
    ensures forall i :: 0 <= i < |pool| ==> MarkUsed(pool, id)[i].id == pool[i].id
    ensures forall i :: 0 <= i < |pool| && MarkUsed(pool, id)[i].used ==> pool[i].used || pool[i].id == id
  {
  }

  /** The round an answer opens: shuffled from the roster captured when the draw began. */
  lemma DeliverKeeps(w: World, i: nat, env: Env, out: Outside)
    requires WorldOk(w) && Possible(w, Deliver(i), env, out)
    ensures WorldOk(Next(w, Deliver(i), env, out))
  {
    var t, res := w.core.awaiting[i], w.flights[i].res;
    var w' := Next(w, Deliver(i), env, out);
    TurnOrderPermutes(t.players, env, w.core.pos);
    var order := TurnOrder(t.players, env, w.core.pos);
    PermutationMembers(order, t.players);
    assert AsyncRound(w'.core.st.currentRound.value, t.players, w.drawn);
    MarkUsedMarks(w.core.st.pool, res.cardId);
    WithoutKeepsFlights(w, i, w'.core);
  }

  lemma WithoutKeepsFlights(w: World, i: nat, core: Core)
    requires FlightsOk(w) && i < |w.flights| && core.awaiting == Without(w.core.awaiting, i)
    ensures FlightsOk(w.(core := core, flights := Without(w.flights, i)))
  {
    var a, f := Without(w.core.awaiting, i), Without(w.flights, i);
    forall k | 0 <= k < |f| ensures a[k] == w.core.awaiting[if k < i then k else k + 1] && f[k] == w.flights[if k < i then k else k + 1] {
    }
  }

  lemma StepKeeps(w: World, s: Step, env: Env, out: Outside)
    requires WorldOk(w) && Possible(w, s, env, out)
    ensures WorldOk(Next(w, s, env, out))
  {
    match s
    case Act(cmd, from) =>
      ActKeeps(w.core, cmd, from, env, w.roster, w.drawn);
    case Handle(i, host, chance, listing) =>
      HandleKeeps(w, i, host, chance, listing, env, out);
    case Deliver(i) =>
      DeliverKeeps(w, i, env, out);
    case Fail(i, reason) =>
      WithoutKeepsFlights(w, i, FailDraw(w.core, i, reason).core);
  }

  lemma {:induction false} RunKeepsWorld(w: World, steps: seq<Step>, env: Env, out: Outside)
    requires WorldOk(w) && PossibleRun(w, steps, env, out)
    ensures WorldOk(RunWorld(w, steps, env, out))
    decreases |steps|
  {
    if steps != [] {
      StepKeeps(w, steps[0], env, out);
      RunKeepsWorld(Next(w, steps[0], env, out), steps[1..], env, out);
    }
  }

  lemma NewWorldOk(roomId: string, config: Config)
    ensures WorldOk(NewWorld(roomId, config))
  {
    assert D.EntryIds([]) == [] && D.UsedIds([]) == {};
  }

  // ---- results ----

  /**
   Any interleaving, any number of draws in flight, answers lost or late: the round's counters match
   its lists, its turn order is a duplicate-free permutation of the roster captured when its draw
   began, the fake is in it, and the stroke and vote rules hold.
   */
  lemma AnyInterleavingKeepsTheRound(roomId: string, config: Config, steps: seq<Step>, env: Env, out: Outside)
    requires PossibleRun(NewWorld(roomId, config), steps, env, out)
    ensures var w := RunWorld(NewWorld(roomId, config), steps, env, out);
            w.core.st.currentRound.Some? ==>
              var r := w.core.st.currentRound.value;
              && r.strokeIndex == |r.strokes|
              && r.votes.Some? && r.votesCast == |r.votes.value|
              && NoDup(r.turnOrder) && Permutation(r.turnOrder, w.roster)
              && r.fakeId.Some? && r.fakeId.value in r.turnOrder
              && (forall i :: 0 <= i < |r.strokes| ==> r.strokes[i].playerId == r.turnOrder[i % |r.turnOrder|])
  {
    NewWorldOk(roomId, config);
    RunKeepsWorld(NewWorld(roomId, config), steps, env, out);
    var w := RunWorld(NewWorld(roomId, config), steps, env, out);
    if w.core.st.currentRound.Some? {
      PermutationNoDup(w.roster, w.core.st.currentRound.value.turnOrder);
    }
  }

  /**
   The server draws no card twice, even when its answers are lost; and every card the host has marked
   used is one the server has marked used.
   */
  lemma CardsAreSpentOnce(roomId: string, config: Config, steps: seq<Step>, env: Env, out: Outside)
    requires PossibleRun(NewWorld(roomId, config), steps, env, out)
    ensures var w := RunWorld(NewWorld(roomId, config), steps, env, out);
            && NoDup(w.drawn)
            && (forall card :: card in w.core.st.pool && card.used ==> card.id in D.UsedIds(w.server.pool))
  {
    NewWorldOk(roomId, config);
    RunKeepsWorld(NewWorld(roomId, config), steps, env, out);
  }

  /**
   The end of a game lasts exactly as long as no outstanding answer is delivered: a late one opens a
   round again.
   */
  lemma OnlyAnAnswerReopensTheGame(w: World, s: Step, env: Env, out: Outside)
    requires w.core.st.status == GAME_OVER && Possible(w, s, env, out)
    ensures Next(w, s, env, out).core.st.status == GAME_OVER <==> !s.Deliver?
    ensures s.Deliver? ==> Next(w, s, env, out).core.st.status == ROUND_ANNOUNCE
  {
  }
}
