/**
 Seats, colours, cards and winners over every run of the engine with local draws
 (frontend/p2p/engine.ts:128-201, 321-330, 522-560).
 */
module Seats {
  import opened Prelude
  import opened Models
  import opened EngineSpec
  import opened EngineInvariant
  import opened EngineTheorems

  // ---- what a table owes ----

  /** The first to come is host and admin, and nobody else is. */
  ghost predicate HostSits(st: GameState) {
    && st.hostId == (if st.players == [] then "" else st.players[0].id)
    && forall i :: 0 <= i < |st.players| ==> (st.players[i].isAdmin <==> i == 0)
  }

  /** The first ten players have colours of the palette, all different. */
  ghost predicate ColoursDiffer(players: seq<Player>) {
    forall i :: 0 <= i < |players| && i < |PALETTE| ==>
      && players[i].color in PALETTE
      && forall j :: 0 <= j < i ==> players[j].color != players[i].color
  }

  ghost predicate HasWritten(players: seq<Player>, id: string) {
    exists i :: 0 <= i < |players| && players[i].id == id && players[i].hasSubmitted
  }

  /** Every card was written by a player who has submitted. */
  ghost predicate AuthorsSit(st: GameState) {
    forall k :: 0 <= k < |st.pool| ==> HasWritten(st.players, st.pool[k].authorId)
  }

  predicate OnBoard(st: GameState, s: Stroke) {
    || (st.currentRound.Some? && s in st.currentRound.value.strokes)
    || exists i :: 0 <= i < |st.pastRounds| && s in st.pastRounds[i].strokes
  }

  /** A stroke has two points or more, and the colour of its artist. */
  ghost predicate Signed(s: Stroke, players: seq<Player>) {
    |s.points| >= 2 && exists i :: 0 <= i < |players| && players[i].id == s.playerId && players[i].color == s.color
  }

  /** At the end the winner is the first player with the most points; before it there is none. */
  ghost predicate WinnerOk(st: GameState) {
    if st.status != GAME_OVER || st.players == [] then st.winner.None?
    else exists i :: 0 <= i < |st.players| && st.winner == Some(st.players[i].id) && LeadsAll(st.players, i)
  }

  ghost predicate LeadsAll(players: seq<Player>, i: nat)
    requires i < |players|
  {
    && (forall j :: 0 <= j < |players| ==> players[j].score <= players[i].score)
    && (forall j :: 0 <= j < i ==> players[j].score < players[i].score)
  }

  ghost predicate TableOk(st: GameState) {
    && HostSits(st) && ColoursDiffer(st.players) && AuthorsSit(st) && WinnerOk(st)
    && forall s :: OnBoard(st, s) ==> Signed(s, st.players)
  }

  // ---- what every command keeps of the seats ----

  /** Nobody is moved or removed, renumbered or repainted; who has submitted has. */
  ghost predicate SeatsKept(a: seq<Player>, b: seq<Player>) {
    && |a| <= |b|
    && forall i :: 0 <= i < |a| ==>
         b[i].id == a[i].id && b[i].color == a[i].color && b[i].isAdmin == a[i].isAdmin && (a[i].hasSubmitted ==> b[i].hasSubmitted)
  }

  lemma SignedStays(s: Stroke, a: seq<Player>, b: seq<Player>)
    requires SeatsKept(a, b) && Signed(s, a)
    ensures Signed(s, b)
  {
    var i :| 0 <= i < |a| && a[i].id == s.playerId && a[i].color == s.color;
    assert b[i].id == s.playerId;
  }

  lemma AuthorsStay(st: GameState, st': GameState)
    requires AuthorsSit(st) && SeatsKept(st.players, st'.players)
    requires |st'.pool| == |st.pool| && forall k :: 0 <= k < |st.pool| ==> st'.pool[k].authorId == st.pool[k].authorId
    ensures AuthorsSit(st')
  {
    forall k | 0 <= k < |st'.pool| ensures HasWritten(st'.players, st'.pool[k].authorId) {
      assert st'.pool[k].authorId == st.pool[k].authorId;
      var i :| 0 <= i < |st.players| && st.players[i].id == st.pool[k].authorId && st.players[i].hasSubmitted;
      assert st'.players[i].id == st'.pool[k].authorId;
    }
  }

  /** A step that seats nobody, writes nothing and draws nothing new. */
  lemma NothingNewKeeps(st: GameState, st': GameState)
    requires TableOk(st) && SeatsKept(st.players, st'.players) && |st'.players| == |st.players| && st'.hostId == st.hostId
    requires |st'.pool| == |st.pool| && forall k :: 0 <= k < |st.pool| ==> st'.pool[k].authorId == st.pool[k].authorId
    requires forall s :: OnBoard(st', s) ==> OnBoard(st, s)
    requires WinnerOk(st')
    ensures TableOk(st')
  {
    AuthorsStay(st, st');
    forall s | OnBoard(st', s) ensures Signed(s, st'.players) {
      SignedStays(s, st.players, st'.players);
    }
  }

  lemma LeaderWins(players: seq<Player>)
    ensures players != [] ==> exists i :: 0 <= i < |players| && WinnerOf(players) == Some(players[i].id) && LeadsAll(players, i)
    ensures players == [] ==> WinnerOf(players).None?
  {
    if players != [] {
      var k := Leader(players).value;
      assert LeadsAll(players, k);
    }
  }

  lemma OverKeeps(st: GameState, st': GameState)
    requires TableOk(st) && st'.players == st.players && st'.hostId == st.hostId && st'.pool == st.pool
    requires forall s :: OnBoard(st', s) ==> OnBoard(st, s)
    ensures TableOk(GameOver(st'))
  {
    LeaderWins(st'.players);
    assert forall s :: OnBoard(GameOver(st'), s) ==> OnBoard(st', s);
    NothingNewKeeps(st, GameOver(st'));
  }

  // ---- colours ----

  lemma {:induction false} UnusedAre(colors: seq<string>, used: set<string>)
    ensures forall x :: x in Unused(colors, used) <==> x in colors && x !in used
  {
    if colors != [] {
      UnusedAre(colors[1..], used);
    }
  }

  lemma PaletteIsTen()
    ensures |PALETTE| == 10 && NoDup(PALETTE)
  {
    assert forall i, j :: 0 <= i < j < 10 ==> PALETTE[i] != PALETTE[j];
  }

  /** With fewer than ten players there is a colour left, and the one picked is of the palette and unused. */
  lemma PickedColourIsNew(players: seq<Player>, env: Env, pos: nat)
    requires |players| < |PALETTE|
    ensures PickColor(players, env, pos) in PALETTE
    ensures forall p :: p in players && p.color != "" ==> p.color != PickColor(players, env, pos)
  {
    var used := set p | p in players && p.color != "" :: p.color;
    UnusedAre(PALETTE, used);
    var avail := Unused(PALETTE, used);
    if avail == [] {
      PaletteIsTen();
      var palette := set x | x in PALETTE;
      NoDupCardinality(PALETTE);
      forall x | x in palette ensures x in used {
        assert x !in avail;
      }
      SubsetSize(palette, used);
      FewColours(players);
    } else {
      assert avail[Pick(env.rng(pos), |avail|)] in avail;
    }
  }

  lemma {:induction false} FewColours(players: seq<Player>)
    ensures |set p | p in players && p.color != "" :: p.color| <= |players|
  {
    var used := set p | p in players && p.color != "" :: p.color;
    if players == [] {
      assert used == {};
    } else {
      var front, last := players[..|players| - 1], players[|players| - 1];
      FewColours(front);
      var before := set p | p in front && p.color != "" :: p.color;
      assert players == front + [last];
      assert used <= before + {last.color};
      SubsetSize(used, before + {last.color});
    }
  }

  // ---- the commands ----

  lemma RejoinTable(c: Core, k: nat, name: string)
    requires TableOk(c.st) && k < |c.st.players|
    ensures TableOk(Rejoin(c, k, name).st) && SeatsKept(c.st.players, Rejoin(c, k, name).st.players)
  {
    var st' := Rejoin(c, k, name).st;
    assert forall s :: OnBoard(st', s) ==> OnBoard(c.st, s);
    if WinnerOk(c.st) && c.st.status == GAME_OVER && c.st.players != [] {
      var i :| 0 <= i < |c.st.players| && c.st.winner == Some(c.st.players[i].id) && LeadsAll(c.st.players, i);
      assert st'.players[i].id == c.st.players[i].id && LeadsAll(st'.players, i);
    }
    NothingNewKeeps(c.st, st');
  }

  lemma SeatTable(st: GameState, id: string, name: string, color: string)
    requires TableOk(st) && st.status != GAME_OVER
    requires |st.players| < |PALETTE| ==> color in PALETTE && forall p :: p in st.players && p.color != "" ==> p.color != color
    ensures TableOk(Seat(st, id, name, color)) && SeatsKept(st.players, Seat(st, id, name, color).players)
  {
    var st' := Seat(st, id, name, color);
    AuthorsStay(st, st');
    forall i | 0 <= i < |st.players| && i < |PALETTE| ensures st.players[i].color != "" {
      assert "" !in PALETTE;
    }
    forall i, j | 0 <= j < i < |st'.players| && i < |PALETTE| ensures st'.players[j].color != st'.players[i].color {
      assert st.players[j] in st.players;
    }
    forall s | OnBoard(st', s) ensures Signed(s, st'.players) {
      assert OnBoard(st, s);
      SignedStays(s, st.players, st'.players);
    }
  }

  lemma JoinTable(c: Core, asked: string, name: string, from: string, env: Env)
    requires TableOk(c.st)
    ensures var st' := HandleJoin(c, asked, name, from, env).core.st; TableOk(st') && SeatsKept(c.st.players, st'.players)
  {
    hide TableOk, SeatsKept, Seat, PickColor, ResendRole, Sanitizer.Sanitize;
    KeptAll(c.st.players);
    var wanted := if asked != "" then asked else from;
    var known := if wanted == "" then None else FindPlayer(c.st.players, wanted);
    if known.Some? {
      RejoinTable(c, known.value, name);
    } else if c.st.status == LOBBY || c.st.status == WRITING {
      var pos := if wanted != "" then c.pos else c.pos + 4;
      if |c.st.players| < |PALETTE| {
        PickedColourIsNew(c.st.players, env, pos);
      }
      SeatTable(c.st, NewPlayerId(wanted, env, c.pos), name, PickColor(c.st.players, env, pos));
    }
  }

  lemma KeptAll(players: seq<Player>)
    ensures SeatsKept(players, players)
  {
  }

  lemma SettingsTable(c: Core, cmd: Command, from: string, env: Env)
    requires TableOk(c.st) && (cmd.ConfigureGame? || cmd.StartGame?)
    ensures var st' := Dispatch(c, cmd, from, env).core.st; TableOk(st') && SeatsKept(c.st.players, st'.players)
  {
    var st' := Dispatch(c, cmd, from, env).core.st;
    assert forall s :: OnBoard(st', s) ==> OnBoard(c.st, s);
    NothingNewKeeps(c.st, st');
  }

  lemma WordsTable(c: Core, words: seq<string>, from: string, env: Env)
    requires TableOk(c.st)
    ensures var st' := HandleSubmitWords(c, words, from, env).core.st; TableOk(st') && SeatsKept(c.st.players, st'.players)
  {
    var st, st' := c.st, HandleSubmitWords(c, words, from, env).core.st;
    if st' != st {
      MintedUnused(words, from, env, c.pos);
      var (cards, _) := MintCards(words, from, env, c.pos);
      var f := FindPlayer(st.players, from).value;
      assert st'.pool == st.pool + cards;
      AuthorsStay(st, st'.(pool := st.pool));
      assert st'.players[f].id == from && st'.players[f].hasSubmitted;
      forall k | 0 <= k < |st'.pool| ensures HasWritten(st'.players, st'.pool[k].authorId) {
        assert if k < |st.pool| then st'.pool[k] == st.pool[k] else st'.pool[k] in cards;
      }
      forall s | OnBoard(st', s) ensures Signed(s, st'.players) {
        assert OnBoard(st, s);
        SignedStays(s, st.players, st'.players);
      }
    }
  }

  lemma DealTable(c: Core, st: GameState, env: Env)
    requires TableOk(st) && st.status != GAME_OVER && c.st.players == st.players && c.st.hostId == st.hostId && c.st.pool == st.pool
    requires c.st.status != GAME_OVER && c.st.winner == st.winner && forall s :: OnBoard(c.st, s) ==> OnBoard(st, s)
    ensures TableOk(PrepareRound(c, env).1.core.st) && PrepareRound(c, env).1.core.st.players == c.st.players
  {
    var available := Available(c.st.pool);
    if |c.st.players| < c.st.config.minPlayers {
      assert PrepareRound(c, env).1.core.st == c.st;
      NothingNewKeeps(st, c.st);
    } else if available == [] {
      assert PrepareRound(c, env).1.core.st == GameOver(c.st);
      OverKeeps(st, c.st);
    } else {
      DealtBoard(c, env);
      hide Available, PrepareRound, HostSits, ColoursDiffer, AuthorsSit;
      var st' := PrepareRound(c, env).1.core.st;
      assert forall s :: OnBoard(st', s) ==> OnBoard(st, s);
      NothingNewKeeps(st, st');
    }
  }

  /** A deal changes the pool's marks and opens an empty round. */
  lemma DealtBoard(c: Core, env: Env)
    requires |c.st.players| >= c.st.config.minPlayers && Available(c.st.pool) != []
    ensures var st' := PrepareRound(c, env).1.core.st;
            && st' == c.st.(pool := st'.pool, currentRound := st'.currentRound, status := ROUND_ANNOUNCE)
            && st'.currentRound.Some? && st'.currentRound.value.strokes == []
            && |st'.pool| == |c.st.pool| && forall k :: 0 <= k < |c.st.pool| ==> st'.pool[k].authorId == c.st.pool[k].authorId
  {
    DealtCore(c, env);
    hide Available, TurnOrder, PrepareRound;
  }

  lemma OpenTable(c: Core, from: string, env: Env)
    requires Inv(c, env) && TableOk(c.st)
    ensures var st' := HandleStartRound(c, from, env).core.st; TableOk(st') && SeatsKept(c.st.players, st'.players)
  {
    if from == c.st.hostId && c.st.status == WRITING {
      DealTable(c, c.st, env);
    } else {
      var st' := HandleStartRound(c, from, env).core.st;
      assert forall s :: OnBoard(st', s) ==> OnBoard(c.st, s);
      NothingNewKeeps(c.st, st');
    }
  }

  lemma ArchivedBoard(st: GameState, s: Stroke)
    requires OnBoard(Archive(st), s)
    ensures OnBoard(st, s)
  {
  }

  lemma NextTable(c: Core, from: string, env: Env)
    requires Inv(c, env) && TableOk(c.st)
    ensures var st' := HandleNextRound(c, from, env).core.st; TableOk(st') && SeatsKept(c.st.players, st'.players)
  {
    if from == c.st.hostId && c.st.status == ROUND_SUMMARY {
      var c1 := c.(st := Archive(c.st));
      assert c1.st == c.st.(pastRounds := c1.st.pastRounds);
      forall s | OnBoard(c1.st, s) ensures OnBoard(c.st, s) { ArchivedBoard(c.st, s); }
      hide Archive, TableOk, OnBoard, PrepareRound, GameOver;
      if IsOver(c1.st) {
        OverKeeps(c.st, c1.st);
        OverSeats(c1.st);
      } else {
        DealTable(c1, c.st, env);
      }
    }
  }

  lemma OverSeats(st: GameState)
    ensures GameOver(st).players == st.players
  {
  }

  lemma StrokeTable(c: Core, points: seq<Point>, from: string)
    requires TableOk(c.st)
    ensures var st' := HandleSubmitStroke(c, points, from).core.st; TableOk(st') && SeatsKept(c.st.players, st'.players)
  {
    var st, st' := c.st, HandleSubmitStroke(c, points, from).core.st;
    if st' != st {
      var k := FindPlayer(st.players, from).value;
      var stroke := Stroke(from, st.players[k].color, points);
      assert st'.currentRound.value.strokes == st.currentRound.value.strokes + [stroke] && st'.pastRounds == st.pastRounds;
      assert st.players[k].id == stroke.playerId && st.players[k].color == stroke.color;
      assert Signed(stroke, st.players);
      forall s | OnBoard(st', s) ensures Signed(s, st'.players) {
        assert OnBoard(st, s) || s == stroke;
      }
    }
  }

  lemma {:induction false} AwardedSeats(players: seq<Player>, order: seq<string>, fake: Option<string>)
    ensures SeatsKept(players, AwardArtists(players, order, fake)) && |AwardArtists(players, order, fake)| == |players|
    decreases |order|
  {
    if order != [] {
      var first := if Some(order[0]) == fake then players else AddScore(players, order[0], 1);
      AwardedSeats(first, order[1..], fake);
    }
  }

  lemma FinalizeTable(c: Core, caught: bool, right: bool)
    requires c.st.currentRound.Some? && TableOk(c.st) && c.st.status != GAME_OVER
    ensures TableOk(Finalize(c, caught, right).st) && SeatsKept(c.st.players, Finalize(c, caught, right).st.players)
  {
    var st' := Finalize(c, caught, right).st;
    AwardedSeats(c.st.players, c.st.currentRound.value.turnOrder, c.st.currentRound.value.fakeId);
    assert SeatsKept(c.st.players, st'.players) && |st'.players| == |c.st.players|;
    assert forall s :: OnBoard(st', s) ==> OnBoard(c.st, s);
    NothingNewKeeps(c.st, st');
  }

  lemma VoteTable(c: Core, suspect: string, from: string)
    requires TableOk(c.st)
    ensures var st' := HandleCastVote(c, suspect, from).core.st; TableOk(st') && SeatsKept(c.st.players, st'.players)
  {
    KeptAll(c.st.players);
    if c.st.status == VOTING && c.st.currentRound.Some? && from in c.st.currentRound.value.turnOrder && suspect in c.st.currentRound.value.turnOrder {
      BallotStep(c, suspect, from);
      var r := c.st.currentRound.value;
      var votes := Votes(r)[from := suspect];
      var c' := c.(st := c.st.(currentRound := Some(r.(votes := Some(votes), votesCast := |votes|))));
      assert forall s :: OnBoard(c'.st, s) ==> OnBoard(c.st, s);
      NothingNewKeeps(c.st, c'.st);
      FinalizeTable(c', false, false);
      hide Finalize, HandleCastVote, Caught;
      assert forall s :: OnBoard(c'.st.(status := FAKE_GUESS), s) ==> OnBoard(c.st, s);
      NothingNewKeeps(c.st, c'.st.(status := FAKE_GUESS));
    }
  }

  lemma GuessTable(c: Core, guess: string, from: string, env: Env)
    requires TableOk(c.st)
    ensures var st' := HandleFakeGuess(c, guess, from, env).core.st; TableOk(st') && SeatsKept(c.st.players, st'.players)
  {
    KeptAll(c.st.players);
    if c.st.status == FAKE_GUESS && c.st.currentRound.Some? && c.st.currentRound.value.fakeId == Some(from) {
      var c' := c.(st := c.st.(currentRound := Some(c.st.currentRound.value.(fakeGuess := Some(guess)))));
      assert forall s :: OnBoard(c'.st, s) ==> OnBoard(c.st, s);
      NothingNewKeeps(c.st, c'.st);
      FinalizeTable(c', true, GuessIsRight(c.word, guess, env));
    }
  }

  lemma EndTable(c: Core, from: string)
    requires TableOk(c.st)
    ensures var st' := HandleEndGame(c, from).core.st; TableOk(st') && SeatsKept(c.st.players, st'.players)
  {
    if from == c.st.hostId {
      var st' := if c.st.status == ROUND_SUMMARY then Archive(c.st) else c.st;
      assert st' == c.st.(pastRounds := st'.pastRounds);
      if c.st.status == ROUND_SUMMARY {
        forall s | OnBoard(st', s) ensures OnBoard(c.st, s) { ArchivedBoard(c.st, s); }
      }
      OverKeeps(c.st, st');
    }
  }

  lemma DispatchTable(c: Core, cmd: Command, from: string, env: Env)
    requires Inv(c, env) && TableOk(c.st)
    ensures var st' := Dispatch(c, cmd, from, env).core.st; TableOk(st') && SeatsKept(c.st.players, st'.players)
  {
    hide Inv, TableOk, SeatsKept;
    match cmd
    case JoinGame(id, name) => JoinTable(c, id, name, from, env);
    case SubmitWords(words) => WordsTable(c, words, from, env);
    case StartRound => OpenTable(c, from, env);
    case SubmitStroke(points) => StrokeTable(c, points, from);
    case CastVote(suspect) => VoteTable(c, suspect, from);
    case SubmitFakeGuess(guess) => GuessTable(c, guess, from, env);
    case NextRound => NextTable(c, from, env);
    case EndGame => EndTable(c, from);
    case _ => SettingsTable(c, cmd, from, env);
  }

  // ---- over runs ----

  lemma SeatsKeptOn(a: seq<Player>, b: seq<Player>, c: seq<Player>)
    requires SeatsKept(a, b) && SeatsKept(b, c)
    ensures SeatsKept(a, c)
  {
  }

  lemma {:induction false} RunTable(c: Core, inputs: seq<Input>, env: Env)
    requires Inv(c, env) && FreshRun(c, inputs, env) && TableOk(c.st)
    ensures TableOk(Run(c, inputs, env).st) && SeatsKept(c.st.players, Run(c, inputs, env).st.players)
    decreases |inputs|
  {
    if inputs == [] {
      KeptAll(c.st.players);
    } else {
      hide Inv, TableOk, SeatsKept, Dispatch, FreshIds;
      var c' := Dispatch(c, inputs[0].cmd, inputs[0].from, env).core;
      DispatchKeeps(c, inputs[0].cmd, inputs[0].from, env);
      DispatchTable(c, inputs[0].cmd, inputs[0].from, env);
      RunTable(c', inputs[1..], env);
      SeatsKeptOn(c.st.players, c'.st.players, Run(c', inputs[1..], env).st.players);
    }
  }

  /**
   In every reachable state the first player is host and admin and nobody else is; the first ten colours
   differ; every card has an author who submitted; every stroke has two points or more and its artist's
   colour; and there is a winner exactly at the end, the first player with the most points.
   */
  lemma TheTableIsInOrder(c: Core, env: Env)
    requires Reachable(c, env)
    ensures TableOk(c.st)
  {
    hide Inv, TableOk, Run, FreshRun;
    var roomId: string, config: Config, inputs: seq<Input> :|
      && config.strokesPerArtist >= 1
      && FreshRun(Fresh(roomId, config, false), inputs, env)
      && c == Run(Fresh(roomId, config, false), inputs, env);
    EmptyTable(roomId, config, env);
    RunTable(Fresh(roomId, config, false), inputs, env);
  }

  lemma EmptyTable(roomId: string, config: Config, env: Env)
    requires config.strokesPerArtist >= 1
    ensures Inv(Fresh(roomId, config, false), env) && TableOk(Fresh(roomId, config, false).st)
  {
  }

  /** From any reachable state on, nobody loses a seat, id or colour, or takes back a submission. */
  lemma SeatsAreForGood(c: Core, inputs: seq<Input>, env: Env)
    requires Reachable(c, env) && FreshRun(c, inputs, env)
    ensures SeatsKept(c.st.players, Run(c, inputs, env).st.players)
  {
    ReachableOk(c, env);
    TheTableIsInOrder(c, env);
    RunTable(c, inputs, env);
  }

  // ---- who may do what ----

  /** Nobody without a seat changes anything but by joining; in an empty room the empty id counts as the host. */
  lemma OutsidersChangeNothing(c: Core, cmd: Command, from: string, env: Env)
    requires Reachable(c, env) && !cmd.JoinGame? && from !in Ids(c.st.players) && (c.st.players != [] || from != "")
    ensures Dispatch(c, cmd, from, env).core == c
  {
    ReachableOk(c, env);
    TheTableIsInOrder(c, env);
    HostHasASeat(c.st);
    hide Reachable;
    OutsideTheRound(c, cmd, from, env);
  }

  /** In a room where nobody sits, a command from the empty id is the host's: here it ends the game. */
  lemma TheEmptyIdHostsAnEmptyRoom(roomId: string, config: Config)
    ensures HandleEndGame(Fresh(roomId, config, false), "").core.st.status == GAME_OVER
  {
  }

  lemma HostHasASeat(st: GameState)
    requires HostSits(st)
    ensures if st.players == [] then st.hostId == "" else st.hostId in Ids(st.players)
  {
    if st.players != [] {
      assert Ids(st.players)[0] == st.hostId;
    }
  }

  lemma OutsideTheRound(c: Core, cmd: Command, from: string, env: Env)
    requires Inv(c, env) && !cmd.JoinGame? && from !in Ids(c.st.players) && from != c.st.hostId
    ensures Dispatch(c, cmd, from, env).core == c
  {
    hide NoDup, ArchiveOk, LedgerOk, Available, CardsDistinct;
    if c.st.status in {DRAWING, VOTING, FAKE_GUESS} {
      PermutationMembers(c.st.currentRound.value.turnOrder, Ids(c.st.players));
    }
  }

  ghost predicate Rejoined(p: Player, p': Player, id: string, name: string) {
    p' == if p.id != id then p else p.(connected := true, name := if name == "" then p.name else name)
  }

  /**
   A join. Who is known by the id given, or else by the id it comes from, is connected again, and renamed
   if it gives a name; nothing else changes. Who is not gets the last seat before the first round, under
   that id or a new one, and no entry afterwards.
   */
  lemma JoinSeatsExactly(c: Core, asked: string, name: string, from: string, env: Env)
    requires Reachable(c, env)
    ensures var wanted := if asked != "" then asked else from;
            var st, st', n := c.st, HandleJoin(c, asked, name, from, env).core.st, |c.st.players|;
            if wanted != "" && wanted in Ids(st.players) then
              && st' == st.(players := st'.players) && |st'.players| == n
              && forall i :: 0 <= i < n ==> Rejoined(st.players[i], st'.players[i], wanted, name)
            else if st.status in {LOBBY, WRITING} then
              && |st'.players| == n + 1 && st'.players[..n] == st.players
              && var p := st'.players[n];
                 && p == Player(p.id, name, p.color, n == 0, true, false, 0)
                 && p.id == (if wanted != "" then wanted else env.playerId(c.pos))
                 && st' == st.(players := st'.players, hostId := if n == 0 then p.id else st.hostId)
            else st' == st
  {
    ReachableOk(c, env);
    hide Reachable, PickColor, ResendRole, Sanitizer.Sanitize, ArchiveOk, LedgerOk, PhaseOk, Available;
    var wanted := if asked != "" then asked else from;
    if wanted != "" && wanted in Ids(c.st.players) {
      var k := FindPlayer(c.st.players, wanted).value;
      forall i | 0 <= i < |c.st.players| && c.st.players[i].id == wanted ensures i == k {
        assert Ids(c.st.players)[i] == Ids(c.st.players)[k];
      }
    }
  }

  /**
   A stroke is taken exactly from the artist whose turn it is, while drawing, with two points or more;
   it then ends the round's strokes as it came, under the artist's id, and is broadcast with their number.
   */
  lemma StrokeTakenExactly(c: Core, points: seq<Point>, from: string, env: Env)
    requires Reachable(c, env)
    ensures var out := HandleSubmitStroke(c, points, from);
            if c.st.status == DRAWING && c.st.currentRound.Some? && |points| >= 2
               && |c.st.currentRound.value.turnOrder| > 0
               && from == c.st.currentRound.value.turnOrder[|c.st.currentRound.value.strokes| % |c.st.currentRound.value.turnOrder|]
            then
              && var r := c.st.currentRound.value;
              && out.core.st.currentRound.Some?
              && var r' := out.core.st.currentRound.value;
              && |r'.strokes| == |r.strokes| + 1 && r'.strokes[..|r.strokes|] == r.strokes
              && var s := r'.strokes[|r.strokes|];
              && s.playerId == from && s.points == points && r' == r.(strokes := r'.strokes, strokeIndex := |r'.strokes|)
              && out.core.st == c.st.(currentRound := Some(r'), status := out.core.st.status)
              && |out.sent| == 2 && out.sent[0] == Broadcast(StrokeAdded(s, |r'.strokes|))
            else out.core == c && forall e :: e in out.sent ==> e == Direct(from, ErrorEvent(NotYourTurn))
  {
    ReachableOk(c, env);
    hide Reachable, ArchiveOk, LedgerOk, Available, CardsDistinct, NoDup, Sanitizer.Sanitize;
    if c.st.status == DRAWING && from == CurrentTurn(c.st.currentRound.value) {
      PermutationMembers(c.st.currentRound.value.turnOrder, Ids(c.st.players));
    }
  }

  // ---- a colour beyond the palette ----

  function DigitValue(c: char): int {
    if '0' <= c <= '9' then c as int - '0' as int else if 'a' <= c <= 'f' then c as int - 'a' as int + 10 else -1
  }

  function HexValue(s: string): int {
    if s == "" then 0 else HexValue(s[..|s| - 1]) * 16 + DigitValue(s[|s| - 1])
  }

  function Power16(n: nat): nat {
    if n == 0 then 1 else Power16(n - 1) * 16
  }

  lemma DigitIs(n: nat)
    requires n < 16
    ensures DigitValue(HexDigit(n)) == n
  {
  }

  lemma {:induction false} PadHexIs(n: nat, digits: nat)
    requires n < Power16(digits)
    ensures |PadHex(n, digits)| == digits && HexValue(PadHex(n, digits)) == n
    ensures forall c :: c in PadHex(n, digits) ==> 0 <= DigitValue(c) < 16
  {
    if digits > 0 {
      PadHexIs(n / 16, digits - 1);
      DigitIs(n % 16);
    }
  }

  /** With the palette used up the colour is a number sign and six lower-case hexadecimal digits, below ffffff. */
  lemma SpareColourIsHex(players: seq<Player>, env: Env, pos: nat)
    requires forall x :: x in PALETTE ==> exists p :: p in players && p.color == x
    ensures var c := PickColor(players, env, pos);
            && |c| == 7 && c[0] == '#' && (forall i :: 1 <= i < 7 ==> 0 <= DigitValue(c[i]) < 16)
            && HexValue(c[1..]) == Pick(env.rng(pos), 0xffffff) < 0xffffff
  {
    var used := set p | p in players && p.color != "" :: p.color;
    assert "" !in PALETTE;
    UnusedAre(PALETTE, used);
    SomeColour(Unused(PALETTE, used));
    var n := Pick(env.rng(pos), 0xffffff);
    assert Power16(6) == 0x1000000 by { Power16Is(); }
    PadHexIs(n, 6);
    hide Pick, PadHex, HexValue, DigitValue, Power16, Unused;
    assert ("#" + PadHex(n, 6))[1..] == PadHex(n, 6);
  }

  lemma SomeColour(colors: seq<string>)
    ensures colors == [] || exists x :: x in colors
  {
    assert colors == [] || colors[0] in colors;
  }

  lemma Power16Is()
    ensures Power16(6) == 0x1000000
  {
    assert Power16(2) == 256;
    assert Power16(4) == 65536;
  }
}
