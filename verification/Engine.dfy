/** The engine object of frontend/p2p/engine.ts: each method does one handler's updates in place. */
module EngineObject {
  import opened Prelude
  import opened Models
  import opened Sanitizer
  import opened EngineSpec

  ghost function VotersAmong(votes: map<string, string>, done: set<string>, suspect: string): set<string> {
    set v | v in done && v in votes && votes[v] == suspect
  }

  class Engine {
    var state: GameState
    var version: nat
    var privateRoundWord: Option<string>
    var privateRoundCommitment: Option<string>
    var rngCalls: nat
    var hasDrawer: bool
    var awaiting: seq<Ticket>
    // Everything the listeners were handed, oldest first.
    var emitted: seq<Emission>
    const env: Env

    ghost function Now(): Core
      reads this
    {
      Core(state, version, privateRoundWord, privateRoundCommitment, rngCalls, hasDrawer, awaiting)
    }

    ghost predicate Became(before: seq<Emission>, o: Outcomes)
      reads this
    {
      Now() == o.core && emitted == before + o.sent
    }

    constructor (roomId: string, config: Config, env: Env, hasDrawer: bool)
      ensures Now() == Fresh(roomId, config, hasDrawer) && emitted == [] && this.env == env
    {
      state := NewGameState(roomId, config);
      version := 0;
      privateRoundWord, privateRoundCommitment := None, None;
      rngCalls, awaiting, emitted := 0, [], [];
      this.hasDrawer := hasDrawer;
      this.env := env;
    }

    method Dispatch(cmd: Command, from: string)
      modifies this
      ensures Became(old(emitted), EngineSpec.Dispatch(old(Now()), cmd, from, env))
    {
      match cmd
      case JoinGame(id, name) => HandleJoin(id, name, from);
      case ConfigureGame(patch) => HandleConfigure(patch, from);
      case SubmitWords(words) => HandleSubmitWords(words, from);
      case StartGame => HandleStartGame(from);
      case StartRound => HandleStartRound(from);
      case SubmitStroke(points) => HandleSubmitStroke(points, from);
      case CastVote(suspect) => HandleCastVote(suspect, from);
      case SubmitFakeGuess(guess) => HandleFakeGuess(guess, from);
      case NextRound => HandleNextRound(from);
      case EndGame => HandleEndGame(from);
    }

    // ---- emission ----

    method Emit(e: Emission)
      modifies this`emitted
      ensures emitted == old(emitted) + [e]
    {
      emitted := emitted + [e];
    }

    method BroadcastState()
      modifies this`version, this`emitted
      ensures version == old(version) + 1
      ensures emitted == old(emitted) + [Broadcast(StateUpdate(Sanitize(state)))]
    {
      version := version + 1;
      Emit(Broadcast(StateUpdate(Sanitize(state))));
    }

    // ---- handlers ----

    method HandleJoin(askedId: string, name: string, from: string)
      modifies this
      ensures Became(old(emitted), EngineSpec.HandleJoin(old(Now()), askedId, name, from, env))
    {
      var id := if askedId != "" then askedId else from;
      var known := if id == "" then None else FindPlayer(state.players, id);
      if known.Some? {
        Reconnect(known.value, name);
      } else if state.status != LOBBY && state.status != WRITING {
        Emit(Direct(from, ErrorEvent(GameInProgress)));
        return;
      } else {
        id := AddPlayer(id, name);
      }
      SendWelcome(id);
    }

    method Reconnect(k: nat, name: string)
      requires k < |state.players|
      modifies this`state
      ensures Now() == Rejoin(old(Now()), k, name)
    {
      var p := state.players[k];
      p := p.(connected := true);
      if name != "" {
        p := p.(name := name);
      }
      state := state.(players := state.players[k := p]);
    }

    method AddPlayer(wanted: string, name: string) returns (id: string)
      modifies this`state, this`rngCalls
      ensures id == NewPlayerId(wanted, env, old(rngCalls))
      ensures Now() == Enter(old(Now()), wanted, name, env)
    {
      id := wanted;
      if id == "" {
        id := env.playerId(rngCalls);
        rngCalls := rngCalls + 4;
      }
      var p := Player(id, name, PickColor(state.players, env, rngCalls), false, true, false, 0);
      rngCalls := rngCalls + 1;
      if |state.players| == 0 {
        p := p.(isAdmin := true);
        state := state.(hostId := id);
      }
      state := state.(players := state.players + [p]);
    }

    method SendWelcome(id: string)
      modifies this`version, this`emitted
      ensures Became(old(emitted), Welcome(old(Now()), id))
    {
      Emit(Direct(id, PlayerWelcome(id)));
      BroadcastState();
      SendRoleAgain(id);
    }

    method SendRoleAgain(id: string)
      modifies this`emitted
      ensures emitted == old(emitted) + ResendRole(Now(), id)
    {
      if state.currentRound.None? || state.status !in {ROUND_ANNOUNCE, DRAWING, VOTING, FAKE_GUESS} {
        return;
      }
      var r := state.currentRound.value;
      if id in r.turnOrder {
        var isFake := r.fakeId == Some(id);
        Emit(Direct(id, YourRole(isFake, if !isFake && OrEmpty(privateRoundWord) != "" then privateRoundWord else None)));
      }
    }

    method HandleConfigure(patch: ConfigPatch, from: string)
      modifies this
      ensures Became(old(emitted), EngineSpec.HandleConfigure(old(Now()), patch, from))
    {
      if from != state.hostId || state.status != LOBBY {
        return;
      }
      var cfg := state.config;
      if patch.wordsPerPlayer.Some? && patch.wordsPerPlayer.value > 0 {
        cfg := cfg.(wordsPerPlayer := patch.wordsPerPlayer.value);
      }
      if patch.targetScore.Some? && patch.targetScore.value > 0 {
        cfg := cfg.(targetScore := patch.targetScore.value);
      }
      if patch.strokesPerArtist.Some? && patch.strokesPerArtist.value > 0 {
        cfg := cfg.(strokesPerArtist := patch.strokesPerArtist.value);
      }
      if patch.minPlayers.Some? && patch.minPlayers.value > 0 {
        cfg := cfg.(minPlayers := patch.minPlayers.value);
      }
      if patch.turnDuration.Some? && patch.turnDuration.value >= 0 {
        cfg := cfg.(turnDuration := patch.turnDuration.value);
      }
      state := state.(config := cfg);
      BroadcastState();
    }

    method HandleSubmitWords(words: seq<string>, from: string)
      modifies this
      ensures Became(old(emitted), EngineSpec.HandleSubmitWords(old(Now()), words, from, env))
    {
      if state.status != WRITING {
        return;
      }
      var k := FindPlayer(state.players, from);
      if k.None? || state.players[k.value].hasSubmitted {
        return;
      }
      var p := state.players[k.value];
      AddCards(words, p.id);
      state := state.(players := state.players[k.value := p.(hasSubmitted := true)]);
      BroadcastState();
    }

    method AddCards(words: seq<string>, author: string)
      modifies this`state, this`rngCalls
      ensures var (cards, pos) := MintCards(words, author, env, old(rngCalls));
              state == old(state).(pool := old(state).pool + cards) && rngCalls == pos
    {
      var i := 0;
      while i < |words|
        invariant 0 <= i <= |words|
        invariant var (cards, pos) := MintCards(words[..i], author, env, old(rngCalls));
          state == old(state).(pool := old(state).pool + cards) && rngCalls == pos
      {
        assert words[..i + 1][..i] == words[..i];
        var w := env.trim(words[i]);
        if w != "" {
          var card := WordCard(env.cardId(rngCalls), Some(w), author, false);
          state := state.(pool := state.pool + [card]);
          rngCalls := rngCalls + 4;
        }
        i := i + 1;
      }
      assert words[..i] == words;
    }

    method HandleStartGame(from: string)
      modifies this
      ensures Became(old(emitted), EngineSpec.HandleStartGame(old(Now()), from))
    {
      if from != state.hostId || state.status != LOBBY {
        return;
      }
      if |state.players| < state.config.minPlayers {
        Emit(Direct(from, ErrorEvent(NeedPlayers(state.config.minPlayers))));
        return;
      }
      state := state.(status := WRITING);
      BroadcastState();
    }

    method HandleStartRound(from: string)
      modifies this
      ensures Became(old(emitted), EngineSpec.HandleStartRound(old(Now()), from, env))
    {
      hide EngineSpec.PrepareRound, Sanitizer.Sanitize;
      if from != state.hostId {
        return;
      }
      if state.status == WRITING {
        if !AllSubmitted(state.players) {
          Emit(Direct(from, ErrorEvent(WaitingForWords)));
          return;
        }
        if hasDrawer {
          PrepareRoundServer(from);
          return;
        }
        var ok := PrepareRound();
        if !ok {
          Emit(Direct(from, ErrorEvent(CannotStart)));
          return;
        }
        BroadcastState();
        return;
      }
      if state.status == ROUND_ANNOUNCE {
        state := state.(status := DRAWING);
        BroadcastState();
      }
    }

    method HandleSubmitStroke(points: seq<Point>, from: string)
      modifies this
      ensures Became(old(emitted), EngineSpec.HandleSubmitStroke(old(Now()), points, from))
    {
      if state.status != DRAWING || state.currentRound.None? {
        return;
      }
      var r := state.currentRound.value;
      if from != CurrentTurn(r) {
        Emit(Direct(from, ErrorEvent(NotYourTurn)));
        return;
      }
      if |points| < 2 {
        return;
      }
      var k := FindPlayer(state.players, from);
      if k.None? {
        return;
      }
      var stroke := Stroke(state.players[k.value].id, state.players[k.value].color, points);
      r := r.(strokes := r.strokes + [stroke]);
      r := r.(strokeIndex := r.strokeIndex + 1);
      state := state.(currentRound := Some(r));
      Emit(Broadcast(StrokeAdded(stroke, r.strokeIndex)));
      if r.strokeIndex >= state.config.strokesPerArtist * |r.turnOrder| {
        state := state.(status := VOTING);
      }
      BroadcastState();
    }

    method HandleCastVote(suspect: string, from: string)
      modifies this
      ensures Became(old(emitted), EngineSpec.HandleCastVote(old(Now()), suspect, from))
    {
      if state.status != VOTING || state.currentRound.None? {
        return;
      }
      var r := state.currentRound.value;
      if from !in r.turnOrder || suspect !in r.turnOrder {
        return;
      }
      var votes := Votes(r);
      votes := votes[from := suspect];
      r := r.(votes := Some(votes), votesCast := |votes|);
      state := state.(currentRound := Some(r));
      if r.votesCast >= |r.turnOrder| {
        var caught := TallyVotes(votes, r.fakeId);
        if caught {
          state := state.(status := FAKE_GUESS);
        } else {
          FinalizeRound(false, false);
        }
      }
      BroadcastState();
    }

    method HandleFakeGuess(guess: string, from: string)
      modifies this
      ensures Became(old(emitted), EngineSpec.HandleFakeGuess(old(Now()), guess, from, env))
    {
      if state.status != FAKE_GUESS || state.currentRound.None? || state.currentRound.value.fakeId != Some(from) {
        return;
      }
      var g := env.lower(env.trim(guess));
      var actual := env.lower(env.trim(OrEmpty(privateRoundWord)));
      state := state.(currentRound := Some(state.currentRound.value.(fakeGuess := Some(guess))));
      FinalizeRound(true, g != "" && g == actual);
      BroadcastState();
    }

    method HandleNextRound(from: string)
      modifies this
      ensures Became(old(emitted), EngineSpec.HandleNextRound(old(Now()), from, env))
    {
      if from != state.hostId || state.status != ROUND_SUMMARY {
        return;
      }
      ArchiveCurrentRound();
      var over := CheckGameOver();
      if over {
        BroadcastState();
        return;
      }
      if hasDrawer {
        PrepareRoundServer(from);
        return;
      }
      var _ := PrepareRound();
      BroadcastState();
    }

    method HandleEndGame(from: string)
      modifies this
      ensures Became(old(emitted), EngineSpec.HandleEndGame(old(Now()), from))
    {
      if from != state.hostId {
        return;
      }
      if state.status == ROUND_SUMMARY {
        ArchiveCurrentRound();
      }
      FinishGame();
      BroadcastState();
    }

    method ArchiveCurrentRound()
      modifies this`state
      ensures state == Archive(old(state))
    {
      if state.currentRound.None? {
        return;
      }
      var r := state.currentRound.value;
      if exists p :: p in state.pastRounds && p.index == r.index {
        return;
      }
      state := state.(pastRounds := state.pastRounds + [r]);
    }

    // ---- round lifecycle ----

    method PrepareRoundServer(from: string)
      modifies this`awaiting
      ensures Now() == BeginDraw(old(Now()), from)
    {
      if !hasDrawer || |state.players| < state.config.minPlayers {
        return;
      }
      awaiting := awaiting + [Ticket(from, Ids(state.players), Available(state.pool), NextIndex(state))];
    }

    /** The part of prepareRoundServer after a successful await. */
    method DrawAnswered(i: nat, res: DrawResponse)
      requires i < |awaiting|
      modifies this
      ensures Became(old(emitted), CompleteDraw(old(Now()), i, res, env))
    {
      hide MarkUsed, Sanitizer.Sanitize, Lookup, TurnOrder, ShuffleCalls;
      var t := awaiting[i];
      awaiting := Without(awaiting, i);
      state := state.(pool := MarkUsed(state.pool, res.cardId));
      var order := Shuffle(t.players);
      var fake, word := "", "";
      var entries := Entries(res);
      var n := 0;
      while n < |entries|
        invariant 0 <= n <= |entries|
        invariant fake == AssignedFake(entries[..n]) && word == AssignedWord(entries[..n])
      {
        assert entries[..n + 1][..n] == entries[..n];
        var a := entries[n].1;
        if a.isFake {
          fake := entries[n].0;
        } else if OrEmpty(a.word) != "" {
          word := a.word.value;
        }
        n := n + 1;
      }
      assert entries[..n] == entries;
      hide AssignedFake, AssignedWord;
      var own := Lookup(entries, t.host);
      if own.Some? {
        Emit(Direct(t.host, YourRole(own.value.isFake, own.value.word)));
      }
      privateRoundWord, privateRoundCommitment := Some(word), Some(res.commitment);
      state := state.(currentRound := Some(NewRound(t.roundIndex, res.cardId, Some(fake), order)), status := ROUND_ANNOUNCE);
      BroadcastState();
    }

    /** The catch branch of prepareRoundServer. */
    method DrawFailed(i: nat, reason: string)
      requires i < |awaiting|
      modifies this
      ensures Became(old(emitted), FailDraw(old(Now()), i, reason))
    {
      var host := awaiting[i].host;
      awaiting := Without(awaiting, i);
      Emit(Direct(host, ErrorEvent(Models.DrawFailed(reason))));
    }

    method PrepareRound() returns (ok: bool)
      modifies this
      ensures var (done, out) := EngineSpec.PrepareRound(old(Now()), env); ok == done && Became(old(emitted), out)
    {
      hide Deal, GameOver, Pick, RoleMessages, Available;
      if |state.players| < state.config.minPlayers {
        return false;
      }
      var available := Available(state.pool);
      if |available| == 0 {
        FinishGame();
        return false;
      }
      var card := available[Pick(env.rng(rngCalls), |available|)];
      rngCalls := rngCalls + 1;
      assert Now() == old(Now()).(pos := rngCalls);
      DealRound(card);
      SendRoles(state.currentRound.value.turnOrder, state.currentRound.value.fakeId, OrEmpty(card.word));
      return true;
    }

    method DealRound(card: WordCard)
      modifies this
      ensures Now() == Deal(old(Now()), card, env) && emitted == old(emitted)
    {
      state := state.(pool := MarkUsed(state.pool, card.id));
      var order := Shuffle(Ids(state.players));
      var fake := if order == [] then None else Some(order[Pick(env.rng(rngCalls), |order|)]);
      rngCalls := rngCalls + 1;
      state := state.(currentRound := Some(NewRound(NextIndex(state), card.id, fake, order)), status := ROUND_ANNOUNCE);
      privateRoundWord := Some(OrEmpty(card.word));
    }

    method SendRoles(order: seq<string>, fake: Option<string>, word: string)
      modifies this`emitted
      ensures emitted == old(emitted) + RoleMessages(order, fake, word)
    {
      ghost var all := RoleMessages(order, fake, word);
      var i := 0;
      while i < |order|
        invariant 0 <= i <= |order|
        invariant emitted == old(emitted) + all[..i]
      {
        var isFake := Some(order[i]) == fake;
        assert all[..i + 1] == all[..i] + [all[i]];
        Emit(Direct(order[i], YourRole(isFake, if isFake then None else Some(word))));
        i := i + 1;
      }
    }

    method Shuffle(ids: seq<string>) returns (order: seq<string>)
      modifies this`rngCalls
      ensures order == TurnOrder(ids, env, old(rngCalls))
      ensures rngCalls == old(rngCalls) + ShuffleCalls(|ids|)
    {
      var a := new string[|ids|](i requires 0 <= i < |ids| => ids[i]);
      assert a[..] == ids;
      FisherYates(a, env, rngCalls);
      rngCalls := rngCalls + ShuffleCalls(|ids|);
      order := a[..];
    }

    /** The shuffle loop, in place: one random number for each position but the first. */
    static method FisherYates(a: array<string>, env: Env, pos: nat)
      modifies a
      ensures a[..] == TurnOrder(old(a[..]), env, pos)
    {
      var i, n := a.Length - 1, pos;
      while i > 0
        invariant a.Length > 0 ==> 0 <= i < a.Length && Shuffled(a[..], i, env, n) == old(TurnOrder(a[..], env, pos))
        invariant n >= 0
        invariant a.Length == 0 ==> i == -1
      {
        var j := Pick(env.rng(n), i + 1);
        ghost var was := a[..];
        a[i], a[j] := a[j], a[i];
        assert a[..] == Swap(was, i, j);
        n := n + 1;
        i := i - 1;
      }
    }

    /**
     The tally. Both loops visit their entries in whatever order the host language enumerates
     them, so the contract holds for every order.
     */
    method TallyVotes(votes: map<string, string>, fake: Option<string>) returns (caught: bool)
      ensures votes != map[] ==> (caught <==> fake.Some? && Plurality(votes, fake.value))
      ensures votes == map[] ==> (caught <==> fake == Some(""))
    {
      var counts := CountVotes(votes);
      var todo := counts.Keys;
      var max, winner, tied := 0, "", false;
      while todo != {}
        invariant todo <= counts.Keys
        invariant todo == counts.Keys ==> max == 0 && !tied && winner == ""
        invariant todo != counts.Keys ==>
            && winner in counts.Keys - todo && counts[winner] == max
            && (forall s :: s in counts.Keys - todo ==> counts[s] <= max)
            && (tied <==> exists s :: s in counts.Keys - todo && s != winner && counts[s] == max)
        decreases todo
      {
        var id :| id in todo;
        todo := todo - {id};
        if counts[id] > max {
          max, winner, tied := counts[id], id, false;
        } else if counts[id] == max {
          tied := true;
        }
      }
      caught := !tied && fake == Some(winner);
      if votes != map[] {
        var v :| v in votes;
        assert votes[v] in counts;
      } else {
        assert votes.Values == {};
      }
    }

    method CountVotes(votes: map<string, string>) returns (counts: map<string, nat>)
      ensures counts.Keys == votes.Values
      ensures forall s :: s in counts ==> counts[s] == |VotersFor(votes, s)| > 0
    {
      counts := map[];
      var todo := votes.Keys;
      while todo != {}
        invariant todo <= votes.Keys
        invariant forall s :: s in counts <==> exists v :: v in votes.Keys - todo && votes[v] == s
        invariant forall s :: s in counts ==> counts[s] == |VotersAmong(votes, votes.Keys - todo, s)| > 0
        decreases todo
      {
        var v :| v in todo;
        var s := votes[v];
        ghost var done, done' := votes.Keys - todo, votes.Keys - (todo - {v});
        assert done' == done + {v};
        assert VotersAmong(votes, done', s) == VotersAmong(votes, done, s) + {v};
        assert forall t :: t != s ==> VotersAmong(votes, done', t) == VotersAmong(votes, done, t);
        assert s !in counts ==> VotersAmong(votes, done, s) == {};
        counts := counts[s := if s in counts then counts[s] + 1 else 1];
        todo := todo - {v};
      }
      forall s | s in counts ensures VotersAmong(votes, votes.Keys - todo, s) == VotersFor(votes, s) {}
    }

    method FinalizeRound(caught: bool, guessedRight: bool)
      requires state.currentRound.Some?
      modifies this`state
      ensures Now() == Finalize(old(Now()), caught, guessedRight)
    {
      var r := state.currentRound.value;
      r := r.(revealedWord := Some(OrEmpty(privateRoundWord)));
      var players := state.players;
      if caught && guessedRight {
        r := r.(outcome := FakeWon);
        players := AwardFake(players, r.fakeId, 2);
      } else if caught {
        r := r.(outcome := ArtistsWon);
        var i := 0;
        while i < |r.turnOrder|
          invariant 0 <= i <= |r.turnOrder|
          invariant AwardArtists(players, r.turnOrder[i..], r.fakeId) == AwardArtists(state.players, r.turnOrder, r.fakeId)
        {
          assert r.turnOrder[i..][0] == r.turnOrder[i] && r.turnOrder[i..][1..] == r.turnOrder[i + 1..];
          if Some(r.turnOrder[i]) != r.fakeId {
            players := AddScore(players, r.turnOrder[i], 1);
          }
          i := i + 1;
        }
      } else {
        r := r.(outcome := FakeWon);
        players := AwardFake(players, r.fakeId, 1);
      }
      state := state.(players := players, currentRound := Some(r), status := ROUND_SUMMARY);
    }

    method CheckGameOver() returns (over: bool)
      modifies this`state
      ensures over == IsOver(old(state))
      ensures state == if over then GameOver(old(state)) else old(state)
    {
      var i := 0;
      while i < |state.players|
        invariant 0 <= i <= |state.players|
        invariant forall k :: 0 <= k < i ==> state.players[k].score < state.config.targetScore
        invariant state == old(state)
      {
        if state.players[i].score >= state.config.targetScore {
          state := state.(status := GAME_OVER);
          AssignWinner();
          return true;
        }
        i := i + 1;
      }
      if forall card :: card in state.pool ==> card.used {
        FinishGame();
        return true;
      }
      return false;
    }

    method FinishGame()
      modifies this`state
      ensures Now() == old(Now()).(st := GameOver(old(state)))
    {
      state := state.(status := GAME_OVER);
      AssignWinner();
    }

    method AssignWinner()
      modifies this`state
      ensures state == old(state).(winner := WinnerOf(old(state).players))
    {
      var best: Option<nat> := None;
      var i := 0;
      while i < |state.players|
        invariant 0 <= i <= |state.players|
        invariant best == Leader(state.players[..i])
      {
        assert state.players[..i + 1][..i] == state.players[..i];
        if best.None? || state.players[i].score > state.players[best.value].score {
          best := Some(i);
        }
        i := i + 1;
      }
      assert state.players[..i] == state.players;
      state := state.(winner := if best.None? then None else Some(state.players[best.value].id));
    }
  }
}
