/**
 What a listener of the broadcasts can tell apart. Two games that differ only in the words of the
 pool and in the secrets of the open round broadcast the same events, command after command,
 until a command that is meant to disclose.
 */
module Secrecy {
  import opened Prelude
  import opened Models
  import opened Sanitizer
  import opened EngineSpec
  import EngineInvariant

  function Broadcasts(sent: seq<Emission>): seq<ServerEvent> {
    if sent == [] then []
    else Broadcasts(sent[..|sent| - 1]) + if sent[|sent| - 1].Broadcast? then [sent[|sent| - 1].evt] else []
  }

  ghost predicate PoolsAlike(p: seq<WordCard>, q: seq<WordCard>) {
    |p| == |q| && forall i :: 0 <= i < |p| ==> p[i].(word := None) == q[i].(word := None)
  }

  /** Equal but for the card, the fake and whom each voter suspects; equal outright once revealed. */
  ghost predicate RoundsAlike(p: Round, q: Round, revealed: bool) {
    && p.(cardId := None, fakeId := None, votes := None) == q.(cardId := None, fakeId := None, votes := None)
    && Votes(p).Keys == Votes(q).Keys
    && (revealed ==> p == q)
  }

  /** Draws begun alike: only the words of the cards offered differ. */
  ghost predicate TicketsAlike(p: seq<Ticket>, q: seq<Ticket>) {
    && |p| == |q|
    && forall i :: 0 <= i < |p| ==> p[i].(pool := []) == q[i].(pool := []) && PoolsAlike(p[i].pool, q[i].pool)
  }

  ghost predicate Alike(a: Core, b: Core) {
    && TicketsAlike(a.awaiting, b.awaiting)
    && a.version == b.version && a.pos == b.pos && a.drawer == b.drawer
    && a.st.(pool := [], currentRound := None) == b.st.(pool := [], currentRound := None)
    && PoolsAlike(a.st.pool, b.st.pool)
    && a.st.currentRound.Some? == b.st.currentRound.Some?
    && (a.st.currentRound.Some? ==> RoundsAlike(a.st.currentRound.value, b.st.currentRound.value, Reveals(a.st.status)))
  }

  /** The commands that are meant to publish a secret of the open round. */
  ghost predicate Discloses(c: Core, cmd: Command, from: string) {
    && c.st.currentRound.Some?
    && var r := c.st.currentRound.value;
    match cmd
    case CastVote(suspect) =>
      && c.st.status == VOTING && from in r.turnOrder && suspect in r.turnOrder
      && |Votes(r)[from := suspect]| >= |r.turnOrder|
    case SubmitFakeGuess(_) => c.st.status == FAKE_GUESS && r.fakeId == Some(from)
    case EndGame => from == c.st.hostId && !Reveals(c.st.status)
    case _ => false
  }

  /** The position of the random source at which a round opened from here picks its fake. */
  function FakePick(c: Core): nat {
    c.pos + 1 + ShuffleCalls(|c.st.players|)
  }

  /** Two environments that agree, except perhaps on who is picked as the fake. */
  ghost predicate SameButTheFake(c: Core, cmd: Command, e: Env, f: Env) {
    && f == e.(rng := f.rng)
    && (forall n: nat :: (n == FakePick(c) && (cmd.StartRound? || cmd.NextRound?)) || e.rng(n) == f.rng(n))
    && (!cmd.StartRound? && !cmd.NextRound? ==> e == f)
  }

  lemma BroadcastsOfOneMore(sent: seq<Emission>, e: Emission)
    ensures Broadcasts(sent + [e]) == Broadcasts(sent) + if e.Broadcast? then [e.evt] else []
  {
    assert (sent + [e])[..|sent|] == sent;
  }

  lemma {:induction false} DirectsAreSilent(sent: seq<Emission>)
    requires forall e :: e in sent ==> e.Direct?
    ensures Broadcasts(sent) == []
  {
    if sent != [] {
      assert sent[|sent| - 1] in sent;
      DirectsAreSilent(sent[..|sent| - 1]);
    }
  }

  lemma AlikeLooksTheSame(a: Core, b: Core)
    requires Alike(a, b)
    ensures Sanitize(a.st) == Sanitize(b.st)
  {
    SanitizeHidesExactlyTheSecrets(a.st, b.st);
  }

  /** Announcing alike states after alike messages broadcasts the same. */
  lemma AnnounceAlike(a: Core, b: Core, sa: seq<Emission>, sb: seq<Emission>)
    requires Alike(a, b) && Broadcasts(sa) == Broadcasts(sb)
    ensures Broadcasts(Announce(a, sa).sent) == Broadcasts(Announce(b, sb).sent)
    ensures Alike(Announce(a, sa).core, Announce(b, sb).core)
  {
    AlikeLooksTheSame(a, b);
    BroadcastsOfOneMore(sa, Broadcast(StateUpdate(Sanitize(a.st))));
    BroadcastsOfOneMore(sb, Broadcast(StateUpdate(Sanitize(b.st))));
  }

  // ---- cards ----

  lemma {:induction false} AvailableAlike(p: seq<WordCard>, q: seq<WordCard>)
    requires PoolsAlike(p, q)
    ensures PoolsAlike(Available(p), Available(q))
  {
    if p != [] {
      assert p[0].(word := None) == q[0].(word := None);
      AvailableAlike(p[1..], q[1..]);
    }
  }

  lemma {:induction false} FindCardAlike(p: seq<WordCard>, q: seq<WordCard>, id: string)
    requires PoolsAlike(p, q)
    ensures FindCard(p, id) == FindCard(q, id)
  {
    if p != [] {
      assert p[0].(word := None) == q[0].(word := None);
      FindCardAlike(p[1..], q[1..], id);
    }
  }

  lemma MarkUsedAlike(p: seq<WordCard>, q: seq<WordCard>, id: string)
    requires PoolsAlike(p, q)
    ensures PoolsAlike(MarkUsed(p, id), MarkUsed(q, id))
  {
    FindCardAlike(p, q, id);
    var k := FindCard(p, id);
    if k.Some? {
      assert p[k.value].(word := None) == q[k.value].(word := None);
    }
  }

  lemma {:induction false} ShuffleReadsItsNumbersOnly(s: seq<string>, i: nat, e: Env, f: Env, pos: nat)
    requires i < |s|
    requires forall n: nat :: pos <= n < pos + i ==> e.rng(n) == f.rng(n)
    ensures Shuffled(s, i, e, pos) == Shuffled(s, i, f, pos)
    decreases i
  {
    if i > 0 {
      assert e.rng(pos) == f.rng(pos);
      ShuffleReadsItsNumbersOnly(Swap(s, i, Pick(e.rng(pos), i + 1)), i - 1, e, f, pos + 1);
    }
  }

  /** Rounds opened in alike states look alike, whoever is picked as the fake. */
  lemma PrepareRoundAlike(a: Core, b: Core, e: Env, f: Env)
    requires Alike(a, b) && (a.st.currentRound.Some? ==> a.st.currentRound == b.st.currentRound)
    requires forall n: nat :: n == FakePick(a) || e.rng(n) == f.rng(n)
    ensures var x, y := PrepareRound(a, e).1, PrepareRound(b, f).1;
            && PrepareRound(a, e).0 == PrepareRound(b, f).0 && Alike(x.core, y.core)
            && Broadcasts(x.sent) == [] == Broadcasts(y.sent)
  {
    hide Available, Deal, Alike, PoolsAlike, FakePick;
    PrepareRoundSilent(a, e);
    PrepareRoundSilent(b, f);
    AlikeHosts(a, b);
    var p, q := Available(a.st.pool), Available(b.st.pool);
    if |a.st.players| >= a.st.config.minPlayers && p != [] {
      FirstNumberShared(a, e, f);
      var k := Pick(e.rng(a.pos), |p|);
      EngineInvariant.DealtCore(a, e);
      EngineInvariant.DealtCore(b, f);
      MovedOnAlike(a, b);
      DealtAfterOne(a, e, f);
      DealAlike(a.(pos := a.pos + 1), b.(pos := b.pos + 1), p[k], q[k], e, f);
    } else {
      EndedAlike(a, b);
    }
  }

  lemma AlikeHosts(a: Core, b: Core)
    requires Alike(a, b)
    ensures a.pos == b.pos && a.st.players == b.st.players && a.st.config == b.st.config
    ensures var p, q := Available(a.st.pool), Available(b.st.pool);
            |p| == |q| && forall i :: 0 <= i < |p| ==> p[i].id == q[i].id
  {
    AvailableAlike(a.st.pool, b.st.pool);
    var p, q := Available(a.st.pool), Available(b.st.pool);
    assert forall i :: 0 <= i < |p| ==> p[i].(word := None) == q[i].(word := None);
  }

  lemma FirstNumberShared(a: Core, e: Env, f: Env)
    requires forall n: nat :: n == FakePick(a) || e.rng(n) == f.rng(n)
    ensures e.rng(a.pos) == f.rng(a.pos)
  {
  }

  lemma DealtAfterOne(a: Core, e: Env, f: Env)
    requires forall n: nat :: n == FakePick(a) || e.rng(n) == f.rng(n)
    ensures forall n: nat :: n == a.pos + 1 + ShuffleCalls(|a.st.players|) || e.rng(n) == f.rng(n)
  {
  }

  lemma MovedOnAlike(a: Core, b: Core)
    requires Alike(a, b)
    ensures Alike(a.(pos := a.pos + 1), b.(pos := b.pos + 1))
  {
  }

  lemma EndedAlike(a: Core, b: Core)
    requires Alike(a, b) && (a.st.currentRound.Some? ==> a.st.currentRound == b.st.currentRound)
    ensures Alike(a.(st := GameOver(a.st)), b.(st := GameOver(b.st)))
  {
  }

  lemma PrepareRoundSilent(c: Core, e: Env)
    ensures Broadcasts(PrepareRound(c, e).1.sent) == []
  {
    DirectsAreSilent(PrepareRound(c, e).1.sent);
  }

  lemma DealAlike(a: Core, b: Core, p: WordCard, q: WordCard, e: Env, f: Env)
    requires Alike(a, b) && (a.st.currentRound.Some? ==> a.st.currentRound == b.st.currentRound)
    requires p.id == q.id
    requires forall n: nat :: n == a.pos + ShuffleCalls(|a.st.players|) || e.rng(n) == f.rng(n)
    ensures Alike(Deal(a, p, e), Deal(b, q, f))
  {
    MarkUsedAlike(a.st.pool, b.st.pool, p.id);
    var ids := Ids(a.st.players);
    if ids != [] {
      ShuffleReadsItsNumbersOnly(ids, |ids| - 1, e, f, a.pos);
    }
    assert TurnOrder(ids, e, a.pos) == TurnOrder(ids, f, a.pos);
    var x, y := Deal(a, p, e).st, Deal(b, q, f).st;
    assert RoundsAlike(x.currentRound.value, y.currentRound.value, false);
  }

  // ---- the commands ----

  lemma JoinAlike(a: Core, b: Core, id: string, name: string, from: string, e: Env)
    requires Alike(a, b)
    ensures var x, y := HandleJoin(a, id, name, from, e), HandleJoin(b, id, name, from, e);
            Broadcasts(x.sent) == Broadcasts(y.sent) && Alike(x.core, y.core)
  {
    hide Alike, Welcome, Enter, Rejoin;
    SamePlayers(a, b);
    var wanted := if id != "" then id else from;
    var known := if wanted == "" then None else FindPlayer(a.st.players, wanted);
    if known.Some? {
      RejoinAlike(a, b, known.value, name);
      WelcomeAlike(Rejoin(a, known.value, name), Rejoin(b, known.value, name), wanted);
    } else if a.st.status == LOBBY || a.st.status == WRITING {
      EnterAlike(a, b, wanted, name, e);
      WelcomeAlike(Enter(a, wanted, name, e), Enter(b, wanted, name, e), NewPlayerId(wanted, e, a.pos));
    } else {
      DirectsAreSilent([Direct(from, ErrorEvent(GameInProgress))]);
    }
  }

  lemma SamePlayers(a: Core, b: Core)
    requires Alike(a, b)
    ensures a.st.players == b.st.players && a.st.status == b.st.status && a.pos == b.pos
  {
  }

  lemma RejoinAlike(a: Core, b: Core, k: nat, name: string)
    requires Alike(a, b) && k < |a.st.players| && a.st.players == b.st.players
    ensures Alike(Rejoin(a, k, name), Rejoin(b, k, name))
  {
  }

  lemma EnterAlike(a: Core, b: Core, wanted: string, name: string, e: Env)
    requires Alike(a, b)
    ensures Alike(Enter(a, wanted, name, e), Enter(b, wanted, name, e))
  {
    hide PickColor;
  }

  lemma WelcomeAlike(a: Core, b: Core, id: string)
    requires Alike(a, b)
    ensures Broadcasts(Welcome(a, id).sent) == Broadcasts(Welcome(b, id).sent)
    ensures Alike(Welcome(a, id).core, Welcome(b, id).core)
  {
    var hello := [Direct(id, PlayerWelcome(id))];
    AnnounceAlike(a, b, hello, hello);
    SilentTail(Announce(a, hello).sent, ResendRole(Announce(a, hello).core, id));
    SilentTail(Announce(b, hello).sent, ResendRole(Announce(b, hello).core, id));
  }

  lemma SilentTail(sent: seq<Emission>, tail: seq<Emission>)
    requires |tail| <= 1 && forall e :: e in tail ==> e.Direct?
    ensures Broadcasts(sent + tail) == Broadcasts(sent)
  {
    if tail == [] {
      assert sent + tail == sent;
    } else {
      assert tail[0] in tail;
      BroadcastsOfOneMore(sent, tail[0]);
      assert sent + tail == sent + [tail[0]];
    }
  }

  lemma StartRoundAlike(a: Core, b: Core, from: string, e: Env, f: Env)
    requires Alike(a, b) && SameButTheFake(a, StartRound, e, f)
    requires a.st.status == WRITING ==> a.st.currentRound.None?
    ensures var x, y := HandleStartRound(a, from, e), HandleStartRound(b, from, f);
            Broadcasts(x.sent) == Broadcasts(y.sent) && Alike(x.core, y.core)
  {
    if from == a.st.hostId {
      if a.st.status == ROUND_ANNOUNCE {
        AnnounceAlike(a.(st := a.st.(status := DRAWING)), b.(st := b.st.(status := DRAWING)), [], []);
      } else if a.st.status == WRITING && !AllSubmitted(a.st.players) {
        DirectsAreSilent([Direct(from, ErrorEvent(WaitingForWords))]);
      } else if a.st.status == WRITING && a.drawer {
        BeginDrawAlike(a, b, from);
      } else if a.st.status == WRITING {
        PrepareRoundAlike(a, b, e, f);
        var x, y := PrepareRound(a, e).1, PrepareRound(b, f).1;
        AnnounceAlike(x.core, y.core, x.sent, y.sent);
        SilentTail(x.sent, [Direct(from, ErrorEvent(CannotStart))]);
        SilentTail(y.sent, [Direct(from, ErrorEvent(CannotStart))]);
      }
    }
  }

  lemma BeginDrawAlike(a: Core, b: Core, from: string)
    requires Alike(a, b)
    ensures Alike(BeginDraw(a, from), BeginDraw(b, from))
  {
    AlikeFacts(a, b);
    AvailableAlike(a.st.pool, b.st.pool);
    hide Alike, TicketsAlike, PoolsAlike, Available;
    var s := Ticket(from, Ids(a.st.players), Available(a.st.pool), NextIndex(a.st));
    var t := Ticket(from, Ids(b.st.players), Available(b.st.pool), NextIndex(b.st));
    OneMoreTicket(a.awaiting, b.awaiting, s, t);
    MoreAwaiting(a, b, a.awaiting + [s], b.awaiting + [t]);
  }

  lemma AlikeFacts(a: Core, b: Core)
    requires Alike(a, b)
    ensures a.drawer == b.drawer && a.st.players == b.st.players && a.st.config == b.st.config
    ensures PoolsAlike(a.st.pool, b.st.pool) && TicketsAlike(a.awaiting, b.awaiting)
    ensures NextIndex(a.st) == NextIndex(b.st)
  {
    if a.st.currentRound.Some? {
      assert a.st.currentRound.value.index == b.st.currentRound.value.index;
    }
  }

  lemma OneMoreTicket(p: seq<Ticket>, q: seq<Ticket>, s: Ticket, t: Ticket)
    requires TicketsAlike(p, q) && s.(pool := []) == t.(pool := []) && PoolsAlike(s.pool, t.pool)
    ensures TicketsAlike(p + [s], q + [t])
  {
  }

  lemma MoreAwaiting(a: Core, b: Core, p: seq<Ticket>, q: seq<Ticket>)
    requires Alike(a, b) && TicketsAlike(p, q)
    ensures Alike(a.(awaiting := p), b.(awaiting := q))
  {
  }

  lemma NextRoundAlike(a: Core, b: Core, from: string, e: Env, f: Env)
    requires Alike(a, b) && SameButTheFake(a, NextRound, e, f)
    ensures var x, y := HandleNextRound(a, from, e), HandleNextRound(b, from, f);
            Broadcasts(x.sent) == Broadcasts(y.sent) && Alike(x.core, y.core)
  {
    if from == a.st.hostId && a.st.status == ROUND_SUMMARY {
      var a1, b1 := a.(st := Archive(a.st)), b.(st := Archive(b.st));
      ArchiveAlike(a, b);
      if IsOver(a1.st) {
        AnnounceAlike(a1.(st := GameOver(a1.st)), b1.(st := GameOver(b1.st)), [], []);
      } else if a.drawer {
        BeginDrawAlike(a1, b1, from);
      } else {
        PrepareRoundAlike(a1, b1, e, f);
        var x, y := PrepareRound(a1, e).1, PrepareRound(b1, f).1;
        AnnounceAlike(x.core, y.core, x.sent, y.sent);
      }
    }
  }

  lemma ArchiveAlike(a: Core, b: Core)
    requires Alike(a, b) && a.st.status == ROUND_SUMMARY
    ensures var a1, b1 := a.(st := Archive(a.st)), b.(st := Archive(b.st));
            && Alike(a1, b1) && a1.st.currentRound == b1.st.currentRound
            && IsOver(a1.st) == IsOver(b1.st)
            && Alike(a1.(st := GameOver(a1.st)), b1.(st := GameOver(b1.st)))
  {
    UsedUpAlike(a.st.pool, b.st.pool);
  }

  lemma UsedUpAlike(p: seq<WordCard>, q: seq<WordCard>)
    requires PoolsAlike(p, q)
    ensures (forall c :: c in p ==> c.used) <==> (forall c :: c in q ==> c.used)
  {
    forall i | 0 <= i < |p| ensures p[i].used == q[i].used {
      assert p[i].(word := None) == q[i].(word := None);
    }
  }

  lemma SubmitWordsAlike(a: Core, b: Core, words: seq<string>, from: string, e: Env)
    requires Alike(a, b)
    ensures var x, y := HandleSubmitWords(a, words, from, e), HandleSubmitWords(b, words, from, e);
            Broadcasts(x.sent) == Broadcasts(y.sent) && Alike(x.core, y.core)
  {
    var k := FindPlayer(a.st.players, from);
    if a.st.status == WRITING && k.Some? && !a.st.players[k.value].hasSubmitted {
      var x, y := HandleSubmitWords(a, words, from, e).core, HandleSubmitWords(b, words, from, e).core;
      AnnounceAlike(x.(version := a.version), y.(version := b.version), [], []);
    }
  }

  lemma SubmitStrokeAlike(a: Core, b: Core, points: seq<Point>, from: string)
    requires Alike(a, b)
    ensures var x, y := HandleSubmitStroke(a, points, from), HandleSubmitStroke(b, points, from);
            Broadcasts(x.sent) == Broadcasts(y.sent) && Alike(x.core, y.core)
  {
    var x, y := HandleSubmitStroke(a, points, from), HandleSubmitStroke(b, points, from);
    if a.st.status == DRAWING && a.st.currentRound.Some? {
      if from != CurrentTurn(a.st.currentRound.value) {
        DirectsAreSilent([Direct(from, ErrorEvent(NotYourTurn))]);
      } else if |points| >= 2 && FindPlayer(a.st.players, from).Some? {
        AnnounceAlike(x.core.(version := a.version), y.core.(version := b.version), [x.sent[0]], [y.sent[0]]);
      }
    }
  }

  lemma CastVoteAlike(a: Core, b: Core, suspect: string, from: string)
    requires Alike(a, b) && !Discloses(a, CastVote(suspect), from)
    ensures var x, y := HandleCastVote(a, suspect, from), HandleCastVote(b, suspect, from);
            Broadcasts(x.sent) == Broadcasts(y.sent) && Alike(x.core, y.core)
  {
    if a.st.status == VOTING && a.st.currentRound.Some? && from in a.st.currentRound.value.turnOrder && suspect in a.st.currentRound.value.turnOrder {
      var p, q := Votes(a.st.currentRound.value)[from := suspect], Votes(b.st.currentRound.value)[from := suspect];
      assert |p| == |p.Keys| == |q.Keys| == |q|;
      var x, y := HandleCastVote(a, suspect, from).core, HandleCastVote(b, suspect, from).core;
      AnnounceAlike(x.(version := a.version), y.(version := b.version), [], []);
    }
  }

  /** The unwinding step: no command but a disclosing one lets the secrets through. */
  lemma DispatchAlike(a: Core, b: Core, cmd: Command, from: string, e: Env, f: Env)
    requires Alike(a, b) && SameButTheFake(a, cmd, e, f)
    requires a.st.status == WRITING ==> a.st.currentRound.None?
    requires !Discloses(a, cmd, from) && !Discloses(b, cmd, from)
    ensures var x, y := Dispatch(a, cmd, from, e), Dispatch(b, cmd, from, f);
            Broadcasts(x.sent) == Broadcasts(y.sent) && Alike(x.core, y.core)
  {
    match cmd
    case JoinGame(id, name) => JoinAlike(a, b, id, name, from, e);
    case ConfigureGame(patch) => ConfigureAlike(a, b, patch, from);
    case SubmitWords(words) => SubmitWordsAlike(a, b, words, from, e);
    case StartGame => StartGameAlike(a, b, from);
    case StartRound => StartRoundAlike(a, b, from, e, f);
    case SubmitStroke(points) => SubmitStrokeAlike(a, b, points, from);
    case CastVote(suspect) => CastVoteAlike(a, b, suspect, from);
    case SubmitFakeGuess(guess) =>
    case NextRound => NextRoundAlike(a, b, from, e, f);
    case EndGame => EndGameAlike(a, b, from);
  }

  lemma ConfigureAlike(a: Core, b: Core, patch: ConfigPatch, from: string)
    requires Alike(a, b)
    ensures var x, y := HandleConfigure(a, patch, from), HandleConfigure(b, patch, from);
            Broadcasts(x.sent) == Broadcasts(y.sent) && Alike(x.core, y.core)
  {
    if from == a.st.hostId && a.st.status == LOBBY {
      AnnounceAlike(a.(st := a.st.(config := PatchConfig(a.st.config, patch))), b.(st := b.st.(config := PatchConfig(b.st.config, patch))), [], []);
    }
  }

  lemma StartGameAlike(a: Core, b: Core, from: string)
    requires Alike(a, b)
    ensures var x, y := HandleStartGame(a, from), HandleStartGame(b, from);
            Broadcasts(x.sent) == Broadcasts(y.sent) && Alike(x.core, y.core)
  {
    if from == a.st.hostId && a.st.status == LOBBY {
      if |a.st.players| < a.st.config.minPlayers {
        DirectsAreSilent([Direct(from, ErrorEvent(NeedPlayers(a.st.config.minPlayers)))]);
      } else {
        AnnounceAlike(a.(st := a.st.(status := WRITING)), b.(st := b.st.(status := WRITING)), [], []);
      }
    }
  }

  lemma EndGameAlike(a: Core, b: Core, from: string)
    requires Alike(a, b) && !Discloses(a, EndGame, from)
    ensures var x, y := HandleEndGame(a, from), HandleEndGame(b, from);
            Broadcasts(x.sent) == Broadcasts(y.sent) && Alike(x.core, y.core)
  {
    if from == a.st.hostId {
      var x, y := HandleEndGame(a, from).core, HandleEndGame(b, from).core;
      AnnounceAlike(x.(version := a.version), y.(version := b.version), [], []);
    }
  }

  // ---- the server draw ----

  lemma WithoutAlike(p: seq<Ticket>, q: seq<Ticket>, i: nat)
    requires TicketsAlike(p, q) && i < |p|
    ensures TicketsAlike(Without(p, i), Without(q, i))
  {
    var x, y := Without(p, i), Without(q, i);
    forall k | 0 <= k < |x| ensures x[k] == p[if k < i then k else k + 1] && y[k] == q[if k < i then k else k + 1] {
    }
  }

  /** Two answers that name the same card, whoever they make the fake and whatever the word. */
  lemma CompleteDrawAlike(a: Core, b: Core, i: nat, left: DrawResponse, right: DrawResponse, e: Env)
    requires Alike(a, b) && i < |a.awaiting| && left.cardId == right.cardId
    ensures i < |b.awaiting|
    ensures var x, y := CompleteDraw(a, i, left, e), CompleteDraw(b, i, right, e);
            Broadcasts(x.sent) == Broadcasts(y.sent) && Alike(x.core, y.core)
  {
    MarkUsedAlike(a.st.pool, b.st.pool, left.cardId);
    WithoutAlike(a.awaiting, b.awaiting, i);
    var x, y := CompleteDraw(a, i, left, e), CompleteDraw(b, i, right, e);
    var own, other := x.sent[..|x.sent| - 1], y.sent[..|y.sent| - 1];
    DirectsAreSilent(own);
    DirectsAreSilent(other);
    OpenedAlike(a, b, i, left, right, e);
    AnnounceAlike(x.core.(version := a.version), y.core.(version := b.version), own, other);
  }

  lemma OpenedAlike(a: Core, b: Core, i: nat, left: DrawResponse, right: DrawResponse, e: Env)
    requires Alike(a, b) && i < |a.awaiting| && i < |b.awaiting| && left.cardId == right.cardId
    requires PoolsAlike(MarkUsed(a.st.pool, left.cardId), MarkUsed(b.st.pool, left.cardId))
    requires TicketsAlike(Without(a.awaiting, i), Without(b.awaiting, i))
    ensures var x, y := CompleteDraw(a, i, left, e).core, CompleteDraw(b, i, right, e).core;
            Alike(x.(version := a.version), y.(version := b.version))
  {
    hide MarkUsed, PoolsAlike, Without, AssignedFake, AssignedWord, Lookup;
    var s, t := a.awaiting[i], b.awaiting[i];
    assert s.(pool := []) == t.(pool := []);
    assert s.players == t.players && s.host == t.host && s.roundIndex == t.roundIndex;
    var x, y := CompleteDraw(a, i, left, e).core.st.currentRound.value, CompleteDraw(b, i, right, e).core.st.currentRound.value;
    assert RoundsAlike(x, y, false);
  }

  lemma FailDrawAlike(a: Core, b: Core, i: nat, left: string, right: string)
    requires Alike(a, b) && i < |a.awaiting|
    ensures i < |b.awaiting|
    ensures var x, y := FailDraw(a, i, left), FailDraw(b, i, right);
            Broadcasts(x.sent) == [] == Broadcasts(y.sent) && Alike(x.core, y.core)
  {
    WithoutAlike(a.awaiting, b.awaiting, i);
    DirectsAreSilent(FailDraw(a, i, left).sent);
    DirectsAreSilent(FailDraw(b, i, right).sent);
  }

  // ---- runs ----

  // One command, or the outcome of a draw, and what it meets in each of the two games.
  datatype Step =
    | Act(cmd: Command, from: string, left: Env, right: Env)
    | Answered(i: nat, inLeft: DrawResponse, inRight: DrawResponse, env: Env)
    | Failed(i: nat, reasonLeft: string, reasonRight: string)

  ghost predicate Possible(c: Core, s: Step) {
    s.Act? || s.i < |c.awaiting|
  }

  ghost function Taken(c: Core, s: Step, left: bool): Outcomes
    requires Possible(c, s)
  {
    match s
    case Act(cmd, from, e, f) => Dispatch(c, cmd, from, if left then e else f)
    case Answered(i, x, y, e) => CompleteDraw(c, i, if left then x else y, e)
    case Failed(i, x, y) => FailDraw(c, i, if left then x else y)
  }

  /** No command discloses, and the two answers of a draw name the same card. */
  ghost predicate Guarded(a: Core, b: Core, steps: seq<Step>)
    decreases |steps|
  {
    steps != [] ==>
      var s := steps[0];
      && Possible(a, s) && Possible(b, s)
      && (s.Act? ==> SameButTheFake(a, s.cmd, s.left, s.right) && !Discloses(a, s.cmd, s.from) && !Discloses(b, s.cmd, s.from))
      && (s.Answered? ==> s.inLeft.cardId == s.inRight.cardId)
      && Guarded(Taken(a, s, true).core, Taken(b, s, false).core, steps[1..])
  }

  ghost predicate CanTake(c: Core, steps: seq<Step>, left: bool)
    decreases |steps|
  {
    steps != [] ==> Possible(c, steps[0]) && CanTake(Taken(c, steps[0], left).core, steps[1..], left)
  }

  ghost function Heard(c: Core, steps: seq<Step>, left: bool): seq<ServerEvent>
    requires CanTake(c, steps, left)
    decreases |steps|
  {
    if steps == [] then []
    else
      var out := Taken(c, steps[0], left);
      Broadcasts(out.sent) + Heard(out.core, steps[1..], left)
  }

  /** LOBBY and WRITING are before the first round. */
  ghost predicate NoRoundYet(c: Core) {
    c.st.status == LOBBY || c.st.status == WRITING ==> c.st.currentRound.None?
  }

  lemma NoRoundYetKept(c: Core, s: Step, left: bool)
    requires NoRoundYet(c) && Possible(c, s)
    ensures NoRoundYet(Taken(c, s, left).core)
  {
    if s.Act? {
      hide Dispatch;
      CommandKeepsNoRound(c, s.cmd, s.from, if left then s.left else s.right);
    }
  }

  lemma CommandKeepsNoRound(c: Core, cmd: Command, from: string, e: Env)
    requires NoRoundYet(c)
    ensures NoRoundYet(Dispatch(c, cmd, from, e).core)
  {
    hide Sanitize, Available, TurnOrder, MarkUsed, MintCards, WinnerOf, AwardFake, AwardArtists, Caught, PickColor, ResendRole, RoleMessages;
    match cmd
    case StartRound => assert NoRoundYet(HandleStartRound(c, from, e).core);
    case NextRound => assert NoRoundYet(HandleNextRound(c, from, e).core);
    case JoinGame(id, name) => assert NoRoundYet(HandleJoin(c, id, name, from, e).core);
    case CastVote(suspect) => assert NoRoundYet(HandleCastVote(c, suspect, from).core);
    case _ =>
  }

  lemma TakenAlike(a: Core, b: Core, s: Step)
    requires Alike(a, b) && NoRoundYet(a) && Possible(a, s) && Possible(b, s)
    requires s.Act? ==> SameButTheFake(a, s.cmd, s.left, s.right) && !Discloses(a, s.cmd, s.from) && !Discloses(b, s.cmd, s.from)
    requires s.Answered? ==> s.inLeft.cardId == s.inRight.cardId
    ensures var x, y := Taken(a, s, true), Taken(b, s, false);
            Broadcasts(x.sent) == Broadcasts(y.sent) && Alike(x.core, y.core)
  {
    hide Alike, Dispatch, CompleteDraw, FailDraw, SameButTheFake, Discloses;
    match s
    case Act(cmd, from, e, f) => DispatchAlike(a, b, cmd, from, e, f);
    case Answered(i, x, y, e) => CompleteDrawAlike(a, b, i, x, y, e);
    case Failed(i, x, y) => FailDrawAlike(a, b, i, x, y);
  }

  /**
   Over a whole run of commands none of which discloses, with rounds drawn locally or by the server,
   answered in any order, the two audiences hear the same.
   */
  lemma {:induction false} SecretsStaySecret(a: Core, b: Core, steps: seq<Step>)
    requires Alike(a, b) && NoRoundYet(a) && Guarded(a, b, steps)
    ensures CanTake(a, steps, true) && CanTake(b, steps, false)
    ensures Heard(a, steps, true) == Heard(b, steps, false)
    decreases |steps|
  {
    if steps != [] {
      hide Alike, Taken, NoRoundYet;
      TakenAlike(a, b, steps[0]);
      NoRoundYetKept(a, steps[0], true);
      SecretsStaySecret(Taken(a, steps[0], true).core, Taken(b, steps[0], false).core, steps[1..]);
    }
  }

  /**
   What redaction does not hide: the card a new round was drawn from. Its word stays secret, but the
   `used` flags stay in the redacted pool, so the one flag that turns names the stripped card_id.
   */
  lemma UsedFlagsNameTheCard(c: Core, e: Env)
    requires |c.st.players| >= c.st.config.minPlayers && Available(c.st.pool) != []
    requires EngineInvariant.CardsDistinct(c.st.pool)
    ensures var st' := PrepareRound(c, e).1.core.st;
            && Sanitize(st').currentRound.value.cardId.None?
            && exists k :: 0 <= k < |c.st.pool| && st'.currentRound.value.cardId == Some(c.st.pool[k].id)
                 && !c.st.pool[k].used
                 && Sanitize(st').pool == Sanitize(c.st).pool[k := Sanitize(c.st).pool[k].(used := true)]
  {
    var available := Available(c.st.pool);
    var card := available[Pick(e.rng(c.pos), |available|)];
    EngineInvariant.DealtCore(c, e);
    assert card in available;
    hide Available, PrepareRound;
    CardIsFound(c.st.pool, card);
    var k := FindCard(c.st.pool, card.id).value;
    FlagTurns(c.st, k);
    DealtBoard(c.(pos := c.pos + 1), card, e);
  }

  lemma CardIsFound(pool: seq<WordCard>, card: WordCard)
    requires EngineInvariant.CardsDistinct(pool) && card in pool
    ensures FindCard(pool, card.id).Some?
    ensures var k := FindCard(pool, card.id).value;
            pool[k] == card && MarkUsed(pool, card.id) == pool[k := pool[k].(used := true)]
  {
    var i :| 0 <= i < |pool| && pool[i] == card;
    var k := FindCard(pool, card.id).value;
    assert k <= i;
  }

  lemma DealtBoard(c: Core, card: WordCard, e: Env)
    ensures var st' := Deal(c, card, e).st;
            && st'.pool == MarkUsed(c.st.pool, card.id) && st'.status == ROUND_ANNOUNCE
            && st'.currentRound.value.cardId == Some(card.id)
            && Sanitize(st').currentRound.value.cardId.None? && Sanitize(st').pool == StripPool(st'.pool)
  {
  }

  lemma FlagTurns(st: GameState, k: nat)
    requires k < |st.pool|
    ensures StripPool(st.pool[k := st.pool[k].(used := true)]) == Sanitize(st).pool[k := Sanitize(st).pool[k].(used := true)]
  {
  }
}
