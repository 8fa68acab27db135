/** Results about whole runs of the engine with local draws. */
module EngineTheorems {
  import opened Prelude
  import opened Models
  import opened EngineSpec
  import opened EngineInvariant

  datatype Input = Input(cmd: Command, from: string)

  ghost function Run(c: Core, inputs: seq<Input>, env: Env): Core
    decreases |inputs|
  {
    if inputs == [] then c
    else Run(Dispatch(c, inputs[0].cmd, inputs[0].from, env).core, inputs[1..], env)
  }

  ghost predicate FreshRun(c: Core, inputs: seq<Input>, env: Env)
    decreases |inputs|
  {
    inputs != [] ==>
      && FreshIds(c, inputs[0].cmd, inputs[0].from, env)
      && FreshRun(Dispatch(c, inputs[0].cmd, inputs[0].from, env).core, inputs[1..], env)
  }

  lemma {:induction false} RunKeeps(c: Core, inputs: seq<Input>, env: Env)
    requires Inv(c, env) && FreshRun(c, inputs, env)
    ensures Inv(Run(c, inputs, env), env)
    decreases |inputs|
  {
    if inputs != [] {
      DispatchKeeps(c, inputs[0].cmd, inputs[0].from, env);
      RunKeeps(Dispatch(c, inputs[0].cmd, inputs[0].from, env).core, inputs[1..], env);
    }
  }

  /** A state some run of a new game leads to. */
  ghost predicate Reachable(c: Core, env: Env) {
    exists roomId: string, config: Config, inputs: seq<Input> ::
      && config.strokesPerArtist >= 1
      && FreshRun(Fresh(roomId, config, false), inputs, env)
      && c == Run(Fresh(roomId, config, false), inputs, env)
  }

  lemma ReachableOk(c: Core, env: Env)
    requires Reachable(c, env)
    ensures Inv(c, env)
  {
    var roomId: string, config: Config, inputs: seq<Input> :|
      && config.strokesPerArtist >= 1
      && FreshRun(Fresh(roomId, config, false), inputs, env)
      && c == Run(Fresh(roomId, config, false), inputs, env);
    RunKeeps(Fresh(roomId, config, false), inputs, env);
  }

  // ---- turn fairness ----

  function StrokesBy(strokes: seq<Stroke>, id: string): nat {
    if strokes == [] then 0
    else StrokesBy(strokes[..|strokes| - 1], id) + if strokes[|strokes| - 1].playerId == id then 1 else 0
  }

  lemma DivModStep(m: nat, n: nat)
    requires n > 0
    ensures if m % n == n - 1 then (m + 1) / n == m / n + 1 && (m + 1) % n == 0
            else (m + 1) / n == m / n && (m + 1) % n == m % n + 1
  {
    var q, r := m / n, m % n;
    assert m == q * n + r;
    if r == n - 1 {
      assert m + 1 == (q + 1) * n;
      DivModUnique(m + 1, n, q + 1, 0);
    } else {
      DivModUnique(m + 1, n, q, r + 1);
    }
  }

  lemma DivModUnique(m: nat, n: nat, q: nat, r: nat)
    requires r < n && m == q * n + r
    ensures m / n == q && m % n == r
  {
    MultipleOf(m / n - q, n);
    assert (m / n - q) * n == r - m % n;
  }

  lemma MultipleOf(d: int, n: nat)
    ensures d > 0 ==> d * n >= n
    ensures d < 0 ==> d * n <= -(n as int)
  {
  }

  lemma {:induction false} RoundRobinCount(strokes: seq<Stroke>, order: seq<string>, k: nat)
    requires k < |order| && NoDup(order)
    requires forall i :: 0 <= i < |strokes| ==> strokes[i].playerId == order[i % |order|]
    ensures StrokesBy(strokes, order[k]) == |strokes| / |order| + if k < |strokes| % |order| then 1 else 0
  {
    if strokes == [] {
      DivModUnique(0, |order|, 0, 0);
    } else {
      var m, n := |strokes| - 1, |order|;
      RoundRobinCount(strokes[..m], order, k);
      DivModStep(m, n);
      assert strokes[m].playerId == order[m % n];
      assert order[m % n] == order[k] <==> m % n == k;
    }
  }

  /**
   In every reachable round stroke i was drawn by turn_order[i mod n], no two artists' counts
   differ by more than one, and once drawing is over everyone drew strokes_per_artist strokes.
   */
  lemma TurnsAreFair(c: Core, env: Env, j: nat, k: nat)
    requires Reachable(c, env) && c.st.currentRound.Some?
    requires var n := |c.st.currentRound.value.turnOrder|; j < n && k < n
    ensures var r := c.st.currentRound.value;
            && (forall i :: 0 <= i < |r.strokes| ==> r.strokes[i].playerId == r.turnOrder[i % |r.turnOrder|])
            && -1 <= StrokesBy(r.strokes, r.turnOrder[j]) - StrokesBy(r.strokes, r.turnOrder[k]) <= 1
            && (c.st.status in {VOTING, FAKE_GUESS, ROUND_SUMMARY} ==>
                  StrokesBy(r.strokes, r.turnOrder[k]) == c.st.config.strokesPerArtist)
  {
    hide Inv, Reachable, NoDup;
    ReachableOk(c, env);
    FairRound(c, env);
    var r := c.st.currentRound.value;
    RoundRobinCount(r.strokes, r.turnOrder, j);
    RoundRobinCount(r.strokes, r.turnOrder, k);
    if c.st.status in {VOTING, FAKE_GUESS, ROUND_SUMMARY} {
      FullShare(|r.strokes|, |r.turnOrder|, c.st.config.strokesPerArtist);
    }
  }

  lemma FullShare(m: nat, n: nat, each: int)
    requires n > 0 && each >= 0 && m == each * n
    ensures m / n == each && m % n == 0
  {
    DivModUnique(m, n, each, 0);
  }

  lemma FairRound(c: Core, env: Env)
    requires Inv(c, env) && c.st.currentRound.Some?
    ensures var r := c.st.currentRound.value;
            && NoDup(r.turnOrder) && c.st.config.strokesPerArtist >= 1
            && (forall i :: 0 <= i < |r.strokes| ==> |r.turnOrder| > 0 && r.strokes[i].playerId == r.turnOrder[i % |r.turnOrder|])
            && (c.st.status in {VOTING, FAKE_GUESS, ROUND_SUMMARY} ==> |r.strokes| == c.st.config.strokesPerArtist * |r.turnOrder|)
  {
    hide ArchiveOk, LedgerOk, CardsDistinct, Available, NoDup, BallotsValid, Decided, Caught;
    PermutationNoDup(Ids(c.st.players), c.st.currentRound.value.turnOrder);
  }

  // ---- scores ----

  /**
   The ledger: in every reachable state the archive holds rounds 0, 1, 2, ... and each player's
   score is what the rules give for the finished rounds, replayed from their votes and guesses.
   */
  lemma ScoresAreTheLedger(c: Core, env: Env)
    requires Reachable(c, env)
    ensures forall k :: 0 <= k < |c.st.players| ==> c.st.players[k].score == Total(Finished(c.st), c.st.players[k].id, env)
    ensures forall i :: 0 <= i < |c.st.pastRounds| ==> c.st.pastRounds[i].index == i
    ensures forall r :: r in Finished(c.st) ==> Decided(r, env) && RoundOk(r, c.st.players)
  {
    ReachableOk(c, env);
  }

  // ---- votes ----

  /** A plurality is a strict maximum over all suspects, and at most one suspect has it. */
  lemma PluralityIsStrictMaximum(votes: map<string, string>, s: string)
    ensures Plurality(votes, s) <==> forall t :: t != s ==> |VotersFor(votes, t)| < |VotersFor(votes, s)|
  {
    if Plurality(votes, s) {
      forall t | t != s ensures |VotersFor(votes, t)| < |VotersFor(votes, s)| {
        if VotersFor(votes, t) != {} {
          var v :| v in VotersFor(votes, t);
          assert votes[v] == t;
        } else {
          assert |VotersFor(votes, t)| == 0;
        }
      }
    }
    if forall t :: t != s ==> |VotersFor(votes, t)| < |VotersFor(votes, s)| {
      var other := s + "'";
      assert |other| != |s|;
      assert |VotersFor(votes, other)| < |VotersFor(votes, s)|;
    }
  }

  datatype Cast = Cast(voter: string, suspect: string)

  /** The casts as commands. */
  function Commands(casts: seq<Cast>): seq<Input> {
    seq(|casts|, i requires 0 <= i < |casts| => Input(CastVote(casts[i].suspect), casts[i].voter))
  }

  /** The votes after a sequence of casts: a later ballot of a voter replaces an earlier one. */
  function Recorded(votes: map<string, string>, casts: seq<Cast>): map<string, string>
    decreases |casts|
  {
    if casts == [] then votes else Recorded(votes[casts[0].voter := casts[0].suspect], casts[1..])
  }

  /** Every cast is made while voting is open, by an artist, for an artist. */
  ghost predicate CastWhileOpen(c: Core, casts: seq<Cast>, env: Env) {
    && (forall i :: 0 <= i < |casts| ==> Run(c, Commands(casts[..i]), env).st.status == VOTING)
    && (c.st.currentRound.Some? ==>
          forall x :: x in casts ==> x.voter in c.st.currentRound.value.turnOrder && x.suspect in c.st.currentRound.value.turnOrder)
  }

  ghost predicate LastCast(casts: seq<Cast>, v: string, i: int) {
    0 <= i < |casts| && casts[i].voter == v && forall j :: i < j < |casts| ==> casts[j].voter != v
  }

  lemma {:induction false} RecordedAre(votes: map<string, string>, casts: seq<Cast>, v: string)
    ensures v in Recorded(votes, casts) <==> v in votes || exists i :: LastCast(casts, v, i)
    ensures forall i :: LastCast(casts, v, i) ==> v in Recorded(votes, casts) && Recorded(votes, casts)[v] == casts[i].suspect
    ensures (forall i :: !LastCast(casts, v, i)) && v in votes ==> Recorded(votes, casts)[v] == votes[v]
    decreases |casts|
  {
    if casts != [] {
      var rest := casts[1..];
      RecordedAre(votes[casts[0].voter := casts[0].suspect], rest, v);
      forall i ensures LastCast(casts, v, i + 1) <==> (i >= 0 && LastCast(rest, v, i)) || (i == -1 && LastCast(casts, v, 0)) {
        LastCastOfRest(casts, v, i);
      }
      LastCastFirst(casts, v);
    }
  }

  lemma LastCastOfRest(casts: seq<Cast>, v: string, i: int)
    requires casts != []
    ensures LastCast(casts, v, i + 1) <==> (i >= 0 && LastCast(casts[1..], v, i)) || (i == -1 && LastCast(casts, v, 0))
  {
    if i >= 0 && LastCast(casts[1..], v, i) {
      forall j | i + 1 < j < |casts| ensures casts[j].voter != v {
        assert casts[j] == casts[1..][j - 1];
      }
    }
  }

  /** The first cast of v is its last exactly when it casts no other. */
  lemma LastCastFirst(casts: seq<Cast>, v: string)
    requires casts != []
    ensures LastCast(casts, v, 0) <==> casts[0].voter == v && forall i :: !LastCast(casts[1..], v, i)
  {
    var rest := casts[1..];
    if casts[0].voter == v && !LastCast(casts, v, 0) {
      var j :| 0 < j < |casts| && casts[j].voter == v;
      assert rest[j - 1].voter == v;
      var _ := SomeLastCast(rest, v, j - 1);
    }
    forall i | LastCast(rest, v, i) ensures !LastCast(casts, v, 0) {
      assert casts[i + 1].voter == v;
    }
  }

  lemma {:induction false} SomeLastCast(casts: seq<Cast>, v: string, j: nat) returns (i: int)
    requires j < |casts| && casts[j].voter == v
    ensures LastCast(casts, v, i)
    decreases |casts| - j
  {
    if k :| j < k < |casts| && casts[k].voter == v {
      i := SomeLastCast(casts, v, k);
    } else {
      i := j;
    }
  }

  // ---- the votes of dispatched casts ----

  function WithVotes(c: Core, votes: map<string, string>): Core
    requires c.st.currentRound.Some?
  {
    c.(st := c.st.(currentRound := Some(c.st.currentRound.value.(votes := Some(votes), votesCast := |votes|))))
  }

  lemma OneCast(c: Core, x: Cast, env: Env)
    requires c.st.status == VOTING && c.st.currentRound.Some?
    requires x.voter in c.st.currentRound.value.turnOrder && x.suspect in c.st.currentRound.value.turnOrder
    ensures var c' := WithVotes(c, Votes(c.st.currentRound.value)[x.voter := x.suspect]);
            Dispatch(c, CastVote(x.suspect), x.voter, env).core == AfterBallot(c').(version := c.version + 1)
  {
    hide AfterBallot;
    BallotStep(c, x.suspect, x.voter);
    KeepsVersion(WithVotes(c, Votes(c.st.currentRound.value)[x.voter := x.suspect]));
  }

  lemma KeepsVersion(c: Core)
    requires c.st.currentRound.Some?
    ensures AfterBallot(c).version == c.version
    ensures forall n: nat :: AfterBallot(c.(version := n)) == AfterBallot(c).(version := n)
  {
  }

  /** A cast that leaves voting open only records its ballot. */
  lemma OpenCast(c: Core, x: Cast, env: Env)
    requires c.st.status == VOTING && c.st.currentRound.Some?
    requires x.voter in c.st.currentRound.value.turnOrder && x.suspect in c.st.currentRound.value.turnOrder
    requires Dispatch(c, CastVote(x.suspect), x.voter, env).core.st.status == VOTING
    ensures Dispatch(c, CastVote(x.suspect), x.voter, env).core
         == WithVotes(c, Votes(c.st.currentRound.value)[x.voter := x.suspect]).(version := c.version + 1)
  {
    hide Dispatch;
    OneCast(c, x, env);
    var c' := WithVotes(c, Votes(c.st.currentRound.value)[x.voter := x.suspect]);
    AfterBallotStatus(c');
  }

  lemma RestIsCastWhileOpen(c: Core, casts: seq<Cast>, env: Env)
    requires casts != [] && CastWhileOpen(c, casts, env) && c.st.currentRound.Some?
    requires Dispatch(c, CastVote(casts[0].suspect), casts[0].voter, env).core.st.currentRound.Some?
    requires Dispatch(c, CastVote(casts[0].suspect), casts[0].voter, env).core.st.currentRound.value.turnOrder == c.st.currentRound.value.turnOrder
    ensures CastWhileOpen(Dispatch(c, CastVote(casts[0].suspect), casts[0].voter, env).core, casts[1..], env)
  {
    hide Dispatch;
    var c1 := Dispatch(c, CastVote(casts[0].suspect), casts[0].voter, env).core;
    forall i | 0 <= i < |casts| - 1 ensures Run(c1, Commands(casts[1..][..i]), env).st.status == VOTING {
      assert Commands(casts[..i + 1])[0] == Input(CastVote(casts[0].suspect), casts[0].voter);
      assert Commands(casts[..i + 1])[1..] == Commands(casts[1..][..i]);
      assert Run(c, Commands(casts[..i + 1]), env).st.status == VOTING;
    }
  }

  /**
   After any casts made while voting is open, the round's votes are the casts recorded one after
   another, and the game is where one tally of these votes puts it.
   */
  lemma {:induction false} VotesAreTheCasts(c: Core, casts: seq<Cast>, env: Env)
    requires c.st.currentRound.Some? && casts != [] && CastWhileOpen(c, casts, env)
    ensures Run(c, Commands(casts), env)
         == AfterBallot(WithVotes(c, Recorded(Votes(c.st.currentRound.value), casts))).(version := c.version + |casts|)
    decreases |casts|
  {
    hide Dispatch, AfterBallot;
    assert casts[..0] == [] && Commands([]) == [];
    assert Run(c, Commands(casts[..0]), env) == c;
    var x := casts[0];
    assert x in casts;
    var c1 := Dispatch(c, CastVote(x.suspect), x.voter, env).core;
    assert Commands(casts)[0] == Input(CastVote(x.suspect), x.voter);
    assert Commands(casts)[1..] == Commands(casts[1..]);
    assert Run(c, Commands(casts), env) == Run(c1, Commands(casts[1..]), env);
    var votes := Votes(c.st.currentRound.value);
    if |casts| == 1 {
      OneCast(c, x, env);
      assert Commands(casts[1..]) == [];
      assert Recorded(votes, casts) == votes[x.voter := x.suspect];
    } else {
      assert Commands(casts[..1]) == [Commands(casts)[0]] && Commands(casts[..1])[1..] == [];
      assert Run(c, Commands(casts[..1]), env) == c1;
      OpenCast(c, x, env);
      RestIsCastWhileOpen(c, casts, env);
      VotesAreTheCasts(c1, casts[1..], env);
      var all := Recorded(votes[x.voter := x.suspect], casts[1..]);
      KeepsVersion(WithVotes(c, all));
      assert WithVotes(c1, all) == WithVotes(c, all).(version := c1.version);
    }
  }

  /**
   Two ways of casting from one state, with the same last ballot of every voter, lead to the same
   state: votes, result, scores and phase. Only the count of broadcasts may differ.
   */
  lemma TallyIgnoresOrderAndRevotes(c: Core, a: seq<Cast>, b: seq<Cast>, env: Env)
    requires c.st.currentRound.Some? && CastWhileOpen(c, a, env) && CastWhileOpen(c, b, env)
    requires forall v, i :: LastCast(a, v, i) ==> exists j :: LastCast(b, v, j) && a[i].suspect == b[j].suspect
    requires forall v, j :: LastCast(b, v, j) ==> exists i :: LastCast(a, v, i)
    ensures Run(c, Commands(a), env).(version := 0) == Run(c, Commands(b), env).(version := 0)
    ensures Run(c, Commands(a), env).version == c.version + |a|
  {
    hide Dispatch, AfterBallot;
    assert Commands([]) == [];
    if a != [] {
      var _ := SomeLastCast(a, a[0].voter, 0);
    }
    if b != [] {
      var _ := SomeLastCast(b, b[0].voter, 0);
    }
    if a != [] && b != [] {
      SameRecord(Votes(c.st.currentRound.value), a, b);
      VotesAreTheCasts(c, a, env);
      VotesAreTheCasts(c, b, env);
    }
  }

  lemma SameRecord(votes: map<string, string>, a: seq<Cast>, b: seq<Cast>)
    requires forall v, i :: LastCast(a, v, i) ==> exists j :: LastCast(b, v, j) && a[i].suspect == b[j].suspect
    requires forall v, j :: LastCast(b, v, j) ==> exists i :: LastCast(a, v, i)
    ensures Recorded(votes, a) == Recorded(votes, b)
  {
    hide LastCast, Recorded;
    forall v ensures v in Recorded(votes, a) <==> v in Recorded(votes, b)
    ensures v in Recorded(votes, a) && v in Recorded(votes, b) ==> Recorded(votes, a)[v] == Recorded(votes, b)[v]
    {
      RecordedAre(votes, a, v);
      RecordedAre(votes, b, v);
    }
  }

  /**
   A vote moves the game on exactly when it completes the ballots of the whole turn order; the
   game then goes to the fake's guess exactly when the fake leads alone.
   */
  lemma VotingEndsWhenAllVoted(c: Core, suspect: string, from: string, env: Env)
    requires Reachable(c, env) && c.st.status == VOTING && c.st.currentRound.Some?
    requires from in c.st.currentRound.value.turnOrder && suspect in c.st.currentRound.value.turnOrder
    ensures var r := c.st.currentRound.value;
            var votes := Votes(r)[from := suspect];
            var st' := HandleCastVote(c, suspect, from).core.st;
            && st'.currentRound.Some? && Votes(st'.currentRound.value) == votes
            && (st'.status == VOTING <==> exists v :: v in r.turnOrder && v !in votes)
            && (st'.status == FAKE_GUESS <==>
                  && (forall v :: v in r.turnOrder ==> v in votes)
                  && r.fakeId.Some? && forall t :: t != r.fakeId.value ==> |VotersFor(votes, t)| < |VotersFor(votes, r.fakeId.value)|)
            && st'.status in {VOTING, FAKE_GUESS, ROUND_SUMMARY}
  {
    ReachableOk(c, env);
    PermutationNoDup(Ids(c.st.players), c.st.currentRound.value.turnOrder);
    VoteOutcome(c, suspect, from);
    PluralityIsStrictMaximum(Votes(c.st.currentRound.value)[from := suspect], c.st.currentRound.value.fakeId.value);
  }

  lemma VoteOutcome(c: Core, suspect: string, from: string)
    requires c.st.status == VOTING && c.st.currentRound.Some?
    requires var r := c.st.currentRound.value;
             BallotsValid(r) && NoDup(r.turnOrder) && from in r.turnOrder && suspect in r.turnOrder && r.fakeId.Some?
    ensures var r := c.st.currentRound.value;
            var votes := Votes(r)[from := suspect];
            var st' := HandleCastVote(c, suspect, from).core.st;
            && st'.currentRound.Some? && Votes(st'.currentRound.value) == votes
            && (st'.status == VOTING <==> exists v :: v in r.turnOrder && v !in votes)
            && (st'.status == FAKE_GUESS <==>
                  && (forall v :: v in r.turnOrder ==> v in votes)
                  && Plurality(votes, r.fakeId.value))
            && st'.status in {VOTING, FAKE_GUESS, ROUND_SUMMARY}
  {
    hide HandleCastVote, AfterBallot, Plurality, Caught, BallotsValid, NoDup;
    var r := c.st.currentRound.value;
    var votes := Votes(r)[from := suspect];
    var r' := r.(votes := Some(votes), votesCast := |votes|);
    var c' := c.(st := c.st.(currentRound := Some(r')));
    BallotsComplete(r, from, suspect);
    CaughtByBallots(r');
    BallotStep(c, suspect, from);
    AfterBallotStatus(c');
    assert HandleCastVote(c, suspect, from).core.st == AfterBallot(c').st;
  }

  lemma BallotsComplete(r: Round, from: string, suspect: string)
    requires BallotsValid(r) && NoDup(r.turnOrder) && from in r.turnOrder && suspect in r.turnOrder
    ensures var votes := Votes(r)[from := suspect];
            && (|votes| < |r.turnOrder| <==> exists v :: v in r.turnOrder && v !in votes)
            && (|votes| >= |r.turnOrder| <==> forall v :: v in r.turnOrder ==> v in votes)
  {
    BallotKeeps(r, from, suspect);
  }

  lemma CaughtByBallots(r: Round)
    requires r.votes.Some? && r.fakeId.Some?
    ensures Caught(r) <==> Plurality(r.votes.value, r.fakeId.value)
  {
  }

  lemma AfterBallotStatus(c: Core)
    requires c.st.status == VOTING && c.st.currentRound.Some?
    ensures var r, st' := c.st.currentRound.value, AfterBallot(c).st;
            && st'.currentRound.Some? && st'.currentRound.value.votes == r.votes
            && (st'.status == VOTING <==> |Votes(r)| < |r.turnOrder|)
            && (st'.status == FAKE_GUESS <==> |Votes(r)| >= |r.turnOrder| && Caught(r))
            && st'.status in {VOTING, FAKE_GUESS, ROUND_SUMMARY}
  {
  }

  // ---- termination ----

  /** The commands that move the game on, when they are accepted. */
  ghost predicate Progress(c: Core, cmd: Command, from: string) {
    match cmd
    case StartRound =>
      from == c.st.hostId && (c.st.status == ROUND_ANNOUNCE || (c.st.status == WRITING && AllSubmitted(c.st.players)))
    case SubmitStroke(points) =>
      && c.st.status == DRAWING && c.st.currentRound.Some? && from == CurrentTurn(c.st.currentRound.value)
      && |points| >= 2 && from in Ids(c.st.players)
    case CastVote(suspect) =>
      && c.st.status == VOTING && c.st.currentRound.Some?
      && var r := c.st.currentRound.value;
      && from in r.turnOrder && suspect in r.turnOrder && from !in Votes(r)
    case SubmitFakeGuess(_) =>
      c.st.status == FAKE_GUESS && c.st.currentRound.Some? && c.st.currentRound.value.fakeId == Some(from)
    case NextRound => from == c.st.hostId && c.st.status == ROUND_SUMMARY
    case _ => false
  }

  /** Commands a whole round takes: opening, strokes, ballots, the guess, the summary. */
  function PerRound(st: GameState): int {
    st.config.strokesPerArtist * |st.players| + |st.players| + 3
  }

  /** What the current round can still take. */
  function RoundSteps(st: GameState): int {
    if st.currentRound.None? then 1
    else
      var r := st.currentRound.value;
      match st.status
      case ROUND_ANNOUNCE => PerRound(st)
      case DRAWING => st.config.strokesPerArtist * |r.turnOrder| - |r.strokes| + |r.turnOrder| + 2
      case VOTING => |r.turnOrder| - |Votes(r)| + 2
      case FAKE_GUESS => 2
      case _ => 1
  }

  /** u rounds of k commands each. */
  function Rounds(u: nat, k: int): (total: int)
    ensures total == u * k
  {
    if u == 0 then 0 else k + Rounds(u - 1, k)
  }

  function Budget(st: GameState): int {
    if st.status == GAME_OVER then 0 else Rounds(|Available(st.pool)|, PerRound(st)) + RoundSteps(st)
  }

  // The few sizes the budget depends on.
  ghost predicate Sized(st: GameState) {
    && st.config.strokesPerArtist >= 1
    && CardsDistinct(st.pool)
    && (st.status !in {LOBBY, WRITING, GAME_OVER} ==>
          && st.currentRound.Some?
          && var r := st.currentRound.value;
          && |r.turnOrder| == |st.players| > 0 && r.strokeIndex == |r.strokes|
          && (st.status == DRAWING ==> |r.strokes| < StrokesNeeded(st, r))
          && (st.status == VOTING ==> |Votes(r)| < |r.turnOrder|))
    && (st.status == WRITING ==> st.currentRound.None?)
    && (st.status !in {LOBBY, GAME_OVER} ==> |st.players| >= st.config.minPlayers)
  }

  lemma InvSized(c: Core, env: Env)
    requires Inv(c, env)
    ensures Sized(c.st)
  {
    if c.st.currentRound.Some? {
      PermutationMembers(c.st.currentRound.value.turnOrder, Ids(c.st.players));
    }
  }

  lemma BudgetIsNatural(st: GameState)
    requires Sized(st)
    ensures Budget(st) >= 0
    ensures st.status !in {LOBBY, WRITING, GAME_OVER} ==> Budget(st) >= 1
  {
    RoundsNatural(|Available(st.pool)|, PerRound(st));
  }

  lemma {:induction false} RoundsNatural(u: nat, k: int)
    requires k >= 0
    ensures Rounds(u, k) >= 0
  {
    if u > 0 {
      RoundsNatural(u - 1, k);
    }
  }

  /** Dealing a card leaves one fewer, and a round of the same size. */
  lemma DealtBudget(c: Core, card: WordCard, env: Env)
    requires CardsDistinct(c.st.pool) && card in Available(c.st.pool)
    ensures Budget(Deal(c, card, env).st) <= Rounds(|Available(c.st.pool)|, PerRound(c.st))
  {
    hide Rounds, Available;
    MarkingOneCard(c.st.pool, card);
    OneRoundMore(|Available(c.st.pool)|, PerRound(c.st));
  }

  lemma OneRoundMore(u: nat, k: int)
    requires u > 0
    ensures Rounds(u, k) == k + Rounds(u - 1, k)
  {
  }

  /** Opening a round uses up a card, which is worth the whole round. */
  lemma OpeningLowersBudget(c: Core, env: Env)
    requires CardsDistinct(c.st.pool) && |c.st.players| >= c.st.config.minPlayers
    requires c.st.config.strokesPerArtist >= 1
    ensures Budget(PrepareRound(c, env).1.core.st) <= Rounds(|Available(c.st.pool)|, PerRound(c.st))
  {
    hide Rounds, Available, Deal;
    var available := Available(c.st.pool);
    RoundsNatural(|available|, PerRound(c.st));
    if available != [] {
      DealtBudget(c.(pos := c.pos + 1), available[Pick(env.rng(c.pos), |available|)], env);
      DealtCore(c, env);
    } else {
      assert PrepareRound(c, env).1.core.st == GameOver(c.st);
    }
  }

  lemma OneBallotMore(votes: map<string, string>, from: string, suspect: string)
    ensures |votes[from := suspect]| == |votes| + if from in votes then 0 else 1
  {
    assert votes[from := suspect].Keys == votes.Keys + {from};
    assert |votes| == |votes.Keys| && |votes[from := suspect]| == |votes[from := suspect].Keys|;
  }

  lemma VoteLowersBudget(c: Core, suspect: string, from: string)
    requires Sized(c.st) && c.st.status == VOTING
    requires from in c.st.currentRound.value.turnOrder && suspect in c.st.currentRound.value.turnOrder
    ensures Budget(HandleCastVote(c, suspect, from).core.st)
         <= Budget(c.st) - if from in Votes(c.st.currentRound.value) then 0 else 1
  {
    hide Caught, Plurality, Rounds, Available;
    var votes := Votes(c.st.currentRound.value);
    OneBallotMore(votes, from, suspect);
    var st' := HandleCastVote(c, suspect, from).core.st;
    assert st'.pool == c.st.pool && |st'.players| == |c.st.players|;
    assert PerRound(st') == PerRound(c.st);
  }

  lemma StrokeLowersBudget(c: Core, points: seq<Point>, from: string)
    requires Sized(c.st) && Progress(c, SubmitStroke(points), from)
    ensures Budget(HandleSubmitStroke(c, points, from).core.st) < Budget(c.st)
  {
  }

  lemma NextRoundLowersBudget(c: Core, from: string, env: Env)
    requires Sized(c.st) && Progress(c, NextRound, from) && !c.drawer
    ensures Budget(HandleNextRound(c, from, env).core.st) < Budget(c.st)
  {
    BudgetIsNatural(c.st);
    var c1 := c.(st := Archive(c.st));
    assert c1.st.pool == c.st.pool && PerRound(c1.st) == PerRound(c.st);
    if IsOver(c1.st) {
      assert HandleNextRound(c, from, env).core.st.status == GAME_OVER;
    } else {
      OpeningLowersBudget(c1, env);
      assert HandleNextRound(c, from, env).core.st == PrepareRound(c1, env).1.core.st;
    }
  }

  lemma StartRoundLowersBudget(c: Core, from: string, env: Env)
    requires Sized(c.st) && Progress(c, StartRound, from) && !c.drawer
    ensures Budget(HandleStartRound(c, from, env).core.st) < Budget(c.st)
  {
    hide Rounds, Available, PrepareRound;
    if c.st.status == WRITING {
      OpeningLowersBudget(c, env);
    }
  }

  lemma GuessLowersBudget(c: Core, guess: string, from: string, env: Env)
    requires Sized(c.st) && Progress(c, SubmitFakeGuess(guess), from)
    ensures Budget(HandleFakeGuess(c, guess, from, env).core.st) < Budget(c.st)
  {
    var st' := HandleFakeGuess(c, guess, from, env).core.st;
    assert st'.pool == c.st.pool && PerRound(st') == PerRound(c.st);
  }

  /** Every accepted progress command lowers the budget. */
  lemma ProgressLowersBudget(c: Core, cmd: Command, from: string, env: Env)
    requires Sized(c.st) && Progress(c, cmd, from) && !c.drawer
    ensures Budget(Dispatch(c, cmd, from, env).core.st) < Budget(c.st)
  {
    match cmd
    case StartRound => StartRoundLowersBudget(c, from, env);
    case SubmitStroke(points) => StrokeLowersBudget(c, points, from);
    case CastVote(suspect) => VoteLowersBudget(c, suspect, from);
    case SubmitFakeGuess(guess) => GuessLowersBudget(c, guess, from, env);
    case NextRound => NextRoundLowersBudget(c, from, env);
  }

  /** Once the writing phase is over, no command at all raises it. */
  lemma BudgetNeverRises(c: Core, cmd: Command, from: string, env: Env)
    requires Sized(c.st) && !c.drawer && c.st.status != LOBBY && c.st.status != WRITING
    ensures Budget(Dispatch(c, cmd, from, env).core.st) <= Budget(c.st)
  {
    if Progress(c, cmd, from) {
      ProgressLowersBudget(c, cmd, from, env);
    } else {
      BudgetIsNatural(c.st);
      match cmd
      case JoinGame(id, name) => IdleJoin(c, id, name, from, env);
      case CastVote(suspect) =>
        if c.st.status == VOTING && from in c.st.currentRound.value.turnOrder && suspect in c.st.currentRound.value.turnOrder {
          VoteLowersBudget(c, suspect, from);
        }
      case _ =>
    }
  }

  lemma IdleJoin(c: Core, id: string, name: string, from: string, env: Env)
    requires c.st.status != LOBBY && c.st.status != WRITING
    ensures Budget(HandleJoin(c, id, name, from, env).core.st) == Budget(c.st)
  {
  }

  lemma WritingNeverReturns(c: Core, cmd: Command, from: string, env: Env)
    requires c.st.status != LOBBY && c.st.status != WRITING && !c.drawer
    ensures var s := Dispatch(c, cmd, from, env).core.st.status; s != LOBBY && s != WRITING
  {
  }

  ghost function ProgressSteps(c: Core, inputs: seq<Input>, env: Env): nat
    decreases |inputs|
  {
    if inputs == [] then 0
    else
      (if Progress(c, inputs[0].cmd, inputs[0].from) then 1 else 0)
      + ProgressSteps(Dispatch(c, inputs[0].cmd, inputs[0].from, env).core, inputs[1..], env)
  }

  /**
   Every game ends: from the first round on, however many commands arrive in whatever order, the
   number of accepted progress commands is at most the budget, C(sn + n + 3) plus what is left of
   the current round, for C unused cards, n players and s strokes each.
   */
  lemma {:induction false} GamesAreFinite(c: Core, inputs: seq<Input>, env: Env)
    requires Inv(c, env) && FreshRun(c, inputs, env)
    requires c.st.status != LOBBY && c.st.status != WRITING
    ensures ProgressSteps(c, inputs, env) <= Budget(c.st)
    decreases |inputs|
  {
    InvSized(c, env);
    BudgetIsNatural(c.st);
    if inputs != [] {
      var cmd, from := inputs[0].cmd, inputs[0].from;
      DispatchKeeps(c, cmd, from, env);
      WritingNeverReturns(c, cmd, from, env);
      BudgetNeverRises(c, cmd, from, env);
      if Progress(c, cmd, from) {
        ProgressLowersBudget(c, cmd, from, env);
      }
      GamesAreFinite(Dispatch(c, cmd, from, env).core, inputs[1..], env);
    }
  }

  /** Used cards are exactly the rounds drawn, so there are never more rounds than cards. */
  lemma NoMoreRoundsThanCards(c: Core, env: Env)
    requires Reachable(c, env)
    ensures |c.st.pool| - |Available(c.st.pool)| == Drawn(c.st) <= |c.st.pool|
    ensures |c.st.pastRounds| <= Drawn(c.st)
  {
    ReachableOk(c, env);
  }

  /** Nothing leaves GAME_OVER: round, archive, cards and scores stay as they are. */
  lemma GameOverIsAbsorbing(c: Core, cmd: Command, from: string, env: Env)
    requires c.st.status == GAME_OVER && !c.drawer
    ensures var st' := Dispatch(c, cmd, from, env).core.st;
            && st'.status == GAME_OVER
            && st'.currentRound == c.st.currentRound && st'.pastRounds == c.st.pastRounds && st'.pool == c.st.pool
            && |st'.players| == |c.st.players|
            && forall i :: 0 <= i < |st'.players| ==>
                 st'.players[i].id == c.st.players[i].id && st'.players[i].score == c.st.players[i].score
  {
  }
}
