/**
 What one engine command does, as a function of the engine's fields (frontend/p2p/engine.ts).

 The environment is an oracle: the n-th call of the random source, the identifier minted (from
 the clock and four random digits) when the random source stands at n, and the two string
 functions of the host language that words and guesses pass through.
 */
module EngineSpec {
  import opened Prelude
  import opened Models
  import opened Sanitizer

  type Unit = u: real | 0.0 <= u < 1.0 witness 0.0

  datatype Env = Env(
    rng: nat -> Unit,
    cardId: nat -> string,
    playerId: nat -> string,
    trim: string -> string,
    lower: string -> string)

  // A role draw the engine is waiting for: what it captured before the await.
  datatype Ticket = Ticket(host: string, players: seq<string>, pool: seq<WordCard>, roundIndex: nat)

  datatype Core = Core(
    st: GameState,
    version: nat,
    word: Option<string>,
    commitment: Option<string>,
    pos: nat,
    drawer: bool,
    awaiting: seq<Ticket>)

  datatype Outcomes = Outcomes(core: Core, sent: seq<Emission>)

  function Fresh(roomId: string, config: Config, drawer: bool): Core {
    Core(NewGameState(roomId, config), 0, None, None, 0, drawer, [])
  }

  // ---- the random source ----

  /** `Math.floor(u * n)`. */
  function Pick(u: Unit, n: nat): (k: nat)
    ensures n > 0 ==> k < n
  {
    var scaled := u * (n as real);
    assert 0.0 <= scaled;
    assert n > 0 ==> scaled < n as real;
    scaled.Floor
  }

  function HexDigit(n: nat): char {
    if n < 16 then "0123456789abcdef"[n] else '?'
  }

  /** The low `digits` hexadecimal digits of n, zero padded. */
  function PadHex(n: nat, digits: nat): string {
    if digits == 0 then "" else PadHex(n / 16, digits - 1) + [HexDigit(n % 16)]
  }

  // ---- lookups ----

  function Ids(players: seq<Player>): seq<string> {
    seq(|players|, i requires 0 <= i < |players| => players[i].id)
  }

  /** The first player with this id. */
  function FindPlayer(players: seq<Player>, id: string): (r: Option<nat>)
    ensures r.None? <==> id !in Ids(players)
    ensures r.Some? ==> r.value < |players| && players[r.value].id == id && id !in Ids(players)[..r.value]
  {
    if players == [] then None
    else if players[0].id == id then
      assert Ids(players)[0] == id;
      Some(0)
    else
      var rest := FindPlayer(players[1..], id);
      assert Ids(players) == [players[0].id] + Ids(players[1..]);
      match rest case None => None case Some(k) => Some(k + 1)
  }

  /** The first card with this id. */
  function FindCard(pool: seq<WordCard>, id: string): (r: Option<nat>)
    ensures r.None? <==> forall c :: c in pool ==> c.id != id
    ensures r.Some? ==> r.value < |pool| && pool[r.value].id == id
                        && forall i :: 0 <= i < r.value ==> pool[i].id != id
  {
    if pool == [] then None
    else if pool[0].id == id then Some(0)
    else match FindCard(pool[1..], id) case None => None case Some(k) => Some(k + 1)
  }

  function Available(pool: seq<WordCard>): (r: seq<WordCard>)
    ensures forall c :: c in r <==> c in pool && !c.used
  {
    if pool == [] then []
    else (if pool[0].used then [] else [pool[0]]) + Available(pool[1..])
  }

  function MarkUsed(pool: seq<WordCard>, id: string): seq<WordCard> {
    match FindCard(pool, id)
    case None => pool
    case Some(k) => pool[k := pool[k].(used := true)]
  }

  function OrEmpty(s: Option<string>): string {
    if s.Some? then s.value else ""
  }

  // ---- the turn order: Fisher-Yates from position i down to 1 ----

  function Swap<T>(s: seq<T>, i: nat, j: nat): seq<T>
    requires i < |s| && j < |s|
  {
    s[i := s[j]][j := s[i]]
  }

  function Shuffled<T>(s: seq<T>, i: nat, env: Env, pos: nat): (r: seq<T>)
    requires i < |s| || s == []
    ensures |r| == |s|
    decreases i
  {
    if i == 0 || s == [] then s
    else Shuffled(Swap(s, i, Pick(env.rng(pos), i + 1)), i - 1, env, pos + 1)
  }

  function TurnOrder(ids: seq<string>, env: Env, pos: nat): (r: seq<string>)
    ensures |r| == |ids|
  {
    if ids == [] then [] else Shuffled(ids, |ids| - 1, env, pos)
  }

  // How many random numbers the shuffle of n entries consumes.
  function ShuffleCalls(n: nat): nat {
    if n == 0 then 0 else n - 1
  }

  // ---- votes ----

  ghost function VotersFor(votes: map<string, string>, suspect: string): set<string> {
    set v | v in votes && votes[v] == suspect
  }

  /** Strictly more votes than any other suspect. */
  ghost predicate Plurality(votes: map<string, string>, suspect: string) {
    && |VotersFor(votes, suspect)| > 0
    && forall v :: v in votes && votes[v] != suspect ==> |VotersFor(votes, votes[v])| < |VotersFor(votes, suspect)|
  }

  ghost predicate Caught(r: Round) {
    r.votes.Some? && r.fakeId.Some? && Plurality(r.votes.value, r.fakeId.value)
  }

  // ---- scores ----

  function AddScore(players: seq<Player>, id: string, n: int): (r: seq<Player>)
    ensures |r| == |players|
  {
    match FindPlayer(players, id)
    case None => players
    case Some(k) => players[k := players[k].(score := players[k].score + n)]
  }

  /** One point for every entry of the turn order but the fake. */
  function AwardArtists(players: seq<Player>, order: seq<string>, fake: Option<string>): (r: seq<Player>)
    ensures |r| == |players|
    decreases |order|
  {
    if order == [] then players
    else
      var first := if Some(order[0]) == fake then players else AddScore(players, order[0], 1);
      AwardArtists(first, order[1..], fake)
  }

  function AwardFake(players: seq<Player>, fake: Option<string>, n: int): seq<Player> {
    if fake.Some? then AddScore(players, fake.value, n) else players
  }

  /** The first player with the highest score. */
  function Leader(players: seq<Player>): (r: Option<nat>)
    ensures r.None? <==> players == []
    ensures r.Some? ==>
              && r.value < |players|
              && (forall i :: 0 <= i < |players| ==> players[i].score <= players[r.value].score)
              && (forall i :: 0 <= i < r.value ==> players[i].score < players[r.value].score)
  {
    if players == [] then None
    else
      var front := players[..|players| - 1];
      match Leader(front)
      case None => Some(0)
      case Some(k) => if players[|players| - 1].score > players[k].score then Some(|players| - 1) else Some(k)
  }

  function WinnerOf(players: seq<Player>): Option<string> {
    match Leader(players) case None => None case Some(k) => Some(players[k].id)
  }

  function GameOver(st: GameState): GameState {
    st.(status := GAME_OVER, winner := WinnerOf(st.players))
  }

  // ---- emission ----

  function Announce(c: Core, before: seq<Emission>): Outcomes {
    Outcomes(c.(version := c.version + 1), before + [Broadcast(StateUpdate(Sanitize(c.st)))])
  }

  function Refuse(c: Core, to: string, why: ErrorText): Outcomes {
    Outcomes(c, [Direct(to, ErrorEvent(why))])
  }

  function Quiet(c: Core): Outcomes {
    Outcomes(c, [])
  }

  // ---- handlers ----

  function PickColor(players: seq<Player>, env: Env, pos: nat): string {
    var used := set p | p in players && p.color != "" :: p.color;
    var avail := Unused(PALETTE, used);
    if avail == [] then "#" + PadHex(Pick(env.rng(pos), 0xffffff), 6)
    else avail[Pick(env.rng(pos), |avail|)]
  }

  function Unused(colors: seq<string>, used: set<string>): seq<string> {
    if colors == [] then []
    else (if colors[0] in used then [] else [colors[0]]) + Unused(colors[1..], used)
  }

  /** The role is sent again to a player who rejoins an active round. */
  function ResendRole(c: Core, id: string): seq<Emission> {
    if c.st.currentRound.None? || c.st.status !in {ROUND_ANNOUNCE, DRAWING, VOTING, FAKE_GUESS} then []
    else
      var r := c.st.currentRound.value;
      if id !in r.turnOrder then []
      else
        var isFake := r.fakeId == Some(id);
        [Direct(id, YourRole(isFake, if !isFake && OrEmpty(c.word) != "" then c.word else None))]
  }

  function NewPlayerId(wanted: string, env: Env, pos: nat): string {
    if wanted != "" then wanted else env.playerId(pos)
  }

  /** A new player takes the last seat; the first one becomes admin and host. */
  function Seat(st: GameState, id: string, name: string, color: string): GameState {
    var first := st.players == [];
    st.(players := st.players + [Player(id, name, color, first, true, false, 0)],
        hostId := if first then id else st.hostId)
  }

  function Rejoin(c: Core, k: nat, name: string): Core
    requires k < |c.st.players|
  {
    var p := c.st.players[k];
    var p' := p.(connected := true, name := if name != "" then name else p.name);
    c.(st := c.st.(players := c.st.players[k := p']))
  }

  function Enter(c: Core, wanted: string, name: string, env: Env): Core {
    var pos := if wanted != "" then c.pos else c.pos + 4;
    var st' := Seat(c.st, NewPlayerId(wanted, env, c.pos), name, PickColor(c.st.players, env, pos));
    c.(st := st', pos := pos + 1)
  }

  function Welcome(c: Core, id: string): Outcomes {
    var out := Announce(c, [Direct(id, PlayerWelcome(id))]);
    Outcomes(out.core, out.sent + ResendRole(out.core, id))
  }

  function HandleJoin(c: Core, askedId: string, name: string, from: string, env: Env): Outcomes {
    var wanted := if askedId != "" then askedId else from;
    var known := if wanted == "" then None else FindPlayer(c.st.players, wanted);
    if known.Some? then Welcome(Rejoin(c, known.value, name), wanted)
    else if c.st.status != LOBBY && c.st.status != WRITING then Refuse(c, from, GameInProgress)
    else Welcome(Enter(c, wanted, name, env), NewPlayerId(wanted, env, c.pos))
  }

  function Positive(patch: Option<int>, current: int): int {
    if patch.Some? && patch.value > 0 then patch.value else current
  }

  function PatchConfig(cfg: Config, p: ConfigPatch): Config {
    Config(
      Positive(p.wordsPerPlayer, cfg.wordsPerPlayer),
      Positive(p.targetScore, cfg.targetScore),
      Positive(p.strokesPerArtist, cfg.strokesPerArtist),
      Positive(p.minPlayers, cfg.minPlayers),
      if p.turnDuration.Some? && p.turnDuration.value >= 0 then p.turnDuration.value else cfg.turnDuration)
  }

  function HandleConfigure(c: Core, patch: ConfigPatch, from: string): Outcomes {
    if from != c.st.hostId || c.st.status != LOBBY then Quiet(c)
    else Announce(c.(st := c.st.(config := PatchConfig(c.st.config, patch))), [])
  }

  /** The cards minted for the words that are not blank; each mint reads the random source four times. */
  function MintCards(words: seq<string>, author: string, env: Env, pos: nat): (seq<WordCard>, nat) {
    if words == [] then ([], pos)
    else
      var (cards, at) := MintCards(words[..|words| - 1], author, env, pos);
      var w := env.trim(words[|words| - 1]);
      if w == "" then (cards, at) else (cards + [WordCard(env.cardId(at), Some(w), author, false)], at + 4)
  }

  function HandleSubmitWords(c: Core, words: seq<string>, from: string, env: Env): Outcomes {
    if c.st.status != WRITING then Quiet(c)
    else
      match FindPlayer(c.st.players, from)
      case None => Quiet(c)
      case Some(k) =>
        var p := c.st.players[k];
        if p.hasSubmitted then Quiet(c)
        else
          var (cards, pos) := MintCards(words, p.id, env, c.pos);
          var st' := c.st.(pool := c.st.pool + cards, players := c.st.players[k := p.(hasSubmitted := true)]);
          Announce(c.(st := st', pos := pos), [])
  }

  function HandleStartGame(c: Core, from: string): Outcomes {
    if from != c.st.hostId || c.st.status != LOBBY then Quiet(c)
    else if |c.st.players| < c.st.config.minPlayers then Refuse(c, from, NeedPlayers(c.st.config.minPlayers))
    else Announce(c.(st := c.st.(status := WRITING)), [])
  }

  predicate AllSubmitted(players: seq<Player>) {
    forall p :: p in players ==> p.hasSubmitted
  }

  function NextIndex(st: GameState): nat {
    if st.currentRound.Some? then st.currentRound.value.index + 1 else 0
  }

  function NewRound(index: nat, cardId: string, fakeId: Option<string>, order: seq<string>): Round {
    Round(index, Some(cardId), fakeId, order, 0, [], Some(map[]), 0, None, Unset, None)
  }

  function RoleMessages(order: seq<string>, fake: Option<string>, word: string): seq<Emission> {
    seq(|order|, i requires 0 <= i < |order| =>
      var isFake := Some(order[i]) == fake;
      Direct(order[i], YourRole(isFake, if isFake then None else Some(word))))
  }

  /** prepareRound: false when there are too few players or no card left. */
  function PrepareRound(c: Core, env: Env): (bool, Outcomes) {
    if |c.st.players| < c.st.config.minPlayers then (false, Quiet(c))
    else
      var available := Available(c.st.pool);
      if available == [] then (false, Quiet(c.(st := GameOver(c.st))))
      else
        var card := available[Pick(env.rng(c.pos), |available|)];
        var c' := Deal(c.(pos := c.pos + 1), card, env);
        var r := c'.st.currentRound.value;
        (true, Outcomes(c', RoleMessages(r.turnOrder, r.fakeId, OrEmpty(card.word))))
  }

  /** The chosen card is marked used, the order shuffled, the fake picked, the round opened. */
  function Deal(c: Core, card: WordCard, env: Env): (c': Core)
    ensures c'.st.currentRound.Some?
  {
    var order := TurnOrder(Ids(c.st.players), env, c.pos);
    var pos := c.pos + ShuffleCalls(|order|);
    var fake := if order == [] then None else Some(order[Pick(env.rng(pos), |order|)]);
    var st' := c.st.(
      pool := MarkUsed(c.st.pool, card.id),
      currentRound := Some(NewRound(NextIndex(c.st), card.id, fake, order)),
      status := ROUND_ANNOUNCE);
    c.(st := st', word := Some(OrEmpty(card.word)), pos := pos + 1)
  }

  /** prepareRoundServer up to its await. */
  function BeginDraw(c: Core, from: string): Core {
    if !c.drawer || |c.st.players| < c.st.config.minPlayers then c
    else c.(awaiting := c.awaiting + [Ticket(from, Ids(c.st.players), Available(c.st.pool), NextIndex(c.st))])
  }

  function HandleStartRound(c: Core, from: string, env: Env): Outcomes {
    if from != c.st.hostId then Quiet(c)
    else if c.st.status == WRITING then
      if !AllSubmitted(c.st.players) then Refuse(c, from, WaitingForWords)
      else if c.drawer then Quiet(BeginDraw(c, from))
      else
        var (ok, out) := PrepareRound(c, env);
        if ok then Announce(out.core, out.sent)
        else Outcomes(out.core, out.sent + [Direct(from, ErrorEvent(CannotStart))])
    else if c.st.status == ROUND_ANNOUNCE then Announce(c.(st := c.st.(status := DRAWING)), [])
    else Quiet(c)
  }

  function CurrentTurn(r: Round): string {
    if r.turnOrder == [] then "" else r.turnOrder[r.strokeIndex % |r.turnOrder|]
  }

  function HandleSubmitStroke(c: Core, points: seq<Point>, from: string): Outcomes {
    if c.st.status != DRAWING || c.st.currentRound.None? then Quiet(c)
    else
      var r := c.st.currentRound.value;
      if from != CurrentTurn(r) then Refuse(c, from, NotYourTurn)
      else if |points| < 2 then Quiet(c)
      else
        match FindPlayer(c.st.players, from)
        case None => Quiet(c)
        case Some(k) =>
          var stroke := Stroke(from, c.st.players[k].color, points);
          var r' := r.(strokes := r.strokes + [stroke], strokeIndex := r.strokeIndex + 1);
          var status := if r'.strokeIndex >= c.st.config.strokesPerArtist * |r.turnOrder| then VOTING else DRAWING;
          Announce(c.(st := c.st.(currentRound := Some(r'), status := status)),
                   [Broadcast(StrokeAdded(stroke, r'.strokeIndex))])
  }

  function Finalize(c: Core, caught: bool, guessedRight: bool): Core
    requires c.st.currentRound.Some?
  {
    var r := c.st.currentRound.value;
    var outcome := if caught && !guessedRight then ArtistsWon else FakeWon;
    var players :=
      if caught && guessedRight then AwardFake(c.st.players, r.fakeId, 2)
      else if caught then AwardArtists(c.st.players, r.turnOrder, r.fakeId)
      else AwardFake(c.st.players, r.fakeId, 1);
    var r' := r.(revealedWord := Some(OrEmpty(c.word)), outcome := outcome);
    c.(st := c.st.(players := players, currentRound := Some(r'), status := ROUND_SUMMARY))
  }

  function Votes(r: Round): map<string, string> {
    if r.votes.Some? then r.votes.value else map[]
  }

  ghost function HandleCastVote(c: Core, suspect: string, from: string): Outcomes {
    if c.st.status != VOTING || c.st.currentRound.None? then Quiet(c)
    else
      var r := c.st.currentRound.value;
      if from !in r.turnOrder || suspect !in r.turnOrder then Quiet(c)
      else
        var votes := Votes(r)[from := suspect];
        var r' := r.(votes := Some(votes), votesCast := |votes|);
        var c' := c.(st := c.st.(currentRound := Some(r')));
        if |votes| < |r.turnOrder| then Announce(c', [])
        else if Caught(r') then Announce(c'.(st := c'.st.(status := FAKE_GUESS)), [])
        else Announce(Finalize(c', false, false), [])
  }

  function GuessIsRight(word: Option<string>, guess: string, env: Env): bool {
    var g := env.lower(env.trim(guess));
    g != "" && g == env.lower(env.trim(OrEmpty(word)))
  }

  function HandleFakeGuess(c: Core, guess: string, from: string, env: Env): Outcomes {
    if c.st.status != FAKE_GUESS || c.st.currentRound.None? then Quiet(c)
    else
      var r := c.st.currentRound.value;
      if r.fakeId != Some(from) then Quiet(c)
      else
        var c' := c.(st := c.st.(currentRound := Some(r.(fakeGuess := Some(guess)))));
        Announce(Finalize(c', true, GuessIsRight(c.word, guess, env)), [])
  }

  function Archive(st: GameState): GameState {
    if st.currentRound.None? || exists p :: p in st.pastRounds && p.index == st.currentRound.value.index then st
    else st.(pastRounds := st.pastRounds + [st.currentRound.value])
  }

  predicate IsOver(st: GameState) {
    || (exists p :: p in st.players && p.score >= st.config.targetScore)
    || (forall card :: card in st.pool ==> card.used)
  }

  function HandleNextRound(c: Core, from: string, env: Env): Outcomes {
    if from != c.st.hostId || c.st.status != ROUND_SUMMARY then Quiet(c)
    else
      var c1 := c.(st := Archive(c.st));
      if IsOver(c1.st) then Announce(c1.(st := GameOver(c1.st)), [])
      else if c.drawer then Quiet(BeginDraw(c1, from))
      else
        var (_, out) := PrepareRound(c1, env);
        Announce(out.core, out.sent)
  }

  function HandleEndGame(c: Core, from: string): Outcomes {
    if from != c.st.hostId then Quiet(c)
    else
      var st' := if c.st.status == ROUND_SUMMARY then Archive(c.st) else c.st;
      Announce(c.(st := GameOver(st')), [])
  }

  ghost function Dispatch(c: Core, cmd: Command, from: string, env: Env): Outcomes {
    match cmd
    case JoinGame(id, name) => HandleJoin(c, id, name, from, env)
    case ConfigureGame(patch) => HandleConfigure(c, patch, from)
    case SubmitWords(words) => HandleSubmitWords(c, words, from, env)
    case StartGame => HandleStartGame(c, from)
    case StartRound => HandleStartRound(c, from, env)
    case SubmitStroke(points) => HandleSubmitStroke(c, points, from)
    case CastVote(suspect) => HandleCastVote(c, suspect, from)
    case SubmitFakeGuess(guess) => HandleFakeGuess(c, guess, from, env)
    case NextRound => HandleNextRound(c, from, env)
    case EndGame => HandleEndGame(c, from)
  }

  // ---- the server draw after its await ----

  datatype Assignment = Assignment(isFake: bool, word: Option<string>)

  datatype DrawResponse = DrawResponse(cardId: string, commitment: string, assignments: Option<seq<(string, Assignment)>>)

  /** The last entry marked fake, "" when there is none. */
  function AssignedFake(entries: seq<(string, Assignment)>): string {
    if entries == [] then ""
    else
      var last := entries[|entries| - 1];
      if last.1.isFake then last.0 else AssignedFake(entries[..|entries| - 1])
  }

  /** The last non-empty word given to an artist. */
  function AssignedWord(entries: seq<(string, Assignment)>): string {
    if entries == [] then ""
    else
      var last := entries[|entries| - 1];
      if !last.1.isFake && OrEmpty(last.1.word) != "" then last.1.word.value else AssignedWord(entries[..|entries| - 1])
  }

  function Lookup(entries: seq<(string, Assignment)>, id: string): Option<Assignment> {
    if entries == [] then None
    else if entries[0].0 == id then Some(entries[0].1)
    else Lookup(entries[1..], id)
  }

  function Entries(res: DrawResponse): seq<(string, Assignment)> {
    if res.assignments.Some? then res.assignments.value else []
  }

  /** The i-th outstanding draw is answered. */
  function CompleteDraw(c: Core, i: nat, res: DrawResponse, env: Env): Outcomes
    requires i < |c.awaiting|
  {
    var t := c.awaiting[i];
    var entries := Entries(res);
    var order := TurnOrder(t.players, env, c.pos);
    var own := Lookup(entries, t.host);
    var st' := c.st.(
      pool := MarkUsed(c.st.pool, res.cardId),
      currentRound := Some(NewRound(t.roundIndex, res.cardId, Some(AssignedFake(entries)), order)),
      status := ROUND_ANNOUNCE);
    var c' := c.(
      st := st', word := Some(AssignedWord(entries)), commitment := Some(res.commitment),
      pos := c.pos + ShuffleCalls(|order|), awaiting := Without(c.awaiting, i));
    Announce(c', if own.Some? then [Direct(t.host, YourRole(own.value.isFake, own.value.word))] else [])
  }

  /** The i-th outstanding draw fails: nothing but an error to the host who asked. */
  function FailDraw(c: Core, i: nat, reason: string): Outcomes
    requires i < |c.awaiting|
  {
    Refuse(c.(awaiting := Without(c.awaiting, i)), c.awaiting[i].host, DrawFailed(reason))
  }
}
