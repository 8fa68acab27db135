/**
 The records of frontend/p2p/models.ts and protocol.ts, as values.

 Two shapes differ from the source. `winner` is the winner's id, because the source stores a
 reference to an entry of `players`. Identifiers and words are opaque strings.
 */
module Models {
  import opened Prelude

  datatype Status = LOBBY | WRITING | ROUND_ANNOUNCE | DRAWING | VOTING | FAKE_GUESS | ROUND_SUMMARY | GAME_OVER

  // `Unset` is the absent field, `Pending` the empty string that redaction writes.
  datatype Outcome = Unset | Pending | FakeWon | ArtistsWon

  datatype Config = Config(wordsPerPlayer: int, targetScore: int, strokesPerArtist: int, minPlayers: int, turnDuration: int)

  datatype Player = Player(id: string, name: string, color: string, isAdmin: bool, connected: bool, hasSubmitted: bool, score: int)

  datatype WordCard = WordCard(id: string, word: Option<string>, authorId: string, used: bool)

  datatype Point = Point(x: real, y: real)

  datatype Stroke = Stroke(playerId: string, color: string, points: seq<Point>)

  datatype Round = Round(
    index: nat,
    cardId: Option<string>,
    fakeId: Option<string>,
    turnOrder: seq<string>,
    strokeIndex: nat,
    strokes: seq<Stroke>,
    votes: Option<map<string, string>>,
    votesCast: nat,
    fakeGuess: Option<string>,
    outcome: Outcome,
    revealedWord: Option<string>)

  datatype GameState = GameState(
    id: string,
    hostId: string,
    status: Status,
    players: seq<Player>,
    pool: seq<WordCard>,
    poolSize: nat,
    currentRound: Option<Round>,
    pastRounds: seq<Round>,
    config: Config,
    winner: Option<string>)

  const PALETTE: seq<string> := [
    "#E53935", "#1E88E5", "#43A047", "#FB8C00", "#8E24AA",
    "#00ACC1", "#FDD835", "#6D4C41", "#EC407A", "#212121"]

  const DEFAULT_CONFIG := Config(3, 5, 2, 4, 0)

  function NewGameState(id: string, config: Config): GameState {
    GameState(id, "", LOBBY, [], [], 0, None, [], config, None)
  }

  datatype ConfigPatch = ConfigPatch(
    wordsPerPlayer: Option<int>, targetScore: Option<int>, strokesPerArtist: Option<int>, minPlayers: Option<int>, turnDuration: Option<int>)

  datatype Command =
    | JoinGame(id: string, playerName: string)
    | ConfigureGame(patch: ConfigPatch)
    | SubmitWords(words: seq<string>)
    | StartGame
    | StartRound
    | SubmitStroke(points: seq<Point>)
    | CastVote(suspectId: string)
    | SubmitFakeGuess(guess: string)
    | NextRound
    | EndGame

  datatype ErrorText =
    | GameInProgress
    | NeedPlayers(min: int)
    | WaitingForWords
    | CannotStart
    | NotYourTurn
    | DrawFailed(reason: string)

  datatype ServerEvent =
    | StateUpdate(state: GameState)
    | PlayerWelcome(id: string)
    | YourRole(isFake: bool, word: Option<string>)
    | StrokeAdded(stroke: Stroke, strokeIndex: nat)
    | ErrorEvent(message: ErrorText)

  // What the engine hands to its listeners, in order.
  datatype Emission = Broadcast(evt: ServerEvent) | Direct(playerId: string, evt: ServerEvent)
}
