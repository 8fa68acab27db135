/** Frames between host and guests: frontend/p2p/transport.ts and protocol.ts. */
module Transports {
  import opened Prelude
  import opened Models
  import opened ReplicaSpec

  datatype Envelope =
    | CmdEnv(seqNo: nat, cmd: Command)
    | StateEnv(version: nat, state: GameState)
    | StrokeEnv(roundIndex: nat, strokeIndex: nat, stroke: Stroke)
    | RoleEnv(roleRound: nat, isFake: bool, word: Option<string>)
    | WelcomeEnv(id: string)
    | SyncReqEnv(reqRound: nat, fromStrokeIndex: nat)
    | SyncResEnv(resState: GameState, resVersion: nat, strokes: seq<Frame>)
    | ErrorEnv(message: ErrorText)

  function EnvToEvent(env: Envelope): Option<ServerEvent> {
    match env
    case StateEnv(_, st) => Some(StateUpdate(st))
    case StrokeEnv(_, index, stroke) => Some(StrokeAdded(stroke, index))
    case RoleEnv(_, isFake, word) => Some(YourRole(isFake, word))
    case WelcomeEnv(id) => Some(PlayerWelcome(id))
    case ErrorEnv(message) => Some(ErrorEvent(message))
    case _ => None
  }

  function EventToEnv(evt: ServerEvent, version: nat, roundIndex: nat): Envelope {
    match evt
    case StateUpdate(st) => StateEnv(version, st)
    case StrokeAdded(stroke, index) => StrokeEnv(roundIndex, index, stroke)
    case YourRole(isFake, word) => RoleEnv(roundIndex, isFake, word)
    case PlayerWelcome(id) => WelcomeEnv(id)
    case ErrorEvent(message) => ErrorEnv(message)
  }

  /** The stamps an envelope bears: a state its version, a stroke and a role the host's round. */
  lemma EnvelopesAreStamped(evt: ServerEvent, version: nat, roundIndex: nat)
    ensures var env := EventToEnv(evt, version, roundIndex);
            match evt
            case StateUpdate(_) => env.StateEnv? && env.version == version
            case StrokeAdded(_, _) => env.StrokeEnv? && env.roundIndex == roundIndex
            case YourRole(_, _) => env.RoleEnv? && env.roleRound == roundIndex
            case PlayerWelcome(_) => env.WelcomeEnv?
            case ErrorEvent(_) => env.ErrorEnv?
  {
  }

  /** What a listener of the loopback hears of a list of emissions: broadcasts, and directs to itself. */
  function HeardBy(self: string, sent: seq<Emission>): seq<ServerEvent> {
    if sent == [] then []
    else
      var last := sent[|sent| - 1];
      HeardBy(self, sent[..|sent| - 1]) + if last.Broadcast? || last.playerId == self then [last.evt] else []
  }
}
