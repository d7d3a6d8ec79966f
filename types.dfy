/** Shapes of the game record shared by the server and its clients:
    teams, players, phases and revealed answers. */
module FeudTypes {

  datatype Option<+T> = None | Some(value: T) {
    function GetOr(default: T): T {
      match this
      case Some(v) => v
      case None => default
    }
  }

  type ClientId = string

  datatype TeamId = TeamA | TeamB {
    /** The team that is not this one. */
    function Other(): (o: TeamId)
      ensures o != this
    {
      if this == TeamA then TeamB else TeamA
    }
  }

  /** The wire names of the two teams, as the host sends them in `set-team`. */
  function TeamIdOf(name: string): (t: Option<TeamId>)
    ensures t == Some(TeamA) <==> name == "teamA"
    ensures t == Some(TeamB) <==> name == "teamB"
  {
    if name == "teamA" then Some(TeamA)
    else if name == "teamB" then Some(TeamB)
    else None
  }

  /** Every phase a game can be in. The fast-money phases and `GameOver` are
      declared but no handler ever enters them. */
  datatype Phase =
    | Lobby
    | FaceOff
    | PlayOrPass
    | RoundPlay
    | TeamSteal
    | RoundEnd
    | FastMoneyP1
    | FastMoneyP2
    | GameOver

  /** The string the server stores for each phase. */
  function PhaseName(p: Phase): string {
    match p
    case Lobby => "lobby"
    case FaceOff => "face-off"
    case PlayOrPass => "play-or-pass"
    case RoundPlay => "round-play"
    case TeamSteal => "team-steal"
    case RoundEnd => "round-end"
    case FastMoneyP1 => "fast-money-p1"
    case FastMoneyP2 => "fast-money-p2"
    case GameOver => "game-over"
  }

  /** One ranked answer of a survey question. */
  datatype Answer = Answer(text: string, points: int)

  datatype Question = Question(prompt: string, answers: seq<Answer>)

  /** An answer on the board, tagged with the team that found it. */
  datatype RevealedAnswer = RevealedAnswer(text: string, points: int, revealedBy: TeamId)

  datatype Player = Player(id: ClientId, name: string, team: TeamId)

  datatype Team = Team(name: string, score: int, strikes: int)

  /** The `teams` record: exactly one entry per team id. */
  datatype Teams = Teams(teamA: Team, teamB: Team) {
    function Get(t: TeamId): Team {
      if t == TeamA then teamA else teamB
    }

    /** Replaces the entry of team `t`; the other entry is left alone. */
    function With(t: TeamId, team: Team): (r: Teams)
      ensures r.Get(t) == team && r.Get(t.Other()) == Get(t.Other())
    {
      if t == TeamA then this.(teamA := team) else this.(teamB := team)
    }
  }

  /** A recorded face-off buzz. */
  datatype BuzzEvent = BuzzEvent(playerId: ClientId, playerName: string, team: TeamId, timestamp: int)
}
