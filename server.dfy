/** The server's mutable state: one `Game` object per room, updated in
    place by the message handler, and the registry of rooms (`games`) and
    of connections (`sockets`). Every method is proved to do to its object
    exactly what the matching function of `GameRules` does to the record. */
module GameServer {
  import opened FeudTypes
  import opened AnswerMatcher
  import opened GameRules

  /** The `game` object of one room. */
  class Game {
    const code: string
    const hostId: ClientId
    var teams: Teams
    var players: seq<Player>
    var phase: Phase
    var currentRound: int
    var pointMultiplier: int
    var questionIndex: Option<int>
    var currentQuestion: Option<Question>
    var roundEndsAt: Option<int>
    var roundDuration: int
    var revealedAnswers: seq<RevealedAnswer>
    var faceOffBuzzers: seq<BuzzEvent>
    var faceOffWinner: Option<Player>
    var controllingTeam: Option<TeamId>
    var currentTurnTeam: Option<TeamId>
    var currentPlayerIndex: int
    var stealingTeam: Option<TeamId>
    var stealAnswer: Option<string>
    var winningTeam: Option<TeamId>

    /** The object's fields as a record. */
    function Snapshot(): State
      reads this
    {
      State(code, hostId, teams, players, phase, currentRound, pointMultiplier,
            questionIndex, currentQuestion, roundEndsAt, roundDuration, revealedAnswers,
            faceOffBuzzers, faceOffWinner, controllingTeam, currentTurnTeam,
            currentPlayerIndex, stealingTeam, stealAnswer, winningTeam)
    }

    ghost predicate Valid()
      reads this
    {
      GameRules.Valid(Snapshot())
    }

    /** `create`: a fresh game for `code`, hosted by its creator, with no
        players. */
    constructor (code: string, hostId: ClientId)
      ensures Snapshot() == BaseState(code, hostId)
      ensures Valid()
    {
      this.code := code;
      this.hostId := hostId;
      teams := Teams(Team("Team A", 0, 0), Team("Team B", 0, 0));
      players := [];
      phase := Lobby;
      currentRound := 0;
      pointMultiplier := 1;
      questionIndex := None;
      currentQuestion := None;
      roundEndsAt := None;
      roundDuration := INITIAL_ROUND_DURATION;
      revealedAnswers := [];
      faceOffBuzzers := [];
      faceOffWinner := None;
      controllingTeam := None;
      currentTurnTeam := None;
      currentPlayerIndex := 0;
      stealingTeam := None;
      stealAnswer := None;
      winningTeam := None;
      BaseStateValid(code, hostId);
    }

    /** The game side of `join`. */
    method AddPlayer(id: ClientId, name: Option<string>)
      modifies this
      ensures Snapshot() == GameRules.AddPlayer(old(Snapshot()), id, name)
    {
      var team := GetTeamToBalance(players);
      players := players + [Player(id, DisplayName(name), team)];
    }

    /** The game side of `cleanupSocket`. */
    method RemovePlayer(id: ClientId)
      modifies this
      ensures Snapshot() == GameRules.RemovePlayer(old(Snapshot()), id)
    {
      players := WithoutId(players, id);
    }

    /** `set-team`. */
    method SetTeam(sender: ClientId, playerId: Option<ClientId>, team: Option<string>)
      modifies this
      ensures Snapshot() == GameRules.SetTeam(old(Snapshot()), sender, playerId, team)
    {
      if sender != hostId || playerId.None? || team.None? { return; }
      var found := FindPlayer(players, playerId.value);
      var t := TeamIdOf(team.value);
      if found.None? || t.None? { return; }
      var i := found.value;
      players := players[i := players[i].(team := t.value)];
      // the winner is the same object as this entry
      if faceOffWinner.Some? && faceOffWinner.value.id == playerId.value {
        faceOffWinner := Some(faceOffWinner.value.(team := t.value));
      }
    }

    /** `start-round`; `notFound` says that "Question not found" goes back
        to the sender. */
    method StartRound(sender: ClientId, bank: seq<Question>, index: int, duration: int) returns (notFound: bool)
      modifies this
      ensures notFound == StartRoundFails(old(Snapshot()), sender, bank, index)
      ensures Snapshot() == GameRules.StartRound(old(Snapshot()), sender, bank, index, duration)
    {
      notFound := false;
      if sender != hostId { return; }
      var question := QuestionAt(bank, index);
      if question.None? {
        notFound := true;
        return;
      }
      SetQuestion(index, question.value, duration);
      ClearBoard();
      ClearFaceOff();
    }

    /** The face-off of question `q`, number `index` of the bank, with a
        round of `duration` seconds. */
    method SetQuestion(index: int, q: Question, duration: int)
      modifies this
      ensures Snapshot() == old(Snapshot()).(phase := FaceOff, questionIndex := Some(index),
        currentQuestion := Some(q), roundDuration := duration)
    {
      phase := FaceOff;
      questionIndex := Some(index);
      currentQuestion := Some(q);
      roundDuration := duration;
    }

    /** The board of a new round: no answers revealed and no strikes. */
    method ClearBoard()
      modifies this
      ensures Snapshot() == old(Snapshot()).(revealedAnswers := [],
        teams := Teams(old(teams.teamA).(strikes := 0), old(teams.teamB).(strikes := 0)))
    {
      revealedAnswers := [];
      teams := teams.(teamA := teams.teamA.(strikes := 0));
      teams := teams.(teamB := teams.teamB.(strikes := 0));
    }

    /** No face-off buzz, winner or turn yet. */
    method ClearFaceOff()
      modifies this
      ensures Snapshot() == old(Snapshot()).(faceOffBuzzers := [], faceOffWinner := None,
        controllingTeam := None, currentTurnTeam := None, currentPlayerIndex := 0)
    {
      faceOffBuzzers := [];
      faceOffWinner := None;
      controllingTeam := None;
      currentTurnTeam := None;
      currentPlayerIndex := 0;
    }

    /** `buzz-in`. */
    method BuzzIn(sender: ClientId, now: int)
      modifies this
      ensures Snapshot() == GameRules.BuzzIn(old(Snapshot()), sender, now)
    {
      if phase != FaceOff { return; }
      var found := FindPlayer(players, sender);
      if found.None? { return; }
      var player := players[found.value];
      var buzz := BuzzEvent(player.id, player.name, player.team, now);
      if |faceOffBuzzers| == 0 {
        faceOffBuzzers := faceOffBuzzers + [buzz];
        faceOffWinner := Some(player);
        phase := PlayOrPass;
      }
    }

    /** `choose-play-pass`. */
    method ChoosePlayPass(sender: ClientId, choice: Option<string>, now: int)
      modifies this
      ensures Snapshot() == GameRules.ChoosePlayPass(old(Snapshot()), sender, choice, now)
    {
      if sender != hostId { return; }
      if phase != PlayOrPass { return; }
      if faceOffWinner.None? { return; }
      if choice == Some("play") {
        GiveControl(faceOffWinner.value.team);
      } else {
        var otherTeam := faceOffWinner.value.team.Other();
        GiveControl(otherTeam);
      }
      phase := RoundPlay;
      roundEndsAt := Some(now + roundDuration * 1000);
      currentPlayerIndex := 0;
    }

    /** Team `t` controls the board and has the turn. */
    method GiveControl(t: TeamId)
      modifies this
      ensures Snapshot() == old(Snapshot()).(controllingTeam := Some(t), currentTurnTeam := Some(t))
    {
      controllingTeam := Some(t);
      currentTurnTeam := Some(t);
    }

    /** `answer`. */
    method SubmitAnswer(sender: ClientId, text: Option<string>)
      modifies this
      ensures Snapshot() == GameRules.SubmitAnswer(old(Snapshot()), sender, text)
    {
      if phase != RoundPlay || currentQuestion.None? { return; }
      var found := FindPlayer(players, sender);
      if found.None? { return; }
      var player := players[found.value];
      if !UsableText(text) { return; }
      var match_ := EvaluateAnswer(currentQuestion.value, text.value, revealedAnswers);
      if match_.Some? {
        Reveal(player.team, match_.value);
      } else {
        Strike(player.team);
      }
    }

    /** The board and score update of a match for team `t`. */
    method Reveal(t: TeamId, m: Answer)
      modifies this
      ensures Snapshot() == GameRules.Reveal(old(Snapshot()), t, m)
    {
      var team := teams.Get(t);
      revealedAnswers := revealedAnswers + [RevealedAnswer(m.text, m.points, t)];
      teams := teams.With(t, team.(score := team.score + m.points * pointMultiplier));
    }

    /** The strike of a miss by team `t`. */
    method Strike(t: TeamId)
      modifies this
      ensures Snapshot() == GameRules.Strike(old(Snapshot()), t)
    {
      var team := teams.Get(t);
      var strikes := if team.strikes + 1 < MAX_STRIKES then team.strikes + 1 else MAX_STRIKES;
      teams := teams.With(t, team.(strikes := strikes));
      if strikes >= MAX_STRIKES {
        phase := TeamSteal;
        stealingTeam := Some(t.Other());
      }
    }

    /** `steal-attempt`. */
    method StealAttempt(text: Option<string>)
      requires StealReady(Snapshot())
      modifies this
      ensures Snapshot() == GameRules.StealAttempt(old(Snapshot()), text)
    {
      if phase != TeamSteal { return; }
      if !UsableText(text) { return; }
      var match_ := EvaluateAnswer(currentQuestion.value, text.value, revealedAnswers);
      if match_.Some? {
        Reveal(stealingTeam.value, match_.value);
      }
      EndRound();
    }

    /** The round is over and its deadline cleared. */
    method EndRound()
      modifies this
      ensures Snapshot() == old(Snapshot()).(phase := RoundEnd, roundEndsAt := None)
    {
      phase := RoundEnd;
      roundEndsAt := None;
    }

    /** `finish-round`. */
    method FinishRound(sender: ClientId)
      modifies this
      ensures Snapshot() == GameRules.FinishRound(old(Snapshot()), sender)
    {
      if sender != hostId { return; }
      EndRound();
    }

    /** `reset`: the fields of a fresh game are written back group by group,
        and then the saved scores. */
    method Reset(sender: ClientId)
      modifies this
      ensures Snapshot() == GameRules.Reset(old(Snapshot()), sender)
    {
      if sender != hostId { return; }
      var scoreA, scoreB := teams.teamA.score, teams.teamB.score;
      ResetLobby();
      ResetRoundCounters();
      ResetTimerAndBoard();
      ClearFaceOff();
      ResetStealAndWin();
      teams := teams.(teamA := teams.teamA.(score := scoreA));
      teams := teams.(teamB := teams.teamB.(score := scoreB));
    }

    /** Fresh teams, no players, back in the lobby. */
    method ResetLobby()
      modifies this
      ensures Snapshot() == old(Snapshot()).(teams := Teams(Team("Team A", 0, 0), Team("Team B", 0, 0)),
        players := [], phase := Lobby)
    {
      teams := Teams(Team("Team A", 0, 0), Team("Team B", 0, 0));
      players := [];
      phase := Lobby;
    }

    /** The round counters of a fresh game. */
    method ResetRoundCounters()
      modifies this
      ensures Snapshot() == old(Snapshot()).(currentRound := 0, pointMultiplier := 1, questionIndex := None)
    {
      currentRound := 0;
      pointMultiplier := 1;
      questionIndex := None;
    }

    /** The deadline, duration and board of a fresh game. */
    method ResetTimerAndBoard()
      modifies this
      ensures Snapshot() == old(Snapshot()).(roundEndsAt := None, roundDuration := INITIAL_ROUND_DURATION,
        revealedAnswers := [])
    {
      roundEndsAt := None;
      roundDuration := INITIAL_ROUND_DURATION;
      revealedAnswers := [];
    }

    /** No steal under way and no winner. */
    method ResetStealAndWin()
      modifies this
      ensures Snapshot() == old(Snapshot()).(stealingTeam := None, stealAnswer := None, winningTeam := None)
    {
      stealingTeam := None;
      stealAnswer := None;
      winningTeam := None;
    }

    /** The handler for a routed message; `notFound` is the "Question not
        found" reply of `start-round`. */
    method Handle(sender: ClientId, a: Action, bank: seq<Question>, now: int) returns (notFound: bool)
      requires Valid()
      modifies this
      ensures notFound <==>
        a.StartRoundAction? && StartRoundFails(old(Snapshot()), sender, bank, a.questionIndex.GetOr(DEFAULT_QUESTION_INDEX))
      ensures Snapshot() == GameRules.Handle(old(Snapshot()), sender, a, bank, now)
    {
      notFound := false;
      match a
      case SetTeamAction(playerId, team) => SetTeam(sender, playerId, team);
      case StartRoundAction(index, duration) =>
        notFound := StartRound(sender, bank, index.GetOr(DEFAULT_QUESTION_INDEX), duration.GetOr(DEFAULT_DURATION));
      case BuzzInAction => BuzzIn(sender, now);
      case ChoosePlayPassAction(choice) => ChoosePlayPass(sender, choice, now);
      case AnswerAction(text) => SubmitAnswer(sender, text);
      case StealAttemptAction(text) => StealAttempt(text);
      case FinishRoundAction => FinishRound(sender);
      case ResetAction => Reset(sender);
      case UnknownAction(_) =>
    }
  }

  /** An opaque handle on one live connection. */
  type ConnId = int

  /** What the registry remembers of a connection. */
  datatype Meta = Meta(gameCode: string, clientId: ClientId)

  /** The JSON messages a connection sends. */
  datatype Message =
    | CreateMessage
    | JoinMessage(code: Option<string>, name: Option<string>)
    | ActionMessage(action: Action)

  /** What goes back to the sender alone (the state broadcast aside). */
  datatype Reply =
    | Created(code: string)
    | Joined(code: string)
    | ErrorReply(message: string)
    | NoReply

  /** Where the message of a connection goes. */
  datatype Route = Routed(game: Game) | NotJoined | GameMissing

  /** The two process-wide maps: room code to game, connection to its room
      and identity. */
  class Registry {
    var games: map<string, Game>
    var sockets: map<ConnId, Meta>
    /** The identities of the connections that have closed. */
    ghost var departed: set<ClientId>

    ghost predicate Valid()
      reads this, games.Values
    {
      && (forall c | c in games :: games[c].code == c && games[c].Valid())
      && (forall c, id | c in games && RejoinsAsWinner(games[c].Snapshot(), id) :: id in departed)
      && (forall k | k in sockets :: sockets[k].gameCode in games)
    }

    constructor ()
      ensures Valid() && games == map[] && sockets == map[] && departed == {}
    {
      games := map[];
      sockets := map[];
      departed := {};
    }

    /** `create`: a new game under `code` (a game already under that code is
        replaced), hosted by the sender. */
    method Create(conn: ConnId, clientId: ClientId, code: string)
      requires Valid()
      modifies this
      ensures Valid()
      ensures games.Keys == old(games.Keys) + {code} && fresh(games[code])
      ensures games[code].Snapshot() == BaseState(code, clientId)
      ensures forall c | c in games && c != code :: games[c] == old(games[c])
      ensures sockets == old(sockets)[conn := Meta(code, clientId)]
      ensures departed == old(departed)
    {
      var game := new Game(code, clientId);
      games := games[code := game];
      sockets := sockets[conn := Meta(code, clientId)];
    }

    /** `join`: `found` is false, and nothing changes, when no game has that
        code. */
    method Join(conn: ConnId, clientId: ClientId, code: Option<string>, name: Option<string>) returns (found: bool)
      requires Valid() && clientId !in departed
      modifies this, games.Values
      ensures Valid()
      ensures found <==> code.Some? && code.value in old(games)
      ensures games == old(games) && departed == old(departed)
      ensures !found ==> sockets == old(sockets) && forall c | c in games :: unchanged(games[c])
      ensures found ==>
        && games[code.value].Snapshot() == GameRules.AddPlayer(old(games[code.value].Snapshot()), clientId, name)
        && (forall c | c in games && c != code.value :: unchanged(games[c]))
        && sockets == old(sockets)[conn := Meta(code.value, clientId)]
    {
      if code.None? || code.value !in games {
        return false;
      }
      var game := games[code.value];
      ghost var before := game.Snapshot();
      assert !RejoinsAsWinner(before, clientId);
      AddPlayerKeepsValid(before, clientId, name);
      game.AddPlayer(clientId, name);
      sockets := sockets[conn := Meta(code.value, clientId)];
      found := true;
      forall c, id | c in games && RejoinsAsWinner(games[c].Snapshot(), id)
        ensures id in departed
      {
        if c == code.value {
          JoinKeepsDepartures(before, clientId, name, id);
        }
      }
    }

    /** `cleanupSocket`: the closed connection's identity leaves its room's
        player list and the connection is forgotten. */
    method Cleanup(conn: ConnId)
      requires Valid()
      modifies this, games.Values
      ensures Valid()
      ensures games == old(games)
      ensures sockets == old(sockets) - {conn}
      ensures departed == if conn in old(sockets) then old(departed) + {old(sockets[conn].clientId)} else old(departed)
      ensures conn in old(sockets) && old(sockets[conn].gameCode) in games ==>
        var g := games[old(sockets[conn].gameCode)];
        g.Snapshot() == GameRules.RemovePlayer(old(g.Snapshot()), old(sockets[conn].clientId))
      ensures forall c | c in games && (conn !in old(sockets) || c != old(sockets[conn].gameCode)) :: unchanged(games[c])
    {
      if conn !in sockets { return; }
      var meta := sockets[conn];
      if meta.gameCode in games {
        var game := games[meta.gameCode];
        ghost var before := game.Snapshot();
        RemovePlayerKeepsValid(before, meta.clientId);
        game.RemovePlayer(meta.clientId);
        forall id | RejoinsAsWinner(game.Snapshot(), id)
          ensures RejoinsAsWinner(before, id) || id == meta.clientId
        {
          LeaveKeepsDepartures(before, meta.clientId, id);
        }
      }
      sockets := sockets - {conn};
      departed := departed + {meta.clientId};
    }

    /** Where a message of connection `conn` goes once it is neither
        `create` nor `join`. */
    function Route(conn: ConnId): (r: Route)
      reads this, games.Values
      ensures r.NotJoined? <==> conn !in sockets
      ensures r.GameMissing? <==> conn in sockets && sockets[conn].gameCode !in games
      ensures r.Routed? ==> conn in sockets && sockets[conn].gameCode in games && r.game == games[sockets[conn].gameCode]
      ensures Valid() ==> !r.GameMissing?
    {
      if conn !in sockets then NotJoined
      else if sockets[conn].gameCode !in games then GameMissing
      else Routed(games[sockets[conn].gameCode])
    }

    /** The `message` handler of connection `conn`, whose identity is
        `clientId`; `code` is the room code a `create` draws. */
    method Receive(conn: ConnId, clientId: ClientId, msg: Message, bank: seq<Question>, now: int, code: string)
      returns (reply: Reply)
      requires Valid() && clientId !in departed
      modifies this, games.Values
      ensures Valid() && departed == old(departed)
      ensures msg.CreateMessage? ==>
        && reply == Created(code)
        && games.Keys == old(games.Keys) + {code} && fresh(games[code])
        && games[code].Snapshot() == BaseState(code, clientId)
        && (forall c | c in games && c != code :: games[c] == old(games[c]) && unchanged(games[c]))
        && sockets == old(sockets)[conn := Meta(code, clientId)]
      ensures msg.JoinMessage? ==>
        var found := msg.code.Some? && msg.code.value in old(games);
        && reply == (if found then Joined(msg.code.value) else ErrorReply("Game not found"))
        && games == old(games)
        && (!found ==> sockets == old(sockets) && forall c | c in games :: unchanged(games[c]))
        && (found ==>
              && games[msg.code.value].Snapshot() == GameRules.AddPlayer(old(games[msg.code.value].Snapshot()), clientId, msg.name)
              && (forall c | c in games && c != msg.code.value :: unchanged(games[c]))
              && sockets == old(sockets)[conn := Meta(msg.code.value, clientId)])
      ensures msg.ActionMessage? ==> match old(Route(conn))
        case NotJoined =>
          reply == ErrorReply("Join a game first") && unchanged(this) && forall c | c in games :: unchanged(games[c])
        case GameMissing => false
        case Routed(g) =>
          && g.Snapshot() == GameRules.Handle(old(g.Snapshot()), clientId, msg.action, bank, now)
          && (reply == ErrorReply("Question not found") <==>
                msg.action.StartRoundAction?
                && StartRoundFails(old(g.Snapshot()), clientId, bank, msg.action.questionIndex.GetOr(DEFAULT_QUESTION_INDEX)))
          && (reply != ErrorReply("Question not found") ==> reply == NoReply)
          && games == old(games) && sockets == old(sockets)
          && forall c | c in games && games[c] != g :: unchanged(games[c])
    {
      match msg
      case CreateMessage =>
        Create(conn, clientId, code);
        reply := Created(code);
      case JoinMessage(joinCode, name) =>
        var found := Join(conn, clientId, joinCode, name);
        reply := if found then Joined(joinCode.value) else ErrorReply("Game not found");
      case ActionMessage(a) =>
        reply := Dispatch(conn, clientId, a, bank, now);
    }

    /** A message other than `create` and `join`: routed to the sender's
        room, whose game alone handles it. */
    method Dispatch(conn: ConnId, clientId: ClientId, a: Action, bank: seq<Question>, now: int)
      returns (reply: Reply)
      requires Valid()
      modifies games.Values
      ensures Valid()
      ensures match old(Route(conn))
        case NotJoined =>
          reply == ErrorReply("Join a game first") && forall c | c in games :: unchanged(games[c])
        case GameMissing => false
        case Routed(g) =>
          && g.Snapshot() == GameRules.Handle(old(g.Snapshot()), clientId, a, bank, now)
          && (reply == ErrorReply("Question not found") <==>
                a.StartRoundAction?
                && StartRoundFails(old(g.Snapshot()), clientId, bank, a.questionIndex.GetOr(DEFAULT_QUESTION_INDEX)))
          && (reply != ErrorReply("Question not found") ==> reply == NoReply)
          && forall c | c in games && games[c] != g :: unchanged(games[c])
    {
      var route := Route(conn);
      match route
      case NotJoined =>
        reply := ErrorReply("Join a game first");
      case GameMissing =>
        // "Game missing": every connection's room is registered
        assert false;
      case Routed(game) =>
        var notFound := game.Handle(clientId, a, bank, now);
        reply := if notFound then ErrorReply("Question not found") else NoReply;
        assert forall c, id | c in games && RejoinsAsWinner(games[c].Snapshot(), id) :: id in departed by {
          forall c, id | c in games && RejoinsAsWinner(games[c].Snapshot(), id) ensures id in departed {
            if games[c] == game { RejoinsAsWinnerAfterHandle(old(game.Snapshot()), clientId, a, bank, now, id); }
          }
        }
    }
  }

  /** A message never makes a listed winner unlisted: only a departure can. */
  lemma RejoinsAsWinnerAfterHandle(s: State, sender: ClientId, a: Action, bank: seq<Question>, now: int, id: ClientId)
    requires GameRules.Valid(s)
    ensures RejoinsAsWinner(GameRules.Handle(s, sender, a, bank, now), id) ==> RejoinsAsWinner(s, id)
  {
    var r := GameRules.Handle(s, sender, a, bank, now);
    if RejoinsAsWinner(r, id) && a.SetTeamAction? && r != s {
      SameIdsSameFind(s.players, r.players, id);
    }
  }
  /** A host opens room "ABCD" in a new registry. */
  method OpenRoom() returns (reg: Registry, created: Reply)
    ensures fresh(reg) && reg.Valid() && created == Created("ABCD")
    ensures forall c | c in reg.games :: fresh(reg.games[c])
    ensures reg.games.Keys == {"ABCD"} && reg.games["ABCD"].players == [] && reg.departed == {}
  {
    reg := new Registry();
    created := reg.Receive(0, "host", CreateMessage, [], 0, "ABCD");
  }

  /** A guest joins room "ABCD" on connection 1, then that connection
      closes: the guest's identity has left, and so has its entry. */
  method GuestVisits(reg: Registry) returns (joined: Reply)
    requires reg.Valid() && reg.games.Keys == {"ABCD"} && reg.games["ABCD"].players == [] && reg.departed == {}
    modifies reg, reg.games.Values
    ensures reg.Valid() && joined == Joined("ABCD") && reg.games == old(reg.games)
    ensures reg.games.Keys == {"ABCD"} && reg.games["ABCD"].players == [] && reg.departed == {"guest"}
  {
    joined := reg.Receive(1, "guest", JoinMessage(Some("ABCD"), Some(" Ann ")), [], 0, "WXYZ");
    assert reg.games["ABCD"].players == [Player("guest", DisplayName(Some(" Ann ")), TeamA)];
    reg.Cleanup(1);
  }

  /** A second guest, with a new identity, joins room "ABCD" after the first
      left: it is the room's only player, on team A, named "Guest". */
  method NewGuestJoins(reg: Registry) returns (joined: Reply, players: seq<Player>)
    requires reg.Valid() && reg.games.Keys == {"ABCD"} && reg.games["ABCD"].players == [] && reg.departed == {"guest"}
    modifies reg, reg.games.Values
    ensures reg.Valid() && joined == Joined("ABCD")
    ensures players == [Player("other", GUEST_NAME, TeamA)]
  {
    joined := reg.Receive(2, "other", JoinMessage(Some("ABCD"), None), [], 0, "WXYZ");
    players := reg.games["ABCD"].players;
  }

  /** The three steps in a row: every message is from an identity that is
      still connected, so every call's precondition is met. */
  method HostGuestLeaveRejoin() returns (created: Reply, joined: Reply, rejoined: Reply, players: seq<Player>)
    ensures created == Created("ABCD") && joined == Joined("ABCD") && rejoined == Joined("ABCD")
    ensures players == [Player("other", GUEST_NAME, TeamA)]
  {
    var reg;
    reg, created := OpenRoom();
    joined := GuestVisits(reg);
    rejoined, players := NewGuestJoins(reg);
  }
}
