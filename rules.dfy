/** The game record of one room as a value, and what each branch of the
    server's message handler does to it. Every handler is a function from
    the old record to the new one; `Valid` is the invariant every handler
    keeps, and the lemmas at the end relate several handlers. */
module GameRules {
  import opened FeudTypes
  import opened AnswerMatcher

  /** `roundDuration` of a fresh game, in seconds. */
  const INITIAL_ROUND_DURATION: int := 45
  /** What `start-round` uses when the message leaves the field out. */
  const DEFAULT_QUESTION_INDEX: int := 0
  const DEFAULT_DURATION: int := 45
  const MAX_STRIKES: int := 3
  /** The display name of a player who joins without one. */
  const GUEST_NAME: string := "Guest"

  /** The `game` object. The status `message`, the fast-money fields and
      `currentQuestion`'s absence from a fresh game aside, every field of
      the source's record is here under its own name. */
  datatype State = State(
    code: string,
    hostId: ClientId,
    teams: Teams,
    players: seq<Player>,
    phase: Phase,
    currentRound: int,
    pointMultiplier: int,
    questionIndex: Option<int>,
    currentQuestion: Option<Question>,
    roundEndsAt: Option<int>,
    roundDuration: int,
    revealedAnswers: seq<RevealedAnswer>,
    faceOffBuzzers: seq<BuzzEvent>,
    faceOffWinner: Option<Player>,
    controllingTeam: Option<TeamId>,
    currentTurnTeam: Option<TeamId>,
    currentPlayerIndex: int,
    stealingTeam: Option<TeamId>,
    stealAnswer: Option<string>,
    winningTeam: Option<TeamId>)

  /** A freshly created room: `{ code, hostId, ...baseState() }`. */
  function BaseState(code: string, hostId: ClientId): (s: State)
    ensures s.phase == Lobby && s.players == [] && s.revealedAnswers == []
    ensures s.teams.Get(TeamA).score == 0 && s.teams.Get(TeamB).score == 0
  {
    State(code, hostId,
          Teams(Team("Team A", 0, 0), Team("Team B", 0, 0)),
          [], Lobby, 0, 1, None, None, None, INITIAL_ROUND_DURATION, [],
          [], None, None, None, 0, None, None, None)
  }

  lemma BaseStateValid(code: string, hostId: ClientId)
    ensures Valid(BaseState(code, hostId))
  {
  }

  // ---------------------------------------------------------------------
  // Players and teams

  /** `players.filter((p) => p.team === t).length`. */
  function CountOn(players: seq<Player>, t: TeamId): (n: nat)
    ensures n <= |players|
  {
    if players == [] then 0
    else CountOn(players[..|players| - 1], t) + (if players[|players| - 1].team == t then 1 else 0)
  }

  /** Every player is on exactly one of the two teams. */
  lemma {:induction false} CountOnSplits(players: seq<Player>)
    ensures CountOn(players, TeamA) + CountOn(players, TeamB) == |players|
  {
    if players != [] {
      CountOnSplits(players[..|players| - 1]);
    }
  }

  lemma CountOnAppend(players: seq<Player>, p: Player, t: TeamId)
    ensures CountOn(players + [p], t) == CountOn(players, t) + (if p.team == t then 1 else 0)
  {
    assert (players + [p])[..|players|] == players;
  }

  /** `getTeamToBalance`: the team with fewer players, `teamA` on a tie. */
  function GetTeamToBalance(players: seq<Player>): (t: TeamId)
    ensures t == TeamA <==> CountOn(players, TeamA) <= CountOn(players, TeamB)
    ensures CountOn(players, t) <= CountOn(players, t.Other())
  {
    if CountOn(players, TeamA) <= CountOn(players, TeamB) then TeamA else TeamB
  }

  /** The index `players.find((p) => p.id === id)` stops at: the first
      player with identity `id`, by position. */
  function FindPlayer(players: seq<Player>, id: ClientId): (r: Option<nat>)
    ensures r.Some? ==> r.value < |players| && players[r.value].id == id
                        && forall j :: 0 <= j < r.value ==> players[j].id != id
    ensures r.None? <==> forall j :: 0 <= j < |players| ==> players[j].id != id
  {
    if players == [] then None
    else if players[0].id == id then Some(0)
    else match FindPlayer(players[1..], id)
      case None => None
      case Some(i) => Some(i + 1)
  }

  /** The player object `find` returns. */
  function FirstWith(players: seq<Player>, id: ClientId): (r: Option<Player>)
    ensures r.Some? ==> r.value in players && r.value.id == id
    ensures r.None? <==> forall p :: p in players ==> p.id != id
    ensures r.Some? ==> r.value == players[FindPlayer(players, id).value]
  {
    match FindPlayer(players, id)
    case None => None
    case Some(i) => Some(players[i])
  }

  /** `players.filter((p) => p.id !== id)`: order kept, every entry with
      that identity gone, every other entry kept. */
  function WithoutId(players: seq<Player>, id: ClientId): (r: seq<Player>)
    ensures |r| <= |players|
    ensures forall p :: p in r <==> p in players && p.id != id
    ensures (forall j :: 0 <= j < |players| ==> players[j].id != id) ==> r == players
  {
    if players == [] then []
    else if players[0].id == id then WithoutId(players[1..], id)
    else [players[0]] + WithoutId(players[1..], id)
  }

  /** `filter` keeps every entry of another identity as many times as it
      was listed, duplicates included, and drops every entry of `id`. */
  lemma {:induction false} WithoutIdCounts(players: seq<Player>, id: ClientId)
    ensures forall p :: multiset(WithoutId(players, id))[p] == if p.id == id then 0 else multiset(players)[p]
    decreases |players|
  {
    if players != [] {
      WithoutIdCounts(players[1..], id);
      assert players == [players[0]] + players[1..];
    }
  }

  /** `filter` keeps the order: the survivors of a concatenation are the
      survivors of each part, in turn. */
  lemma {:induction false} WithoutIdAppend(a: seq<Player>, b: seq<Player>, id: ClientId)
    ensures WithoutId(a + b, id) == WithoutId(a, id) + WithoutId(b, id)
    decreases |a|
  {
    if a == [] {
      assert a + b == b;
    } else {
      var ab := a + b;
      assert ab[0] == a[0] && ab[1..] == a[1..] + b;
      WithoutIdAppend(a[1..], b, id);
    }
  }

  /** How `find` steps over a leading entry. */
  lemma FirstWithCons(players: seq<Player>, id: ClientId)
    ensures FirstWith(players, id) ==
      if players == [] then None
      else if players[0].id == id then Some(players[0])
      else FirstWith(players[1..], id)
  {
    if players != [] && players[0].id != id {
      match FindPlayer(players[1..], id)
      case None =>
      case Some(i) => assert players[i + 1] == players[1..][i];
    }
  }

  /** Appending a player never changes which entry is found first for an
      identity that is already listed. */
  lemma {:induction false} FirstWithAppend(players: seq<Player>, p: Player, id: ClientId)
    requires FirstWith(players, id).Some?
    ensures FirstWith(players + [p], id) == FirstWith(players, id)
  {
    FirstWithCons(players, id);
    FirstWithCons(players + [p], id);
    if players[0].id != id {
      assert (players + [p])[1..] == players[1..] + [p];
      FirstWithAppend(players[1..], p, id);
    }
  }

  /** Removing one identity keeps the first entry of every other identity,
      and leaves no entry of its own. */
  lemma {:induction false} FirstWithWithout(players: seq<Player>, id: ClientId, other: ClientId)
    ensures FirstWith(WithoutId(players, id), other) == if other == id then None else FirstWith(players, other)
  {
    var r := WithoutId(players, id);
    FirstWithCons(players, other);
    FirstWithCons(r, other);
    if players != [] {
      FirstWithWithout(players[1..], id, other);
      if players[0].id != id {
        var rest := WithoutId(players[1..], id);
        assert r == [players[0]] + rest;
        assert r[1..] == rest;
      }
    }
  }

  /** Retagging players never changes who is found first. */
  lemma SameIdsSameFind(ps: seq<Player>, qs: seq<Player>, id: ClientId)
    requires |ps| == |qs| && forall j :: 0 <= j < |ps| ==> ps[j].id == qs[j].id
    ensures FindPlayer(ps, id) == FindPlayer(qs, id)
  {
  }

  /** `name?.trim() || 'Guest'`: never empty, and never with white space at
      either end. */
  function DisplayName(name: Option<string>): (r: string)
    ensures r != [] && !IsSpace(r[0]) && !IsSpace(r[|r| - 1])
    ensures name.Some? && Trim(name.value) != [] ==> r == Trim(name.value)
    ensures !(name.Some? && Trim(name.value) != []) ==> r == GUEST_NAME
  {
    if name.Some? && Trim(name.value) != [] then Trim(name.value) else GUEST_NAME
  }

  // ---------------------------------------------------------------------
  // The invariant

  /** No two answers on the board have the same normalized text. */
  predicate DistinctKeys(revealed: seq<RevealedAnswer>) {
    forall i, j :: 0 <= i < j < |revealed| ==> Normalize(revealed[i].text) != Normalize(revealed[j].text)
  }

  /** Every answer on the board is an answer of the current question. */
  predicate FromQuestion(revealed: seq<RevealedAnswer>, q: Option<Question>) {
    forall r :: r in revealed ==> q.Some? && Answer(r.text, r.points) in q.value.answers
  }

  /** `faceOffWinner` is the very player object that buzzed: while a player
      with its identity is listed, the first such entry is the winner. */
  predicate WinnerListed(s: State) {
    s.faceOffWinner.Some? ==>
      FirstWith(s.players, s.faceOffWinner.value.id).None? || FirstWith(s.players, s.faceOffWinner.value.id) == s.faceOffWinner
  }

  predicate InRound(p: Phase) {
    p == FaceOff || p == PlayOrPass || p == RoundPlay || p == TeamSteal
  }

  /** What holds of every game the handlers can produce. */
  predicate Valid(s: State) {
    && 0 <= s.teams.teamA.strikes <= MAX_STRIKES
    && 0 <= s.teams.teamB.strikes <= MAX_STRIKES
    // nothing ever advances the round or its multiplier
    && s.currentRound == 0 && s.pointMultiplier == 1
    // nothing decides a winner or records a steal answer
    && s.winningTeam.None? && s.stealAnswer.None?
    // no handler enters the fast-money phases or `game-over`
    && (s.phase == Lobby || InRound(s.phase) || s.phase == RoundEnd)
    // the third strike always moves the game out of play
    && ((s.phase == FaceOff || s.phase == PlayOrPass || s.phase == RoundPlay) ==>
          s.teams.teamA.strikes < MAX_STRIKES && s.teams.teamB.strikes < MAX_STRIKES)
    && (s.phase == FaceOff ==> s.faceOffBuzzers == [] && s.faceOffWinner.None?)
    && (s.phase == PlayOrPass ==> s.faceOffWinner.Some?)
    && (InRound(s.phase) ==> s.currentQuestion.Some?)
    && ((s.phase == RoundPlay || s.phase == TeamSteal) ==> s.controllingTeam.Some?)
    && (s.phase == TeamSteal ==> s.stealingTeam.Some?)
    && DistinctKeys(s.revealedAnswers)
    && FromQuestion(s.revealedAnswers, s.currentQuestion)
    && WinnerListed(s)
  }

  /** Putting an answer that `EvaluateAnswer` chose on the board keeps the
      board free of duplicates. */
  lemma AppendMatchKeepsDistinct(q: Question, text: string, revealed: seq<RevealedAnswer>, t: TeamId)
    requires DistinctKeys(revealed)
    requires EvaluateAnswer(q, text, revealed).Some?
    ensures var a := EvaluateAnswer(q, text, revealed).value;
      DistinctKeys(revealed + [RevealedAnswer(a.text, a.points, t)])
  {
    var a := EvaluateAnswer(q, text, revealed).value;
    EvaluateAnswerSound(q, text, revealed);
    var rs := revealed + [RevealedAnswer(a.text, a.points, t)];
    forall i, j | 0 <= i < j < |rs| ensures Normalize(rs[i].text) != Normalize(rs[j].text) {
      if j == |revealed| {
        assert rs[i] == revealed[i] && revealed[i] in revealed;
      } else {
        assert rs[i] == revealed[i] && rs[j] == revealed[j];
      }
    }
  }

  // ---------------------------------------------------------------------
  // Registry-side changes to one game

  /** A join by the identity of a face-off winner who has already left.
      The source cannot produce one: an identity belongs to one connection,
      and a connection that has closed sends nothing more. */
  predicate RejoinsAsWinner(s: State, id: ClientId) {
    s.faceOffWinner.Some? && s.faceOffWinner.value.id == id && FirstWith(s.players, id).None?
  }

  /** The game side of `join`: one player appended, on the team
      `getTeamToBalance` picks. */
  function AddPlayer(s: State, id: ClientId, name: Option<string>): (r: State)
    ensures r.players == s.players + [Player(id, DisplayName(name), GetTeamToBalance(s.players))]
    ensures r == s.(players := r.players)
  {
    s.(players := s.players + [Player(id, DisplayName(name), GetTeamToBalance(s.players))])
  }

  /** A join keeps the game valid, unless it brings back a face-off winner
      who had left. */
  lemma AddPlayerKeepsValid(s: State, id: ClientId, name: Option<string>)
    requires Valid(s) && !RejoinsAsWinner(s, id)
    ensures Valid(AddPlayer(s, id, name))
  {
    var r := AddPlayer(s, id, name);
    if s.faceOffWinner.Some? {
      var w := s.faceOffWinner.value.id;
      var p := r.players[|r.players| - 1];
      if FirstWith(s.players, w).Some? {
        FirstWithAppend(s.players, p, w);
      } else {
        FirstWithAppendNew(s.players, p, w);
      }
    }
  }

  /** Appending an entry of another identity finds nothing new. */
  lemma {:induction false} FirstWithAppendNew(players: seq<Player>, p: Player, id: ClientId)
    requires FirstWith(players, id).None? && p.id != id
    ensures FirstWith(players + [p], id).None?
  {
    FirstWithCons(players, id);
    FirstWithCons(players + [p], id);
    if players != [] {
      assert (players + [p])[1..] == players[1..] + [p];
      FirstWithAppendNew(players[1..], p, id);
    }
  }

  /** A join makes no listed identity a departed winner. */
  lemma JoinKeepsDepartures(s: State, id: ClientId, name: Option<string>, other: ClientId)
    ensures RejoinsAsWinner(AddPlayer(s, id, name), other) ==> RejoinsAsWinner(s, other)
  {
    var r := AddPlayer(s, id, name);
    if FirstWith(s.players, other).Some? {
      FirstWithAppend(s.players, r.players[|r.players| - 1], other);
    }
  }

  /** A departure makes only the departing identity a departed winner. */
  lemma LeaveKeepsDepartures(s: State, id: ClientId, other: ClientId)
    ensures RejoinsAsWinner(RemovePlayer(s, id), other) ==> RejoinsAsWinner(s, other) || other == id
  {
    FirstWithWithout(s.players, id, other);
  }

  /** The game side of `cleanupSocket`: every entry of that identity leaves
      the player list; scores, strikes and the rest stay as they were. */
  function RemovePlayer(s: State, id: ClientId): (r: State)
    ensures forall p :: p in r.players <==> p in s.players && p.id != id
    ensures (forall j :: 0 <= j < |s.players| ==> s.players[j].id != id) ==> r == s
    ensures r == s.(players := r.players)
  {
    s.(players := WithoutId(s.players, id))
  }

  /** A departure removes every entry of the leaving identity and keeps
      every other entry as many times as it was listed. */
  lemma RemovePlayerCounts(s: State, id: ClientId)
    ensures var r := RemovePlayer(s, id);
      forall p :: multiset(r.players)[p] == if p.id == id then 0 else multiset(s.players)[p]
  {
    WithoutIdCounts(s.players, id);
  }

  /** A departure keeps the game valid. */
  lemma RemovePlayerKeepsValid(s: State, id: ClientId)
    requires Valid(s)
    ensures Valid(RemovePlayer(s, id))
  {
    if s.faceOffWinner.Some? {
      FirstWithWithout(s.players, id, s.faceOffWinner.value.id);
    }
  }

  // ---------------------------------------------------------------------
  // The message handler, branch by branch

  /** `set-team`: the host moves the first player with identity `playerId`
      to `team`. The face-off winner is that same player object, so it
      moves with it. */
  function SetTeam(s: State, sender: ClientId, playerId: Option<ClientId>, team: Option<string>): (r: State)
    ensures sender != s.hostId ==> r == s
    ensures r == s.(players := r.players, faceOffWinner := r.faceOffWinner)
    ensures |r.players| == |s.players|
    ensures forall j :: 0 <= j < |s.players| ==> r.players[j].id == s.players[j].id && r.players[j].name == s.players[j].name
    ensures playerId.None? || team.None? || TeamIdOf(team.value).None? ==> r == s
    ensures playerId.Some? && FindPlayer(s.players, playerId.value).None? ==> r == s
    ensures sender == s.hostId && playerId.Some? && team.Some? && TeamIdOf(team.value).Some?
            && FindPlayer(s.players, playerId.value).Some? ==>
      var t := TeamIdOf(team.value).value;
      var i := FindPlayer(s.players, playerId.value).value;
      && r.players == s.players[i := s.players[i].(team := t)]
      && r.faceOffWinner == if s.faceOffWinner.Some? && s.faceOffWinner.value.id == playerId.value
                            then Some(s.faceOffWinner.value.(team := t)) else s.faceOffWinner
  {
    if sender != s.hostId || playerId.None? || team.None? then s
    else
      var i := FindPlayer(s.players, playerId.value);
      var t := TeamIdOf(team.value);
      if i.None? || t.None? then s
      else
        var moved := s.players[i.value].(team := t.value);
        var winner := if s.faceOffWinner.Some? && s.faceOffWinner.value.id == playerId.value
                      then Some(s.faceOffWinner.value.(team := t.value)) else s.faceOffWinner;
        s.(players := s.players[i.value := moved], faceOffWinner := winner)
  }

  /** Moving a player keeps the game valid: the face-off winner is still
      the first entry of its identity. */
  lemma SetTeamKeepsValid(s: State, sender: ClientId, playerId: Option<ClientId>, team: Option<string>)
    requires Valid(s)
    ensures Valid(SetTeam(s, sender, playerId, team))
  {
    var r := SetTeam(s, sender, playerId, team);
    if s.faceOffWinner.Some? {
      SameIdsSameFind(s.players, r.players, s.faceOffWinner.value.id);
    }
  }

  /** The question at `questionIndex` in the bank, if there is one. */
  function QuestionAt(bank: seq<Question>, questionIndex: int): (q: Option<Question>)
    ensures q.Some? <==> 0 <= questionIndex < |bank|
    ensures q.Some? ==> q.value == bank[questionIndex]
  {
    if 0 <= questionIndex < |bank| then Some(bank[questionIndex]) else None
  }

  /** `start-round` answers "Question not found" to a host naming no question. */
  predicate StartRoundFails(s: State, sender: ClientId, bank: seq<Question>, questionIndex: int) {
    sender == s.hostId && QuestionAt(bank, questionIndex).None?
  }

  /** `start-round`: a host-only reset of the round state into `face-off`,
      from any phase. The round number, the multiplier, `stealingTeam` and
      `roundEndsAt` are left as they were. */
  function StartRound(s: State, sender: ClientId, bank: seq<Question>, questionIndex: int, duration: int): (r: State)
    ensures sender != s.hostId || QuestionAt(bank, questionIndex).None? ==> r == s
    ensures sender == s.hostId && QuestionAt(bank, questionIndex).Some? ==>
      && r.phase == FaceOff
      && r.currentQuestion == QuestionAt(bank, questionIndex) && r.questionIndex == Some(questionIndex)
      && r.roundDuration == duration
      && r.revealedAnswers == [] && r.faceOffBuzzers == [] && r.faceOffWinner.None?
      && r.teams.Get(TeamA) == s.teams.Get(TeamA).(strikes := 0)
      && r.teams.Get(TeamB) == s.teams.Get(TeamB).(strikes := 0)
      && r.controllingTeam.None? && r.currentTurnTeam.None? && r.currentPlayerIndex == 0
      && r.players == s.players && r.currentRound == s.currentRound && r.pointMultiplier == s.pointMultiplier
      && r.stealingTeam == s.stealingTeam && r.roundEndsAt == s.roundEndsAt
    ensures r == s.(phase := r.phase, questionIndex := r.questionIndex, currentQuestion := r.currentQuestion,
                    roundDuration := r.roundDuration, revealedAnswers := r.revealedAnswers, teams := r.teams,
                    faceOffBuzzers := r.faceOffBuzzers, faceOffWinner := r.faceOffWinner,
                    controllingTeam := r.controllingTeam, currentTurnTeam := r.currentTurnTeam,
                    currentPlayerIndex := r.currentPlayerIndex)
  {
    if sender != s.hostId then s
    else match QuestionAt(bank, questionIndex)
      case None => s
      case Some(q) =>
        s.(phase := FaceOff,
           questionIndex := Some(questionIndex),
           currentQuestion := Some(q),
           roundDuration := duration,
           revealedAnswers := [],
           teams := Teams(s.teams.teamA.(strikes := 0), s.teams.teamB.(strikes := 0)),
           faceOffBuzzers := [],
           faceOffWinner := None,
           controllingTeam := None,
           currentTurnTeam := None,
           currentPlayerIndex := 0)
  }

  lemma StartRoundKeepsValid(s: State, sender: ClientId, bank: seq<Question>, questionIndex: int, duration: int)
    requires Valid(s)
    ensures Valid(StartRound(s, sender, bank, questionIndex, duration))
  {
  }

  /** `buzz-in`: in `face-off`, the first listed player to buzz wins the
      face-off at once and the game moves to `play-or-pass`. */
  function BuzzIn(s: State, sender: ClientId, now: int): (r: State)
    ensures s.phase != FaceOff || FindPlayer(s.players, sender).None? ==> r == s
    ensures s.faceOffBuzzers != [] ==> r == s
    ensures s.phase == FaceOff && s.faceOffBuzzers == [] && FindPlayer(s.players, sender).Some? ==>
      var p := s.players[FindPlayer(s.players, sender).value];
      r == s.(faceOffBuzzers := [BuzzEvent(p.id, p.name, p.team, now)],
              faceOffWinner := Some(p),
              phase := PlayOrPass)
    ensures r.teams == s.teams && r.players == s.players && r.revealedAnswers == s.revealedAnswers
  {
    if s.phase != FaceOff then s
    else match FindPlayer(s.players, sender)
      case None => s
      case Some(i) =>
        var p := s.players[i];
        if |s.faceOffBuzzers| == 0 then
          s.(faceOffBuzzers := s.faceOffBuzzers + [BuzzEvent(p.id, p.name, p.team, now)],
             faceOffWinner := Some(p),
             phase := PlayOrPass)
        else s
  }

  lemma BuzzInKeepsValid(s: State, sender: ClientId, now: int)
    requires Valid(s)
    ensures Valid(BuzzIn(s, sender, now))
  {
  }

  /** `choose-play-pass`: the host hands control to the face-off winner's
      team on "play" and to the other team on anything else, and the timed
      `round-play` phase begins. */
  function ChoosePlayPass(s: State, sender: ClientId, choice: Option<string>, now: int): (r: State)
    ensures sender != s.hostId || s.phase != PlayOrPass || s.faceOffWinner.None? ==> r == s
    ensures sender == s.hostId && s.phase == PlayOrPass && s.faceOffWinner.Some? ==>
      var t := if choice == Some("play") then s.faceOffWinner.value.team else s.faceOffWinner.value.team.Other();
      r == s.(controllingTeam := Some(t), currentTurnTeam := Some(t), phase := RoundPlay,
              roundEndsAt := Some(now + s.roundDuration * 1000), currentPlayerIndex := 0)
    ensures r.teams == s.teams && r.revealedAnswers == s.revealedAnswers
  {
    if sender != s.hostId || s.phase != PlayOrPass || s.faceOffWinner.None? then s
    else
      var w := s.faceOffWinner.value;
      var t := if choice == Some("play") then w.team else w.team.Other();
      s.(controllingTeam := Some(t), currentTurnTeam := Some(t), phase := RoundPlay,
         roundEndsAt := Some(now + s.roundDuration * 1000), currentPlayerIndex := 0)
  }

  lemma ChoosePlayPassKeepsValid(s: State, sender: ClientId, choice: Option<string>, now: int)
    requires Valid(s)
    ensures Valid(ChoosePlayPass(s, sender, choice, now))
  {
  }

  /** The `!text || typeof text !== 'string'` test: a present, non-empty
      string (white space alone passes). */
  predicate UsableText(text: Option<string>) {
    text.Some? && text.value != []
  }

  /** Adds `points * pointMultiplier` to team `t`'s score. */
  function Award(s: State, t: TeamId, points: int): (r: State)
    ensures r.teams.Get(t) == s.teams.Get(t).(score := s.teams.Get(t).score + points * s.pointMultiplier)
    ensures r.teams.Get(t.Other()) == s.teams.Get(t.Other())
    ensures r == s.(teams := r.teams)
  {
    var team := s.teams.Get(t);
    s.(teams := s.teams.With(t, team.(score := team.score + points * s.pointMultiplier)))
  }

  /** A match goes on the board for team `t` and scores for it. */
  function Reveal(s: State, t: TeamId, m: Answer): (r: State)
    ensures r.revealedAnswers == s.revealedAnswers + [RevealedAnswer(m.text, m.points, t)]
    ensures r.teams.Get(t) == s.teams.Get(t).(score := s.teams.Get(t).score + m.points * s.pointMultiplier)
    ensures r.teams.Get(t.Other()) == s.teams.Get(t.Other())
    ensures r == s.(revealedAnswers := r.revealedAnswers, teams := r.teams)
  {
    Award(s.(revealedAnswers := s.revealedAnswers + [RevealedAnswer(m.text, m.points, t)]), t, m.points)
  }

  /** A miss adds a strike to team `t`, capped at three; the third strike
      hands the other team a steal. */
  function Strike(s: State, t: TeamId): (r: State)
    ensures r.teams.Get(t) == s.teams.Get(t).(strikes :=
      if s.teams.Get(t).strikes + 1 < MAX_STRIKES then s.teams.Get(t).strikes + 1 else MAX_STRIKES)
    ensures r.teams.Get(t.Other()) == s.teams.Get(t.Other())
    ensures r.teams.Get(t).strikes < MAX_STRIKES ==> r == s.(teams := r.teams)
    ensures r.teams.Get(t).strikes >= MAX_STRIKES ==>
      r == s.(teams := r.teams, phase := TeamSteal, stealingTeam := Some(t.Other()))
  {
    var team := s.teams.Get(t);
    var strikes := if team.strikes + 1 < MAX_STRIKES then team.strikes + 1 else MAX_STRIKES;
    var struck := s.(teams := s.teams.With(t, team.(strikes := strikes)));
    if strikes >= MAX_STRIKES then struck.(phase := TeamSteal, stealingTeam := Some(t.Other()))
    else struck
  }

  /** `answer`: any listed player may guess during `round-play`. A match goes
      on the board for the player's team and scores for it; a miss adds a
      strike to that team, capped at three, and the third strike hands the
      other team a steal. */
  function SubmitAnswer(s: State, sender: ClientId, text: Option<string>): (r: State)
    ensures (s.phase != RoundPlay || s.currentQuestion.None? || FindPlayer(s.players, sender).None?
             || !UsableText(text)) ==> r == s
    ensures s.phase == RoundPlay && s.currentQuestion.Some? && FindPlayer(s.players, sender).Some? && UsableText(text) ==>
      var t := s.players[FindPlayer(s.players, sender).value].team;
      var m := EvaluateAnswer(s.currentQuestion.value, text.value, s.revealedAnswers);
      && r.players == s.players && r.currentQuestion == s.currentQuestion
      && r.teams.Get(t.Other()) == s.teams.Get(t.Other())
      && (m.Some? ==>
            && r.revealedAnswers == s.revealedAnswers + [RevealedAnswer(m.value.text, m.value.points, t)]
            && r.teams.Get(t).score == s.teams.Get(t).score + m.value.points * s.pointMultiplier
            && r.teams.Get(t).strikes == s.teams.Get(t).strikes
            && r.phase == RoundPlay && r.stealingTeam == s.stealingTeam)
      && (m.None? ==>
            && r.revealedAnswers == s.revealedAnswers
            && r.teams.Get(t).score == s.teams.Get(t).score
            && r.teams.Get(t).strikes == (if s.teams.Get(t).strikes + 1 < MAX_STRIKES then s.teams.Get(t).strikes + 1 else MAX_STRIKES)
            && (r.phase == TeamSteal <==> r.teams.Get(t).strikes >= MAX_STRIKES)
            && (r.phase != TeamSteal ==> r.phase == RoundPlay && r.stealingTeam == s.stealingTeam)
            && (r.phase == TeamSteal ==> r.stealingTeam == Some(t.Other())))
      && (m.Some? ==> r == Reveal(s, t, m.value))
      && (m.None? ==> r == Strike(s, t))
  {
    if s.phase != RoundPlay || s.currentQuestion.None? then s
    else match FindPlayer(s.players, sender)
      case None => s
      case Some(i) =>
        if !UsableText(text) then s
        else
          var t := s.players[i].team;
          match EvaluateAnswer(s.currentQuestion.value, text.value, s.revealedAnswers)
          case Some(m) => Reveal(s, t, m)
          case None => Strike(s, t)
  }

  /** A guess during `round-play` keeps the game valid. */
  lemma SubmitAnswerKeepsValid(s: State, sender: ClientId, text: Option<string>)
    requires Valid(s)
    ensures Valid(SubmitAnswer(s, sender, text))
  {
    if s.phase == RoundPlay && s.currentQuestion.Some? && FindPlayer(s.players, sender).Some? && UsableText(text) {
      if EvaluateAnswer(s.currentQuestion.value, text.value, s.revealedAnswers).Some? {
        SubmitHitValid(s, sender, text);
      } else {
        SubmitMissValid(s, sender, text);
      }
    }
  }

  lemma SubmitHitValid(s: State, sender: ClientId, text: Option<string>)
    requires Valid(s) && s.phase == RoundPlay && s.currentQuestion.Some?
    requires FindPlayer(s.players, sender).Some? && UsableText(text)
    requires EvaluateAnswer(s.currentQuestion.value, text.value, s.revealedAnswers).Some?
    ensures Valid(SubmitAnswer(s, sender, text))
  {
    var t := s.players[FindPlayer(s.players, sender).value].team;
    var m := EvaluateAnswer(s.currentQuestion.value, text.value, s.revealedAnswers).value;
    AnswerHitValid(s, text.value, t);
    assert SubmitAnswer(s, sender, text) == Reveal(s, t, m);
  }

  lemma SubmitMissValid(s: State, sender: ClientId, text: Option<string>)
    requires Valid(s) && s.phase == RoundPlay && s.currentQuestion.Some?
    requires FindPlayer(s.players, sender).Some? && UsableText(text)
    requires EvaluateAnswer(s.currentQuestion.value, text.value, s.revealedAnswers).None?
    ensures Valid(SubmitAnswer(s, sender, text))
  {
    var r := SubmitAnswer(s, sender, text);
    assert r.revealedAnswers == s.revealedAnswers && r.players == s.players;
  }

  /** Revealing a match keeps the board valid. */
  lemma AnswerHitValid(s: State, text: string, t: TeamId)
    requires s.currentQuestion.Some?
    requires EvaluateAnswer(s.currentQuestion.value, text, s.revealedAnswers).Some?
    ensures var m := EvaluateAnswer(s.currentQuestion.value, text, s.revealedAnswers).value;
      var rs := s.revealedAnswers + [RevealedAnswer(m.text, m.points, t)];
      && (DistinctKeys(s.revealedAnswers) ==> DistinctKeys(rs))
      && (FromQuestion(s.revealedAnswers, s.currentQuestion) ==> FromQuestion(rs, s.currentQuestion))
  {
    var q := s.currentQuestion.value;
    EvaluateAnswerSound(q, text, s.revealedAnswers);
    if DistinctKeys(s.revealedAnswers) {
      AppendMatchKeepsDistinct(q, text, s.revealedAnswers, t);
    }
  }

  /** The precondition under which the source's `steal-attempt` branch does
      not fail on a missing question or team. */
  predicate StealReady(s: State) {
    s.phase == TeamSteal ==> s.currentQuestion.Some? && s.stealingTeam.Some? && s.controllingTeam.Some?
  }

  /** `steal-attempt`: one guess from anyone during `team-steal`. A match goes
      on the board for the stealing team and scores for it; a miss scores
      nothing. Either way the round ends and its deadline is cleared. */
  function StealAttempt(s: State, text: Option<string>): (r: State)
    requires StealReady(s)
    ensures s.phase != TeamSteal || !UsableText(text) ==> r == s
    ensures s.phase == TeamSteal && UsableText(text) ==>
      var t := s.stealingTeam.value;
      var m := EvaluateAnswer(s.currentQuestion.value, text.value, s.revealedAnswers);
      && r.phase == RoundEnd && r.roundEndsAt.None?
      && r.players == s.players && r.teams.Get(t.Other()) == s.teams.Get(t.Other())
      && r.teams.Get(t).strikes == s.teams.Get(t).strikes
      && (m.Some? ==>
            && r.revealedAnswers == s.revealedAnswers + [RevealedAnswer(m.value.text, m.value.points, t)]
            && r.teams.Get(t).score == s.teams.Get(t).score + m.value.points * s.pointMultiplier)
      && (m.None? ==> r.revealedAnswers == s.revealedAnswers && r.teams == s.teams)
      && (m.Some? ==> r == Reveal(s, t, m.value).(phase := RoundEnd, roundEndsAt := None))
      && (m.None? ==> r == s.(phase := RoundEnd, roundEndsAt := None))
  {
    if s.phase != TeamSteal || !UsableText(text) then s
    else
      var t := s.stealingTeam.value;
      var scored := (match EvaluateAnswer(s.currentQuestion.value, text.value, s.revealedAnswers)
        case Some(m) => Reveal(s, t, m)
        case None => s);
      scored.(phase := RoundEnd, roundEndsAt := None)
  }

  /** A steal attempt keeps the game valid. */
  lemma StealAttemptKeepsValid(s: State, text: Option<string>)
    requires Valid(s)
    ensures Valid(StealAttempt(s, text))
  {
    if s.phase == TeamSteal && UsableText(text) {
      var t := s.stealingTeam.value;
      var m := EvaluateAnswer(s.currentQuestion.value, text.value, s.revealedAnswers);
      if m.Some? {
        AnswerHitValid(s, text.value, t);
        assert StealAttempt(s, text) == Reveal(s, t, m.value).(phase := RoundEnd, roundEndsAt := None);
      } else {
        assert StealAttempt(s, text) == s.(phase := RoundEnd, roundEndsAt := None);
      }
    }
  }

  /** `finish-round`: the host ends the round from any phase. */
  function FinishRound(s: State, sender: ClientId): (r: State)
    ensures sender != s.hostId ==> r == s
    ensures sender == s.hostId ==> r == s.(phase := RoundEnd, roundEndsAt := None)
  {
    if sender != s.hostId then s else s.(phase := RoundEnd, roundEndsAt := None)
  }

  lemma FinishRoundKeepsValid(s: State, sender: ClientId)
    requires Valid(s)
    ensures Valid(FinishRound(s, sender))
  {
  }

  /** `reset`: the host puts the game back to a fresh one with the same code
      and host, except that both team scores carry over, and so does
      `currentQuestion`, which a fresh game does not set. Players are
      cleared. */
  function Reset(s: State, sender: ClientId): (r: State)
    ensures sender != s.hostId ==> r == s
    ensures sender == s.hostId ==>
      r == BaseState(s.code, s.hostId).(
             teams := Teams(Team("Team A", s.teams.teamA.score, 0), Team("Team B", s.teams.teamB.score, 0)),
             currentQuestion := s.currentQuestion)
    ensures r.teams.Get(TeamA).score == s.teams.Get(TeamA).score
    ensures r.teams.Get(TeamB).score == s.teams.Get(TeamB).score
  {
    if sender != s.hostId then s
    else
      var base := BaseState(s.code, s.hostId);
      base.(teams := Teams(base.teams.teamA.(score := s.teams.teamA.score),
                           base.teams.teamB.(score := s.teams.teamB.score)),
            currentQuestion := s.currentQuestion)
  }

  lemma ResetKeepsValid(s: State, sender: ClientId)
    requires Valid(s)
    ensures Valid(Reset(s, sender))
  {
    BaseStateValid(s.code, s.hostId);
  }

  // ---------------------------------------------------------------------
  // Dispatch

  /** The message types after the connection has a room, each with only the
      fields its branch reads (`None` for a field the message leaves out). */
  datatype Action =
    | SetTeamAction(playerId: Option<ClientId>, team: Option<string>)
    | StartRoundAction(questionIndex: Option<int>, duration: Option<int>)
    | BuzzInAction
    | ChoosePlayPassAction(choice: Option<string>)
    | AnswerAction(text: Option<string>)
    | StealAttemptAction(text: Option<string>)
    | FinishRoundAction
    | ResetAction
    | UnknownAction(kind: string)

  /** The host-only message types. */
  predicate HostOnly(a: Action) {
    a.SetTeamAction? || a.StartRoundAction? || a.ChoosePlayPassAction? || a.FinishRoundAction? || a.ResetAction?
  }

  /** The handler after routing: one branch per message type; a type no
      branch claims changes nothing. */
  function Handle(s: State, sender: ClientId, a: Action, bank: seq<Question>, now: int): (r: State)
    requires Valid(s)
    ensures HostOnly(a) && sender != s.hostId ==> r == s
    ensures a.UnknownAction? ==> r == s
    ensures Valid(r)
  {
    match a
    case SetTeamAction(playerId, team) =>
      SetTeamKeepsValid(s, sender, playerId, team);
      SetTeam(s, sender, playerId, team)
    case StartRoundAction(questionIndex, duration) =>
      var qi, d := questionIndex.GetOr(DEFAULT_QUESTION_INDEX), duration.GetOr(DEFAULT_DURATION);
      StartRoundKeepsValid(s, sender, bank, qi, d);
      StartRound(s, sender, bank, qi, d)
    case BuzzInAction =>
      BuzzInKeepsValid(s, sender, now);
      BuzzIn(s, sender, now)
    case ChoosePlayPassAction(choice) =>
      ChoosePlayPassKeepsValid(s, sender, choice, now);
      ChoosePlayPass(s, sender, choice, now)
    case AnswerAction(text) =>
      SubmitAnswerKeepsValid(s, sender, text);
      SubmitAnswer(s, sender, text)
    case StealAttemptAction(text) =>
      StealAttemptKeepsValid(s, text);
      StealAttempt(s, text)
    case FinishRoundAction =>
      FinishRoundKeepsValid(s, sender);
      FinishRound(s, sender)
    case ResetAction =>
      ResetKeepsValid(s, sender);
      Reset(s, sender)
    case UnknownAction(_) => s
  }

  // ---------------------------------------------------------------------
  // Properties across handlers

  /** The timer sweep only acts on a game whose phase is "round", a name no
      phase of the game carries, so it never acts. */
  predicate TickFires(s: State, now: int) {
    PhaseName(s.phase) == "round" && s.roundEndsAt.Some? && s.roundEndsAt.value <= now
  }

  lemma TickNeverFires(s: State, now: int)
    ensures !TickFires(s, now)
  {
  }

  /** Once someone has won the face-off, no later buzz has any effect. */
  lemma LaterBuzzIgnored(s: State, first: ClientId, second: ClientId, t1: int, t2: int)
    requires Valid(s) && s.phase == FaceOff && FindPlayer(s.players, first).Some?
    ensures var r := BuzzIn(s, first, t1);
      BuzzIn(r, second, t2) == r && r.faceOffWinner == Some(s.players[FindPlayer(s.players, first).value])
  {
  }

  /** During `round-play` a miss always adds exactly one strike (the cap of
      three is never what limits it), so the steal opens on the third miss
      of a team and on no other. */
  lemma MissAddsOneStrike(s: State, sender: ClientId, text: Option<string>)
    requires Valid(s) && s.phase == RoundPlay && UsableText(text)
    requires FindPlayer(s.players, sender).Some?
    requires EvaluateAnswer(s.currentQuestion.value, text.value, s.revealedAnswers).None?
    ensures var t := s.players[FindPlayer(s.players, sender).value].team;
      var r := SubmitAnswer(s, sender, text);
      && r.teams.Get(t).strikes == s.teams.Get(t).strikes + 1
      && (r.phase == TeamSteal <==> s.teams.Get(t).strikes == MAX_STRIKES - 1)
  {
  }

  /** Whether every point value in reach is non-negative. */
  predicate NonNegativePoints(q: Question) {
    forall a :: a in q.answers ==> a.points >= 0
  }

  /** The current question always comes from the bank or is the one
      already set, so non-negative point values stay non-negative. */
  lemma PointsStayNonNegative(s: State, sender: ClientId, a: Action, bank: seq<Question>, now: int)
    requires Valid(s)
    requires forall q :: q in bank ==> NonNegativePoints(q)
    requires s.currentQuestion.Some? ==> NonNegativePoints(s.currentQuestion.value)
    ensures var r := Handle(s, sender, a, bank, now);
      r.currentQuestion.Some? ==> NonNegativePoints(r.currentQuestion.value)
  {
    var r := Handle(s, sender, a, bank, now);
    if a.StartRoundAction? {
      assert r.currentQuestion == s.currentQuestion
          || r.currentQuestion == QuestionAt(bank, a.questionIndex.GetOr(DEFAULT_QUESTION_INDEX));
    } else {
      assert r.currentQuestion == s.currentQuestion;
    }
  }

  /** With non-negative point values, no message ever lowers a score:
      resetting and every other handler keep what was earned. (A departure
      changes only the player list, by `RemovePlayer`'s frame clause.) */
  lemma ScoresNeverDecrease(s: State, sender: ClientId, a: Action, bank: seq<Question>, now: int)
    requires Valid(s)
    requires s.currentQuestion.Some? ==> NonNegativePoints(s.currentQuestion.value)
    ensures var r := Handle(s, sender, a, bank, now);
      && r.teams.Get(TeamA).score >= s.teams.Get(TeamA).score
      && r.teams.Get(TeamB).score >= s.teams.Get(TeamB).score
  {
    match a
    case AnswerAction(text) => AnswerScores(s, sender, text);
    case StealAttemptAction(text) => StealScores(s, text);
    case _ =>
  }

  lemma AnswerScores(s: State, sender: ClientId, text: Option<string>)
    requires Valid(s)
    requires s.currentQuestion.Some? ==> NonNegativePoints(s.currentQuestion.value)
    ensures var r := SubmitAnswer(s, sender, text);
      && r.teams.Get(TeamA).score >= s.teams.Get(TeamA).score
      && r.teams.Get(TeamB).score >= s.teams.Get(TeamB).score
  {
    if s.phase == RoundPlay && FindPlayer(s.players, sender).Some? && UsableText(text)
       && EvaluateAnswer(s.currentQuestion.value, text.value, s.revealedAnswers).Some?
    {
      var t := s.players[FindPlayer(s.players, sender).value].team;
      EvaluateAnswerSound(s.currentQuestion.value, text.value, s.revealedAnswers);
      RevealRaisesScore(s, t, EvaluateAnswer(s.currentQuestion.value, text.value, s.revealedAnswers).value);
    }
  }

  lemma StealScores(s: State, text: Option<string>)
    requires Valid(s)
    requires s.currentQuestion.Some? ==> NonNegativePoints(s.currentQuestion.value)
    ensures var r := StealAttempt(s, text);
      && r.teams.Get(TeamA).score >= s.teams.Get(TeamA).score
      && r.teams.Get(TeamB).score >= s.teams.Get(TeamB).score
  {
    if s.phase == TeamSteal && UsableText(text) {
      var t := s.stealingTeam.value;
      var m := EvaluateAnswer(s.currentQuestion.value, text.value, s.revealedAnswers);
      if m.Some? {
        EvaluateAnswerSound(s.currentQuestion.value, text.value, s.revealedAnswers);
        RevealRaisesScore(s, t, m.value);
        assert StealAttempt(s, text).teams == Reveal(s, t, m.value).teams;
      } else {
        assert StealAttempt(s, text).teams == s.teams;
      }
    }
  }

  /** A match of the current question scores a non-negative amount. */
  lemma RevealRaisesScore(s: State, t: TeamId, m: Answer)
    requires Valid(s) && s.currentQuestion.Some? && NonNegativePoints(s.currentQuestion.value)
    requires m in s.currentQuestion.value.answers
    ensures Reveal(s, t, m).teams.Get(t).score >= s.teams.Get(t).score
  {
  }

  /** Joining narrows the gap between the team sizes by one, or opens it to
      one when the teams were even. */
  lemma JoinBalancesTeams(s: State, id: ClientId, name: Option<string>)
    ensures var before := CountOn(s.players, TeamA) - CountOn(s.players, TeamB);
      var r := AddPlayer(s, id, name);
      var after := CountOn(r.players, TeamA) - CountOn(r.players, TeamB);
      (if before == 0 then after == 1 else if before > 0 then after == before - 1 else after == before + 1)
  {
    var p := Player(id, DisplayName(name), GetTeamToBalance(s.players));
    CountOnAppend(s.players, p, TeamA);
    CountOnAppend(s.players, p, TeamB);
  }

  /** A room whose players only ever joined never has teams more than one
      apart, and `teamA` is never the smaller team. */
  lemma {:induction false} JoinsOnlyStayBalanced(s: State, joins: seq<(ClientId, Option<string>)>)
    requires s.players == []
    ensures var r := JoinAll(s, joins);
      var d := CountOn(r.players, TeamA) - CountOn(r.players, TeamB);
      0 <= d <= 1
    decreases |joins|
  {
    if joins != [] {
      var last := joins[|joins| - 1];
      JoinsOnlyStayBalanced(s, joins[..|joins| - 1]);
      JoinBalancesTeams(JoinAll(s, joins[..|joins| - 1]), last.0, last.1);
    }
  }

  /** The game after a sequence of joins, in order. */
  function JoinAll(s: State, joins: seq<(ClientId, Option<string>)>): (r: State)
    ensures |r.players| == |s.players| + |joins|
    decreases |joins|
  {
    if joins == [] then s
    else
      var last := joins[|joins| - 1];
      AddPlayer(JoinAll(s, joins[..|joins| - 1]), last.0, last.1)
  }
}
