# Family Feud room engine, modelled in Dafny

This project models the per-room game engine of the Family Feud style
WebSocket server in `server/server.js`. One connection creates a room and
becomes its host. Other connections join the room and are balanced across
`teamA` and `teamB`. The host starts a round on a survey question. The first
listed player to buzz in wins the face-off. The host then chooses "play" or
"pass", which decides the team that controls the round. During `round-play`,
any listed player may guess. A match puts the answer on the board and scores
`points × pointMultiplier` for the guesser's team. A miss adds a strike,
capped at three. The third strike opens a single steal attempt for the other
team. The host can end a round or reset the room at any time; a reset keeps
both team scores.

Files:

- `types.dfy` (`FeudTypes`): teams, players, phases, answers, questions and
  buzz events, as values.
- `matcher.dfy` (`AnswerMatcher`): `normalize` (trim, then lower-case),
  substring containment, and `evaluateAnswer`.
- `rules.dfy` (`GameRules`): the game record as a value `State`, with one
  transition function per branch of the message handler. It also holds the
  invariant `Valid` that every branch keeps, and lemmas that relate several
  branches.
- `server.dfy` (`GameServer`): the mutable objects.
  - `Game` is the room's record. Its fields are updated in place, and every
    method is proved to have exactly the effect of the matching `GameRules`
    function: `Snapshot() == GameRules.X(old(Snapshot()), …)`.
  - `Registry` holds the two process-wide maps, `games` (room code to game)
    and `sockets` (connection to room and identity). Its methods are
    `create`, `join`, the routing of other messages, and `cleanupSocket`.
- `scenarios.dfy` (`FeudScenarios`): worked examples on the first question of
  the server's bank, the pizza-topping survey.

Parameters stand in for what the model cannot see:

- the clock (`now`);
- the generated room code;
- the connection's identity (`clientId`);
- the question bank.

The source declares more than its handlers do. The model follows the
handlers:

- The comments on `currentRound` and `pointMultiplier`
  (`server/server.js:19-20`) speak of up to five rounds and a 1x, 2x or 3x
  multiplier. `start-round` never changes either field, nor
  `stealingTeam`, and it has no phase guard. The multiplier therefore
  stays 1, which `Valid` records.
- The `Phase` union (`src/types.ts:6-15`) declares the fast-money phases
  and `game-over`, and the game record carries `winningTeam`. No handler
  checks for a winner or enters any of those phases.
- The comment at `server/server.js:200` speaks of recording buzzes
  "within 50ms" of the first. The code records only the first buzz, whose
  player wins the face-off at once; a later buzz is ignored
  (`LaterBuzzIgnored`).
- A `choose-play-pass` choice other than `"play"` counts as a pass.
- `answer` is not turn-gated: any listed player may guess during
  `round-play`.
- `steal-attempt` does not look up the sender.
- `finish-round` works from any phase.
- A guess made only of white space passes the server's emptiness test. It
  then matches the first answer not yet on the board
  (`WhitespaceGuessTakesFirstUnrevealed`).
- The once-a-second sweep tests for a phase named `"round"`. No phase has
  that name, so the sweep never acts (`TickNeverFires`).

## Model

| member | source | states |
|---|---|---|
| FeudTypes.PhaseName | src/types.ts:6-15 | the string stored for each phase, one per member of the `Phase` union |
| FeudTypes.TeamId.Other | server/server.js:224 | the other team is never the team itself |
| FeudTypes.TeamIdOf | server/server.js:154 | exactly `"teamA"` names team A and exactly `"teamB"` names team B, both directions; any other value names no team |
| FeudTypes.Teams.With | server/server.js:246 | replacing one team's entry sets that entry and leaves the other team's entry untouched |
| AnswerMatcher.IsSpace | server/server.js:61 | the characters `trim()` strips: ECMAScript's WhiteSpace code points (tab, vertical tab, form feed, space, no-break space, the zero-width no-break space and the Unicode space separators) and its LineTerminator code points (line feed, carriage return, line and paragraph separators) |
| AnswerMatcher.SkipSpaceFrom | server/server.js:61 | the scan stops at the first position from `k` on that is not white space (or at the end), and every character it passed is white space |
| AnswerMatcher.SkipSpaceBack | server/server.js:61 | the backward scan stops just after the last non-white-space character before `k` (or at `lo`), and every character it passed is white space |
| AnswerMatcher.Trim | server/server.js:61 | `trim()` returns a slice of its input that neither starts nor ends with white space, with only white space before and after it |
| AnswerMatcher.TrimPadding | server/server.js:61 | white space around a text with no white space at its ends is exactly what `trim()` removes |
| AnswerMatcher.TrimNoBoundarySpace | server/server.js:61 | a text with no white space at either end is left alone by `trim()` |
| AnswerMatcher.LowerChar | server/server.js:61 | each capital `A`–`Z` becomes its own lower-case letter (code point plus 32); every other character is unchanged |
| AnswerMatcher.ToLower | server/server.js:61 | lower-casing keeps the length and lower-cases every character in place |
| AnswerMatcher.LowerCharKeepsSpace | server/server.js:61 | lower-casing neither creates nor removes white space, and is idempotent on one character |
| AnswerMatcher.ToLowerKeepsEnds | server/server.js:61 | lower-casing a trimmed text leaves it trimmed |
| AnswerMatcher.ToLowerIdempotent | server/server.js:61 | lower-casing twice is lower-casing once |
| AnswerMatcher.Normalize | server/server.js:61 | `normalize` is `trim()` followed by `toLowerCase()`; its properties are the lemmas below |
| AnswerMatcher.NormalizeEmptyIff | server/server.js:61 | `normalize` gives the empty string exactly when the text is all white space, both directions |
| AnswerMatcher.NormalizeIdempotent | server/server.js:61 | normalizing a normalized text changes nothing |
| AnswerMatcher.Contains | server/server.js:67 | `includes`: a prefix match at some position of the haystack; `ContainsIff` gives its meaning |
| AnswerMatcher.OccursShift | server/server.js:67 | dropping the haystack's first character shifts every later occurrence back by one |
| AnswerMatcher.OccursAtStart | server/server.js:67 | an occurrence at position 0 is the same as a prefix |
| AnswerMatcher.ContainsIff | server/server.js:67 | `includes` holds exactly when the needle occurs at some position of the haystack, both directions |
| AnswerMatcher.ContainsEmpty | server/server.js:67 | every string includes the empty string |
| AnswerMatcher.RevealedKeys | server/server.js:65 | the set of normalized texts of the answers on the board |
| AnswerMatcher.AnswerKeys | server/server.js:67 | key `i` is the normalized text of answer `i`, for every answer, in the question's order |
| AnswerMatcher.Qualifies | server/server.js:67 | the test `find` applies: the key is not on the board and includes the normalized guess |
| AnswerMatcher.FirstMatchFrom | server/server.js:66-68 | `find` returns the first qualifying index, and returns none exactly when no index qualifies |
| AnswerMatcher.EvaluateAnswer | server/server.js:63-69 | a result is the answer at the first index whose key is not on the board and contains the normalized guess; there is no result exactly when no answer qualifies |
| AnswerMatcher.EvaluateAnswerSound | server/server.js:63-69 | a match is one of the question's answers, its normalized text contains the normalized guess, and no revealed answer normalizes to the same text |
| AnswerMatcher.FirstMatchUnique | server/server.js:66-68 | at most one index is the first to qualify |
| AnswerMatcher.EvaluateAnswerFinds | server/server.js:63-69 | conversely, when index `i` is the first to qualify, its answer is what `evaluateAnswer` returns |
| AnswerMatcher.WhitespaceGuessTakesFirstUnrevealed | server/server.js:63-69 | a white-space guess matches the first answer not yet on the board, and matches nothing exactly when every answer is on the board |
| GameRules.BaseState | server/server.js:10-48 | a fresh game is in the lobby with no players, an empty board and both scores at zero |
| GameRules.BaseStateValid | server/server.js:10-48 | a fresh game satisfies the invariant |
| GameRules.CountOn | server/server.js:56-57 | a team never has more players than the list |
| GameRules.CountOnSplits | server/server.js:56-57 | the two team counts add up to the number of players |
| GameRules.CountOnAppend | server/server.js:56-57 | appending a player adds one to that player's team count and nothing to the other |
| GameRules.GetTeamToBalance | server/server.js:55-59 | picks team A exactly when it has no more players than team B; the team picked is never the larger one |
| GameRules.FindPlayer | server/server.js:153 | `find` stops at the first player with that identity, and finds none exactly when no player has it |
| GameRules.FirstWith | server/server.js:189 | the player found is the entry at the first index with that identity; nothing is found exactly when no listed player has it |
| GameRules.WithoutId | server/server.js:88 | the filter keeps a player exactly when it was listed with another identity, and returns the list unchanged when no entry has that identity |
| GameRules.WithoutIdCounts | server/server.js:88 | the filter keeps each entry of another identity as many times as it was listed, duplicates included, and no entry of the leaving identity |
| GameRules.WithoutIdAppend | server/server.js:88 | the filter keeps the order: the survivors of a concatenation are the survivors of each part, in turn |
| GameRules.FirstWithCons | server/server.js:153 | how `find` steps over the first entry of the list |
| GameRules.FirstWithAppend | server/server.js:132 | appending a player never changes which entry is found for an identity that is already listed |
| GameRules.FirstWithAppendNew | server/server.js:132 | appending a player of another identity finds nothing new |
| GameRules.FirstWithWithout | server/server.js:88 | removing one identity keeps the first entry of every other identity and leaves no entry of its own |
| GameRules.SameIdsSameFind | server/server.js:155 | changing only teams never changes which entry `find` returns |
| GameRules.DisplayName | server/server.js:132 | the name stored is the trimmed name when it is not blank, and `"Guest"` when it is absent or blank; it is never empty and never has white space at either end |
| GameRules.AppendMatchKeepsDistinct | server/server.js:243-245 | putting the matched answer on the board keeps the normalized texts on the board distinct |
| GameRules.Valid | server/server.js:151-309 | the invariant every handler keeps: strikes within 0 to 3, round 0 and multiplier 1, no winner, only the phases the handlers enter, no third strike while in play, phase-specific fields set, a board with distinct keys from the current question, and the face-off winner equal to its listed entry |
| GameRules.RejoinsAsWinner | server/server.js:96-137 | a join by the identity of a face-off winner who is no longer listed. Each connection draws a fresh identity and a closed one sends nothing, so the registry never lets this happen |
| GameRules.AddPlayer | server/server.js:131-132 | a join appends one player, named by `DisplayName`, on the team `getTeamToBalance` picks; nothing else changes |
| GameRules.AddPlayerKeepsValid | server/server.js:124-137 | a join keeps the invariant, unless it brings back a face-off winner who has left |
| GameRules.JoinKeepsDepartures | server/server.js:124-137 | a join never makes a listed identity a departed face-off winner |
| GameRules.LeaveKeepsDepartures | server/server.js:82-93 | a departure can only make the departing identity a departed face-off winner |
| GameRules.RemovePlayer | server/server.js:88 | every entry of the leaving identity goes and every other entry stays; when no entry has that identity nothing changes; scores, strikes and the rest are unchanged |
| GameRules.RemovePlayerCounts | server/server.js:88 | a departure keeps every other player entry as many times as it was listed and drops every entry of the leaving identity |
| GameRules.RemovePlayerKeepsValid | server/server.js:82-93 | a departure keeps the invariant |
| GameRules.SetTeam | server/server.js:151-159 | a non-host, a missing or unlisted player, or a team other than `teamA`/`teamB` changes nothing. Otherwise the host's move happens: the first entry with `playerId` is put on that team, and the face-off winner, which is the same object as that entry, moves with it. Nothing else changes, and identities and names are kept |
| GameRules.SetTeamKeepsValid | server/server.js:151-159 | moving a player keeps the invariant |
| GameRules.QuestionAt | server/server.js:163-164 | a question is found exactly when the index is inside the bank, and it is the bank's entry at that index |
| GameRules.StartRoundFails | server/server.js:164-166 | "Question not found" goes back exactly to a host naming an index outside the bank |
| GameRules.StartRound | server/server.js:161-184 | a non-host or a missing question changes nothing. Otherwise the game is in `face-off` on that question with the given duration, an empty board, zero strikes, no buzzes, no winner and no control. Players, scores, round number, multiplier, steal team, deadline and every other field are kept |
| GameRules.StartRoundKeepsValid | server/server.js:161-184 | starting a round keeps the invariant |
| GameRules.BuzzIn | server/server.js:187-209 | outside `face-off`, from an unlisted sender, or after the first buzz, nothing changes. The first buzz records one event, makes that player the winner and moves to `play-or-pass`. Teams, players and board are never touched |
| GameRules.BuzzInKeepsValid | server/server.js:187-209 | a buzz keeps the invariant |
| GameRules.ChoosePlayPass | server/server.js:212-235 | only the host, in `play-or-pass`, with a winner, changes anything. Control goes to the winner's team on `"play"` and to the other team on any other choice. The game enters `round-play` with deadline `now + roundDuration × 1000`, and teams and board are kept |
| GameRules.ChoosePlayPassKeepsValid | server/server.js:212-235 | the choice keeps the invariant |
| GameRules.UsableText | server/server.js:242 | the test that `text` is a string and not empty: a present, non-empty string passes, white space alone included |
| GameRules.Award | server/server.js:246 | team `t`'s entry changes only in its score, which gains `points × pointMultiplier`; the other team and every other field are kept |
| GameRules.Reveal | server/server.js:244-247 | the match is appended to the board tagged with team `t`, team `t`'s entry changes only in its score, which gains `points × pointMultiplier`, and nothing else changes |
| GameRules.Strike | server/server.js:248-259 | team `t`'s entry changes only in its strikes, which gain one, capped at three. The third strike moves to `team-steal` with the other team stealing; otherwise nothing else changes |
| GameRules.SubmitAnswer | server/server.js:237-263 | nothing changes outside `round-play`, without a question, from an unlisted sender or for a missing or empty text. A match is revealed and scored for the player's team. A miss adds a strike, and the game is in `team-steal` exactly when that team reaches three strikes. The whole new state is that of `Reveal` on a match and of `Strike` on a miss, so every other field is kept |
| GameRules.SubmitAnswerKeepsValid | server/server.js:237-263 | an answer keeps the invariant |
| GameRules.SubmitHitValid | server/server.js:244-247 | a matching answer keeps the invariant |
| GameRules.SubmitMissValid | server/server.js:248-259 | a missed answer keeps the invariant |
| GameRules.AnswerHitValid | server/server.js:243-245 | a revealed match keeps the board free of duplicates and keeps it within the current question |
| GameRules.StealReady | server/server.js:266-285 | in `team-steal`, a question, a stealing team and a controlling team are all set: the fields the steal branch reads without a check |
| GameRules.StealAttempt | server/server.js:266-287 | nothing changes outside `team-steal` or for a missing or empty text. Otherwise a match is revealed and scored for the stealing team, a miss scores nothing, and either way the round ends and its deadline is cleared. Every other field is kept |
| GameRules.StealAttemptKeepsValid | server/server.js:266-287 | a steal attempt keeps the invariant |
| GameRules.FinishRound | server/server.js:289-294 | a non-host changes nothing; the host ends the round from any phase, clearing only the deadline |
| GameRules.FinishRoundKeepsValid | server/server.js:289-294 | finishing a round keeps the invariant |
| GameRules.Reset | server/server.js:296-309 | a non-host changes nothing. The host gets a fresh game with the same code and host; both scores carry over, and so does the current question, which a fresh game does not set |
| GameRules.ResetKeepsValid | server/server.js:296-309 | a reset keeps the invariant |
| GameRules.HostOnly | server/server.js:151-309 | the message types whose branch requires the sender to be the host: `set-team`, `start-round`, `choose-play-pass`, `finish-round` and `reset`. `buzz-in`, `answer` and `steal-attempt` are open to anyone |
| GameRules.Handle | server/server.js:151-309 | a host-only message from anyone else and an unknown message type change nothing, and every message keeps the invariant |
| GameRules.TickFires | server/server.js:318 | the sweep's condition: phase named `"round"` and a deadline that has passed |
| GameRules.TickNeverFires | server/server.js:315-325 | the sweep's condition holds for no game at any time |
| GameRules.LaterBuzzIgnored | server/server.js:201-207 | after the first buzz, a later buzz changes nothing and the first buzzer stays the winner |
| GameRules.MissAddsOneStrike | server/server.js:249-259 | during `round-play` a miss adds exactly one strike, and opens the steal exactly on the team's third strike |
| GameRules.PointsStayNonNegative | server/server.js:163-171 | when the bank's point values are non-negative, those of the current question stay non-negative after any message |
| GameRules.ScoresNeverDecrease | server/server.js:237-309 | when point values are non-negative, no message lowers either team's score |
| GameRules.AnswerScores | server/server.js:244-249 | an answer never lowers a score |
| GameRules.StealScores | server/server.js:272-280 | a steal attempt never lowers a score |
| GameRules.RevealRaisesScore | server/server.js:246 | revealing a non-negative answer never lowers the team's score |
| GameRules.JoinBalancesTeams | server/server.js:131-132 | a join narrows the team-size gap by one, or opens it to one in team A's favour when the teams are even |
| GameRules.JoinsOnlyStayBalanced | server/server.js:55-59 | in a room that only ever had joins, team A has as many players as team B or one more |
| GameRules.JoinAll | server/server.js:124-137 | a sequence of joins adds one player per join |
| GameServer.Game.constructor | server/server.js:112-116 | a new game object holds exactly the fresh game for its code and host, which satisfies the invariant |
| GameServer.Game.AddPlayer | server/server.js:131-132 | the object changes as `GameRules.AddPlayer` says |
| GameServer.Game.RemovePlayer | server/server.js:88 | the object changes as `GameRules.RemovePlayer` says |
| GameServer.Game.SetTeam | server/server.js:151-159 | the object changes as `GameRules.SetTeam` says |
| GameServer.Game.StartRound | server/server.js:161-184 | the object changes as `GameRules.StartRound` says, and `notFound` is set exactly when the host named no question |
| GameServer.Game.SetQuestion | server/server.js:169-172 | only the phase, question index, question and duration are written |
| GameServer.Game.ClearBoard | server/server.js:173-175 | only the board and both strike counts are cleared |
| GameServer.Game.ClearFaceOff | server/server.js:176-180 | only the face-off and turn fields are cleared |
| GameServer.Game.BuzzIn | server/server.js:187-209 | the object changes as `GameRules.BuzzIn` says |
| GameServer.Game.ChoosePlayPass | server/server.js:212-235 | the object changes as `GameRules.ChoosePlayPass` says |
| GameServer.Game.GiveControl | server/server.js:217-228 | only the controlling and current-turn team are written |
| GameServer.Game.SubmitAnswer | server/server.js:237-263 | the object changes as `GameRules.SubmitAnswer` says |
| GameServer.Game.Reveal | server/server.js:244-247 | the object changes as `GameRules.Reveal` says |
| GameServer.Game.Strike | server/server.js:248-259 | the object changes as `GameRules.Strike` says |
| GameServer.Game.StealAttempt | server/server.js:266-287 | the object changes as `GameRules.StealAttempt` says |
| GameServer.Game.EndRound | server/server.js:283-284 | only the phase (to `round-end`) and the deadline (cleared) are written |
| GameServer.Game.FinishRound | server/server.js:289-294 | the object changes as `GameRules.FinishRound` says |
| GameServer.Game.Reset | server/server.js:296-309 | the object changes as `GameRules.Reset` says |
| GameServer.Game.ResetLobby | server/server.js:301-305 | only the teams, the players and the phase are written, with their fresh values |
| GameServer.Game.ResetRoundCounters | server/server.js:301-305 | only the round number, multiplier and question index are written, with their fresh values |
| GameServer.Game.ResetTimerAndBoard | server/server.js:301-305 | only the deadline, duration and board are written, with their fresh values |
| GameServer.Game.ResetStealAndWin | server/server.js:301-305 | only the steal and winner fields are written, with their fresh values |
| GameServer.Game.Handle | server/server.js:151-309 | the object changes as `GameRules.Handle` says, and `notFound` is set exactly for a failed `start-round` |
| GameServer.Registry.Valid | server/server.js:7-8 | each game is stored under its own code; every face-off winner no longer listed in its room has a departed identity; every bound connection's room exists, so the router's "Game missing" reply (server/server.js:139-149) never happens |
| GameServer.Registry.constructor | server/server.js:7-8 | both maps start empty, and no identity has left yet |
| GameServer.Registry.Create | server/server.js:110-122 | a fresh game is registered under the code, replacing any game already there; the connection is bound to it; the other games are untouched |
| GameServer.Registry.Join | server/server.js:124-137 | a missing code changes nothing. Otherwise that game gains the player and the connection is bound to it; every other game is untouched and the registry stays valid |
| GameServer.Registry.Cleanup | server/server.js:82-93 | the closed connection is forgotten and its identity leaves its room's player list; that identity is recorded as departed; every other game is untouched and the registry stays valid |
| GameServer.Registry.Route | server/server.js:139-149 | an unbound connection gets "Join a game first". A bound one reaches its room's game. In a valid registry, "Game missing" cannot happen |
| GameServer.Registry.Receive | server/server.js:99-310 | `create` registers a fresh game under the code, binds the connection and leaves every other game untouched. `join` to a missing code changes nothing; otherwise the room's game changes as `GameRules.AddPlayer` says, the connection is bound and every other game is untouched. Both get their replies. A message from an unbound connection changes nothing and gets "Join a game first". Any other message changes only the sender's game, exactly as `GameRules.Handle` says, and is answered only by "Question not found". No message changes the set of departed identities |
| GameServer.Registry.Dispatch | server/server.js:139-309 | a message other than `create` and `join` changes nothing for an unbound connection, and otherwise changes only the sender's game, exactly as `GameRules.Handle` says |
| GameServer.RejoinsAsWinnerAfterHandle | server/server.js:151-309 | no message makes a listed face-off winner unlisted |
| GameServer.OpenRoom | server/server.js:110-122 | in a new registry, a `create` for code "ABCD" is answered `created` and leaves one room, with no players, and no departed identity |
| GameServer.GuestVisits | server/server.js:82-137 | a guest's `join` to "ABCD" is answered `joined`; after its connection closes the room has no players again and the guest's identity is the only departed one |
| GameServer.NewGuestJoins | server/server.js:124-137 | a nameless `join` by a new identity after that is answered `joined` and leaves exactly one player, named "Guest", on team A |
| GameServer.HostGuestLeaveRejoin | server/server.js:82-137 | create, join, close and join again, each from a live identity, are answered `created`, `joined`, `joined`, and the room ends with the second guest alone on team A |
| FeudScenarios.NormalizeWord | server/server.js:61 | a word with no white space at either end normalizes to its lower-case spelling |
| FeudScenarios.NormalizeIgnoresPadding | server/server.js:61 | white space around a word does not change what it normalizes to |
| FeudScenarios.MissingFirstChar | server/server.js:67 | a haystack without the needle's first character does not include it |
| FeudScenarios.ShorterHay | server/server.js:67 | a haystack shorter than the needle does not include it |
| FeudScenarios.PaddedPepperKey | server/server.js:61 | `"  PEPPER "` normalizes to `"pepper"` |
| FeudScenarios.Pizza | server/questions.js:2-13 | the first question of the bank, with its seven ranked answers and points |
| FeudScenarios.Key0 | server/questions.js:5 | the pizza question's first key is `"pepperoni"` |
| FeudScenarios.Key6 | server/questions.js:11 | the pizza question's seventh key is `"peppers"` |
| FeudScenarios.RevealedPepperoni | server/server.js:65 | a board holding only Pepperoni, in any case, has exactly the key `"pepperoni"` |
| FeudScenarios.PeppersQualifiesFirst | server/server.js:66-68 | with Pepperoni revealed, `"pepper"` first qualifies at Peppers |
| FeudScenarios.PepperoniQualifiesNowhere | server/server.js:66-68 | with Pepperoni revealed, `"pepperoni"` qualifies nowhere |
| FeudScenarios.PepperFindsPepperoni | server/questions.js:2-13 | on an empty board, `"pepper"` matches Pepperoni for 35 points |
| FeudScenarios.PepperThenFindsPeppers | server/questions.js:2-13 | with Pepperoni revealed, `"  PEPPER "` matches Peppers for 4 points |
| FeudScenarios.RepeatedAnswerMisses | server/questions.js:2-13 | repeating the revealed Pepperoni, in any case, matches nothing |

## Left out

- I/O: the WebSocket server, `broadcastState`, and the `welcome`, `created`,
  `joined` and error replies beyond the ones `Receive` returns.
- JSON parsing and the "Invalid JSON" reply. A message arrives already
  parsed, as a `Message`; a field the message leaves out is `None`.
- A `name` in `join` that is present but not a string, such as a number,
  a boolean or an object. `name?.trim()` throws a `TypeError` on it, while
  the model only sees an absent name and stores `"Guest"`.
- A `duration` in `start-round` that is not a number. The source stores it
  as given and coerces it when `choose-play-pass` computes the deadline;
  the model's duration is an integer, defaulting to 45 only when absent.
- A `text` in `answer` or `steal-attempt` that is present but not a
  string. The source ignores it, as the model does for an absent text.
- The human-readable `message` field of the game and every string written
  to it.
- Random sources. `generateCode` and `randomUUID` are not modelled: the room
  code and the connection's identity are parameters.
- The clock. `Date.now()` is the parameter `now`.
- The fast-money fields of the game record. No handler writes them after
  `baseState`.
- The interval timer itself. The sweep's condition is modelled and proved
  never to hold (`TickNeverFires`), so the sweep has no effect to model.
- `currentQuestion` is not in `baseState`. The model starts it as `None`,
  and reset carries it over.
- AnswerMatcher.LowerChar: lower-cases ASCII `A`–`Z` only, because
  `toLowerCase()` on other scripts depends on Unicode case tables.
- GameServer.Registry.Join and GameServer.Registry.Receive: require that the
  sender's identity is not one of a closed connection. The server gives
  every connection a fresh identity, and a closed connection sends no more
  messages. Without this precondition, a returning face-off winner could
  make `faceOffWinner` differ from the listed player object. The set of
  departed identities starts empty, grows only on `Cleanup`, and is kept by
  `Receive`, so a caller can always meet the precondition for a live
  connection (`HostGuestLeaveRejoin`).
- GameServer.Game.StealAttempt and GameRules.StealAttempt: require
  `StealReady`, meaning that in `team-steal` a question, a stealing team and
  a controlling team are set. Otherwise the source would throw a
  `TypeError`. `Valid` implies `StealReady`, so every routed message
  satisfies it.
- `start-round` defaults. `questionIndex` and `duration` take their
  defaults when the field is absent. The model does not distinguish an
  explicit JSON `null`, or an index given as a numeric string, from other
  values.
- Integer width. Scores, deadlines and durations are unbounded integers;
  JavaScript numbers are doubles.
