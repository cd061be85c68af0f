# Football World Cup scoreboard, modelled in Dafny

An in-memory scoreboard for live football matches. A `ScoreBoard` keeps an
insertion-ordered map (a Java `LinkedHashMap`) from a game key to a mutable
`Game` holding two team names and two scores. It supports five operations:

- starting a game, which is guarded by four checks;
- updating a score;
- finishing a game;
- a summary ordered by total score;
- direct access to the map.

The key of a game comes from `UniqueGameIdGenerator`. It writes the alphabet
position of every letter of the home name, followed by the away name, as
decimal text with nothing in between.

The project has five modules:

- `UniqueGameIdGenerator` (`game_ids.dfy`) models the key generator. `EncodePrefix`/`Digits` and `GameId` are pure specification functions. `GenerateUniqueGameId` is the loop of the source, proved equal to them. The lemmas prove what the key is and is not:
  - digits only, with one or two per letter;
  - the home encoding comes first;
  - non-letters add nothing;
  - case does not matter;
  - the key depends on which team is at home;
  - the key is not unique.
- `Games` (`game.dfy`) holds the `Game` class with its four fields, plus `GameView`, a value snapshot of a game.
- `ScoreSummary` (`summary.dfy`) models the summary order. `SortByTotal` is a stable insertion sort by non-increasing total. It is proved sorted, a permutation and stable. A separate lemma proves that sortedness and stability alone single out one order.
- `BoardSpec` (`board_spec.dfy`) holds the board as a value: a sequence of `Entry(key, game)` in start order. It defines:
  - the start check `StartCheck`, in the source's precedence;
  - the lookup check of finish and update;
  - the three state changes `Started`, `Finished` and `Updated`;
  - the invariant `WellFormed`: keys are distinct and each is the id of its game's names, names are letters only, and no team (ignoring case) is in two games.

  Each operation is proved to keep `WellFormed`.
- `ScoreBoards` (`scoreboard.dfy`) holds the `ScoreBoard` class.
  - Fields: `games: map<string, Game>` and `order: seq<string>`, the insertion order of the map's keys. Together they model the `LinkedHashMap`.
  - Ghost field: `Contents`, the board as a `BoardSpec` value.
  - `Valid()` ties the three together, and says that distinct keys hold distinct `Game` objects.
  - Every public method states its outcome and its new `Contents` in terms of the `BoardSpec` functions.

Java exceptions are modelled as an `Outcome`: either `Success`, or
`Failure(error)` with error `GameExists`, `InvalidTeamName`, `TeamBusy(team)` or
`GameNotFound`. A failing operation leaves the board unchanged.

The model follows the code where the repository's tests expect otherwise, and
states plainly what the code does:

- **Swapping teams changes the key.** The code builds the key from `homeTeam + awayTeam`, so swapping home and away gives a different key. `UniqueGameIdGeneratorTest.java:10-28` and `ScoreBoardTest.java:78-93, 204-217` expect an order-independent key. `GameIdDependsOnOrder`, `GameIdPolandSpain`, `SwappedStartRejected`, `SwappedStartBusy` and `SwappedTeamsNotFound` prove what the code does instead.
- **Ties keep start order.** Games with equal totals stay in the order they were started, because `Stream.sorted` is stable on the ordered stream of `games.values()`.
- **Only the letters-only check exists.** The code checks names against `[a-zA-Z]+` and nothing else. It has no length limit on names, no check that the two names differ, and no trimming of names. `ScoreBoard.updateScore` has no negative-score check; `Game.updateScore` is not shown and is assumed to set both scores.

## Model

| member | source | states |
|---|---|---|
| `UniqueGameIdGenerator.ToUpper` | src/main/java/FootballWorldCupScoreboard/UniqueGameIdGenerator.java:26 | upper-casing keeps upper-case letters and non-letters unchanged, and sends each lower-case letter to the upper-case letter at the same alphabet position |
| `UniqueGameIdGenerator.Position` | src/main/java/FootballWorldCupScoreboard/UniqueGameIdGenerator.java:26 | `toUpperCase(c) - 'A' + 1` is the alphabet position of the letter, ignoring case: A and a give 1, Z and z give 26 |
| `UniqueGameIdGenerator.DecimalShape` | src/main/java/FootballWorldCupScoreboard/UniqueGameIdGenerator.java:27 | the decimal text appended for a number is non-empty and all digits: one digit below 10, two below 100 |
| `UniqueGameIdGenerator.DecimalRoundTrip` | src/main/java/FootballWorldCupScoreboard/UniqueGameIdGenerator.java:27 | reading the appended decimal text back gives the number |
| `UniqueGameIdGenerator.Trim` | src/main/java/FootballWorldCupScoreboard/UniqueGameIdGenerator.java:30 | `trim` never lengthens, and returns its input when no character is a space or control character |
| `UniqueGameIdGenerator.GenerateUniqueGameId` | src/main/java/FootballWorldCupScoreboard/UniqueGameIdGenerator.java:20-31 | the loop over `homeTeam + awayTeam` returns exactly the key `GameId(home, away)`, and that key is all digits, so the final trim removes nothing |
| `UniqueGameIdGenerator.DigitsSnoc` | src/main/java/FootballWorldCupScoreboard/UniqueGameIdGenerator.java:24-29 | one more character appends exactly its own code: its position for a letter, nothing otherwise |
| `UniqueGameIdGenerator.DigitsShape` | src/main/java/FootballWorldCupScoreboard/UniqueGameIdGenerator.java:24-29 | an encoding holds only digits, and has between n and 2n of them for n letters |
| `UniqueGameIdGenerator.DigitsAppend` | src/main/java/FootballWorldCupScoreboard/UniqueGameIdGenerator.java:21-29 | the encoding of a concatenation is the concatenation of the encodings |
| `UniqueGameIdGenerator.GameIdSplit` | src/main/java/FootballWorldCupScoreboard/UniqueGameIdGenerator.java:21 | the key is the home name's encoding followed by the away name's |
| `UniqueGameIdGenerator.GameIdLength` | src/main/java/FootballWorldCupScoreboard/UniqueGameIdGenerator.java:24-29 | the key is empty if and only if neither name has a letter, and its length lies between n and 2n for n letters |
| `UniqueGameIdGenerator.DigitsSkipsNonLetter` | src/main/java/FootballWorldCupScoreboard/UniqueGameIdGenerator.java:25 | inserting a non-letter anywhere leaves the encoding unchanged |
| `UniqueGameIdGenerator.LetterCodeIgnoresCase` | src/main/java/FootballWorldCupScoreboard/UniqueGameIdGenerator.java:26 | a character and its upper-case form have the same code |
| `UniqueGameIdGenerator.DigitsIgnoresCase` | src/main/java/FootballWorldCupScoreboard/UniqueGameIdGenerator.java:26 | upper-casing a name does not change its encoding |
| `UniqueGameIdGenerator.GameIdIgnoresCase` | src/main/java/FootballWorldCupScoreboard/UniqueGameIdGenerator.java:26 | upper-casing either team name does not change the key |
| `UniqueGameIdGenerator.DigitsPoland` | src/test/java/FootballWorldCupScoreboard/UniqueGameIdGeneratorTest.java:59-60 | "POLAND" encodes to "1615121144" |
| `UniqueGameIdGenerator.DigitsItaly` | src/test/java/FootballWorldCupScoreboard/UniqueGameIdGeneratorTest.java:18 | "ITALY" encodes to "92011225" |
| `UniqueGameIdGenerator.DigitsSpain` | src/main/java/FootballWorldCupScoreboard/UniqueGameIdGenerator.java:24-29 | "Spain" encodes to "19161914", lower-case letters counted by their upper-case position |
| `UniqueGameIdGenerator.DigitsPolandMixedCase` | src/main/java/FootballWorldCupScoreboard/UniqueGameIdGenerator.java:26 | "Poland" encodes like "POLAND", to "1615121144" |
| `UniqueGameIdGenerator.GameIdPolandSpain` | src/main/java/FootballWorldCupScoreboard/UniqueGameIdGenerator.java:21 | Poland against Spain is keyed "161512114419161914" and Spain against Poland "191619141615121144" |
| `UniqueGameIdGenerator.GameIdDependsOnOrder` | src/main/java/FootballWorldCupScoreboard/UniqueGameIdGenerator.java:21 | POLAND against ITALY is keyed "161512114492011225" and ITALY against POLAND "920112251615121144": swapping the teams changes the key |
| `UniqueGameIdGenerator.DigitsNotInjective` | src/main/java/FootballWorldCupScoreboard/UniqueGameIdGenerator.java:3-19 | "AB" and "L" both encode to "12", so the encoding is not unique |
| `UniqueGameIdGenerator.GameIdNotInjective` | src/main/java/FootballWorldCupScoreboard/UniqueGameIdGenerator.java:3-19 | the different pairs ("A", "BCD") and ("LC", "D") share the key "1234", so the "unique" id is not unique |
| `Games.Game.constructor` | src/main/java/FootballWorldCupScoreboard/Game.java:14-17 | stores both names exactly as given, unchecked, with scores 0-0 |
| `Games.Game.StartGame` | src/main/java/FootballWorldCupScoreboard/Game.java:19-22 | sets both scores to 0 and keeps both names, whatever the scores were before |
| `Games.Game.GetHomeScore` | src/main/java/FootballWorldCupScoreboard/Game.java:24-26 | returns the current home score and changes nothing |
| `Games.Game.GetAwayScore` | src/main/java/FootballWorldCupScoreboard/Game.java:28-30 | returns the current away score and changes nothing |
| `Games.Game.GetHomeTeam` | src/main/java/FootballWorldCupScoreboard/ScoreBoard.java:75 | returns the stored home name and changes nothing |
| `Games.Game.GetAwayTeam` | src/main/java/FootballWorldCupScoreboard/ScoreBoard.java:76 | returns the stored away name and changes nothing |
| `Games.Game.UpdateScore` | src/main/java/FootballWorldCupScoreboard/ScoreBoard.java:43 | sets both scores to the given values, without any check, and keeps the names |
| `ScoreSummary.InsertSorted` | src/main/java/FootballWorldCupScoreboard/ScoreBoard.java:47-49 | inserting a game into a sequence sorted by non-increasing total keeps it sorted |
| `ScoreSummary.InsertPermutes` | src/main/java/FootballWorldCupScoreboard/ScoreBoard.java:47-49 | insertion adds exactly the inserted game to the multiset |
| `ScoreSummary.InsertStable` | src/main/java/FootballWorldCupScoreboard/ScoreBoard.java:47-49 | after insertion into a sorted sequence, each group of equal totals reads as before with the new game last |
| `ScoreSummary.SortByTotalSorted` | src/main/java/FootballWorldCupScoreboard/ScoreBoard.java:46-50 | the summary order has non-increasing `homeScore + awayScore` |
| `ScoreSummary.SortByTotalPermutes` | src/main/java/FootballWorldCupScoreboard/ScoreBoard.java:46-50 | the summary holds exactly the active games, each once |
| `ScoreSummary.SortByTotalStable` | src/main/java/FootballWorldCupScoreboard/ScoreBoard.java:46-50 | games with equal totals keep their relative input order, so the sort is stable |
| `ScoreSummary.SortedStableUnique` | src/main/java/FootballWorldCupScoreboard/ScoreBoard.java:46-50 | two sequences that are both sorted by total and have the same equal-total groups are equal |
| `ScoreSummary.SortByTotalCharacterised` | src/main/java/FootballWorldCupScoreboard/ScoreBoard.java:46-50 | any sorted, stable reordering of the games is the summary |
| `ScoreSummary.TiesKeepStartOrderPrefix` | src/main/java/FootballWorldCupScoreboard/ScoreBoard.java:46-50 | games with totals 3, 3, 5, 6 come out as 6, 5 and then the two 3s in start order |
| `ScoreSummary.TiesKeepStartOrder` | src/main/java/FootballWorldCupScoreboard/ScoreBoard.java:46-50 | games with totals 3, 3, 5, 6, 2 come out as 6, 5, the two 3s in start order, then 2 |
| `BoardSpec.StartCheck` | src/main/java/FootballWorldCupScoreboard/ScoreBoard.java:56-67 | GameExists exactly when the key is stored; otherwise InvalidTeamName exactly when a name is not `[a-zA-Z]+`; otherwise TeamBusy exactly when either team is busy, naming the home team when it is busy and the away team otherwise; Success exactly when all four checks pass, so no other error can occur |
| `BoardSpec.LookupCheck` | src/main/java/FootballWorldCupScoreboard/ScoreBoard.java:25-44 | finish and update succeed exactly when the key is stored, and fail otherwise with GameNotFound |
| `BoardSpec.StartPreservesWellFormed` | src/main/java/FootballWorldCupScoreboard/ScoreBoard.java:19-23 | a successful start keeps the keys distinct and equal to the ids of their names, the names letters-only, and every team in at most one game |
| `BoardSpec.FinishPreservesWellFormed` | src/main/java/FootballWorldCupScoreboard/ScoreBoard.java:25-33 | a finish keeps the board invariant |
| `BoardSpec.UpdatePreservesWellFormed` | src/main/java/FootballWorldCupScoreboard/ScoreBoard.java:35-44 | an update keeps the board invariant |
| `BoardSpec.UpdatedChangesOnlyKey` | src/main/java/FootballWorldCupScoreboard/ScoreBoard.java:35-44 | an update keeps every key, its position and every name; it changes no other game, and gives the addressed game exactly the new scores |
| `BoardSpec.UpdatedAbsent` | src/main/java/FootballWorldCupScoreboard/ScoreBoard.java:38-41 | updating a key that is not stored changes nothing |
| `BoardSpec.FinishedAbsent` | src/main/java/FootballWorldCupScoreboard/ScoreBoard.java:28-30 | finishing a key that is not stored changes nothing |
| `BoardSpec.FinishedRemovesAt` | src/main/java/FootballWorldCupScoreboard/ScoreBoard.java:32 | finishing removes exactly the entry at the key's position, and the others keep their order |
| `BoardSpec.FinishedKeeps` | src/main/java/FootballWorldCupScoreboard/ScoreBoard.java:32 | every entry left after a finish was on the board and has a different key |
| `BoardSpec.KeysFinished` | src/main/java/FootballWorldCupScoreboard/ScoreBoard.java:32 | removing the key from the insertion order matches removing its entry from the board |
| `BoardSpec.StoredHasKey` | src/main/java/FootballWorldCupScoreboard/ScoreBoard.java:7 | the map holds a key exactly when the board has an entry with that key |
| `BoardSpec.StoredStart` | src/main/java/FootballWorldCupScoreboard/ScoreBoard.java:22 | `put` of a new key, appended to the insertion order, stores the started board |
| `BoardSpec.StoredFinish` | src/main/java/FootballWorldCupScoreboard/ScoreBoard.java:32 | `remove` from the map and the insertion order stores the finished board |
| `BoardSpec.StoredUpdate` | src/main/java/FootballWorldCupScoreboard/ScoreBoard.java:43 | replacing the view of the addressed game stores the updated board |
| `BoardSpec.StartThenFinish` | src/main/java/FootballWorldCupScoreboard/ScoreBoard.java:19-33 | starting a pair and then finishing the same pair gives back the board as it was |
| `BoardSpec.EmptyBoardRoundTrip` | src/test/java/FootballWorldCupScoreboard/ScoreBoardTest.java:158-171 | on an empty board every letters-only pair starts, and finishing it empties the board again |
| `BoardSpec.RestartRejected` | src/test/java/FootballWorldCupScoreboard/ScoreBoardTest.java:60-75 | starting the same pair again fails with GameExists |
| `BoardSpec.TeamBusyIgnoresCase` | src/main/java/FootballWorldCupScoreboard/ScoreBoard.java:73-79 | the busy check gives the same answer for a name and its upper-case form |
| `BoardSpec.KeyCollisionRejectsFreeTeams` | src/main/java/FootballWorldCupScoreboard/ScoreBoard.java:56-60 | with "A" against "BCD" running, starting "LC" against "D" fails with GameExists although neither team is busy |
| `BoardSpec.SwappedStartRejected` | src/test/java/FootballWorldCupScoreboard/ScoreBoardTest.java:78-93 | starting a running pair again with the teams swapped fails with GameExists only when the swapped key is already stored; otherwise it fails with TeamBusy of the new home team |
| `BoardSpec.SwappedTeamsNotFound` | src/test/java/FootballWorldCupScoreboard/ScoreBoardTest.java:204-217 | after starting Poland against Spain, finishing Spain against Poland fails with GameNotFound and leaves the one game on the board, where the test expects an empty board |
| `BoardSpec.SwappedStartBusy` | src/test/java/FootballWorldCupScoreboard/ScoreBoardTest.java:78-93 | after starting Poland against Spain, starting Spain against Poland fails with TeamBusy("Spain"), where the test expects GameExists |
| `ScoreBoards.ScoreBoard.constructor` | src/main/java/FootballWorldCupScoreboard/ScoreBoard.java:7 | a new scoreboard is valid and empty, and every game it holds is newly allocated |
| `ScoreBoards.ScoreBoard.StartGame` | src/main/java/FootballWorldCupScoreboard/ScoreBoard.java:19-23 | the outcome is `StartCheck` on the current board; on success the board becomes `Started`, with one new 0-0 entry at the end; on failure nothing changes; every game object it adds is newly allocated |
| `ScoreBoards.ScoreBoard.Put` | src/main/java/FootballWorldCupScoreboard/ScoreBoard.java:22 | storing a new game under a new key appends that game to the board and keeps the invariant; the map gains exactly the key with a newly allocated game |
| `ScoreBoards.ScoreBoard.FinishGame` | src/main/java/FootballWorldCupScoreboard/ScoreBoard.java:25-33 | the outcome is `LookupCheck` of the pair's key; the board becomes `Finished`; on failure nothing changes; no game object is added |
| `ScoreBoards.ScoreBoard.Remove` | src/main/java/FootballWorldCupScoreboard/ScoreBoard.java:32 | removing a stored key drops its entry and keeps the invariant; the map loses exactly that key and keeps every other key and game |
| `ScoreBoards.ScoreBoard.UpdateScore` | src/main/java/FootballWorldCupScoreboard/ScoreBoard.java:35-44 | the outcome is `LookupCheck` of the pair's key; the board becomes `Updated`; the map and the insertion order stay the same; on failure no object changes |
| `ScoreBoards.ScoreBoard.Rescore` | src/main/java/FootballWorldCupScoreboard/ScoreBoard.java:43 | updating the stored game object changes only that entry of the board |
| `ScoreBoards.ScoreBoard.GetSummaryByTotalScore` | src/main/java/FootballWorldCupScoreboard/ScoreBoard.java:46-50 | returns the games sorted by non-increasing total, as a permutation of the active games, with equal totals in start order, and changes nothing |
| `ScoreBoards.ScoreBoard.Values` | src/main/java/FootballWorldCupScoreboard/ScoreBoard.java:47 | `games.values()` reads, through the getters, the view of every game in insertion order |
| `ScoreBoards.ScoreBoard.GetGames` | src/main/java/FootballWorldCupScoreboard/ScoreBoard.java:52-54 | returns the stored map: its keys are exactly the board's keys, and each maps to the game object of that entry |
| `ScoreBoards.ScoreBoard.ValidateGameStartConditions` | src/main/java/FootballWorldCupScoreboard/ScoreBoard.java:56-67 | runs the four checks in order and returns exactly `StartCheck` |
| `ScoreBoards.ScoreBoard.ValidateIfGameExists` | src/main/java/FootballWorldCupScoreboard/ScoreBoard.java:69-71 | true exactly when some game on the board has the key |
| `ScoreBoards.ScoreBoard.ValidateIfTeamIsBusy` | src/main/java/FootballWorldCupScoreboard/ScoreBoard.java:73-79 | the scan says busy exactly when some game has the team as home or away, ignoring case |

## Left out

- Unicode: `Character.isLetter` and `Character.toUpperCase` also accept non-ASCII letters. `GenerateUniqueGameId` and the `ScoreBoard` methods take ASCII strings only (the `AsciiString` type).
- Null team names, which Java would concatenate as the text "null", are not modelled: Dafny strings are never null.
- The regular-expression engine is not modelled. `matches("[a-zA-Z]+")` is the predicate `IsValidTeamName`: non-empty, and every character an ASCII letter.
- Exception types and message texts, including the `String.format` of the busy message, are replaced by the `BoardError` values. `TeamBusy` carries the team name that the message would show.
- 32-bit arithmetic is not modelled: scores and totals are unbounded integers, so a comparator total that would overflow `int` is not reproduced.
- `Game.getHomeTeam`, `Game.getAwayTeam` and `Game.updateScore` are called by `ScoreBoard` but are not part of the shown `Game.java`. They are modelled as a plain accessor and a plain setter of both scores.
- ScoreBoards.ScoreBoard.GetSummaryByTotalScore returns `GameView` snapshots of the games, not references to the live `Game` objects that the Java list holds. A later score change is therefore not visible through an earlier summary.
- ScoreBoards.ScoreBoard.GetGames returns the map of live `Game` objects, but a Dafny map has no iteration order. The `LinkedHashMap` order is the separate `order` field.
- `Stream.sorted` is modelled by one stable sort, `SortByTotal`. `SortByTotalCharacterised` shows that every stable sort by total gives the same result.
- The tests that expect an order-independent key or that treat a null name as empty are not modelled, because the code does neither. These are `UniqueGameIdGeneratorTest.java:10-69` and `ScoreBoardTest.java:78-93, 204-217`.
- The JUnit harness is not part of this model.
