# LAScramble rule layer, in Dafny

LAScramble is a team game played on the Los Angeles metro. Teams unlock a
challenge at a station on one of the lines A, B, D or E. They complete it,
and they score "line control" by the number of distinct stations at which
they completed challenges on each line. This project models the game's rule
layer and proves properties of it:

- **Data** (`Stations`, `ChallengeData`):
  - the closed `MetroLine` enum, with its raw values and failable parse;
  - the eight sample stations;
  - the five-entry challenge catalog;
  - `GameChallenge` with its generated id and optional line;
  - the document record a challenge is stored as.
- **Store keys** (`Keys`):
  - the binding key: the station name with `/` turned into `_`;
  - the unlocked-entry key: `station_title` with every run of characters
    outside `[a-zA-Z0-9_]` collapsed to one `_`.
- **Challenge lifecycle** (`MainGame`): class `GameScreen` keeps an in-memory
  copy of the game's store and the lists the screen shows. It covers:
  - unlock, where the first unlock of a station wins;
  - save and complete;
  - the snapshot listeners that rebuild the lists;
  - listener registration, team names and the countdown.
- **List filters and lookup** (`ChallengeLists`):
  - the active, other-teams and completed-by-others lists;
  - `removeAll` by id;
  - `teamThatCompleted`.
- **Territory scoring** (`Territory`, `ScoreDetails`, `EndGame`): the three
  rules found in the code, each modelled as written.
  - Per-team, per-line counts of distinct stations.
  - The game screen's unique-controller rule: only the station's first line
    is looked at, and a tie gives no controller.
  - The details sheet's tie-inclusive controllers.
  - The end-of-game winner: the team with the most lines on which it
    completed anything. The comparison is strict, so the first team visited
    wins a tie.
- **Timer** (`SessionTimer`):
  - the two-hour game and the remaining time, in integer seconds;
  - `formatTime`, with a parser proving that the rendering loses nothing.

`GameChallenge` as declared in `LAScramble/Models/ChallengeData.swift` has no
`line` field. The game screen builds and reads one as an optional, so the
model follows those call sites and gives the value `line: Option<MetroLine>`.
It also gives it an explicit `id: nat` that stands for the UUID generated on
every construction. Fresh ids come from a counter (`nextId`) in the screen.
The screen keeps every id it holds below that counter (`GameScreen.IdsIssued`),
so a challenge built later never equals one held now, as with fresh UUIDs.

## Model

| member | source | states |
|---|---|---|
| Stations.ParseLine | LAScramble/Models/Station.swift:12-13 | A string parses only to the line whose raw value it is |
| Stations.ParseRawValue | LAScramble/Models/Station.swift:12-13 | Parsing a line's raw value gives back that line |
| Stations.ParseLineIff | LAScramble/Models/Station.swift:12-13 | A string parses to a line exactly when it equals that line's raw value; every other string parses to nothing |
| Stations.AllLinesClosed | LAScramble/Models/Station.swift:12-13 | Every line is one of exactly four distinct cases, listed in `allCases` |
| Stations.EveryStationHasALine | LAScramble/Models/Station.swift:25-34 | Every sample station belongs to at least one line |
| Stations.StationNamesDistinct | LAScramble/Models/Station.swift:25-34 | Sample station names are pairwise distinct |
| Stations.MultiLineStations | LAScramble/Models/Station.swift:26-33 | Only Mariachi Plaza, Union Station and 7th Street/Metro Center are on more than one line, each on exactly two distinct lines |
| ChallengeData.FromToDoc | LAScramble/Views/MainGameScreenView.swift:416-423 | Writing a challenge and rebuilding it from the document gives back the challenge, apart from the id the reader generates |
| ChallengeData.ToFromDoc | LAScramble/Views/MainGameScreenView.swift:416-423 | Rebuilding a document and writing it again gives the same document exactly when its line field is empty or a line's raw value |
| ChallengeData.SeparatelyBuiltUnequal | LAScramble/Models/ChallengeData.swift:3-8 | Two values built separately from the same fields are unequal, yet store the same document |
| ChallengeData.CatalogOptions | LAScramble/Views/MainGameScreenView.swift:327 | The options are exactly the catalog entries whose station is the given name |
| ChallengeData.FilterStation | LAScramble/Views/MainGameScreenView.swift:327 | Keeps exactly the entries with the given station, and never lengthens the list |
| ChallengeData.CatalogShape | LAScramble/Models/ChallengeData.swift:10-16 | The catalog holds five templates, no two of them for the same station |
| ChallengeData.CatalogStationsOnMap | LAScramble/Models/ChallengeData.swift:11-15 | Every template's station is the name of a sample station |
| ChallengeData.OneOptionPerStation | LAScramble/Models/ChallengeData.swift:10-16 | A station with a template is offered exactly that one template |
| ChallengeData.StationsWithoutTemplate | LAScramble/Views/MainGameScreenView.swift:327-331 | Union Station, Pershing Square and 7th Street/Metro Center have no options |
| Keys.SafeStationID | LAScramble/Views/MainGameScreenView.swift:310 | The binding key has the name's length, contains no `/`, puts `_` wherever the name has `/`, and keeps every other character in place |
| Keys.SampleStationIDsDistinct | LAScramble/Views/MainGameScreenView.swift:310 | The eight sample stations get eight distinct binding keys |
| Keys.SkipRun | LAScramble/Views/MainGameScreenView.swift:370-371 | Dropping a leading run never lengthens the string and leaves it empty or starting with a key character |
| Keys.CollapseRuns | LAScramble/Views/MainGameScreenView.swift:370-371 | The result contains only `[a-zA-Z0-9_]` and is no longer than the input |
| Keys.DocID | LAScramble/Views/MainGameScreenView.swift:370-371 | The unlocked-entry key contains only key characters and is no longer than `station_title` |
| Keys.CollapseKeyOnly | LAScramble/Views/MainGameScreenView.swift:370-371 | A string made only of key characters is left unchanged |
| Keys.CollapseIdempotent | LAScramble/Views/MainGameScreenView.swift:370-371 | Collapsing an already collapsed string changes nothing |
| Keys.CollapseRun | LAScramble/Views/MainGameScreenView.swift:370-371 | A non-empty run of non-key characters becomes exactly one `_` |
| Keys.CollapseRunThen | LAScramble/Views/MainGameScreenView.swift:370-371 | A non-empty run of non-key characters followed by nothing or by a key character becomes one `_` in front of the collapsed rest |
| Keys.CollapseSplit | LAScramble/Views/MainGameScreenView.swift:370-371 | Runs never cross a key character: collapsing splits at a key character |
| ChallengeLists.Filter | LAScramble/Views/MainGameScreenView.swift:175-179 | Keeps exactly the elements that pass the test, and never lengthens the list |
| ChallengeLists.FilterAppend | LAScramble/Views/MainGameScreenView.swift:175-179 | Filtering distributes over concatenation, so the kept elements stay in their order |
| ChallengeLists.ActiveChallenges | LAScramble/Views/MainGameScreenView.swift:175-179 | The active list holds exactly the unlocked challenges whose title and station no global completion has |
| ChallengeLists.FlatPairs | LAScramble/Views/MainGameScreenView.swift:213-214 | A (team, challenge) pair is listed exactly when that team's list holds the challenge |
| ChallengeLists.OtherTeamsChallenges | LAScramble/Views/MainGameScreenView.swift:213-218 | A pair is listed exactly when the other team unlocked it and neither the own unlocked list nor the global completions has its title and station |
| ChallengeLists.CompletedByOthers | LAScramble/Views/MainGameScreenView.swift:236-238 | As written: the global completions not equal, id included, to an own completion |
| ChallengeLists.CompletedByOthersKeepsAll | LAScramble/Views/MainGameScreenView.swift:236-238 | When no global completion shares an id with an own completion, the list is the whole global list |
| ChallengeLists.CompletedByOthersByContent | LAScramble/Views/MainGameScreenView.swift:236-238 | The intended list: global completions whose title and station the team has not completed |
| ChallengeLists.OwnCompletionListed | LAScramble/Views/MainGameScreenView.swift:236-238 | An own completion read back by both listeners stays listed as written, and is dropped by the intended filter |
| ChallengeLists.RemoveById | LAScramble/Views/MainGameScreenView.swift:386 | Removes exactly the entries with that id and keeps every other entry |
| ChallengeLists.RemoveAbsentId | LAScramble/Views/MainGameScreenView.swift:386 | Removing an id that is not present leaves the list unchanged |
| ChallengeLists.RemoveByIdIdempotent | LAScramble/Views/MainGameScreenView.swift:386 | Removing the same id twice equals removing it once |
| ChallengeLists.TeamThatCompleted | LAScramble/Views/MainGameScreenView.swift:617-626 | nil exactly when no team's completions have the challenge's title and station; otherwise a team whose completions do |
| SessionTimer.EndTime | LAScramble/Views/MainGameScreenView.swift:26 | The game ends 7200 seconds, two hours, after it starts |
| SessionTimer.RemainingTime | LAScramble/Views/MainGameScreenView.swift:591-597 | The remaining time is never negative and is either 0 or end minus now |
| SessionTimer.EndedIffNothingRemains | LAScramble/Views/MainGameScreenView.swift:594-595 | The game has ended exactly when the remaining time is 0 |
| SessionTimer.RemainingAtMostDuration | LAScramble/Views/MainGameScreenView.swift:581 | After the start, at most two hours remain |
| SessionTimer.RemainingMonotone | LAScramble/Views/MainGameScreenView.swift:591-597 | The remaining time never grows as the clock advances |
| SessionTimer.LastSecond | LAScramble/Views/MainGameScreenView.swift:591-597 | One second before the end, one second remains and the game is running; at the end, nothing remains and it has ended |
| SessionTimer.ClockOf | LAScramble/Views/MainGameScreenView.swift:600-602 | Minutes and seconds are below 60, and hours·3600 + minutes·60 + seconds gives back the input |
| SessionTimer.Decimal | LAScramble/Views/MainGameScreenView.swift:603 | `%d` is a non-empty digit string, one digit below 10 and two below 100 |
| SessionTimer.Pad2 | LAScramble/Views/MainGameScreenView.swift:603 | `%02d` is at least two digits, exactly two below 100 |
| SessionTimer.FormatTime | LAScramble/Views/MainGameScreenView.swift:599-604 | The clock string has at least 8 characters, exactly 8 below 100 hours |
| SessionTimer.FormatTimeRoundTrip | LAScramble/Views/MainGameScreenView.swift:599-604 | Reading the clock string back gives the number of seconds, so no information is lost |
| Territory.StationsOn | LAScramble/Views/MainGameScreenView.swift:275-281 | A team's station set on a line is no larger than its number of completions |
| Territory.StationsOnMembers | LAScramble/Views/MainGameScreenView.swift:275-281 | A station is in a line's set exactly when some completion on that line names it |
| Territory.StationsOnSnoc | LAScramble/Views/MainGameScreenView.swift:279 | A new completion adds its station to its own line only |
| Territory.DuplicateStationCountsOnce | LAScramble/Views/MainGameScreenView.swift:279 | Completing again at a station already counted on that line adds nothing |
| Territory.UnparsableLineSkipped | LAScramble/Views/MainGameScreenView.swift:277-278 | A completion whose line does not parse changes no line's set |
| Territory.StationMapEmpty | LAScramble/Views/EndGameView.swift:93-99 | A team's line map is non-empty exactly when one of its completions is on a line that parses |
| Territory.LineCountsTeam | LAScramble/Views/EndGameView.swift:93-112 | A team has a line-count entry exactly when it is listed and has a completion on a line that parses |
| Territory.LineCountsLine | LAScramble/Views/EndGameView.swift:105-112 | A line has an entry in a team's row exactly when the team completed something on it; the entry is its number of distinct stations, at least 1 |
| Territory.AddTeamStations | LAScramble/Views/EndGameView.swift:93-99 | The document loop gives the team's entry exactly its line map, and an entry only when that map is non-empty |
| Territory.InsertAllIsStationMap | LAScramble/Views/EndGameView.swift:93-99 | Inserting stations one completion at a time builds the team's line map |
| Territory.CollectStations | LAScramble/Views/MainGameScreenView.swift:266-281 | The outer loop over team documents gives the station sets of all the teams |
| Territory.CountStations | LAScramble/Views/MainGameScreenView.swift:285-290 | Converting the station sets gives, per team and line, the size of each set |
| Territory.StoreSizes | LAScramble/Views/MainGameScreenView.swift:287-289 | The inner conversion loop stores the size of every set of the team in its row, and creates a row only when the team has a set |
| Territory.CompletionCounted | LAScramble/Views/MainGameScreenView.swift:266-291 | Every completion on a line that parses is counted: its team and line have entries, and its station is in the set |
| Territory.AggregateLineCounts | LAScramble/Views/MainGameScreenView.swift:266-291 | The whole aggregation computes the distinct-station counts of every listed team |
| Territory.MaxCount | LAScramble/Views/MainGameScreenView.swift:608 | The maximum bounds every team's count on the line (missing read as 0), is reached by some team, and is 0 with no teams |
| Territory.SingletonTop | LAScramble/Views/MainGameScreenView.swift:609-611 | The filtered teams form a singleton exactly when one team alone has an entry equal to the maximum |
| Territory.ControllingTeamForStation | LAScramble/Views/MainGameScreenView.swift:605-616 | A lineless station gives nil; a result is always the stored name of the sole top team of the first line |
| Territory.SoleTopControls | LAScramble/Views/MainGameScreenView.swift:611-613 | The sole top team of the first line, with a stored name, is reported |
| Territory.SoleTopStrictlyAhead | LAScramble/Views/MainGameScreenView.swift:608-611 | With aggregated counts, the sole top team is positive and strictly ahead of every other team |
| Territory.TieMeansNoController | LAScramble/Views/MainGameScreenView.swift:611-615 | Two teams tied at the maximum give nil |
| Territory.NoCountsMeansNoController | LAScramble/Views/MainGameScreenView.swift:608-615 | When no team has an entry on the first line, the result is nil |
| Territory.FirstLineOnly | LAScramble/Views/MainGameScreenView.swift:606 | Stations with the same first line get the same answer, whatever their other lines |
| ScoreDetails.SortedKeysDistinct | LAScramble/ScoreDetailsView.swift:15 | The sorted key list names no team twice |
| ScoreDetails.MaxAlong | LAScramble/ScoreDetailsView.swift:16 | The maximum along a team list bounds every count (missing read as 0), is reached, and is 0 for no teams |
| ScoreDetails.MaxAlongIsMaxCount | LAScramble/ScoreDetailsView.swift:16 | Along any list of all the keys, the maximum is the largest count of the table |
| ScoreDetails.ControllersLead | LAScramble/ScoreDetailsView.swift:16-17 | Every controller's count is positive and at least every team's count on the line |
| ScoreDetails.ControllersExist | LAScramble/ScoreDetailsView.swift:17 | A line has a controller exactly when some team has a positive count on it |
| ScoreDetails.TieGivesSeveralControllers | LAScramble/ScoreDetailsView.swift:17 | Two teams tied at a positive maximum are both controllers |
| ScoreDetails.RulesDisagreeOnTie | LAScramble/ScoreDetailsView.swift:17 | On a tie the game screen reports no controller while the details sheet reports both teams |
| ScoreDetails.RulesAgreeOnSoleTop | LAScramble/ScoreDetailsView.swift:16-17 | With aggregated counts, the game screen's sole top team is the details sheet's only controller |
| ScoreDetails.LineSectionOf | LAScramble/ScoreDetailsView.swift:15-24 | A line is uncontrolled with no rows exactly when every count is 0; otherwise every team is listed in sorted order, marked as controller exactly when it leads |
| ScoreDetails.MaxAlongLeads | LAScramble/ScoreDetailsView.swift:16-17 | Along all the keys, holding a positive maximum is leading the line |
| ScoreDetails.LeadsIffController | LAScramble/ScoreDetailsView.swift:17 | A team leads a line exactly when it is among its controllers |
| ScoreDetails.LineControlDetails | LAScramble/ScoreDetailsView.swift:10 | Four sections, one per line, in declaration order A, B, D, E |
| ScoreDetails.SectionRowsSorted | LAScramble/ScoreDetailsView.swift:15 | The rows of a controlled section are in strictly ascending team-ID order |
| EndGame.ScoreRange | LAScramble/Views/EndGameView.swift:128 | A line map with a positive count scores between 1 and 4 |
| EndGame.ScoreBounds | LAScramble/Views/EndGameView.swift:93-99 | Every team with a line-count entry scores between 1 and 4 |
| EndGame.DetermineWinner | LAScramble/Views/EndGameView.swift:123-136 | nil exactly when there are no entries; the winner has the maximum score, and every team visited before it scores strictly less |
| EndGame.KeysInSomeOrder | LAScramble/Views/EndGameView.swift:127 | The dictionary's iteration order lists every key exactly once |
| EndGame.FetchGameSummary | LAScramble/Views/EndGameView.swift:66-121 | Names fall back to the team ID; challenge counts are the number of completed documents; line counts are the distinct-station counts; a winner has the maximum score, and there is none exactly when no team has an entry |
| EndGame.NoWinnerIffNoLine | LAScramble/Views/EndGameView.swift:105-118 | Nobody wins exactly when no team completed anything on a line that parses |
| MainGame.Rebuild | LAScramble/Views/MainGameScreenView.swift:416-423 | A snapshot yields one challenge per document, in order, each with the document's fields and a fresh id |
| MainGame.RebuildKeepsContent | LAScramble/Views/MainGameScreenView.swift:416-423 | Every rebuilt challenge has its document's title and station |
| MainGame.HeldBelowGrow | LAScramble/Models/ChallengeData.swift:4 | Handing out more ids keeps every held id below the counter |
| MainGame.CompleteKeepsHeldBelow | LAScramble/Views/MainGameScreenView.swift:385-387 | Dropping a held id from the unlocked list and appending a challenge with a held id keeps every held id below the counter |
| MainGame.FreshIdsShareNone | LAScramble/Views/MainGameScreenView.swift:236-238 | A list rebuilt with ids at or above the counter shares no id with a held list, so the id-based filter keeps all of it |
| MainGame.SnapshotsShareNoId | LAScramble/Views/MainGameScreenView.swift:472-498 | Two snapshots rebuilt one after the other share no id |
| MainGame.ReadBackListsOwn | LAScramble/Views/MainGameScreenView.swift:472-498 | The same documents read by both listeners give lists with the same contents and no shared id |
| MainGame.ContentFilterEmpty | LAScramble/Views/MainGameScreenView.swift:236-238 | The intended filter removes everything when every global entry's content is an own completion |
| MainGame.BindKeepsKeyed | LAScramble/Views/MainGameScreenView.swift:333-348 | A first unlock's binding keeps every binding under its own station's key and readable |
| MainGame.SaveKeepsKeyed | LAScramble/Views/MainGameScreenView.swift:370-373 | Saving keeps every entry under its own key, and the saved document is found under its key |
| MainGame.SaveIdempotent | LAScramble/Views/MainGameScreenView.swift:370-373 | Repeating an unlock overwrites the same entry: saving twice equals saving once |
| MainGame.RecordKeepsRecorded | LAScramble/Views/MainGameScreenView.swift:397-401 | Recording a completion for the team and game-wide keeps every team completion in the game-wide list |
| MainGame.OwnCompletionCounted | LAScramble/Views/MainGameScreenView.swift:385-406 | A completed challenge with a line is counted for its team, on that line, at its station |
| MainGame.OtherTeamIDs | LAScramble/Views/MainGameScreenView.swift:509 | The other teams are exactly the document IDs different from this team's |
| MainGame.GameScreen.constructor | LAScramble/Views/MainGameScreenView.swift:11-20 | The screen starts with empty lists and counts, and with an empty store, so every held id is below the counter |
| MainGame.GameScreen.NewId | LAScramble/Models/ChallengeData.swift:4 | The new id is the counter's old value, the counter moves past it, and every held id stays below the counter |
| MainGame.GameScreen.SaveChallengeToUnlocked | LAScramble/Views/MainGameScreenView.swift:356-383 | The challenge's document is written to the team's unlocked entries under its key, replacing any entry with that key; the challenge lists and the counter are untouched |
| MainGame.GameScreen.Unlock | LAScramble/Views/MainGameScreenView.swift:306-353 | A readable binding is reused unchanged and saved. Otherwise some catalog entry for the station, with the requested line, is bound and then saved. With no entry, nothing is written. The counter grows by at most one, and every held id stays below it |
| MainGame.GameScreen.LoadBound | LAScramble/Views/MainGameScreenView.swift:314-325 | A readable binding is saved for the team as it is, with one new id |
| MainGame.GameScreen.BindFirst | LAScramble/Views/MainGameScreenView.swift:327-349 | Without a template nothing changes. Otherwise some template of the station, with the requested line, is bound under the station's key, stays readable and is saved for the team |
| MainGame.GameScreen.CompleteChallenge | LAScramble/Views/MainGameScreenView.swift:385-407 | For a challenge whose id was handed out, removes the entries with that id, appends it once to the completed list, appends its document to the team and game-wide collections, and refreshes the counts; every held id stays below the counter |
| MainGame.GameScreen.MoveToCompleted | LAScramble/Views/MainGameScreenView.swift:386-387 | The entries with the challenge's id leave the unlocked list and the challenge is appended to the completed list, keeping every held id below the counter |
| MainGame.GameScreen.RecordCompletion | LAScramble/Views/MainGameScreenView.swift:397-401 | The document is appended to the team's completed collection and to the game-wide one |
| MainGame.GameScreen.UpdateLineControlScores | LAScramble/Views/MainGameScreenView.swift:259-291 | The line counts become the distinct-station counts of the listed teams |
| MainGame.GameScreen.OnUnlockedSnapshot | LAScramble/Views/MainGameScreenView.swift:410-426 | The unlocked list is the snapshot rebuilt with fresh ids; the counter moves past the new ids, and every held id stays below it |
| MainGame.GameScreen.OnCompletedSnapshot | LAScramble/Views/MainGameScreenView.swift:466-483 | The completed list is the snapshot rebuilt with fresh ids; the counter moves past the new ids, and every held id stays below it |
| MainGame.GameScreen.OnGlobalSnapshot | LAScramble/Views/MainGameScreenView.swift:485-501 | The global list is the snapshot rebuilt with fresh ids; the counter moves past them, every held id stays below it, and completed-by-others then keeps the whole global list |
| MainGame.GameScreen.OnOtherTeamSnapshot | LAScramble/Views/MainGameScreenView.swift:531-543 | The other team's entry is its snapshot rebuilt; other entries are kept; the counter moves past the new ids, and every held id stays below it |
| MainGame.GameScreen.OnTeamCompletionsSnapshot | LAScramble/Views/MainGameScreenView.swift:436-462 | The team's completions entry is its snapshot rebuilt; other entries are kept; the counter moves past the new ids, and every held id stays below it |
| MainGame.GameScreen.ReadBackOwnCompletions | LAScramble/Views/MainGameScreenView.swift:236-238 | After both listeners read the same documents, completed-by-others keeps every global completion, while the intended filter keeps none |
| MainGame.GameScreen.AttachListenerToTeam | LAScramble/Views/MainGameScreenView.swift:524-526 | The ID joins the attached set, and is logged only when it was not attached before, so no ID is attached twice |
| MainGame.GameScreen.ListenForOtherTeams | LAScramble/Views/MainGameScreenView.swift:503-522 | Records the other team IDs; afterwards exactly the previous IDs and the other teams have listeners |
| MainGame.GameScreen.FetchTeamNames | LAScramble/Views/MainGameScreenView.swift:555-572 | The names map holds exactly the teams with a stored name, each mapped to that name |
| MainGame.GameScreen.UpdateRemainingTime | LAScramble/Views/MainGameScreenView.swift:591-597 | The remaining time is `max(0, end - now)`, and the timer has ended exactly when it is 0 |
| MainGame.UnlockTwice | LAScramble/Views/MainGameScreenView.swift:310-349 | After a first unlock on one line, a second unlock on any line keeps the first binding, line included, and the same unlocked entry |

## Left out

- Firestore and asynchrony are not modelled. Reads, writes, snapshot listeners, `DispatchQueue` and `DispatchGroup` are not part of this model. Each operation is one sequential step over in-memory maps. A listener firing is a method that takes the snapshot's documents. The read-then-write race in unlock is therefore not modelled.
- The listeners' registration in `listenToAllCompletedChallenges` and `listenForOtherTeams` is not modelled. Only what each listener does with a snapshot is.
- Team document IDs are not read from the store. A team-collection read is a parameter: the sequence of IDs, or of `TeamDoc` records.
- Time is not modelled with `Date`, `TimeInterval` or `Timer`. It is integer seconds, and `now` and the start time are parameters.
- `SessionTimer.FormatTime`: takes a natural number. `formatTime` on a negative interval prints negative fields, which the model does not cover. The screen only ever passes `max(0, remaining)`.
- `randomElement()` is not modelled as a random choice. The pick is an arbitrary element of the filtered catalog, returned as a ghost out-parameter.
- Dictionary iteration order is not modelled. Where the code iterates a dictionary, the order is a parameter or an arbitrary choice. This covers `teamThatCompleted`, the other-teams `flatMap` and `determineWinner`, and the loop over each team's lines inside the count conversion.
- `Territory.ControllingTeamForStation`: the result is read through `teamNames`, as in the code. No name table is built for it beyond `FetchTeamNames`.
- Challenge ids are not UUIDs. Each id is a natural number from a counter, which is enough for the equality the code relies on.
- The `timestamp` field of every written document is not modelled. It is never read back.
- `MainGame.GameScreen.CompleteChallenge`: does not itself restate that the completed challenge is counted. That property is `MainGame.OwnCompletionCounted`, about the counts it sets.
- The UI is not modelled: SwiftUI layout, colours, station coordinates, popups, menus, the rules, mission and gallery screens, and the sidebar's forfeit write.
- Auth, lobby and game creation are not part of this model, and neither is the unused duplicate struct in `LAScramble/Challenge.swift`.
- String comparison is on plain character sequences. Swift's `String ==` compares by Unicode canonical equivalence, and `sorted()` on team IDs uses Swift's string order, where the model uses code-point order (`ScoreDetails.LexLess`). This affects the title and station matches, `teamThatCompleted`, the catalog filter and the team order of the score details. The two agree on the catalog's ASCII titles, stations and team IDs.
- Several rules appear nowhere in the code and are not modelled: sacrifice handling, line locks and cooldowns, an active-challenge cap, and a global-completion check before unlock or complete. `unlockChallenge` and `completeChallenge` check none of these.

## Findings

| source | as written | input that shows it | evidently intended | confidence | as-written member | corrected member |
|---|---|---|---|---|---|---|
| LAScramble/Views/MainGameScreenView.swift:236-238 | `completedByOthers` removes global completions equal to an own completion. It uses synthesised equality, which compares the UUID generated anew by each listener's rebuild, so the list never drops anything | A team completes one challenge. Its completed listener and the global listener each read that document back, with different ids, and the team's own completion shows under "Completed by Other Teams" | Match by title and station, as the other filters on the same screen do | not executed | ChallengeLists.OwnCompletionListed | ChallengeLists.CompletedByOthersByContent |
