# EGL 2K league engine, in Dafny

A model of the simulation core of the EGL 2K league simulator (`sim.js`): the
deterministic skill hash, the Fisher–Yates shuffle, the three-round draft,
the greedy schedule generator, the weekly standings update, the season
reduction (ranking, play-in, single-elimination bracket, awards) and the
one-off player duel.

Every random draw of the original is a parameter:
- `Math.random()` is a real in [0, 1) (`Base.Unit`), and `Math.floor(r * n)` is `Base.DrawIndex`.
- The shuffle takes a stream `nat -> Unit`, indexed by the position being swapped.
- Each draft pick takes a `PickDraw`: the 75 % test, then the index among the best three. Picks are numbered by the picks made so far.
- A match takes a `MatchDraw`: the game draw plus one score oracle per side. The oracle stands in for the noisy floating-point `simulatePlayerScoreForGame`.
- Weeks, play-in matches and bracket rounds each get their own stream.

Every property below therefore holds for every outcome of the random source.

Modules, one per part of the engine:

- `Base`: ids, players, teams, games, `find` as `IndexOf`, JavaScript truthiness.
- `Skill`: `deterministicHash` with its 32-bit wrap-around (ECMAScript ToInt32) over UTF-16 code units, and `computeBaseSkill`.
- `Shuffle`: `shuffleArray`, in place on an `array`.
- `Sorting`: the platform's stable sort with a "best first" comparator, as a left-to-right insertion sort.
- `Draft`: `aiOrUserPick`, one draft turn, a round, the whole draft, and the tier rule and pick-log properties.
- `Schedule`: `generateSchedule`. The pair pool, the greedy placement and the byes, as functions and as the source's loops.
- `Matches`: `teamScoreFromGame`, `simulatePlayInMatch`, the in-place standings edits of `simulateWeek`, and `simulate1v1`.
- `Playoffs`: ranking, play-in, `runPlayoffs` and `computeAwards`.
- `League`: the league document as a class.
  - `runFullDraft` returns a fresh copy.
  - `simulateWeek` and `runFullSeason` update the object in place.
  - These methods are proved against the value-level functions `Draft.Draft`, `League.WeekStandings` and `League.Season`.

Standings are the JavaScript object as an association list (`seq<Row>`) in
key insertion order, with `standings[id]` as the first row with that key.

## Model

| member | source | states |
|---|---|---|
| Base.DrawIndex | sim.js:11 | `Math.floor(r * n)` for a draw in [0, 1) is a valid index below `n` |
| Base.IndexOf | sim.js:42-44 | `find` by id: the first position holding the id, and None exactly when the id is absent |
| Skill.ToInt32 | sim.js:28 | `h \|= 0` yields a signed 32-bit value congruent to its input modulo 2^32, and leaves 32-bit values unchanged |
| Skill.CodeUnits | sim.js:28 | `charCodeAt` reads one or two UTF-16 code units per character, each below 2^16 |
| Skill.Utf16 | sim.js:28 | a string's code units number between its length and twice its length, each below 2^16 |
| Skill.HashStepIsTimes31 | sim.js:28 | the shift-subtract-add step with wrap-around is `31 * h + c` taken modulo 2^32 |
| Skill.HashStep | sim.js:28 | one iteration of the hash loop yields a signed 32-bit value; `HashStepIsTimes31` gives its arithmetic meaning |
| Skill.HashAcc | sim.js:26-29 | the accumulator over the code units stays a signed 32-bit value; `DeterministicHash` shows the loop computes it |
| Skill.StringHash | sim.js:26-30 | the hash is a natural number no larger than 2^31 |
| Skill.DeterministicHash | sim.js:26-30 | the hash loop over the code units computes `StringHash` and is non-negative |
| Skill.BaseSkill | sim.js:17-25 | tier 0 gives 70..79, tier 1 gives 92..97, tier 2 gives 80..87, any other tier 64..70; only id and tier enter |
| Skill.TierBandsOrdered | sim.js:17-25 | a tier-1 player out-skills every other tier; a tier-2 player out-skills tiers 0 and 3+ |
| Shuffle.ShuffleFrom | sim.js:10-13 | the loop from position `i` down; its meaning is given by `ShuffleFromPermutes` and `ShuffleStep` |
| Shuffle.Shuffled | sim.js:9-15 | the whole shuffle; `ShufflePermutes` and `ShuffledMembers` state it is a permutation, and `ShuffleArray` computes it in place |
| Shuffle.SwapPermutes | sim.js:12 | the swap preserves the multiset of elements |
| Shuffle.ShuffleFromPermutes | sim.js:10-13 | the remaining iterations of the loop preserve length and multiset |
| Shuffle.ShufflePermutes | sim.js:9-15 | for every draw sequence the shuffle keeps the length and the multiset of elements |
| Shuffle.ShuffledMembers | sim.js:9-15 | the shuffle keeps exactly the same members |
| Shuffle.ShuffleStep | sim.js:10-13 | one swap at position `i` advances the loop's specification by one iteration |
| Shuffle.ShuffleArray | sim.js:9-15 | swaps in place from the last position down, returns the same array, whose contents are the specified shuffle and a permutation of the old contents |
| Sorting.SortByRank | sim.js:249-252 | the stable descending sort `Array.prototype.sort` performs; `SortPermutes`, `SortSorts`, `SortStable` and `SortHeadIsFirstBest` state its properties |
| Sorting.Insert | sim.js:249-252 | inserting adds exactly one element to the multiset |
| Sorting.InsertKeepsSorted | sim.js:249-252 | inserting after every element of at least equal rank keeps the order sorted |
| Sorting.SortPermutes | sim.js:249-252 | the sort returns a permutation of its input |
| Sorting.InsertOfRank | sim.js:249-252 | inserting an element into a sorted list keeps the order of the elements of each rank and adds it last among its rank |
| Sorting.SortStable | sim.js:249-252 | the sort is stable: the elements of any one rank keep their input order |
| Sorting.SortSorts | sim.js:249-252 | no element of the result is outranked by a later one |
| Sorting.FirstBest | sim.js:320 | the position of a best-ranked element that strictly outranks every element before it |
| Sorting.SortHeadIsFirstBest | sim.js:320-321 | stability: the head of the sorted sequence is the first input element of best rank |
| Sorting.SortedMember | sim.js:129-132 | every element of the sorted sequence comes from the input |
| Draft.Draft | sim.js:68-112 | the three rounds over the stored or shuffled order and the join-date order; `DraftLog`, `DraftKeepsTierRule`, `DraftRecordsPicks` and `RoundOrders` state its properties |
| Draft.TierOf | sim.js:117-119 | a roster id has a tier exactly when it names a player |
| Draft.ExistingTiers | sim.js:117-120 | the existing tiers are exactly the non-zero tiers of the roster's resolvable players |
| Draft.CandidatesBelow | sim.js:116-121 | the candidates are exactly the eligible players, in player order, each once |
| Draft.RankedHead | sim.js:129-130 | after the sort by base skill, the first candidate is eligible, of greatest skill, and strictly better than every eligible player before it |
| Draft.SkillRankCompare | sim.js:129 | the comparator's order on candidates is the order of their base skills |
| Draft.AiOrUserPick | sim.js:114-133 | None exactly when no player is eligible; a pick is always eligible; on the 75 % branch it has greatest base skill, the first such in player order; on either branch at most two eligible players have greater base skill (a top-three pick) |
| Draft.FewBetter | sim.js:129-132 | the candidate at position `j` of the sorted list is beaten in base skill by at most `j` eligible players |
| Draft.DraftStep | sim.js:96-106 | a turn keeps team ids and the player roll, and appends exactly one well-formed log entry for that team and round; the entry's pick is null exactly when no player is eligible for the team, and otherwise names an eligible player who now belongs to the team; a null pick changes no player and no team, and a real pick is exactly `TakePlayer` of the chosen player |
| Draft.DraftStepFrame | sim.js:97-106 | a null pick leaves players and teams as they were; a real pick changes exactly the picked player's team and appends exactly its id to the picking team's roster, and nothing else |
| Draft.RunOrder | sim.js:94-107 | a round keeps team ids and the player roll |
| Draft.RunOrderSnoc | sim.js:94-107 | a round over one more team is the shorter round followed by that team's turn |
| Draft.OrdersResolve | sim.js:75-84 | both orders name only teams of the league |
| Draft.RoundOrders | sim.js:75-84 | a stored order is reused unchanged; otherwise the order is a permutation of the team ids; round three is a permutation of the entries sorted by ascending join date |
| Draft.DraftStepKeepsTierRule | sim.js:102-121 | a turn never gives a team a second player of a non-zero tier it holds |
| Draft.RunOrderKeepsTierRule | sim.js:94-107 | a round keeps the tier rule and unique player ids |
| Draft.DraftKeepsTierRule | sim.js:92-108 | if every roster starts with distinct non-zero tiers, it still has them after the draft |
| Draft.RunOrderLog | sim.js:92-107 | a round appends exactly one well-formed entry per team of its order, in order, with its round number |
| Draft.StepAppends | sim.js:99-106 | one more turn extends the round's log by that team's entry |
| Draft.DraftLog | sim.js:86-110 | the run's log is round 1 over the shared order, then round 2 over it, then round 3 over the join-date order; the stored order is the one used; the new picks follow the old ones |
| Draft.ConcatRounds | sim.js:93-108 | three appended round logs split back into the three rounds |
| Draft.TakeKeepsOldRecords | sim.js:103-105 | assigning a free player keeps every earlier pick recorded |
| Draft.TakeRecordsNew | sim.js:103-106 | the new pick is recorded: its player's team is the picking team and its id is on that team's roster |
| Draft.TakeKeepsRecords | sim.js:103-106 | taking an unassigned player keeps every earlier pick recorded and distinct, records the new one, and adds exactly one assignment and one pick |
| Draft.TakePlayerFrame | sim.js:103-106 | a pick sets the player's team, appends its id to that team's roster and appends the pick record; every other player and every other team is unchanged |
| Draft.TakeKeepsDistinct | sim.js:103-106 | a free player has not been picked before, so no player is logged twice |
| Draft.TakeCounts | sim.js:103-106 | a pick assigns exactly one more player |
| Draft.DraftStepRecords | sim.js:96-106 | a turn keeps every pick recorded in players and rosters, no player picked twice, and assigned players equal to picks |
| Draft.RunOrderRecords | sim.js:94-107 | the same for a whole round |
| Draft.DraftRecordsPicks | sim.js:92-110 | after the draft every non-null pick is recorded in its player and its team's roster, no player is picked twice, and exactly one player is newly assigned per non-null pick |
| Schedule.Row | sim.js:145 | the inner loop pairs position `i` with every later position, in order |
| Schedule.PairsBelowArePairings | sim.js:143-146 | every listed pair joins two distinct positions, the lower first |
| Schedule.PairsBelowComplete | sim.js:143-146 | every pair of distinct positions whose lower position is below `i` is listed |
| Schedule.PairsBelowCount | sim.js:143-146 | the first `i` rows hold `i * (2n - i - 1) / 2` pairs |
| Schedule.AllPairsMembers | sim.js:143-146 | the pool is exactly the pairings, `n(n-1)/2` of them |
| Schedule.FirstFit | sim.js:155-164 | the first week, from `w` on, in which neither team plays, they have not met and both are under the cap; None when there is none |
| Schedule.Place | sim.js:153-169 | placing one pair keeps the number of weeks |
| Schedule.PlaceAll | sim.js:153-170 | placing the pool keeps the number of weeks |
| Schedule.Byes | sim.js:174-177 | the byes are exactly the teams absent from the week's matches |
| Schedule.ByePositionsName | sim.js:174-177 | the bye list is the teams at the recorded positions of the team list |
| Schedule.ByePositionsIncrease | sim.js:174-177 | the recorded positions strictly increase |
| Schedule.ByePositionsExact | sim.js:174-177 | a position is recorded exactly when its team does not play that week |
| Schedule.ByesInTeamOrder | sim.js:174-177 | the bye list is the non-playing teams in the order of the team list: each is named at an increasing position, and every non-playing position is named |
| Schedule.ScheduleOf | sim.js:140-179 | the schedule has `weeks` entries (none for a non-positive count), numbered 1 upward |
| Schedule.PlaceAt | sim.js:165-167 | pushing a match into a week and recording the meeting; the `PlaceAt…` lemmas below state what it keeps |
| Schedule.PlaysInAppend | sim.js:157-158 | after a push, a team plays in the week exactly when it did before or is in the new match |
| Schedule.PlaceAtOncePerWeek | sim.js:158-165 | pushing a fitting pair keeps every team to one match per week |
| Schedule.PlaceAtOpp | sim.js:166-167 | the two teams record each other as met |
| Schedule.PlaceAtRecords | sim.js:165-167 | every scheduled match stays recorded in both opponent sets |
| Schedule.PlaceAtNoRematch | sim.js:160-165 | a fitting pair has not met, so no pair is scheduled twice |
| Schedule.PlayedWeeksAppend | sim.js:165 | a push adds the week to the weeks of exactly its two teams |
| Schedule.PlaceAtCapped | sim.js:162-167 | each team's weeks played equal its opponents met and stay within the cap (`weeks - 1` in the generator) |
| Schedule.PlaceAtFromPool | sim.js:165 | every scheduled match is a pairing of the pool |
| Schedule.PlaceKeepsGood | sim.js:153-169 | one pass of the outer loop keeps all five schedule invariants |
| Schedule.PlaceAllKeepsGood | sim.js:153-170 | the whole loop keeps them |
| Schedule.InitialGood | sim.js:149-151 | the empty weeks and empty opponent sets satisfy them |
| Schedule.ScheduleGood | sim.js:140-170 | the plan behind every generated schedule satisfies them |
| Schedule.ScheduleIsRoundRobinFragment | sim.js:153-170 | no team plays twice in a week, no pair meets twice, and every match pairs two league teams |
| Schedule.ScheduleCap | sim.js:161-164 | no team plays in more than `weeks - 1` weeks |
| Schedule.DefaultSchedule | sim.js:140-178 | with the default of five weeks, the schedule has five weeks, each team plays at most four of them and has a bye in at least one |
| Schedule.ScheduleHasBye | sim.js:172-177 | with at least one week, every team has a bye in some week |
| Schedule.ScheduleByes | sim.js:174-177 | a team is on a week's bye list exactly when it is a league team that does not play that week |
| Schedule.BuildPairs | sim.js:143-146 | the nested loops build exactly the pair pool |
| Schedule.PlacePair | sim.js:155-169 | the week scan pushes the pair into its first fitting week and records the meeting, or drops it |
| Schedule.GenerateSchedule | sim.js:140-179 | the generator as written computes `ScheduleOf` |
| Schedule.ListWeeks | sim.js:174-178 | each week is numbered from 1 and carries its matches and byes |
| Matches.DrawGame | sim.js:201 | the drawn game is one of the catalogue's |
| Matches.ResolvedRoster | sim.js:224 | the roster ids that resolve, at most one player per id |
| Matches.ResolvedRosterMembers | sim.js:224-225 | resolved players are league players; the list is empty exactly when no roster id names a player |
| Matches.TeamScore | sim.js:223-233 | a team's score in a game; `TeamScoreIsBest` gives its meaning and `TeamScoreFromGame` computes it with the source's loop |
| Matches.BestScoreIsMax | sim.js:227-231 | the running best is the maximum of the roster's scores and is attained |
| Matches.TeamScoreIsBest | sim.js:223-233 | a team with no resolvable player scores 0; otherwise it scores the maximum of its players' scores |
| Matches.TeamScoreFromGame | sim.js:223-233 | the running-best loop computes the team score |
| Matches.Winner | sim.js:217 | no winner exactly on equal scores; otherwise the strictly higher side |
| Matches.PlayMatch | sim.js:282-289 | the result names the two teams and the drawn catalogue game; each score is that team's score in that game; the winner is by strict comparison |
| Matches.RecordOf | sim.js:209 | `standings[id]` exists exactly when the id is a key |
| Matches.EditRow | sim.js:209-215 | an in-place edit keeps the keys |
| Matches.EditRowEffect | sim.js:209-215 | an edit changes only the edited team's record, by exactly that edit |
| Matches.RecordOutcome | sim.js:209-211 | the outcome counters keep the keys |
| Matches.OutcomeEffect | sim.js:209-211 | A wins and B loses, B wins and A loses, or both tie, by strict comparison; other records unchanged |
| Matches.RecordMatch | sim.js:209-215 | a match's updates keep the keys |
| Matches.RecordMatchEffect | sim.js:209-215 | between two teams, exactly one outcome is recorded and points for and against grow by own and opponent score; no other record changes |
| Matches.TotalsUpdate | sim.js:209-215 | replacing one record changes the league totals by the difference |
| Matches.EditRowTotals | sim.js:209-215 | each edit raises exactly its own league total |
| Matches.RecordMatchTotals | sim.js:209-215 | every match adds one win and one loss, or two ties, and both scores to the league's points for and against |
| Matches.EnsureRows | sim.js:192-196 | old rows are kept in place, missing teams are appended with zero records, and the keys become the old keys plus the team ids |
| Matches.EnsureRowsSnoc | sim.js:194-196 | one more team appends a zero row exactly when its key is missing |
| Matches.WeekResults | sim.js:199-217 | one result per match, naming its teams, with the winner by strict comparison; result `k` is the match `k` played with draw `k` |
| Matches.WeekScores | sim.js:199-208 | result `k` is played in the drawn game, and each of its scores is that team's score in that game |
| Matches.RecordAll | sim.js:199-216 | recording the week's results keeps the keys |
| Matches.ResultsRecordedSnoc | sim.js:199-216 | recording one more result applies that match's updates last |
| Matches.RecordAllTotals | sim.js:199-216 | over any results, wins minus losses and points for minus against are conserved, and each match adds two outcomes |
| Matches.RecordMatchCredit | sim.js:209-215 | a match adds exactly its credit to every team's record, including a team that meets itself |
| Matches.CreditAddsUp | sim.js:209-215 | the four edits of a match sum to its credit |
| Matches.RecordAllCredits | sim.js:199-216 | after a week's results each team holds its old record plus the sum of the credits of every result |
| Matches.AddAssoc | sim.js:212-215 | adding credits associates |
| Matches.EnsureRowsRecord | sim.js:195 | an existing record is kept and a new team starts from zero |
| Matches.IndexOfExtension | sim.js:195 | appending keys does not move the first occurrence of an existing key |
| Matches.EnsureRowsTotals | sim.js:194-196 | adding zero rows leaves the league totals unchanged |
| Matches.Simulate1v1 | sim.js:39-55 | an error exactly when a player or the game id does not resolve; otherwise the resolved game itself, each side's id, display name and the oracle's score of that player in that game, and the winner by strict comparison |
| Matches.DuelSymmetric | sim.js:46-48 | swapping the two sides, with their draws, gives the same winner and swaps the reports |
| Playoffs.Ranked | sim.js:245-252 | the standings entries sorted by wins, then points for; `RankedOrder`, `RankedStable` and `RankedIdsAreKeys` state its properties |
| Playoffs.RankedOrder | sim.js:249-252 | the ranking is a permutation of the entries, by wins descending, then points for descending |
| Playoffs.RankedStable | sim.js:249-252 | teams tied on wins and points for keep their standings order |
| Playoffs.RankedIdsAreKeys | sim.js:245-252 | every ranked team is a key of the standings |
| Playoffs.Advance | sim.js:264 | a result advances its winner exactly when there is a truthy one |
| Playoffs.Advancers | sim.js:264 | the truthy winners, at most one per result |
| Playoffs.AdvancersSnoc | sim.js:304 | one more result appends its truthy winner |
| Playoffs.AdvancersPair | sim.js:263-264 | the two play-in results advance their winners in order |
| Playoffs.AdvancersPlayed | sim.js:302-304 | every advancing team played in the round |
| Playoffs.PlayIn | sim.js:256-265 | with ten ranked teams: seeds 7 v 10 and 8 v 9, winners by strict comparison; the field is the top six plus at most two teams |
| Playoffs.PlayInWinners | sim.js:264-265 | after the top six the field holds exactly the play-in's truthy winners, in order |
| Playoffs.PlayInEntrants | sim.js:256-265 | a team entering through the play-in is truthy and one of seeds 7 to 10 |
| Playoffs.PlayoffField | sim.js:256-275 | at most eight teams; the play-in exactly with ten ranked teams, otherwise the top eight with no play-in; only the ranked teams the source goes on to look up must name a team |
| Playoffs.RoundMatch | sim.js:300-302 | match `i` pairs position `i` with position `n - 1 - i` |
| Playoffs.BracketRound | sim.js:299-305 | a round plays `ceil(n / 2)` matches, match `i` of position `i` against position `n - 1 - i` |
| Playoffs.BracketRoundPairs | sim.js:299-302 | each result names its two positions and the strict-comparison winner |
| Playoffs.MiddleSeedMeetsItself | sim.js:299-301 | with an odd field the middle team is paired with itself |
| Playoffs.RunBracket | sim.js:291-311 | the champion is a truthy team of the field, or none; a field of at most one team plays no round, a lone truthy team is the champion and an empty field has none; only a field that plays a round must resolve its teams |
| Playoffs.RoundSurvivors | sim.js:295-307 | a round's survivors are field teams and at most half the field, rounded up, so fewer |
| Playoffs.RunBracketStep | sim.js:295-308 | the bracket is one round followed by the bracket of its survivors |
| Playoffs.BracketRounds | sim.js:295-308 | a field of at most `2^k` teams is decided in at most `k` rounds |
| Playoffs.AllAdvance | sim.js:304 | when every match has a truthy winner, every match sends one team on |
| Playoffs.DecisiveStep | sim.js:295-308 | a round without ties halves a field of `2^k` teams; the rest of the bracket is one round shorter and crowns the same champion |
| Playoffs.DecisiveRounds | sim.js:291-311 | without ties a field of `2^k` teams is decided in exactly `k` rounds and, if any match is played, crowns a champion |
| Playoffs.EightTeamBracket | sim.js:291-311 | without ties the eight-team field plays exactly three rounds and crowns a champion |
| Playoffs.PlayRound | sim.js:296-306 | the inner loop records the round's results and collects their truthy winners |
| Playoffs.RunPlayoffs | sim.js:291-311 | the while loop computes the bracket |
| Playoffs.Mvp | sim.js:317-321 | the MVP after the sort by base skill; `MvpIsFirstBest` states which player it is |
| Playoffs.MvpIsFirstBest | sim.js:317-321 | no MVP exactly without players; otherwise a player of greatest base skill, the first such |
| Playoffs.ComputeAwards | sim.js:313-324 | an MVP exactly when there are players, and the champion of the playoffs when they exist |
| League.WeekStandings | sim.js:185-221 | the standings after one week; `WeekKeys`, `WeekRecords` and `WeekTotals` state its properties, and `SimulateWeek` computes it |
| League.WeekKeys | sim.js:192-196 | after a week the keys are the old keys plus every team, and keys that were unique stay unique |
| League.WeekRecords | sim.js:192-217 | after a week each team holds its old record, or zero, plus the credit of every match it played |
| League.WeekTotals | sim.js:199-216 | over a week wins minus losses and points difference are conserved, and each match adds two outcomes |
| League.SeasonStandings | sim.js:241-243 | the standings after the remaining weeks; `SeasonKeys` and `SeasonTotals` state its properties, and `PlaySchedule` computes it |
| League.SeasonKeys | sim.js:241-243 | playing the remaining weeks keeps old keys, adds every team when a week is played, and keeps unique keys unique |
| League.SeasonTotals | sim.js:241-243 | over the season wins minus losses and points difference are conserved, and outcomes grow by two per match |
| League.Season | sim.js:239-280 | the full season; `SeasonOutcome` states its properties and `RunFullSeason` computes it in place |
| League.SeasonOutcome | sim.js:239-280 | ranking by wins then points; a play-in exactly with ten teams; champion from the top six or play-in winners, else from the top eight; at most three rounds; awards carry the champion and an MVP when there are players |
| League.League.DraftTurn | sim.js:96-106 | one turn updates the league's players and teams and the log as `DraftStep` specifies |
| League.League.DraftRound | sim.js:94-107 | the turn loop updates players, teams and log as `RunOrder` specifies |
| League.League.DraftOrder | sim.js:75 | the stored order when non-empty, else the team ids shuffled in place |
| League.League.RunFullDraft | sim.js:68-112 | returns a fresh league holding the draft's players, teams, order and extended pick log, with every other part copied, plus this run's picks; this league is unchanged |
| League.League.EnsureTeamRows | sim.js:192-196 | every team gets a standings row, zero when missing |
| League.League.PlayMatches | sim.js:198-218 | the match loop returns the week's results and records them in order |
| League.League.SimulateWeek | sim.js:185-221 | an out-of-range week is an error that changes nothing; otherwise the results and the new standings are the week's |
| League.League.PlaySchedule | sim.js:241-243 | every week is played in order |
| League.League.RunFullSeason | sim.js:239-280 | standings, ranking, stored playoffs and awards are the season's |

## Left out

- The floating-point score formula and its noise (sim.js:32-37). Each evaluation's player scores come from an integer oracle in the match draw.
- `new Date(...)` parsing of join dates. Join dates are integer keys written YYYYMMDD, with 9999-01-01 as 99990101.
- The JSON round trip of `clone`. The draft's copy is a value copy into a fresh object.
- The ordering of integer-like keys of a JavaScript object. Standings keep insertion order for every key.
- A single shared random stream. Each draw site has its own indexed stream; this covers every sequence the single stream can produce.
- Absent optional fields (`standings`, `roster`, `draft.picks`) are modelled as empty. A missing `draft` object or a missing `standings` object reaching `Object.keys` (a season with no weeks and no standings) is not modelled.
- The play-in's `.slice(0, 8)`. At most two winners join the top six, so it never removes anything.
- The human-player prompt branch of `aiOrUserPick`. The source itself picks for the user's team with the AI logic.
- `shortid`, `fs`, `path`, the HTTP server, the React pages and the browser script. These are I/O and UI around the engine.
- League.League.RunFullSeason: requires every standings key to name a team and the game catalogue to be non-empty. The source throws only when an unresolvable key is actually seeded into the play-in or bracket, or when a match is actually played without games.
- League.Season: the same preconditions as `RunFullSeason`, for the same reason.
- League.SeasonOutcome: the same preconditions as `RunFullSeason`, for the same reason.
- Draft.DraftKeepsTierRule: assumes unique player ids. With duplicate ids `find` resolves a roster id to the first player, and the rule is not claimed.
- Draft.DraftRecordsPicks: assumes unique player ids and truthy team ids. A team with an empty id would leave its picked players looking unassigned.
- Crash paths (an order naming no team, a match naming no team, a match without games) are preconditions rather than modelled exceptions.
