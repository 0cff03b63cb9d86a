# A verified model of the prediction contest's tournament engine

The backend stores a football contest in SQL tables: match rows, group standings, knockout
standings, prediction sheets and score rows. Five repository calls change them. This project
models those calls on the tables of one contest and proves what they keep over whole runs.

- `Tables.dfy` holds the tables as maps under their primary keys (`db/schema.sql:48-117`). A country
  is named by its unique code; a group match row is named by its position in the insert and a bracket
  row by round and index, because a row's UUID carries no information.
- `Store.dfy` is the repository as a class. Each method follows the program's statements on a copy of
  the tables and stores the copy back where the program commits, so an error leaves the old tables.
- `MatchUpdates.dfy`, `GroupFinalization.dfy` and `PickSheets.dfy` say what one call does to the tables;
  the methods are proved against them. `Runs.dfy` makes them a transition system: a run is a sequence of
  calls, answers and states, each step being one atomic call. Where SQL leaves a choice open (which of
  several matching rows is read first, in which order rows arrive) a step or a loop allows every choice.
- `MatchEffects.dfy`, `GroupEffects.dfy` and `SheetEffects.dfy` tell what one call does on the columns of the rows alone,
  independently of those definitions: which row is found, when a call is accepted and why it is refused, and every
  column, row and score that changes.
- `Shape.dfy`, `GroupResults.dfy`, `Bracket.dfy`, `BracketOverrides.dfy`, `Subtrees.dfy`, `BracketScores.dfy`,
  `KnockoutTable.dfy`, `AwardLoop.dfy`, `GroupScores.dfy`, `GroupCap.dfy`, `GroupAudit.dfy` prove the run theorems;
  `RankingLists.dfy`, `RepeatedAwards.dfy` and `SheetCaps.dfy` say where the code is laxer than its rules, and exactly when.
- `Generation.dfy` and `ContestCreation.dfy` model the creation of a contest and show that a new contest
  satisfies the starting conditions of the run theorems.
- `PickListing.dfy` and `RankedGroups.dfy` model reading data back.
- `GroupSheets.dfy`, `ResultOrder.dfy`, `GroupStageDriver.dfy`, `SheetGeneration.dfy`, `KnockoutDriver.dfy` and
  `ContestSimulation.dfy` model the seeding program, which drives the repository from contest creation over the users'
  sheets to the last knockout match.
- `Sums.dfy` has finite sums: every cache in the program is one.

## Main results

1. Bracket. After the Round of 32 is seeded with 32 distinct countries, every later slot holds exactly the
   winner of the match that feeds it (or the loser of the semifinal, for the third-place match) and is empty while
   that match is undecided, as long as requests fit: they leave the slots of open knockout rows alone, or give an open
   Round-of-32 match two countries that no other match of that round has. The condition is exact: an accepted update
   keeps the bracket if and only if it fits. Completed matches never change, nor does a filled slot except by
   such a correction of the seeding.
2. Scores. In those runs every user's knockout score is the sum, over decided matches, of the points for the
   picks that came true. In every run whatsoever it is at most 600. Every sheet the seeder can draw reaches
   600 for some results.
3. Knockout table. It records every country's furthest round, records only rise, and a finished bracket
   leaves sixteen rows: eight at 2, four at 3, none at 4, two at 5, one at 6, one at 7.
4. Group standings equal the fold of the completed matches, whatever is called; inside a group goals for and against
   balance, wins and losses balance, and the goal differences cancel. The branch that takes back an earlier score
   is dead.
5. Group awards. Any list pays a user at most 45 points, and 45 exactly for the first three in order; a third-place
   decision pays 5. In guarded runs each award of a group is paid once and a group pays at most 50. In disciplined runs
   ranked groups are frozen, their ranks are a bijection, and, when the sheets come before the ranking, every group score
   is the award read off the recorded ranks plus 5 points for every flag the user predicted.
6. The seeding program, storing a group sheet and a knockout sheet for every user, meets no refused call, for any
   shuffles, coin flips and goals; its ranks follow the results, the best eight thirds go through, and at the end every
   knockout score is the audit of the match rows.

A guarded run is one whose accepted rankings name a country of their own letter (or nobody) and put no country of another
letter third, and whose accepted requests give no place of a letter twice. A disciplined run is one whose rankings list
exactly their own group; it is guarded. The code asks for neither, so these promises fail without it. Each has its input
and its exact condition:

- At most 45 points for a ranking (`scoring.md:28-34`). A request may name a letter twice and hold two first places,
  which pays 48 points (`SheetCaps.RepeatedLetterPays48`). After an accepted request of the handler, no ranking can pay
  the user more than 45 points if and only if no letter has entries in two of its picks
  (`SheetCaps.RankingsCappedIffLettersOnce`).
- A ranking is paid once, and a group pays at most 50. A list without any country of its letter is accepted again and
  again and pays each time (`RepeatedAwards.ForeignListPaysForever`). An accepted ranking is final if and only if its list
  names a country of the letter (`RankingLists.RankingIsFinalIff`).
- A decision is paid once. A ranking of another letter can give a decided letter a second third, and its decision is
  then accepted again (`RepeatedAwards.SecondThirdPaysAgain`). A decision is sure to be refused if and only if every
  third of the letter has its flag (`RepeatedAwards.DecisionIsRefusedIff`), and an accepted ranking keeps it so if and only
  if it puts no unflagged country of that letter third (`RepeatedAwards.ThirdsStayFlaggedIff`).
- A group is ranked by its own ranking. A list ranks exactly the groups it names a country of
  (`RankingLists.RankingRanksNamedGroups`), and a group named that way can no longer be ranked
  (`RankingLists.ForeignNameBlocksGroup`).
- The ranks of a group are 1 to n. After an accepted ranking they are, each given once, if and only if the list starts
  with the whole group and names none of it again (`RankingLists.RankingIsBijectionIff`).
- A finalized group is frozen. A ranking of another group that names one of its countries is accepted and overwrites the
  rank (`RankingLists.ForeignNameOverwritesRank` leaves a group with two firsts and no second). A ranking leaves the
  ranked groups as they are if and only if it names their countries at their recorded ranks or not at all
  (`RankingLists.RankingFreezesIff`).

The bracket's condition has its input too: `BracketOverrides.OverrideIsAccepted` is an accepted request that does not fit.
One more surprise is `Shape.GoalsGoByStoredOrder`: a request that names the countries of a group match in reverse order
swaps the goals.

## Model

| member | source | states |
|---|---|---|
| MatchUpdates.WinnerOutscores | adapters/storage/postgres/contest.go:755-781 | the winner is the country of the slot with more goals, or level goals and more penalties, and the loser the other one; a tie without decisive penalties has neither |
| MatchEffects.LookupByIndex | adapters/storage/postgres/contest.go:483-492 | with a knockout round and an index a request finds the row with that round and index |
| MatchEffects.LookupByCountries | adapters/storage/postgres/contest.go:493-516 | otherwise it finds the rows of its round with its two known countries in either order |
| MatchEffects.FindingNothing | adapters/storage/postgres/contest.go:493-516 | a request that finds no row is refused, for want of two known countries or of such a match |
| MatchEffects.KnockoutPairIsUnique | adapters/storage/postgres/contest.go:497-516 | in a bracket that holds, a lookup by two countries finds at most one row of a knockout round |
| MatchEffects.UpdateStoresFields | adapters/storage/postgres/contest.go:522-569 | every field of the row is the request's where present and the old one where absent, countries and penalties on knockout rows only |
| MatchEffects.GoalsInTwoRequests | adapters/storage/postgres/contest.go:538-545 | the goals of a match may come in two requests |
| MatchEffects.OpenUpdateIsAlone | adapters/storage/postgres/contest.go:571-596 | while a goal is missing the row is all that changes |
| MatchEffects.UpdateIsAcceptedIff | adapters/storage/postgres/contest.go:518-614 | an update is accepted if and only if the row was open and a completed row has both countries and, in the group stage, both standings |
| MatchEffects.UpdateErrors | adapters/storage/postgres/contest.go:518-614 | why an update is refused |
| MatchEffects.CompletedMatchCounts | adapters/storage/postgres/contest.go:596-741 | a completed group match counts the stored goals and conduct of each side for its own country and touches nothing else |
| MatchEffects.DecidedMatchPays | adapters/storage/postgres/contest.go:838-919 | a decided match pays exactly the users who picked the winner for the round it reaches, with the points of that round |
| MatchEffects.DecidedMatchRecords | adapters/storage/postgres/contest.go:838-941 | it records the round of the winner and 5 for a beaten semifinalist |
| MatchEffects.DecidedMatchFills | adapters/storage/postgres/contest.go:783-836 | it fills the slot of the winner and that of a beaten semifinalist and changes no other row |
| MatchEffects.TieMovesNobody | adapters/storage/postgres/contest.go:766-783 | a tie that penalties do not settle completes the row and does nothing else |
| GroupEffects.RankingIsAcceptedIff | adapters/storage/postgres/contest.go:960-1025 | a ranking is accepted if and only if every fixture of the letter has both goals, no row of the letter has a rank and every name is known |
| GroupEffects.RankingErrors | adapters/storage/postgres/contest.go:960-1025 | why a ranking is refused |
| GroupEffects.RankingWritesRanks | adapters/storage/postgres/contest.go:1009-1029 | every named country gets its last position as rank, and no other column changes |
| GroupEffects.RankingPaysByRows | adapters/storage/postgres/contest.go:1046-1102 | a user gains, for each of the first four names, 10, 6, 3, 1 times 3, 2, 1 for places 1, 2, 3 |
| GroupEffects.DecisionByRows | adapters/storage/postgres/contest.go:1111-1207 | a decision flags one open row of the letter with rank 3 and pays 5 points to the users whose rows carry the decided flag only, nothing to those without it |
| GroupEffects.DecisionErrors | adapters/storage/postgres/contest.go:1120-1150 | why a decision is refused |
| SheetEffects.ConvertPicks | adapters/handler/picks.go:121-138 | the handler turns the sent countries into entries with places by position |
| SheetEffects.EmptySheetChangesNothing | adapters/storage/postgres/picks.go:208-210 | a request without any entry leaves the tables as they were |
| SheetEffects.SheetAfterSubmit | adapters/storage/postgres/picks.go:168-215 | after an accepted request the user's rows are the entries with the letter and flag of their pick, plus the old rows of other letters; nobody else's change |
| SheetEffects.SubmitCreatesScore | adapters/storage/postgres/picks.go:217-231 | a missing score row is created with no points and nothing else changes |
| SheetEffects.SubmitIsAcceptedIff | adapters/storage/postgres/picks.go:168-215 | a request is accepted if and only if it lists known countries, each once, none of them held under a letter it does not submit |
| SheetEffects.SubmitErrors | adapters/storage/postgres/picks.go:189-215 | why a request is refused |
| SheetEffects.EmptyKnockoutSheetChangesNothing | adapters/storage/postgres/picks.go:364-366 | an empty knockout sheet leaves the tables as they were |
| SheetEffects.KnockoutSubmitCreatesScore | adapters/storage/postgres/picks.go:373-388 | a missing score row is created with no points and nothing else changes |
| SheetEffects.KnockoutSubmitErrors | adapters/storage/postgres/picks.go:340-366 | why a knockout sheet is refused |
| Store.Repository.UpdateMatch | adapters/storage/postgres/contest.go:434-949 | a match update finds a row, merges the present fields, records the result and commits, or changes nothing and says why |
| Store.Repository.OverwriteFields | adapters/storage/postgres/contest.go:522-569 | only present fields change, countries and penalties only on knockout rows |
| Store.Repository.UpdateStandings | adapters/storage/postgres/contest.go:596-741 | a group result updates the two standings rows; the branch that reverts an earlier score cannot be reached |
| Store.Repository.ApplyResult | adapters/storage/postgres/contest.go:665-703 | the counters of both countries after one result |
| Store.Repository.ChooseWinner | adapters/storage/postgres/contest.go:749-781 | winner and loser of a completed knockout match |
| Store.Repository.ProgressBracket | adapters/storage/postgres/contest.go:783-941 | winner to the next round, beaten semifinalist to the third-place match, standings upserted, pickers credited |
| Store.Repository.CreditPickers | adapters/storage/postgres/contest.go:884-917 | each user who picked the winner gets the points once, in any order of the rows |
| Store.Repository.FinalizeGroupRankings | adapters/storage/postgres/contest.go:951-1109 | guards, ranks and awards of a group ranking, all or nothing |
| Store.Repository.AssignRanks | adapters/storage/postgres/contest.go:1009-1029 | each listed country gets its last position as rank; an unknown code refuses the list |
| Store.Repository.AddUpPoints | adapters/storage/postgres/contest.go:1046-1080 | the map built from the pick rows in any order holds each user's award as read off the ranking |
| Store.Repository.CreditPoints | adapters/storage/postgres/contest.go:1082-1102 | the increments reach the score rows, in any order of the map |
| Store.Repository.FinalizeThirdPlaceQualifier | adapters/storage/postgres/contest.go:1111-1207 | the third-placed row gets its flag once and the users who predicted it are paid |
| Store.Repository.CreditQualifier | adapters/storage/postgres/contest.go:1162-1200 | 5 points to each user whose kept row predicts the decision, once; of disagreeing rows of a user any one may be kept |
| Store.Repository.CreateGroupPicks | adapters/storage/postgres/picks.go:143-238 | delete by letter and insert, or no change |
| Store.Repository.CreateKnockoutPicks | adapters/storage/postgres/picks.go:318-394 | delete and insert of a whole knockout sheet, or no change |
| Runs.RefusedChangesNothing | adapters/storage/postgres/contest.go:571-576 | a call that returns an error leaves every table as it was |
| Shape.StepKeepsShape | adapters/storage/postgres/contest.go:526-536 | no call adds or drops rows, changes group pairings or moves a country to another group |
| Shape.GroupLookupFinds | adapters/storage/postgres/contest.go:497-516 | a group match request finds exactly the fixture of its two countries, in either order |
| Shape.GoalsGoByStoredOrder | adapters/storage/postgres/contest.go:538-545 | each country gets the goals the request gives it if and only if the request names the countries in the stored order or the goals are level |
| GroupResults.ResultContributes | adapters/storage/postgres/contest.go:665-703 | a result moves each statistic by what the match contributes to that country, seen from its side |
| GroupResults.StandingsRefineResults | adapters/storage/postgres/contest.go:596-741 | in every run each standings row equals the fold of its completed matches, gd is gf - ga and points are 3 wins + draws |
| GroupResults.GroupBalances | adapters/storage/postgres/contest.go:677-703 | in a group total goals for equal total goals against and wins equal losses |
| GroupResults.GoalDifferencesCancel | adapters/storage/postgres/contest.go:677-703 | the goal differences of a group add up to 0 |
| Bracket.SeedingStartsBracket | cmd/seed/main.go:814-829 | an unplayed bracket seeded with distinct countries satisfies provenance |
| Bracket.NamelessIsNeutral | cmd/seed/main.go:846-853 | requests that name no country leave the slots alone and so fit |
| Bracket.ProvenanceAlways | adapters/storage/postgres/contest.go:783-836 | in every neutral run each slot after the Round of 32 holds the winner (loser, for third place) of its feeding match, and only once that is decided |
| Bracket.CompletedIsFrozen | adapters/storage/postgres/contest.go:518-520 | a completed bracket match never changes again |
| Bracket.SlotsOnlyFill | adapters/storage/postgres/contest.go:801-835 | in every later state a filled slot keeps its country, except in open Round-of-32 matches whose seeding is corrected |
| BracketOverrides.BracketKeptIffNeutral | adapters/storage/postgres/contest.go:526-536 | an accepted update of any bracket row keeps the bracket if and only if it leaves the slots of the row alone or reseeds a Round-of-32 match with countries no other match of the round has |
| BracketOverrides.OverrideIsAccepted | adapters/storage/postgres/contest.go:526-536 | naming another known country for a slot of an open match after the Round of 32 is accepted and breaks the bracket |
| Subtrees.Origin | adapters/storage/postgres/contest.go:787-801 | a country in match (r, i) started in a Round-of-32 match of the subtree below it |
| Subtrees.OncePerRound | adapters/storage/postgres/contest.go:787-801 | no country is in two slots of one round |
| Subtrees.LastRoundDisjoint | adapters/storage/postgres/contest.go:815-836 | final and third-place match share no country |
| BracketScores.AuditAlways | adapters/storage/postgres/contest.go:838-919 | with timely sheets every knockout score equals the one-pass recomputation from match rows |
| BracketScores.UpdateSpends | adapters/storage/postgres/contest.go:518-520 | completing a match spends its points once; nothing else spends |
| BracketScores.KnockoutCap | scoring.md:51-53 | in every run, with overrides and resubmitted sheets, a knockout score is between 0 and 600 |
| KnockoutTable.WinRaises | adapters/storage/postgres/contest.go:864-940 | every write to the knockout table strictly raises that country's record |
| KnockoutTable.TableAlways | adapters/storage/postgres/contest.go:864-940 | in every neutral run the table holds each country's furthest round and records only rise |
| KnockoutTable.FinishedTable | adapters/storage/postgres/contest.go:841-862 | a finished bracket leaves sixteen rows with the levels 2, 3, 5, 6 and 7 taken 8, 4, 2, 1 and 1 times |
| AwardLoop.SeeRankedRow | adapters/storage/postgres/contest.go:1048-1080 | one more pick row adds base points times multiplier to its user |
| AwardLoop.TalliesAll | adapters/storage/postgres/contest.go:1046-1080 | after the last row the map is the award of the ranking |
| GroupScores.RankingPaysAtMost45 | scoring.md:10-30 | with different places any list, also one that repeats a name, pays 0 to 45 points, and 45 exactly for ranks 1, 2, 3 in places 1, 2, 3 |
| GroupScores.RanksAreBijection | adapters/storage/postgres/contest.go:1009-1029 | the ranks of a ranked group of a disciplined run are a bijection onto 1..n |
| GroupScores.SettledAlways | adapters/storage/postgres/contest.go:960-1029 | in every disciplined run a ranked group is ranked completely with all matches complete, and only a rank-3 row carries a flag |
| GroupScores.FinalizedGroupsAreFrozen | adapters/storage/postgres/contest.go:960-1001 | in disciplined runs, once a group is ranked, no statistic, rank or given flag of it changes in any later state |
| GroupCap.RankingPays | adapters/storage/postgres/contest.go:1082-1102 | a ranking pays each user exactly the award of the list and no knockout points |
| GroupCap.DecisionPays | adapters/storage/postgres/contest.go:1162-1200 | a decision pays 5 points to the users who predicted it and nothing to the others; a user with both predictions gets either |
| GroupCap.AwardsArePaidOnce | adapters/storage/postgres/contest.go:996-1001 | in guarded runs, after an accepted ranking or decision of a group every later one is refused |
| GroupCap.GroupCapAlways | scoring.md:32-34 | in every guarded run a group score is at most 50 points per group, 600 for twelve |
| GroupCap.DisciplinedIsGuarded | adapters/storage/postgres/contest.go:951-958 | a run whose rankings list exactly their own group is guarded |
| RankingLists.RankingRanksNamedGroups | adapters/storage/postgres/contest.go:1009-1029 | a group is ranked after an accepted ranking if and only if it was before or the list names one of its countries |
| RankingLists.ForeignNameBlocksGroup | adapters/storage/postgres/contest.go:996-1029 | a ranking that names a country of another group makes every ranking of that group fail |
| RankingLists.RankingFreezesIff | adapters/storage/postgres/contest.go:1009-1029 | an accepted ranking leaves a row as it is if and only if it names it at its recorded rank or not at all, and so leaves all ranked groups frozen exactly under that condition |
| RankingLists.StepKeepsRankIff | adapters/storage/postgres/contest.go:1009-1029 | a recorded rank survives any call if and only if the call is no accepted ranking naming the country at another rank |
| RankingLists.RecordedRanksStay | adapters/storage/postgres/contest.go:1009-1029 | in every run whose rankings spare ranked groups a recorded rank stays for good |
| RankingLists.ForeignNameOverwritesRank | adapters/storage/postgres/contest.go:1009-1029 | without that condition a ranking of another group leaves a ranked group with two firsts and no second |
| RankingLists.RankingIsFinalIff | adapters/storage/postgres/contest.go:986-1029 | after an accepted ranking every later list for the letter is refused if and only if the list names a country of the letter |
| RankingLists.RankingIsBijectionIff | adapters/storage/postgres/contest.go:1009-1029 | after an accepted ranking the ranks are 1 to n, each once, if and only if the list starts with the whole group and names none of it again |
| RepeatedAwards.ForeignListPaysForever | adapters/storage/postgres/contest.go:986-1102 | a list without a country of its letter is accepted any number of times and pays each time |
| RepeatedAwards.DecisionIsRefusedIff | adapters/storage/postgres/contest.go:1120-1150 | a decision is refused in every case if and only if every third of the letter has its flag |
| RepeatedAwards.DecisionFlagsThirds | adapters/storage/postgres/contest.go:1120-1160 | an accepted decision leaves every third of a letter with one third flagged |
| RepeatedAwards.ThirdsStayFlaggedIff | adapters/storage/postgres/contest.go:1009-1029 | an accepted ranking leaves the decision of a letter closed if and only if it puts no unflagged country of it third |
| RepeatedAwards.SecondThirdPaysAgain | adapters/storage/postgres/contest.go:1111-1207 | a ranking of another letter can give a decided letter a second third, whose decision is accepted and pays again |
| SheetCaps.RepeatedLetterPays48 | adapters/storage/postgres/picks.go:158-206 | a request that repeats a letter is accepted and can earn 48 points from one ranking |
| SheetCaps.RankingsCappedIffLettersOnce | scoring.md:28-34 | after an accepted request with places by position every ranking pays the user at most 45 points if and only if no letter has entries in two picks |
| SheetCaps.OthersStayCapped | scoring.md:28-34 | no request of one user lets a ranking pay another user more than 45 points |
| GroupAudit.RankingMovesAudit | adapters/storage/postgres/contest.go:1046-1102 | the award of a ranking is what the ranks it writes are worth to the user |
| GroupAudit.GroupAuditAlways | adapters/storage/postgres/contest.go:1046-1102 | in disciplined runs with timely sheets every group score equals the recomputation from the recorded ranks and flags |
| Generation.GenerateMatches | core/service/contest.go:45-76 | the nested loops emit the round robins and then the bracket skeleton |
| Generation.GeneratedOnce | core/service/contest.go:45-76 | two countries of a group meet exactly once, others never, and each bracket position is emitted exactly once |
| Generation.GeneratedPerCountry | core/service/contest.go:47-59 | a country of a group of n plays n - 1 matches |
| Generation.GroupMatchOrder | core/service/contest.go:47-59 | a group match names two countries of one group, the earlier one first |
| ContestCreation.CreateContest | core/service/contest.go:27-89 | creation succeeds exactly when no country is repeated and the groups, if any, have a country, and then yields the new tables |
| ContestCreation.CreateGroupStandings | adapters/storage/postgres/contest.go:151-180 | zero rows for every country, or an error when one is repeated or the groups have no country at all |
| ContestCreation.NewContestIsWellShaped | adapters/storage/postgres/contest.go:103-149 | the inserted rows are fixtures with different pairings and the 32 bracket rows |
| ContestCreation.NewStandings | adapters/storage/postgres/contest.go:151-180 | every country starts under the letter of its group with nothing counted, no rank and no flag |
| ContestCreation.NewMatches | adapters/storage/postgres/contest.go:103-149 | every group match starts open with its two countries in group order, every bracket match empty, and no pick, score or record exists |
| ContestCreation.NewContestStartsGroups | core/service/contest.go:78-86 | a new contest satisfies the starting conditions of the group theorems |
| ContestCreation.NewContestStartsKnockout | core/service/contest.go:61-81 | a new contest satisfies the starting conditions of the knockout theorems |
| ContestCreation.ScoreAtMost1200 | scoring.md:59 | from a new contest no guarded run gives a user more than 600 points in a stage or 1200 together |
| PickSheets.UnknownCountryRejects | adapters/storage/postgres/picks.go:189-194 | one unknown country refuses the whole request |
| PickSheets.SubmitKeepsPlacesIff | adapters/storage/postgres/picks.go:168-215 | an accepted request keeps the places of every sheet different if and only if its own entries give no place of a letter twice |
| PickSheets.PlacesDifferIffLettersOnce | adapters/handler/picks.go:121-138 | a request with places by position gives no place of a letter twice if and only if no letter has entries in two picks |
| PickSheets.WellFormedPlacesDiffer | adapters/handler/picks.go:121-138 | so requests with distinct letters and places by position give none twice |
| PickSheets.KnockoutRoundTrip | adapters/storage/postgres/picks.go:318-394 | a knockout sheet is accepted exactly without repeats and unknown countries, and then is what the user has |
| PickListing.ListGroupPicks | adapters/storage/postgres/picks.go:64-86 | one pick per letter in alphabetical order, with exactly the rows of the letter in their order and the flag of the last of them |
| PickListing.ListingInOrder | adapters/storage/postgres/picks.go:80-86 | letters are listed once each, in alphabetical order |
| PickListing.SubmitSucceedsIff | adapters/storage/postgres/picks.go:168-215 | a request is accepted exactly for known, different countries not held under another letter |
| PickListing.RoundTrip | adapters/storage/postgres/picks.go:37-87 | listing after creating returns each submitted group in place order with its flag |
| PickListing.OtherLettersStay | adapters/storage/postgres/picks.go:168-177 | letters outside the request are listed as before |
| PickListing.SubmitTouchesOneSheet | adapters/storage/postgres/picks.go:217-231 | other users, existing score rows and other tables are untouched |
| RankedGroups.BuildRankedGroups | adapters/handler/picks.go:70-112 | one group per letter in first-seen order; each row is sent column by column, its flag true only where it is true; finalized if and only if a row has a rank; the last flag of the letter |
| RankedGroups.RowsKeepOrder | adapters/handler/picks.go:74-105 | a group's rows are exactly the rows of its letter, in input order |
| RankedGroups.PartitionKeepsCount | adapters/handler/picks.go:74-111 | the groups together have as many rows as the list |
| KnockoutDriver.SimulateKnockoutStage | cmd/seed/main.go:832-914 | the driver is never refused, its query finds the 8, 4, 2 and 2 matches of each later round, and all 32 matches end with their drawn goals, 4:3 on penalties for the first country after a tie |
| SheetGeneration.GenerateSheet | cmd/seed/main.go:611-674 | the generator's loops draw the sheet described by bracket position |
| SheetGeneration.SeedKnockoutPicks | cmd/seed/main.go:579-678 | the generated sheet is always accepted |
| SheetGeneration.SheetIsAccepted | cmd/seed/main.go:611-677 | a generated sheet repeats no key and names only known countries |
| SheetGeneration.EverySheetIsAchievable | cmd/seed/main.go:611-677 | for every sequence of coin flips some results give the sheet exactly 600 points |
| GroupStageDriver.ThirtyTwoAdvance | cmd/seed/main.go:776-812 | eight flags among twelve thirds make exactly 32 advancing countries |
| GroupStageDriver.SeedRoundOf32 | cmd/seed/main.go:750-829 | thirds decided, and match i of the Round of 32 holds the (2i)-th and (2i+1)-th of the 32 advancing countries by letter and rank, no call refused |
| ContestSimulation.PlayGroupMatches | cmd/seed/main.go:681-719 | every group match is found and accepted in any order and has its drawn goals by the stored order of the countries |
| ResultOrder.RankingFollows | cmd/seed/main.go:725-747 | a ranking in the order of points, goal difference, goals and code gives ranks that follow the results, both ways |
| ResultOrder.QueryThirds | cmd/seed/main.go:751-776 | the letters of the thirds, each once, best third first |
| ContestSimulation.RankGroups | cmd/seed/main.go:721-748 | all twelve rankings are accepted; in a group more points, then goal difference, then goals, then the smaller code give the smaller rank |
| ContestSimulation.SimulateGroupStage | cmd/seed/main.go:680-829 | no call of the group stage is refused, and no third that stays out is above one that goes through in points, goal difference and goals |
| GroupSheets.GenerateSheet | cmd/seed/main.go:520-574 | one pick per group, ranking all its countries in a shuffled order with places by position |
| GroupSheets.SheetIsAccepted | cmd/seed/main.go:520-577 | every generated group sheet is accepted |
| GroupSheets.SeedGroupPicks | cmd/seed/main.go:520-577 | the sheet of a user is stored and covers every group |
| ContestSimulation.SimulateContest | cmd/seed/main.go:258-278 | from creation over all sheets to the last match no call is refused, the finished knockout table has its sixteen rows and every knockout score is audited |

## Left out

- Concurrent calls: the match row is read outside the transaction, so everything is claimed for serialized calls.
- Narrowing of goals to 32 bits and overflow: goals and points are mathematical integers.
- The users and contests tables, join codes, subcontests, slugs, lock windows, authentication and the HTTP layer: single-branch or library behaviour.
- Connection and statement errors of the database: every error modelled is one the program's own data causes.
- Column widths: a group letter is one character, the schema's limit; longer letters are refused by the database and not modelled.
- ContestCreation.CreateContest: the errors in between its separate repository calls are modelled for the standings insert only.
- Random numbers: the seeder's shuffles, flips and goals are inputs, and the goals may be any integers.
- Collation: country codes compare character by character, as the database does for codes of upper-case letters.
- The leaderboards, whose sort, limit and join the database does, and the deterministic variants of the seeding program.
