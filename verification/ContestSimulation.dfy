/**
 The seeder's whole simulation of a contest, from its creation to the last knockout match: the contest is created,
 the users' group sheets are stored, the groups are played, ranked and decided, the Round of 32 is filled, the users'
 knockout sheets are stored, and the bracket is played out. No call is refused.
 */
module ContestSimulation {
  import opened Tables
  import Runs
  import opened MatchUpdates
  import opened GroupFinalization
  import opened Store
  import opened Shape
  import opened Generation
  import opened ContestCreation
  import opened Bracket
  import opened KnockoutTable
  import opened KnockoutDriver
  import opened GroupScores
  import opened GroupStageDriver
  import opened ResultOrder
  import opened PickSheets
  import opened GroupSheets
  import opened SheetGeneration
  import opened BracketScores
  import GroupCap

  /** Nothing but the group stage has happened: no rank, no flag, an untouched bracket and an empty knockout table. */
  ghost predicate GroupStageOpen(s: Tables, n: nat) {
    && WellShaped(s, n) && Untouched(s.matches) && s.knockoutStandings == map[]
    && s.standings.Keys <= s.countries && NoKnockoutPoints(s)
    && forall c :: c in s.standings ==> s.standings[c].qualifier.None?
  }

  ghost predicate NoKnockoutPoints(s: Tables) {
    forall u :: ScoreOf(s.scores, u).knockout == 0
  }

  ghost predicate NobodyRanked(s: Tables) {
    forall c :: c in s.standings ==> s.standings[c].rank.None?
  }

  // ---- the group matches ----

  function GroupRequest(c1: Country, c2: Country, g1: int, g2: int): MatchRequest {
    MatchRequest(Some(c1), Some(c2), Some(g1), Some(g2), None, None, None, None, 0, None)
  }

  /** The request for an open group match finds exactly that match and is accepted. */
  lemma GroupMatchAccepted(s: Tables, n: nat, k: nat, g1: int, g2: int, t: Tables, r: Response)
    requires GroupStageOpen(s, n) && k < n && !Complete(s.matches[GroupMatch(k)])
      && IsFixture(s, s.matches[GroupMatch(k)])
    requires var row := s.matches[GroupMatch(k)];
      UpdateMatchStep(s, GroupRequest(row.country1.value, row.country2.value, g1, g2), t, r)
    ensures r.Done? && SameGroups(s, t) && GroupMatch(k) in t.matches
    ensures t.matches[GroupMatch(k)].goals1 == Some(g1) && t.matches[GroupMatch(k)].goals2 == Some(g2)
    ensures t.matches == s.matches[GroupMatch(k) := t.matches[GroupMatch(k)]] && Complete(t.matches[GroupMatch(k)])
    ensures t == s.(matches := t.matches, standings := t.standings) && GroupStageOpen(t, n)
  {
    var id, row := GroupMatch(k), s.matches[GroupMatch(k)];
    var req := GroupRequest(row.country1.value, row.country2.value, g1, g2);
    GroupLookupFinds(s, n, k, req);
    assert Commits(s, UpdateRow(s, id, req), t, r);
    GroupUpdateEffect(s, id, req, t);
    StepKeepsShape(s, Runs.Call.UpdateMatch(req), t, r);
    ShapeKept(s, t, n);
    SameBracketRows(s.matches, t.matches);
  }

  lemma SameBracketRows(m: MatchTable, t: MatchTable)
    requires Untouched(m)
    requires forall r: nat, i: nat :: KnockoutMatch(r, i) in t <==> KnockoutMatch(r, i) in m
    requires forall r: nat, i: nat :: KnockoutMatch(r, i) in m ==> t[KnockoutMatch(r, i)] == m[KnockoutMatch(r, i)]
    ensures Untouched(t)
  {
    forall r: nat, i: nat ensures Row(t, r, i) == Row(m, r, i) {
    }
    forall r: nat, i: nat, s: nat ensures Slot(t, r, i, s) == Slot(m, r, i, s) {
    }
  }

  /** The group matches outside `left` have been played. */
  ghost predicate PlayedBut(before: Tables, s: Tables, n: nat, left: set<MatchId>) {
    && GroupStageOpen(s, n) && SameGroups(before, s)
    && forall k: nat :: k < n ==> (Complete(s.matches[GroupMatch(k)]) <==> GroupMatch(k) !in left)
  }

  /** The goals by the stored order of the countries. */
  predicate HasGoals(row: MatchRow, draw: (int, int)) {
    row.goals1 == Some(draw.0) && row.goals2 == Some(draw.1)
  }

  /** The played matches in their order, each with its draw. */
  ghost predicate DrawnSo(m: MatchTable, goals: seq<(int, int)>, order: seq<MatchId>) {
    && Distinct(order) && |order| <= |goals|
    && forall j :: 0 <= j < |order| ==> order[j] in m && HasGoals(m[order[j]], goals[j])
  }

  lemma OneMoreDraw(m: MatchTable, t: MatchTable, goals: seq<(int, int)>, order: seq<MatchId>, id: MatchId)
    requires DrawnSo(m, goals, order) && id !in order && |order| < |goals|
    requires forall other :: other in m && other != id ==> other in t && t[other] == m[other]
    requires id in t && HasGoals(t[id], goals[|order|])
    ensures DrawnSo(t, goals, order + [id])
  {
    forall j | 0 <= j < |order| ensures order[j] != id {
      assert order[j] in order;
    }
  }

  /** Plays one of the matches that are left, with the next draw. */
  method PlayGroupMatch(repo: Repository, ghost before: Tables, ghost n: nat, ghost left: set<MatchId>, k: nat,
                        goals: seq<(int, int)>, ghost order: seq<MatchId>, played: nat)
    returns (r: Response)
    requires PlayedBut(before, repo.tables, n, left) && k < n && GroupMatch(k) in left
    requires DrawnSo(repo.tables.matches, goals, order) && GroupMatch(k) !in order && played == |order| < |goals|
    modifies repo
    ensures r.Done? && PlayedBut(before, repo.tables, n, left - {GroupMatch(k)})
    ensures DrawnSo(repo.tables.matches, goals, order + [GroupMatch(k)])
  {
    var row := repo.tables.matches[GroupMatch(k)];
    assert IsFixture(repo.tables, row);
    ghost var s := repo.tables;
    var (g1, g2) := goals[played];
    r := repo.UpdateMatch(GroupRequest(row.country1.value, row.country2.value, g1, g2));
    GroupMatchAccepted(s, n, k, g1, g2, repo.tables, r);
    OneMoreDraw(s.matches, repo.tables.matches, goals, order, GroupMatch(k));
    forall j: nat | j < n
      ensures Complete(repo.tables.matches[GroupMatch(j)]) <==> GroupMatch(j) !in left - {GroupMatch(k)}
    {
      assert GroupMatch(j) in s.matches;
    }
  }

  /** The group matches. */
  ghost predicate AreGroupMatches(rows: set<MatchId>, n: nat) {
    forall id :: id in rows <==> id.GroupMatch? && id.number < n
  }

  /** Plays every group match, in whatever order the database lists them; the j-th of that order gets the j-th draw. */
  method PlayGroupMatches(repo: Repository, ghost n: nat, goals: seq<(int, int)>)
    returns (fatal: bool, ghost order: seq<MatchId>)
    requires GroupStageOpen(repo.tables, n)
    requires |goals| >= |set id | id in repo.tables.matches && Round(id) == 0|
    requires forall k: nat :: k < n ==> !Complete(repo.tables.matches[GroupMatch(k)])
    modifies repo
    ensures !fatal && GroupStageOpen(repo.tables, n) && SameGroups(old(repo.tables), repo.tables)
    ensures forall k: nat :: k < n ==> Complete(repo.tables.matches[GroupMatch(k)])
    ensures DrawnSo(repo.tables.matches, goals, order) && forall k: nat :: k < n ==> GroupMatch(k) in order
  {
    var rows := set id | id in repo.tables.matches && Round(id) == 0;
    assert AreGroupMatches(rows, n) by {
      assert forall r: nat, i: nat :: KnockoutMatch(r, i) in repo.tables.matches ==> InBracket(r, i);
    }
    fatal, order := PlayAll(repo, n, rows, goals);
  }

  /** The list holds the rows that are not left. */
  ghost predicate HoldsRest(order: seq<MatchId>, rows: set<MatchId>, left: set<MatchId>) {
    forall id :: id in order <==> id in rows && id !in left
  }

  lemma OneMoreDone(order: seq<MatchId>, rows: set<MatchId>, left: set<MatchId>, id: MatchId)
    requires HoldsRest(order, rows, left) && left <= rows && id in left
    ensures id !in order && HoldsRest(order + [id], rows, left - {id})
  {
  }

  method PlayAll(repo: Repository, ghost n: nat, rows: set<MatchId>, goals: seq<(int, int)>)
    returns (fatal: bool, ghost order: seq<MatchId>)
    requires AreGroupMatches(rows, n) && PlayedBut(repo.tables, repo.tables, n, rows) && |goals| >= |rows|
    modifies repo
    ensures !fatal && PlayedBut(old(repo.tables), repo.tables, n, {})
    ensures DrawnSo(repo.tables.matches, goals, order) && forall id :: id in order <==> id in rows
  {
    var left, played := rows, 0;
    order := [];
    while left != {}
      invariant left <= rows && played + |left| == |rows|
      invariant PlayedBut(old(repo.tables), repo.tables, n, left)
      invariant |order| == played && DrawnSo(repo.tables.matches, goals, order)
      invariant HoldsRest(order, rows, left)
    {
      var id :| id in left;
      OneMoreDone(order, rows, left, id);
      var r := PlayGroupMatch(repo, old(repo.tables), n, left, id.number, goals, order, played);
      if r.Rejected? {
        return true, order;
      }
      order := order + [id];
      left, played := left - {id}, played + 1;
    }
    return false, order;
  }

  // ---- the rankings ----

  /** The query for the countries of a group, by results. */
  method QueryGroupOrder(s: Tables, letter: Letter) returns (ordered: seq<Country>)
    ensures IsGroup(s, letter, ordered) && InOrder(s, ordered)
  {
    ordered := Ordered(s, Members(s, letter));
  }

  /** Every group has four countries. */
  ghost predicate GroupsOfFour(s: Tables, letters: seq<Letter>) {
    && (forall c :: c in s.standings ==> s.standings[c].letter in letters)
    && (forall k :: 0 <= k < |letters| ==> |Members(s, letters[k])| == 4)
  }

  /** The first k groups are ranked and the others are not. */
  ghost predicate RankedTo(s: Tables, letters: seq<Letter>, k: nat)
    requires k <= |letters|
  {
    && GroupsOfFour(s, letters)
    && (forall j :: 0 <= j < k ==> FourRanked(s, letters[j]))
    && (forall c, j :: c in s.standings && k <= j < |letters| && s.standings[c].letter == letters[j] ==>
      s.standings[c].rank.None?)
  }

  /** Ranking the next open group is accepted. */
  lemma RankingAccepted(s: Tables, n: nat, letters: seq<Letter>, k: nat, ranking: seq<Country>)
    requires GroupStageOpen(s, n) && k < |letters| && Distinct(letters) && RankedTo(s, letters, k)
      && IsGroup(s, letters[k], ranking)
    requires forall j: nat :: j < n ==> Complete(s.matches[GroupMatch(j)])
    ensures FinalizeRankings(s, letters[k], ranking).Success?
  {
  }

  /** ... and leaves one more group ranked and the rest as it was. */
  lemma RankingRanks(s: Tables, n: nat, letters: seq<Letter>, k: nat, ranking: seq<Country>, t: Tables)
    requires GroupStageOpen(s, n) && k < |letters| && Distinct(letters) && RankedTo(s, letters, k)
      && IsGroup(s, letters[k], ranking)
    requires FinalizeRankings(s, letters[k], ranking) == Success(t)
    ensures GroupStageOpen(t, n) && RankedTo(t, letters, k + 1) && t.matches == s.matches
  {
    RankingKeepsOpen(s, n, letters[k], ranking, t);
    OneMoreRanked(s, letters, k, ranking, t);
  }

  lemma OneMoreRanked(s: Tables, letters: seq<Letter>, k: nat, ranking: seq<Country>, t: Tables)
    requires k < |letters| && Distinct(letters) && RankedTo(s, letters, k) && IsGroup(s, letters[k], ranking)
    requires t.standings == WithRanks(s.standings, ranking)
    ensures RankedTo(t, letters, k + 1)
  {
    FourAreRanked(s, letters[k], ranking, t);
    forall j | 0 <= j < k ensures FourRanked(t, letters[j]) {
      OtherGroupStaysRanked(s, letters[k], ranking, t, letters[j]);
    }
    SameSizes(s, t, letters);
    forall c, j | c in t.standings && k + 1 <= j < |letters| && t.standings[c].letter == letters[j]
      ensures t.standings[c].rank.None?
    {
    }
  }

  lemma RankingKeepsOpen(s: Tables, n: nat, letter: Letter, ranking: seq<Country>, t: Tables)
    requires GroupStageOpen(s, n) && FinalizeRankings(s, letter, ranking) == Success(t)
    ensures GroupStageOpen(t, n) && t.matches == s.matches && t.standings == WithRanks(s.standings, ranking)
  {
    forall u ensures ScoreOf(t.scores, u).knockout == 0 {
      GroupCap.RankingPays(s, letter, ranking, t, u);
    }
  }

  lemma FourAreRanked(s: Tables, letter: Letter, ranking: seq<Country>, t: Tables)
    requires IsGroup(s, letter, ranking) && t.standings == WithRanks(s.standings, ranking)
    requires |Members(s, letter)| == 4
    ensures FourRanked(t, letter)
  {
    DistinctSize(ranking, Members(s, letter));
    forall j | 0 <= j < |ranking| ensures ranking[j] in t.standings && t.standings[ranking[j]].rank == Some(j + 1) {
      assert ranking[j] in ranking;
      RankInDistinct(ranking, j);
    }
    assert RankedBy(t, letter, ranking);
  }

  lemma OtherGroupStaysRanked(s: Tables, letter: Letter, ranking: seq<Country>, t: Tables, other: Letter)
    requires IsGroup(s, letter, ranking) && t.standings == WithRanks(s.standings, ranking)
    requires other != letter && FourRanked(s, other)
    ensures FourRanked(t, other)
  {
    var four :| RankedBy(s, other, four) && |four| == 4;
    forall j | 0 <= j < 4 ensures four[j] in t.standings && t.standings[four[j]] == s.standings[four[j]] {
      assert four[j] in four && four[j] !in ranking;
    }
    assert RankedBy(t, other, four);
  }

  lemma SameSizes(s: Tables, t: Tables, letters: seq<Letter>)
    requires GroupsOfFour(s, letters) && t.standings.Keys == s.standings.Keys
    requires forall c :: c in s.standings ==> t.standings[c].letter == s.standings[c].letter
    ensures GroupsOfFour(t, letters)
  {
    forall k | 0 <= k < |letters| ensures |Members(t, letters[k])| == 4 {
      assert Members(t, letters[k]) == Members(s, letters[k]);
    }
  }

  /** Ranks the twelve groups one after the other, each by its results. */
  method RankGroups(repo: Repository, ghost n: nat, letters: seq<Letter>) returns (fatal: bool)
    requires |letters| == 12 && Distinct(letters)
    requires GroupStageOpen(repo.tables, n) && NobodyRanked(repo.tables) && GroupsOfFour(repo.tables, letters)
    requires forall k: nat :: k < n ==> Complete(repo.tables.matches[GroupMatch(k)])
    modifies repo
    ensures !fatal && GroupStageOpen(repo.tables, n) && TwelveRankedGroups(repo.tables, letters)
    ensures RanksFollowResults(repo.tables) && RanksByResults(repo.tables)
  {
    for k := 0 to 12
      invariant GroupStageOpen(repo.tables, n) && RankedTo(repo.tables, letters, k) && RanksFollowResults(repo.tables)
      invariant forall j: nat :: j < n ==> Complete(repo.tables.matches[GroupMatch(j)])
    {
      var ordered := QueryGroupOrder(repo.tables, letters[k]);
      RankingAccepted(repo.tables, n, letters, k, ordered);
      ghost var t := FinalizeRankings(repo.tables, letters[k], ordered).value;
      RankingRanks(repo.tables, n, letters, k, ordered, t);
      RankingFollows(repo.tables, letters[k], ordered, t);
      var r := repo.FinalizeGroupRankings(letters[k], ordered);
      assert repo.tables == t && r.Done?;
      if r.Rejected? {
        return true;
      }
    }
    ResultsTellRanks(repo.tables);
    return false;
  }

  lemma SameStandingsSameOrder(s: Tables, t: Tables)
    requires t.standings == s.standings && RanksFollowResults(s) && BestThirdsGoThrough(s)
    ensures RanksFollowResults(t) && BestThirdsGoThrough(t)
  {
    forall c, d ensures Ahead(s, c, d) == Ahead(t, c, d) && Compared(s, c, d) == Compared(t, c, d) {
    }
  }

  lemma OneThirdPerLetter(s: Tables, letters: seq<Letter>)
    requires TwelveRankedGroups(s, letters)
    ensures forall l, c, d :: c in Thirds(s, l) && d in Thirds(s, l) ==> c == d
  {
    forall l, c, d | c in Thirds(s, l) && d in Thirds(s, l) ensures c == d {
      var k :| 0 <= k < 12 && letters[k] == l;
      var third := RankHolder(s, l, 3);
      assert Holds(s, l, 3, c) && Holds(s, l, 3, d);
    }
  }

  /** Flagging the first eight thirds of the ordered list sends the best ones through, and moves no rank. */
  lemma BestThirdsFlagged(before: Tables, s: Tables, letters: seq<Letter>, thirds: seq<Letter>)
    requires TwelveRankedGroups(before, letters) && RanksFollowResults(before)
    requires ThirdsInOrder(before, thirds) && (forall l :: l in thirds <==> Thirds(before, l) != {})
    requires FlaggedTo(before, s, letters, BestEight(thirds), 12)
    ensures RanksFollowResults(s) && BestThirdsGoThrough(s)
  {
    var best := BestEight(thirds);
    assert letters[..12] == letters;
    forall c, d ensures Ahead(s, c, d) == Ahead(before, c, d) && Compared(s, c, d) == Compared(before, c, d) {
    }
    forall c, d | DecidedThird(s, c, true) && DecidedThird(s, d, false) ensures Ahead(s, c, d) {
      assert c in Thirds(before, before.standings[c].letter) && d in Thirds(before, before.standings[d].letter);
      var i :| 0 <= i < |best| && best[i] == before.standings[c].letter;
      var j :| 0 <= j < |thirds| && thirds[j] == before.standings[d].letter;
      assert thirds[j] !in best;
      assert Ahead(before, c, d);
    }
  }

  // ---- the whole contest ----

  /** An empty knockout table agrees with an unplayed bracket. */
  lemma EmptyTableAgrees(s: Tables)
    requires PlayedTo(s.matches, 0) && s.knockoutStandings == map[]
    ensures TableAgrees(s)
  {
    forall c ensures RecordsBest(s, c) {
      if Best(s.matches, 32, c) > 0 {
        var k := BestIsReached(s.matches, 32, c);
        assert false;
      }
    }
  }

  lemma {:induction false} NewGroupSizes(known: set<Country>, groups: seq<Group>)
    requires Distinct(AllCountries(groups)) && |groups| == 12
    requires forall k :: 0 <= k < 12 ==> groups[k].letter == LETTERS[k] && |groups[k].countries| == 4
    ensures GroupsOfFour(NewContest(known, groups), LETTERS)
  {
    var zeros := ZeroStandings(groups);
    forall c | c in zeros ensures zeros[c].letter in LETTERS {
      StandingsAreZero(groups, c);
    }
    forall k | 0 <= k < 12 ensures |set c | c in zeros && zeros[c].letter == LETTERS[k]| == 4 {
      forall c ensures c in groups[k].countries <==> c in zeros && zeros[c].letter == LETTERS[k] {
        LetterTellsGroup(groups, k, c);
      }
      GroupIsDistinct(groups, k);
      DistinctSize(groups[k].countries, set c | c in zeros && zeros[c].letter == LETTERS[k]);
    }
  }

  lemma {:induction false} LetterTellsGroup(groups: seq<Group>, k: nat, c: Country)
    requires Distinct(AllCountries(groups)) && |groups| == 12 && k < 12
    requires forall j :: 0 <= j < 12 ==> groups[j].letter == LETTERS[j]
    ensures c in groups[k].countries <==> c in ZeroStandings(groups) && ZeroStandings(groups)[c].letter == LETTERS[k]
  {
    if c in ZeroStandings(groups) {
      ZeroStandingsKeys(groups);
      var j := GroupOfCountry(groups, c);
      GroupLetter(groups, j, c);
      LettersDiffer(j, k);
    }
    if c in groups[k].countries {
      GroupLetter(groups, k, c);
    }
  }

  lemma LettersDiffer(j: nat, k: nat)
    requires j < 12 && k < 12
    ensures LETTERS[j] == LETTERS[k] <==> j == k
  {
  }

  lemma {:induction false} GroupOfCountry(groups: seq<Group>, c: Country) returns (k: nat)
    requires c in AllCountries(groups)
    ensures k < |groups| && c in groups[k].countries
  {
    if c in groups[|groups| - 1].countries {
      k := |groups| - 1;
    } else {
      k := GroupOfCountry(groups[..|groups| - 1], c);
    }
  }

  lemma {:induction false} GroupIsDistinct(groups: seq<Group>, k: nat)
    requires Distinct(AllCountries(groups)) && k < |groups|
    ensures Distinct(groups[k].countries)
  {
    LastGroupApart(groups);
    if k < |groups| - 1 {
      GroupIsDistinct(groups[..|groups| - 1], k);
    }
  }

  /** A new contest is open, unranked and unplayed. */
  lemma {:induction false} NewContestIsOpen(known: set<Country>, groups: seq<Group>)
    requires Distinct(AllCountries(groups))
    ensures var t, n := NewContest(known, groups), |GroupMatches(groups)|;
      && GroupStageOpen(t, n) && NobodyRanked(t) && forall k: nat :: k < n ==> !Complete(t.matches[GroupMatch(k)])
  {
    var t, n := NewContest(known, groups), |GroupMatches(groups)|;
    NewContestIsWellShaped(known, groups);
    ZeroStandingsKeys(groups);
    forall c | c in t.standings ensures t.standings[c].rank.None? && t.standings[c].qualifier.None? {
      StandingsAreZero(groups, c);
    }
    forall k: nat | k < n ensures !Complete(t.matches[GroupMatch(k)]) {
      NewGroupRow(groups, k);
    }
    forall r: nat, i: nat | InBracket(r, i) ensures Row(t.matches, r, i) == UNSEEDED {
      NewBracketRow(groups, r, i);
    }
  }

  /** The groups of a contest: twelve, lettered A to L, of four countries each, no country twice. */
  predicate TwelveGroupsOfFour(groups: seq<Group>) {
    && |groups| == 12 && Distinct(AllCountries(groups))
    && forall k :: 0 <= k < 12 ==> groups[k].letter == LETTERS[k] && |groups[k].countries| == 4
  }

  /** Such a contest is created without an error. */
  method StartContest(known: set<Country>, groups: seq<Group>) returns (repo: Repository, fatal: bool)
    requires TwelveGroupsOfFour(groups)
    ensures fresh(repo) && !fatal
    ensures repo.tables == NewContest(known, groups) && forall u :: HeldAtHome(repo.tables, u)
    ensures var n := |GroupMatches(groups)|;
      && GroupStageOpen(repo.tables, n) && NobodyRanked(repo.tables) && GroupsOfFour(repo.tables, LETTERS)
      && forall k: nat :: k < n ==> !Complete(repo.tables.matches[GroupMatch(k)])
  {
    var r;
    repo, r := CreateContest(known, groups);
    InAllCountries(groups, 0, groups[0].countries[0]);
    NewContestIsOpen(known, groups);
    NewGroupSizes(known, groups);
    fatal := r.Rejected?;
  }

  /** Plays and ranks the groups, decides the thirds and fills the Round of 32: no call is refused, the ranks
      follow the results and the best eight thirds go through. */
  method SimulateGroupStage(repo: Repository, ghost n: nat, goals: seq<(int, int)>)
    returns (fatal: bool, ghost list: seq<Country>)
    requires GroupStageOpen(repo.tables, n) && NobodyRanked(repo.tables) && GroupsOfFour(repo.tables, LETTERS)
    requires forall k: nat :: k < n ==> !Complete(repo.tables.matches[GroupMatch(k)])
    requires |goals| >= |set id | id in repo.tables.matches && Round(id) == 0|
    modifies repo
    ensures !fatal && PlayedTo(repo.tables.matches, 0) && repo.tables.knockoutStandings == map[]
    ensures |AdvancingSet(repo.tables)| == 32 && FilledFrom(repo.tables) && FilledInOrder(repo.tables, list)
    ensures RanksFollowResults(repo.tables) && RanksByResults(repo.tables)
    ensures BestThirdsGoThrough(repo.tables) && ThirdsByResults(repo.tables)
    ensures repo.tables.standings.Keys <= repo.tables.countries && NoKnockoutPoints(repo.tables)
  {
    ghost var s := repo.tables;
    list := [];
    ghost var order;
    fatal, order := PlayGroupMatches(repo, n, goals);
    SameSizes(s, repo.tables, LETTERS);
    LettersAreDistinct();
    if !fatal {
      fatal := RankGroups(repo, n, LETTERS);
    }
    if !fatal {
      OneThirdPerLetter(repo.tables, LETTERS);
      ghost var ranked := repo.tables;
      var thirds := QueryThirds(repo.tables);
      fatal, list := SeedRoundOf32(repo, thirds);
      BestThirdsFlagged(ranked, repo.tables.(matches := ranked.matches), LETTERS, thirds);
      SameStandingsSameOrder(repo.tables.(matches := ranked.matches), repo.tables);
      ResultsTellRanks(repo.tables);
      ResultsTellThirds(repo.tables);
    }
  }

  lemma LettersAreDistinct()
    ensures Distinct(LETTERS) && |LETTERS| == 12
  {
  }

  /** A sheet moves no score and nothing of the matches and groups. */
  lemma SheetKeepsOpen(s: Tables, n: nat, user: User, picks: seq<GroupPick>, t: Tables)
    requires GroupStageOpen(s, n) && SubmitGroupPicks(s, user, picks) == Success(t)
    ensures GroupStageOpen(t, n) && t == s.(groupPicks := t.groupPicks, scores := t.scores)
  {
    forall u ensures ScoreOf(t.scores, u) == ScoreOf(s.scores, u) {
    }
    ShapeKept(s, t, n);
  }

  /** Stores a group sheet for every user. */
  method SeedGroupSheets(repo: Repository, ghost n: nat, users: seq<User>, draws: User -> Letter -> nat -> nat,
                         flips: User -> Letter -> bool)
    returns (fatal: bool)
    requires GroupStageOpen(repo.tables, n) && forall u :: HeldAtHome(repo.tables, u)
    modifies repo
    ensures !fatal && GroupStageOpen(repo.tables, n)
    ensures repo.tables == old(repo.tables).(groupPicks := repo.tables.groupPicks, scores := repo.tables.scores)
  {
    LettersAreDistinct();
    for k := 0 to |users|
      invariant GroupStageOpen(repo.tables, n) && forall u :: HeldAtHome(repo.tables, u)
      invariant repo.tables == old(repo.tables).(groupPicks := repo.tables.groupPicks, scores := repo.tables.scores)
    {
      ghost var s := repo.tables;
      var r;
      ghost var picks;
      r, picks := SeedGroupPicks(repo, users[k], LETTERS, draws(users[k]), flips(users[k]));
      SheetKeepsOpen(s, n, users[k], picks, repo.tables);
      if r.Rejected? {
        return true;
      }
    }
    return false;
  }

  /** Stores a knockout sheet for every user. */
  method SeedKnockoutSheets(repo: Repository, users: seq<User>, flips: User -> seq<bool>) returns (fatal: bool)
    requires forall k :: 0 <= k < |users| ==> |flips(users[k])| == 32
    requires PlayedTo(repo.tables.matches, 0) && KnownPairings(repo.tables) && NoKnockoutPoints(repo.tables)
    modifies repo
    ensures !fatal && PlayedTo(repo.tables.matches, 0) && NoKnockoutPoints(repo.tables)
    ensures repo.tables.knockoutStandings == old(repo.tables.knockoutStandings)
  {
    for k := 0 to |users|
      invariant PlayedTo(repo.tables.matches, 0) && KnownPairings(repo.tables) && NoKnockoutPoints(repo.tables)
      invariant repo.tables.knockoutStandings == old(repo.tables.knockoutStandings)
    {
      ghost var s := repo.tables;
      var r := SeedKnockoutPicks(repo, users[k], flips(users[k]));
      forall u ensures ScoreOf(repo.tables.scores, u) == ScoreOf(s.scores, u) {
      }
      if r.Rejected? {
        return true;
      }
    }
    return false;
  }

  /** The random choices of a simulation: shuffles and flags of the group sheets, coin flips of the knockout sheets,
      and the goals of both stages. */
  datatype Choices = Choices(
    draws: User -> Letter -> nat -> nat, flags: User -> Letter -> bool, flips: User -> seq<bool>,
    groupGoals: seq<(int, int)>, goals: seq<(int, int)>)

  /** Twelve lettered groups of four distinct countries are created; every user's group sheet is stored; the groups are
      played, ranked, decided and seeded; every user's knockout sheet is stored; and the bracket is played out, with any
      choices and results. No call of the simulation is refused, the finished bracket leaves the sixteen rows of the
      knockout table, and every knockout score is the audit of the match rows. */
  method SimulateContest(known: set<Country>, groups: seq<Group>, users: seq<User>, choices: Choices)
    returns (repo: Repository, fatal: bool)
    requires TwelveGroupsOfFour(groups) && |choices.goals| == 32
    requires |choices.groupGoals| >= |set id | id in NewContest(known, groups).matches && Round(id) == 0|
    requires forall k :: 0 <= k < |users| ==> |choices.flips(users[k])| == 32
    ensures !fatal && BracketHolds(repo.tables.matches) && AllDecided(repo.tables.matches)
    ensures SixteenRows(repo.tables.knockoutStandings) && ScoresAudited(repo.tables)
    ensures ResultsTo(repo.tables.matches, choices.goals, 32)
  {
    ghost var n := |GroupMatches(groups)|;
    repo, fatal := StartContest(known, groups);
    if !fatal {
      fatal := SeedGroupSheets(repo, n, users, choices.draws, choices.flags);
    }
    if !fatal {
      ghost var list;
      fatal, list := SimulateGroupStage(repo, n, choices.groupGoals);
    }
    if !fatal {
      fatal := SeedKnockoutSheets(repo, users, choices.flips);
    }
    if !fatal {
      fatal := PlayOut(repo, choices.goals);
    }
  }

  /** An unplayed bracket without points is audited. */
  lemma UnplayedIsAudited(s: Tables)
    requires PlayedTo(s.matches, 0) && NoKnockoutPoints(s)
    ensures NothingDecided(s.matches) && ScoresAudited(s)
  {
    UnplayedIsUndecided(s.matches);
    forall u ensures ScoreOf(s.scores, u).knockout == Audit(s.matches, s.knockoutPicks, u) {
      AuditOfNothing(s.matches, s.knockoutPicks, u);
    }
  }

  method PlayOut(repo: Repository, goals: seq<(int, int)>) returns (fatal: bool)
    requires |goals| == 32 && PlayedTo(repo.tables.matches, 0) && repo.tables.knockoutStandings == map[]
    requires NoKnockoutPoints(repo.tables)
    modifies repo
    ensures !fatal && BracketHolds(repo.tables.matches) && AllDecided(repo.tables.matches)
    ensures SixteenRows(repo.tables.knockoutStandings) && ScoresAudited(repo.tables)
    ensures ResultsTo(repo.tables.matches, goals, 32)
  {
    EmptyTableAgrees(repo.tables);
    UnplayedIsAudited(repo.tables);
    ghost var run;
    fatal, run := SimulateKnockoutStage(repo, goals);
    TableAlways(run, |run.calls|);
    OneSheetThenMatches(run);
    FinishedTable(repo.tables);
  }
}
