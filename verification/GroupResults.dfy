/** The group standings are caches: each row is the fold of the completed matches of its country. */
module GroupResults {
  import opened Tables
  import opened Sums
  import opened MatchUpdates
  import opened GroupFinalization
  import opened Runs
  import opened Shape

  datatype Stat = Wins | Draws | Losses | GoalsFor | GoalsAgainst | Conduct

  function Recorded(st: GroupStanding, stat: Stat): int {
    match stat
    case Wins => st.wins
    case Draws => st.draws
    case Losses => st.losses
    case GoalsFor => st.gf
    case GoalsAgainst => st.ga
    case Conduct => st.cs
  }

  /** What a match contributes to a country that scored, conceded and was booked as given. */
  function FromSide(stat: Stat, scored: int, conceded: int, conduct: int): int {
    match stat
    case Wins => if scored > conceded then 1 else 0
    case Draws => if scored == conceded then 1 else 0
    case Losses => if scored < conceded then 1 else 0
    case GoalsFor => scored
    case GoalsAgainst => conceded
    case Conduct => conduct
  }

  function Contribution(row: MatchRow, stat: Stat, c: Country): int {
    if !Complete(row) then 0
    else if row.country1 == Some(c) then FromSide(stat, row.goals1.value, row.goals2.value, OrZero(row.conduct1))
    else if row.country2 == Some(c) then FromSide(stat, row.goals2.value, row.goals1.value, OrZero(row.conduct2))
    else 0
  }

  function GroupRow(matches: map<MatchId, MatchRow>, k: nat): MatchRow {
    if GroupMatch(k) in matches then matches[GroupMatch(k)] else UNSEEDED
  }

  ghost function Contributions(matches: map<MatchId, MatchRow>, stat: Stat, c: Country): nat -> int {
    (k: nat) => Contribution(GroupRow(matches, k), stat, c)
  }

  /** The statistic recomputed from the match rows alone. */
  ghost function Recomputed(s: Tables, n: nat, stat: Stat, c: Country): int {
    Sum(n, Contributions(s.matches, stat, c))
  }

  ghost predicate StandingAgrees(s: Tables, n: nat, c: Country)
    requires c in s.standings
  {
    var st := s.standings[c];
    && (forall stat :: Recorded(st, stat) == Recomputed(s, n, stat, c))
    && st.gd == st.gf - st.ga
    && st.points == 3 * st.wins + st.draws
  }

  ghost predicate StandingsAgree(s: Tables, n: nat) {
    forall c :: c in s.standings ==> StandingAgrees(s, n, c)
  }

  /** Completing fixture k moves every recomputed statistic by that match's contribution. */
  lemma RecomputeOne(s: Tables, t: Tables, n: nat, k: nat, stat: Stat, c: Country)
    requires k < n && !Complete(GroupRow(s.matches, k))
    requires forall j: nat :: j < n && j != k ==> GroupRow(t.matches, j) == GroupRow(s.matches, j)
    ensures Recomputed(t, n, stat, c) == Recomputed(s, n, stat, c) + Contribution(GroupRow(t.matches, k), stat, c)
  {
    SumChange(n, Contributions(s.matches, stat, c), Contributions(t.matches, stat, c), k);
  }

  lemma RecomputeSame(s: Tables, t: Tables, n: nat, stat: Stat, c: Country)
    requires forall j: nat :: j < n ==> GroupRow(t.matches, j) == GroupRow(s.matches, j)
    ensures Recomputed(t, n, stat, c) == Recomputed(s, n, stat, c)
  {
    SumSame(n, Contributions(s.matches, stat, c), Contributions(t.matches, stat, c));
  }

  /** Only rank and qualifier may differ between the standings of s and t. */
  ghost predicate SameStatistics(s: Tables, t: Tables) {
    && t.standings.Keys == s.standings.Keys
    && forall c :: c in s.standings ==>
         t.standings[c] == s.standings[c].(rank := t.standings[c].rank, qualifier := t.standings[c].qualifier)
  }

  lemma AgreementKept(s: Tables, t: Tables, n: nat)
    requires StandingsAgree(s, n) && SameStatistics(s, t)
    requires forall j: nat :: j < n ==> GroupRow(t.matches, j) == GroupRow(s.matches, j)
    ensures StandingsAgree(t, n)
  {
    forall c | c in t.standings ensures StandingAgrees(t, n, c) {
      assert StandingAgrees(s, n, c);
      forall stat ensures Recorded(t.standings[c], stat) == Recomputed(t, n, stat, c) {
        RecomputeSame(s, t, n, stat, c);
      }
    }
  }

  /** A group result moves every standing by the contribution of the match to its country. */
  lemma ResultContributes(s: Tables, row: MatchRow, t: Tables, c: Country, stat: Stat)
    requires Complete(row) && RecordGroupResult(s, row) == Success(t) && row.country1 != row.country2
    requires c in s.standings
    ensures c in t.standings
    ensures Recorded(t.standings[c], stat) == Recorded(s.standings[c], stat) + Contribution(row, stat, c)
    ensures s.standings[c].gd == s.standings[c].gf - s.standings[c].ga ==>
      t.standings[c].gd == t.standings[c].gf - t.standings[c].ga
    ensures s.standings[c].points == 3 * s.standings[c].wins + s.standings[c].draws
        ==> t.standings[c].points == 3 * t.standings[c].wins + t.standings[c].draws
  {
  }

  lemma GroupUpdateAgrees(s: Tables, n: nat, k: nat, req: MatchRequest, t: Tables)
    requires WellShaped(s, n) && StandingsAgree(s, n) && k < n
    requires UpdateRow(s, GroupMatch(k), req) == Success(t) && t != s
    ensures StandingsAgree(t, n)
  {
    var row := s.matches[GroupMatch(k)];
    assert IsFixture(s, row);
    var updated := Merge(s, row, false, req);
    var tx := s.(matches := s.matches[GroupMatch(k) := updated]);
    assert t.matches == tx.matches && t.standings.Keys == s.standings.Keys;
    forall c | c in t.standings ensures StandingAgrees(t, n, c) {
      assert StandingAgrees(s, n, c);
      forall stat ensures Recorded(t.standings[c], stat) == Recomputed(t, n, stat, c) {
        RecomputeOne(s, t, n, k, stat, c);
        if Complete(updated) {
          ResultContributes(tx, updated, t, c, stat);
        }
      }
      if Complete(updated) {
        ResultContributes(tx, updated, t, c, Wins);
      }
    }
  }

  lemma KnockoutUpdateAgrees(s: Tables, n: nat, id: MatchId, req: MatchRequest, t: Tables)
    requires StandingsAgree(s, n) && id.KnockoutMatch? && Round(id) > 0 && id in s.matches
    requires UpdateRow(s, id, req) == Success(t)
    ensures StandingsAgree(t, n)
  {
    KnockoutUpdateSparesGroups(s, id, req, t);
    AgreementKept(s, t, n);
  }

  lemma KnockoutUpdateSparesGroups(s: Tables, id: MatchId, req: MatchRequest, t: Tables)
    requires id.KnockoutMatch? && Round(id) > 0 && id in s.matches && UpdateRow(s, id, req) == Success(t)
    ensures t.standings == s.standings
    ensures forall k: nat :: GroupRow(t.matches, k) == GroupRow(s.matches, k)
  {
    UpdateRowKeepsShape(s, id, req);
  }

  /** Calls other than match updates write no match row and no statistic. */
  lemma OtherCallsKeepStatistics(s: Tables, call: Call, t: Tables, r: Response)
    requires Step(s, call, t, r) && !call.UpdateMatch?
    ensures SameStatistics(s, t) && t.matches == s.matches
  {
    match call
    case FinalizeGroupRankings(letter, ranking) =>
      if t != s {
        RanksKeepStatistics(s, ranking, t);
      }
    case FinalizeThirdPlaceQualifier(letter, qualifies) =>
      if t != s {
        var third, paid :| third in Thirds(s, letter) && FinalizeThird(s, qualifies, third, paid) == Success(t);
      }
    case _ =>
  }

  lemma RanksKeepStatistics(s: Tables, ranking: seq<Country>, t: Tables)
    requires t.standings == WithRanks(s.standings, ranking)
    ensures SameStatistics(s, t)
  {
  }

  /** No call breaks the agreement between standings and match rows. */
  lemma StepKeepsAgreement(s: Tables, call: Call, t: Tables, r: Response, n: nat)
    requires WellShaped(s, n) && StandingsAgree(s, n) && Step(s, call, t, r)
    ensures StandingsAgree(t, n)
  {
    if !call.UpdateMatch? {
      OtherCallsKeepStatistics(s, call, t, r);
      AgreementKept(s, t, n);
    } else if t != s {
      var id := ChangingRow(s, call.req, t, r);
      if id.GroupMatch? {
        GroupUpdateAgrees(s, n, id.number, call.req, t);
      } else {
        KnockoutUpdateAgrees(s, n, id, call.req, t);
      }
    }
  }

  /** In every run, from any tables whose standings agree with the matches, they still agree. */
  lemma {:induction false} StandingsRefineResults(run: Run, n: nat, k: nat)
    requires run.Valid() && k < |run.states|
    requires WellShaped(run.First(), n) && StandingsAgree(run.First(), n)
    ensures WellShaped(run.states[k], n) && StandingsAgree(run.states[k], n)
  {
    if k > 0 {
      StandingsRefineResults(run, n, k - 1);
      var s, t := run.states[k - 1], run.states[k];
      RunStep(run, k - 1);
      StepKeepsShape(s, run.calls[k - 1], t, run.responses[k - 1]);
      ShapeKept(s, t, n);
      StepKeepsAgreement(s, run.calls[k - 1], t, run.responses[k - 1], n);
    }
  }

  // ---- conservation inside a group ----

  ghost function OverGroup(s: Tables, n: nat, stat: Stat, members: seq<Country>): nat -> int {
    (j: nat) => if j < |members| then Recomputed(s, n, stat, members[j]) else 0
  }

  ghost function OverMatch(row: MatchRow, stat: Stat, members: seq<Country>): nat -> int {
    (j: nat) => if j < |members| then Contribution(row, stat, members[j]) else 0
  }

  ghost function OverMatches(matches: map<MatchId, MatchRow>, stat: Stat, members: seq<Country>): nat -> int {
    (k: nat) => Sum(|members|, OverMatch(GroupRow(matches, k), stat, members))
  }

  /** Summing per country and then over the group is summing per match and then over the fixtures. */
  lemma {:induction false} SwapSums(s: Tables, n: nat, stat: Stat, members: seq<Country>)
    ensures Sum(|members|, OverGroup(s, n, stat, members)) == Sum(n, OverMatches(s.matches, stat, members))
  {
    var whole := OverGroup(s, n, stat, members);
    if n == 0 {
      SumZero(|members|, whole);
    } else {
      SwapSums(s, n - 1, stat, members);
      SumPlus(|members|, OverGroup(s, n - 1, stat, members), OverMatch(GroupRow(s.matches, n - 1), stat, members),
              whole);
    }
  }

  /** The two sides of one statistic: what a country scores its opponent concedes. */
  predicate Mirror(stat: Stat, other: Stat) {
    (stat == GoalsFor && other == GoalsAgainst) || (stat == Wins && other == Losses)
  }

  /** A fixture of the group gives the group as many goals scored as conceded, and as many wins as losses. */
  lemma MatchBalances(row: MatchRow, stat: Stat, other: Stat, members: seq<Country>)
    requires Mirror(stat, other) && Distinct(members)
    requires row.country1.Some? && row.country2.Some? && row.country1 != row.country2
    requires row.country1.value in members <==> row.country2.value in members
    ensures Sum(|members|, OverMatch(row, stat, members)) == Sum(|members|, OverMatch(row, other, members))
  {
    var f, g := OverMatch(row, stat, members), OverMatch(row, other, members);
    if row.country1.value !in members {
      SumSame(|members|, f, g);
    } else {
      var a: nat :| a < |members| && members[a] == row.country1.value;
      var b: nat :| b < |members| && members[b] == row.country2.value;
      var swapped := (j: nat) => if j == a then g(b) else if j == b then g(a) else g(j);
      var half := (j: nat) => if j == a then g(b) else g(j);
      SumSame(|members|, f, swapped);
      SumChange(|members|, g, half, a);
      SumChange(|members|, half, swapped, b);
    }
  }

  ghost function OverStandings(s: Tables, members: seq<Country>, stat: Stat): nat -> int {
    (j: nat) => if j < |members| && members[j] in s.standings then Recorded(s.standings[members[j]], stat) else 0
  }

  ghost function Differences(s: Tables, members: seq<Country>): nat -> int {
    (j: nat) => if j < |members| && members[j] in s.standings then s.standings[members[j]].gd else 0
  }

  /** A total over the group's standings, recomputed match by match. */
  lemma TotalByMatches(s: Tables, n: nat, stat: Stat, letter: Letter, members: seq<Country>)
    requires StandingsAgree(s, n) && IsGroup(s, letter, members)
    ensures Sum(|members|, OverStandings(s, members, stat)) == Sum(n, OverMatches(s.matches, stat, members))
  {
    forall j: nat | j < |members| ensures OverStandings(s, members, stat)(j) == OverGroup(s, n, stat, members)(j) {
      assert members[j] in members;
      assert StandingAgrees(s, n, members[j]);
    }
    SumSame(|members|, OverStandings(s, members, stat), OverGroup(s, n, stat, members));
    SwapSums(s, n, stat, members);
  }

  /** Goals for and goals against of a group add up to the same, and so do wins and losses. */
  lemma GroupBalances(s: Tables, n: nat, stat: Stat, other: Stat, letter: Letter, members: seq<Country>)
    requires WellShaped(s, n) && StandingsAgree(s, n) && IsGroup(s, letter, members) && Mirror(stat, other)
    ensures Sum(|members|, OverStandings(s, members, stat)) == Sum(|members|, OverStandings(s, members, other))
  {
    TotalByMatches(s, n, stat, letter, members);
    TotalByMatches(s, n, other, letter, members);
    forall k: nat | k < n
      ensures OverMatches(s.matches, stat, members)(k) == OverMatches(s.matches, other, members)(k)
    {
      assert IsFixture(s, s.matches[GroupMatch(k)]);
      MatchBalances(GroupRow(s.matches, k), stat, other, members);
    }
    SumSame(n, OverMatches(s.matches, stat, members), OverMatches(s.matches, other, members));
  }

  /** The goal differences of a group cancel out. */
  lemma GoalDifferencesCancel(s: Tables, n: nat, letter: Letter, members: seq<Country>)
    requires WellShaped(s, n) && StandingsAgree(s, n) && IsGroup(s, letter, members)
    ensures Sum(|members|, Differences(s, members)) == 0
  {
    var scored, conceded := OverStandings(s, members, GoalsFor), OverStandings(s, members, GoalsAgainst);
    GroupBalances(s, n, GoalsFor, GoalsAgainst, letter, members);
    forall j: nat | j < |members| ensures scored(j) == Differences(s, members)(j) + conceded(j) {
      assert members[j] in members;
      assert StandingAgrees(s, n, members[j]);
    }
    SumPlus(|members|, Differences(s, members), conceded, scored);
  }
}
