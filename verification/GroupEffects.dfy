/** What a ranking and a decision do, told on the rows alone. */
module GroupEffects {
  import opened Tables
  import opened GroupFinalization
  import opened Runs
  import opened Shape
  import GroupScores
  import GroupCap

  // ---- rankings ----

  /** Fixture k is between countries of the letter and misses a goal. */
  predicate OpenFixture(s: Tables, letter: Letter, k: nat)
    requires GroupMatch(k) in s.matches && IsFixture(s, s.matches[GroupMatch(k)])
  {
    var row := s.matches[GroupMatch(k)];
    s.standings[row.country1.value].letter == letter && (row.goals1.None? || row.goals2.None?)
  }

  /** The exact condition: a ranking of a letter is accepted if and only if every fixture whose first country has the
      letter has both its goals, no row of the letter has a rank, and every name of the list is known. Matches and
      ranks of other letters do not matter. */
  lemma RankingIsAcceptedIff(s: Tables, n: nat, letter: Letter, ranking: seq<Country>)
    requires WellShaped(s, n)
    ensures FinalizeRankings(s, letter, ranking).Success? <==>
      && (forall k: nat :: k < n ==> !OpenFixture(s, letter, k))
      && (forall c :: c in s.standings && s.standings[c].letter == letter ==> s.standings[c].rank.None?)
      && (forall j :: 0 <= j < |ranking| ==> ranking[j] in s.countries)
  {
    OpenFixtureIff(s, n, letter);
    if c :| c in ranking && c !in s.countries {
      var j :| 0 <= j < |ranking| && ranking[j] == c;
    }
    forall j | 0 <= j < |ranking| ensures ranking[j] in ranking {
    }
  }

  lemma OpenFixtureIff(s: Tables, n: nat, letter: Letter)
    requires WellShaped(s, n)
    ensures HasIncompleteMatch(s, letter) <==> exists k: nat :: k < n && OpenFixture(s, letter, k)
  {
    if HasIncompleteMatch(s, letter) {
      var id :| id in s.matches && Round(id) == 0 && !Complete(s.matches[id])
                && s.matches[id].country1.Some? && InGroup(s, letter, s.matches[id].country1.value);
      assert id.KnockoutMatch? ==> InBracket(id.round, id.index);
      assert id == GroupMatch(id.number) && IsFixture(s, s.matches[id]);
      assert OpenFixture(s, letter, id.number);
    }
  }

  /** A refused ranking says why: an open match of the letter first, then a rank, then an unknown name. */
  lemma RankingErrors(s: Tables, n: nat, letter: Letter, ranking: seq<Country>, e: Error)
    requires WellShaped(s, n) && FinalizeRankings(s, letter, ranking) == Failure(e)
    ensures e in {IncompleteMatches, AlreadyFinalized, UnknownCountry}
    ensures e == IncompleteMatches <==> exists k: nat :: k < n && OpenFixture(s, letter, k)
    ensures e == AlreadyFinalized ==>
      exists c :: c in s.standings && s.standings[c].letter == letter && s.standings[c].rank.Some?
    ensures e == UnknownCountry ==>
      forall c :: c in s.standings && s.standings[c].letter == letter ==> s.standings[c].rank.None?
  {
    OpenFixtureIff(s, n, letter);
  }

  /** An accepted ranking gives every country its last position in the list as its rank, and changes no other field
      of a standing and no table but the standings and the scores. */
  lemma RankingWritesRanks(s: Tables, letter: Letter, ranking: seq<Country>, t: Tables, c: Country)
    requires FinalizeRankings(s, letter, ranking) == Success(t) && c in s.standings
    ensures t == s.(standings := t.standings, scores := t.scores) && t.standings.Keys == s.standings.Keys
    ensures t.standings[c] == s.standings[c].(rank := t.standings[c].rank)
    ensures c !in ranking ==> t.standings[c].rank == s.standings[c].rank
    ensures c in ranking ==> exists k :: 0 <= k < |ranking| && ranking[k] == c && t.standings[c].rank == Some(k + 1)
                                     && forall j :: k < j < |ranking| ==> ranking[j] != c
  {
    if c in ranking {
      var k := RankIn(ranking, c) - 1;
      assert ranking[k] == c && t.standings[c].rank == Some(k + 1);
    }
  }

  /** The base points of the first four ranks and the multipliers of the first three places. */
  const BASE: seq<int> := [10, 6, 3, 1]
  const TIMES: seq<int> := [3, 2, 1]

  /** The k-th name does not come again. */
  predicate NotAgain(ranking: seq<Country>, k: nat)
    requires k < |ranking|
  {
    forall j :: k < j < |ranking| ==> ranking[j] != ranking[k]
  }

  /** What the user's row for the k-th name of the list is worth; 0 for a name that comes again. */
  function Worth(picks: PickTable, letter: Letter, ranking: seq<Country>, u: User, k: nat): int {
    if k < |ranking| && k < 4 && NotAgain(ranking, k)
       && (u, ranking[k]) in picks && picks[(u, ranking[k])].letter == letter
       && 1 <= picks[(u, ranking[k])].place <= 3
    then BASE[k] * TIMES[picks[(u, ranking[k])].place - 1]
    else 0
  }

  /** An accepted ranking adds to the group score of each user the worth of their rows for the first four names, and
      leaves the knockout score. */
  lemma RankingPaysByRows(s: Tables, letter: Letter, ranking: seq<Country>, t: Tables, u: User)
    requires FinalizeRankings(s, letter, ranking) == Success(t)
    ensures var was, picks := ScoreOf(s.scores, u), s.groupPicks;
      ScoreOf(t.scores, u)
      == was.(group := was.group + Worth(picks, letter, ranking, u, 0) + Worth(picks, letter, ranking, u, 1)
                                 + Worth(picks, letter, ranking, u, 2) + Worth(picks, letter, ranking, u, 3))
  {
    GroupCap.RankingPays(s, letter, ranking, t, u);
    GroupScores.PointsByWeights(s.groupPicks, letter, ranking, u);
    WorthIsWeighted(s.groupPicks, letter, ranking, u, 0);
    WorthIsWeighted(s.groupPicks, letter, ranking, u, 1);
    WorthIsWeighted(s.groupPicks, letter, ranking, u, 2);
    WorthIsWeighted(s.groupPicks, letter, ranking, u, 3);
  }

  lemma WorthIsWeighted(picks: PickTable, letter: Letter, ranking: seq<Country>, u: User, k: nat)
    requires k < 4
    ensures Worth(picks, letter, ranking, u, k) == BASE[k] * GroupScores.Weight(picks, letter, ranking, u, k)
  {
    if k < |ranking| {
      LastPosition(ranking, k, RankIn(ranking, ranking[k]));
    }
  }

  /** The rank of a name is its position exactly when the name does not come again. */
  lemma LastPosition(ranking: seq<Country>, k: nat, rank: nat)
    requires k < |ranking| && 1 <= rank <= |ranking| && ranking[rank - 1] == ranking[k]
    requires forall j :: rank <= j < |ranking| ==> ranking[j] != ranking[k]
    ensures rank == k + 1 <==> NotAgain(ranking, k)
  {
  }

  // ---- third-place decisions ----

  /** The user has a row of the letter with that flag. */
  ghost predicate HasFlag(picks: PickTable, letter: Letter, u: User, flag: bool) {
    exists c :: (u, c) in picks && picks[(u, c)].letter == letter && picks[(u, c)].extraQualifier == flag
  }

  /** An accepted decision gives one unflagged row of the letter with rank 3 its flag and changes no other standing; a
      user gains 5 points with a row of the letter that carries the decided flag and none that carries the other,
      and nothing without a row that carries the decided flag. Nothing else changes. */
  lemma DecisionByRows(s: Tables, letter: Letter, qualifies: bool, t: Tables, r: Response) returns (third: Country)
    requires FinalizeThirdStep(s, letter, qualifies, t, r) && r.Done?
    ensures third in s.standings && s.standings[third].letter == letter
    ensures s.standings[third].rank == Some(3) && s.standings[third].qualifier.None?
    ensures var flagged := s.standings[third].(qualifier := Some(qualifies));
      t == s.(standings := s.standings[third := flagged], scores := t.scores)
    ensures forall u :: HasFlag(s.groupPicks, letter, u, qualifies) && !HasFlag(s.groupPicks, letter, u, !qualifies) ==>
      ScoreOf(t.scores, u) == ScoreOf(s.scores, u).(group := ScoreOf(s.scores, u).group + 5)
    ensures forall u :: !HasFlag(s.groupPicks, letter, u, qualifies) ==> ScoreOf(t.scores, u) == ScoreOf(s.scores, u)
  {
    var paid;
    third, paid := AcceptedDecision(s, letter, qualifies, t, r);
    forall u, flag ensures HasFlag(s.groupPicks, letter, u, flag) == Predicts(s.groupPicks, letter, u, flag) {
      FlagIsPrediction(s.groupPicks, letter, u, flag);
    }
    forall u
      ensures HasFlag(s.groupPicks, letter, u, qualifies) && !HasFlag(s.groupPicks, letter, u, !qualifies) ==>
        ScoreOf(t.scores, u) == ScoreOf(s.scores, u).(group := ScoreOf(s.scores, u).group + 5)
      ensures !HasFlag(s.groupPicks, letter, u, qualifies) ==> ScoreOf(t.scores, u) == ScoreOf(s.scores, u)
    {
      GroupCap.DecisionPays(s, letter, qualifies, third, paid, t, u);
    }
  }

  lemma FlagIsPrediction(picks: PickTable, letter: Letter, u: User, flag: bool)
    ensures HasFlag(picks, letter, u, flag) == Predicts(picks, letter, u, flag)
  {
    if Predicts(picks, letter, u, flag) {
      var k :| k in picks && k.0 == u && picks[k].letter == letter && picks[k].extraQualifier == flag;
      assert k == (u, k.1);
    }
  }

  /** A refused decision says why: no row of the letter has rank 3, or one that has is flagged already. */
  lemma DecisionErrors(s: Tables, letter: Letter, qualifies: bool, t: Tables, e: Error)
    requires FinalizeThirdStep(s, letter, qualifies, t, Rejected(e))
    ensures t == s && e in {NotRanked, AlreadyFinalized}
    ensures e == NotRanked <==>
      forall c :: c in s.standings && s.standings[c].letter == letter ==> s.standings[c].rank != Some(3)
    ensures e == AlreadyFinalized ==>
      exists c :: c in s.standings && s.standings[c].letter == letter && s.standings[c].rank == Some(3)
               && s.standings[c].qualifier.Some?
  {
    forall c | c in s.standings && s.standings[c].letter == letter && s.standings[c].rank == Some(3)
      ensures c in Thirds(s, letter)
    {
    }
  }
}
