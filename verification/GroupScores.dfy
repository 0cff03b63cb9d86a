/** Closing groups over whole runs: finalized groups are frozen, awards are paid once and are bounded. */
module GroupScores {
  import opened Tables
  import opened Sums
  import opened MatchUpdates
  import opened GroupFinalization
  import PickSheets
  import opened Runs
  import opened Shape

  // ---- one ranking award ----

  lemma {:induction false} SumOfFour(n: nat, f: nat -> int)
    requires forall k: nat :: k >= 4 || k >= n ==> f(k) == 0
    ensures Sum(n, f) == f(0) + f(1) + f(2) + f(3)
  {
    if n >= 5 {
      SumOfFour(n - 1, f);
    } else {
      assert Sum(0, f) == 0;
      assert n >= 1 ==> Sum(1, f) == f(0);
      assert n >= 2 ==> Sum(2, f) == f(0) + f(1);
      assert n >= 3 ==> Sum(3, f) == f(0) + f(1) + f(2);
    }
  }

  /** The multiplier the user gives to the k-th name of the list; 0 without a pick, and for a name that comes again. */
  function Weight(picks: PickTable, letter: Letter, ranking: seq<Country>, u: User, k: nat): int {
    if k < |ranking| && RankIn(ranking, ranking[k]) == k + 1 && PicksInGroup(picks, letter, u, ranking[k])
    then Multiplier(picks[(u, ranking[k])].place)
    else 0
  }

  lemma RankInDistinct(ranking: seq<Country>, k: nat)
    requires Distinct(ranking) && k < |ranking|
    ensures RankIn(ranking, ranking[k]) == k + 1
  {
  }

  lemma EarnedIsWeighted(picks: PickTable, letter: Letter, ranking: seq<Country>, u: User, k: nat)
    ensures Earned(picks, letter, ranking, u, k) == BasePoints(k + 1) * Weight(picks, letter, ranking, u, k)
  {
  }

  /** One multiplier is given to at most one country of the list. */
  lemma WeightsDiffer(picks: PickTable, letter: Letter, ranking: seq<Country>, u: User, j: nat, k: nat)
    requires PlacesDiffer(picks, letter, u) && j < k
    ensures Weight(picks, letter, ranking, u, j) != Weight(picks, letter, ranking, u, k)
         || Weight(picks, letter, ranking, u, j) == 0
  {
  }

  /** The user holds the country that the list ranks k-th in place k. */
  predicate Hits(picks: PickTable, letter: Letter, ranking: seq<Country>, u: User, k: nat)
    requires k < |ranking|
  {
    && RankIn(ranking, ranking[k]) == k + 1
    && PicksInGroup(picks, letter, u, ranking[k]) && picks[(u, ranking[k])].place == k + 1
  }

  /** Only the first four names earn points, the base points times their multipliers. */
  lemma PointsByWeights(picks: PickTable, letter: Letter, ranking: seq<Country>, u: User)
    ensures RankingPoints(picks, letter, ranking, u)
         == 10 * Weight(picks, letter, ranking, u, 0) + 6 * Weight(picks, letter, ranking, u, 1)
            + 3 * Weight(picks, letter, ranking, u, 2) + Weight(picks, letter, ranking, u, 3)
  {
    var f := EarnedAt(picks, letter, ranking, u);
    forall k: nat | k >= 4 || k >= |ranking| ensures f(k) == 0 {
      EarnedIsWeighted(picks, letter, ranking, u, k);
    }
    SumOfFour(|ranking|, f);
    EarnedIsWeighted(picks, letter, ranking, u, 0);
    EarnedIsWeighted(picks, letter, ranking, u, 1);
    EarnedIsWeighted(picks, letter, ranking, u, 2);
    EarnedIsWeighted(picks, letter, ranking, u, 3);
  }

  /** Any list, also one that repeats a name, pays a user between 0 and 45 points, and 45 exactly for ranks 1, 2, 3
      in places 1, 2, 3. */
  lemma RankingPaysAtMost45(picks: PickTable, letter: Letter, ranking: seq<Country>, u: User)
    requires PlacesDiffer(picks, letter, u)
    ensures 0 <= RankingPoints(picks, letter, ranking, u) <= 45
    ensures RankingPoints(picks, letter, ranking, u) == 45
       <==> |ranking| >= 3 && forall k :: 0 <= k < 3 ==> Hits(picks, letter, ranking, u, k)
  {
    PointsByWeights(picks, letter, ranking, u);
    forall j: nat, k: nat | j < k < 4
      ensures Weight(picks, letter, ranking, u, j) != Weight(picks, letter, ranking, u, k)
           || Weight(picks, letter, ranking, u, j) == 0
    {
      WeightsDiffer(picks, letter, ranking, u, j, k);
    }
    if |ranking| >= 3 {
      HitsOneByOne(picks, letter, ranking, u);
    }
  }

  lemma HitsOneByOne(picks: PickTable, letter: Letter, ranking: seq<Country>, u: User)
    requires |ranking| >= 3
    ensures (forall k :: 0 <= k < 3 ==> Hits(picks, letter, ranking, u, k))
       <==> Hits(picks, letter, ranking, u, 0) && Hits(picks, letter, ranking, u, 1)
            && Hits(picks, letter, ranking, u, 2)
  {
  }

  // ---- finalized groups ----

  /** The recorded ranks are the positions in this list of the whole group. */
  ghost predicate RankedBy(s: Tables, letter: Letter, ranking: seq<Country>) {
    && IsGroup(s, letter, ranking)
    && forall k :: 0 <= k < |ranking| ==> ranking[k] in s.standings && s.standings[ranking[k]].rank == Some(k + 1)
  }

  /** A ranked group is ranked completely, its matches are all complete, and only its third may carry a flag. */
  ghost predicate GroupsSettled(s: Tables) {
    && (forall l :: Ranked(s, l) ==> !HasIncompleteMatch(s, l))
    && (forall l :: Ranked(s, l) ==> exists ranking :: RankedBy(s, l, ranking))
    && (forall c :: c in s.standings && s.standings[c].qualifier.Some? ==> s.standings[c].rank == Some(3))
  }

  /** Rankings list their own group; group sheets give no place of a letter twice. */
  ghost predicate Disciplined(s: Tables, call: Call) {
    && (call.FinalizeGroupRankings? ==> IsGroup(s, call.letter, call.ranking))
    && (call.CreateGroupPicks? ==> PickSheets.PlacesDifferInRequest(call.picks))
  }

  ghost predicate DisciplinedAt(run: Run, k: nat) {
    k < |run.calls| && k < |run.states| && Disciplined(run.states[k], run.calls[k])
  }

  ghost predicate DisciplinedRun(run: Run) {
    run.Valid() && forall k: nat {:trigger DisciplinedAt(run, k)} :: k < |run.calls| ==> DisciplinedAt(run, k)
  }

  lemma DisciplinedStep(run: Run, k: nat)
    requires DisciplinedRun(run) && k < |run.calls|
    ensures Step(run.states[k], run.calls[k], run.states[k + 1], run.responses[k])
      && Disciplined(run.states[k], run.calls[k])
  {
    assert run.StepAt(k) && DisciplinedAt(run, k);
  }

  ghost predicate IsGiven(s: Tables, letter: Letter, rank: int) {
    exists c :: Holds(s, letter, rank, c)
  }

  /** The ranks of the group are 1, ..., n, each given once. */
  ghost predicate RanksAreOneToOne(s: Tables, letter: Letter) {
    var group := Members(s, letter);
    && (forall c :: c in group ==> s.standings[c].rank.Some? && 1 <= s.standings[c].rank.value <= |group|)
    && (forall c, d :: c in group && d in group && s.standings[c].rank == s.standings[d].rank ==> c == d)
    && (forall v :: 1 <= v <= |group| ==> IsGiven(s, letter, v))
  }

  /** A list of the whole group in the order of its ranks makes them one-to-one. */
  lemma RankedIsOneToOne(s: Tables, letter: Letter, ranking: seq<Country>)
    requires IsGroup(s, letter, ranking)
    requires forall k :: 0 <= k < |ranking| ==> Holds(s, letter, k + 1, ranking[k])
    ensures RanksAreOneToOne(s, letter)
  {
    DistinctSize(ranking, Members(s, letter));
    forall c | c in Members(s, letter) ensures exists k :: 0 <= k < |ranking| && ranking[k] == c {
      assert c in ranking;
    }
    forall v | 1 <= v <= |ranking| ensures IsGiven(s, letter, v) {
      assert Holds(s, letter, v, ranking[v - 1]);
    }
  }

  /** The ranks of a ranked group are a bijection onto 1, ..., n. */
  lemma RanksAreBijection(s: Tables, letter: Letter)
    requires GroupsSettled(s) && Ranked(s, letter)
    ensures RanksAreOneToOne(s, letter)
  {
    var ranking :| RankedBy(s, letter, ranking);
    forall k | 0 <= k < |ranking| ensures Holds(s, letter, k + 1, ranking[k]) {
      assert ranking[k] in ranking;
    }
    RankedIsOneToOne(s, letter, ranking);
  }

  lemma {:induction false} DistinctSize<T>(xs: seq<T>, all: set<T>)
    requires Distinct(xs) && forall x :: x in xs <==> x in all
    ensures |all| == |xs|
  {
    if xs != [] {
      var last := xs[|xs| - 1];
      forall x ensures x in xs[..|xs| - 1] <==> x in all - {last} {
        assert x in xs ==> x in xs[..|xs| - 1] || x == last;
      }
      DistinctSize(xs[..|xs| - 1], all - {last});
    } else {
      assert all == {};
    }
  }

  /** What an ordinary step cannot touch: memberships, ranks and flags. */
  ghost predicate SameGroups(s: Tables, t: Tables) {
    && t.standings.Keys == s.standings.Keys
    && forall c :: c in s.standings ==>
         && t.standings[c].letter == s.standings[c].letter
         && t.standings[c].rank == s.standings[c].rank
         && t.standings[c].qualifier == s.standings[c].qualifier
  }

  /** A group result writes, at most, the statistics of its two countries. */
  lemma GroupResultEffect(s: Tables, row: MatchRow, t: Tables)
    requires Complete(row) && RecordGroupResult(s, row) == Success(t)
    ensures t == s.(standings := t.standings) && SameGroups(s, t)
    ensures forall c :: c in s.standings && Some(c) != row.country1 && Some(c) != row.country2 ==>
      t.standings[c] == s.standings[c]
  {
  }

  /** A group update writes one open row and, at most, the statistics of its two countries. */
  lemma GroupUpdateEffect(s: Tables, id: MatchId, req: MatchRequest, t: Tables)
    requires id in s.matches && Round(id) == 0 && UpdateRow(s, id, req) == Success(t)
    ensures SameGroups(s, t) && t.groupPicks == s.groupPicks && t.scores == s.scores
    ensures !Complete(s.matches[id])
    ensures t.matches == s.matches || t.matches == s.matches[id := Merge(s, s.matches[id], false, req)]
    ensures forall c :: c in s.standings && Some(c) != s.matches[id].country1 && Some(c) != s.matches[id].country2
                    ==> t.standings[c] == s.standings[c]
  {
    var row := Merge(s, s.matches[id], false, req);
    var tx := s.(matches := s.matches[id := row]);
    if t != s && t != tx {
      GroupResultEffect(tx, row, t);
    }
  }

  /** A knockout update leaves the group stage alone. */
  lemma KnockoutUpdateElsewhere(s: Tables, id: MatchId, req: MatchRequest, t: Tables)
    requires id in s.matches && Round(id) > 0 && UpdateRow(s, id, req) == Success(t)
    ensures t.standings == s.standings && t.groupPicks == s.groupPicks
    ensures forall k: nat :: GroupMatch(k) in s.matches ==>
      GroupMatch(k) in t.matches && t.matches[GroupMatch(k)] == s.matches[GroupMatch(k)]
    ensures forall u :: ScoreOf(t.scores, u).group == ScoreOf(s.scores, u).group
  {
  }

  /** A match update moves no group score, no membership, rank or flag, and touches no completed group match. */
  lemma UpdateKeepsGroups(s: Tables, req: MatchRequest, t: Tables, r: Response)
    requires UpdateMatchStep(s, req, t, r)
    ensures SameGroups(s, t) && t.groupPicks == s.groupPicks
    ensures forall u :: ScoreOf(t.scores, u).group == ScoreOf(s.scores, u).group
    ensures forall k: nat :: GroupMatch(k) in s.matches && Complete(s.matches[GroupMatch(k)]) ==>
      GroupMatch(k) in t.matches && t.matches[GroupMatch(k)] == s.matches[GroupMatch(k)]
  {
    if t != s {
      var id := ChangingRow(s, req, t, r);
      if Round(id) == 0 {
        GroupUpdateEffect(s, id, req, t);
      } else {
        KnockoutUpdateElsewhere(s, id, req, t);
      }
    }
  }

  /** No step touches a completed group match. */
  lemma StepKeepsResults(s: Tables, call: Call, t: Tables, r: Response)
    requires Step(s, call, t, r)
    ensures forall k: nat :: GroupMatch(k) in s.matches && Complete(s.matches[GroupMatch(k)]) ==>
      GroupMatch(k) in t.matches && t.matches[GroupMatch(k)] == s.matches[GroupMatch(k)]
  {
    if call.UpdateMatch? {
      UpdateKeepsGroups(s, call.req, t, r);
    }
  }

  /** No step un-completes the matches of a group. */
  lemma MatchesStayComplete(s: Tables, call: Call, t: Tables, r: Response, n: nat, letter: Letter)
    requires WellShaped(s, n) && Step(s, call, t, r) && !HasIncompleteMatch(s, letter)
    ensures !HasIncompleteMatch(t, letter)
  {
    StepKeepsShape(s, call, t, r);
    StepKeepsResults(s, call, t, r);
    StaysComplete(s, t, n, letter);
  }

  lemma StaysComplete(s: Tables, t: Tables, n: nat, letter: Letter)
    requires WellShaped(s, n) && SameShape(s, t) && !HasIncompleteMatch(s, letter)
    requires forall k: nat :: GroupMatch(k) in s.matches && Complete(s.matches[GroupMatch(k)]) ==>
      t.matches[GroupMatch(k)] == s.matches[GroupMatch(k)]
    ensures !HasIncompleteMatch(t, letter)
  {
    if HasIncompleteMatch(t, letter) {
      var id :| id in t.matches && Round(id) == 0 && !Complete(t.matches[id])
                 && t.matches[id].country1.Some? && InGroup(t, letter, t.matches[id].country1.value);
      assert id.KnockoutMatch? ==> InBracket(id.round, id.index);
      assert InGroup(s, letter, s.matches[id].country1.value);
    }
  }

  /** The groups of s and t have the same countries. */
  lemma SameMembers(s: Tables, t: Tables, letter: Letter, ranking: seq<Country>)
    requires SameShape(s, t) && IsGroup(s, letter, ranking)
    ensures IsGroup(t, letter, ranking)
  {
  }

  /** Which ranks and flags a disciplined step can write. */
  lemma StepWritesRanks(s: Tables, call: Call, t: Tables, r: Response, n: nat, c: Country)
    requires WellShaped(s, n) && GroupsSettled(s) && Disciplined(s, call) && Step(s, call, t, r) && c in s.standings
    ensures c in t.standings
    ensures call.FinalizeGroupRankings? && r.Done? && s.standings[c].letter == call.letter ==>
      c in call.ranking && t.standings[c] == s.standings[c].(rank := Some(RankIn(call.ranking, c)))
    ensures !(call.FinalizeGroupRankings? && r.Done? && s.standings[c].letter == call.letter) ==>
      t.standings[c].rank == s.standings[c].rank
    ensures t.standings[c].qualifier != s.standings[c].qualifier ==>
      s.standings[c].rank == Some(3) && s.standings[c].qualifier.None? && call.FinalizeThirdPlaceQualifier?
      && r.Done? && s.standings[c].letter == call.letter
  {
    if call.UpdateMatch? {
      UpdateKeepsGroups(s, call.req, t, r);
    }
  }

  /** The call is a ranking of this letter that went through. */
  predicate Ranks(call: Call, r: Response, letter: Letter) {
    call.FinalizeGroupRankings? && r.Done? && call.letter == letter
  }

  /** A group that was ranked keeps its ranks. */
  lemma RanksStay(s: Tables, call: Call, t: Tables, r: Response, n: nat, letter: Letter, ranking: seq<Country>)
    requires WellShaped(s, n) && GroupsSettled(s) && Disciplined(s, call) && Step(s, call, t, r)
    requires Ranked(s, letter) && RankedBy(s, letter, ranking)
    ensures Ranked(t, letter) && RankedBy(t, letter, ranking) && !Ranks(call, r, letter)
  {
    StepKeepsShape(s, call, t, r);
    SameMembers(s, t, letter, ranking);
    forall c | InGroup(s, letter, c) ensures c in t.standings && t.standings[c].rank == s.standings[c].rank {
      StepWritesRanks(s, call, t, r, n, c);
    }
  }

  /** A group that a step ranks had all its matches complete and is ranked by the list of the call. */
  lemma RanksWritten(s: Tables, call: Call, t: Tables, r: Response, n: nat, letter: Letter)
    requires WellShaped(s, n) && GroupsSettled(s) && Disciplined(s, call) && Step(s, call, t, r)
    requires !Ranked(s, letter) && Ranked(t, letter)
    ensures Ranks(call, r, letter) && RankedBy(t, letter, call.ranking) && !HasIncompleteMatch(s, letter)
  {
    StepKeepsShape(s, call, t, r);
    var c :| c in t.standings && t.standings[c].letter == letter && t.standings[c].rank.Some?;
    StepWritesRanks(s, call, t, r, n, c);
    var ranking := call.ranking;
    SameMembers(s, t, letter, ranking);
    forall k | 0 <= k < |ranking| ensures ranking[k] in t.standings && t.standings[ranking[k]].rank == Some(k + 1) {
      assert ranking[k] in ranking;
      StepWritesRanks(s, call, t, r, n, ranking[k]);
      RankInDistinct(ranking, k);
    }
  }

  lemma FlagsOnThirds(s: Tables, call: Call, t: Tables, r: Response, n: nat, c: Country)
    requires WellShaped(s, n) && GroupsSettled(s) && Disciplined(s, call) && Step(s, call, t, r)
    requires c in t.standings && t.standings[c].qualifier.Some?
    ensures t.standings[c].rank == Some(3)
  {
    StepKeepsShape(s, call, t, r);
    StepWritesRanks(s, call, t, r, n, c);
    if s.standings[c].rank.Some? {
      assert Ranked(s, s.standings[c].letter);
    }
  }

  lemma StepKeepsSettled(s: Tables, call: Call, t: Tables, r: Response, n: nat)
    requires WellShaped(s, n) && GroupsSettled(s) && Disciplined(s, call) && Step(s, call, t, r)
    ensures GroupsSettled(t)
  {
    forall l | Ranked(t, l) ensures !HasIncompleteMatch(t, l) && exists ranking :: RankedBy(t, l, ranking) {
      if Ranked(s, l) {
        var ranking :| RankedBy(s, l, ranking);
        RanksStay(s, call, t, r, n, l, ranking);
      } else {
        RanksWritten(s, call, t, r, n, l);
      }
      MatchesStayComplete(s, call, t, r, n, l);
    }
    forall c | c in t.standings && t.standings[c].qualifier.Some? ensures t.standings[c].rank == Some(3) {
      FlagsOnThirds(s, call, t, r, n, c);
    }
  }

  /** In every disciplined run the groups stay settled. */
  lemma {:induction false} SettledAlways(run: Run, n: nat, k: nat)
    requires DisciplinedRun(run) && k < |run.states|
    requires WellShaped(run.First(), n) && GroupsSettled(run.First())
    ensures WellShaped(run.states[k], n) && GroupsSettled(run.states[k])
  {
    if k > 0 {
      SettledAlways(run, n, k - 1);
      var s, t := run.states[k - 1], run.states[k];
      DisciplinedStep(run, k - 1);
      StepKeepsShape(s, run.calls[k - 1], t, run.responses[k - 1]);
      ShapeKept(s, t, n);
      StepKeepsSettled(s, run.calls[k - 1], t, run.responses[k - 1], n);
    }
  }

  /** No match update reaches the statistics of a ranked group: its matches are all complete. */
  lemma FrozenByUpdate(s: Tables, id: MatchId, req: MatchRequest, t: Tables, n: nat, c: Country)
    requires WellShaped(s, n) && GroupsSettled(s) && id in s.matches && UpdateRow(s, id, req) == Success(t)
    requires c in s.standings && Ranked(s, s.standings[c].letter)
    ensures c in t.standings && t.standings[c] == s.standings[c]
  {
    if id.KnockoutMatch? {
      assert InBracket(id.round, id.index);
      KnockoutUpdateElsewhere(s, id, req, t);
    }
  }

  /** One step leaves a ranked group as it is, except that its third may get its flag. */
  lemma FrozenStep(s: Tables, call: Call, t: Tables, r: Response, n: nat, c: Country)
    requires WellShaped(s, n) && GroupsSettled(s) && Disciplined(s, call) && Step(s, call, t, r)
    requires c in s.standings && Ranked(s, s.standings[c].letter)
    ensures c in t.standings && t.standings[c] == s.standings[c].(qualifier := t.standings[c].qualifier)
    ensures s.standings[c].qualifier.Some? ==> t.standings[c].qualifier == s.standings[c].qualifier
  {
    StepWritesRanks(s, call, t, r, n, c);
    if call.UpdateMatch? && t != s {
      var id := ChangingRow(s, call.req, t, r);
      FrozenByUpdate(s, id, call.req, t, n, c);
    }
  }

  /** From the moment a group is ranked, no statistic and no rank of its countries ever changes again,
      and a flag once given stays. */
  lemma {:induction false} FinalizedGroupsAreFrozen(run: Run, n: nat, j: nat, k: nat, c: Country)
    requires DisciplinedRun(run) && j <= k < |run.states|
    requires WellShaped(run.First(), n) && GroupsSettled(run.First())
    requires c in run.states[j].standings && Ranked(run.states[j], run.states[j].standings[c].letter)
    ensures c in run.states[k].standings
    ensures run.states[k].standings[c] == run.states[j].standings[c].(qualifier := run.states[k].standings[c].qualifier)
    ensures run.states[j].standings[c].qualifier.Some? ==> run.states[k].standings[c] == run.states[j].standings[c]
    ensures Ranked(run.states[k], run.states[j].standings[c].letter)
  {
    if j < k {
      FinalizedGroupsAreFrozen(run, n, j, k - 1, c);
      SettledAlways(run, n, k - 1);
      var s := run.states[k - 1];
      DisciplinedStep(run, k - 1);
      FrozenStep(s, run.calls[k - 1], run.states[k], run.responses[k - 1], n, c);
      var ranking :| RankedBy(s, s.standings[c].letter, ranking);
      RanksStay(s, run.calls[k - 1], run.states[k], run.responses[k - 1], n, s.standings[c].letter, ranking);
    }
  }
}
