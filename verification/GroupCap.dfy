/** What the group stage can pay: two awards, each once per group. */
module GroupCap {
  import opened Tables
  import opened Sums
  import opened Shape
  import opened GroupFinalization
  import opened PickSheets
  import opened Runs
  import opened GroupScores
  import AwardLoop
  import RankingLists

  predicate Flagged(s: Tables, letter: Letter) {
    exists c :: c in s.standings && s.standings[c].letter == letter && s.standings[c].qualifier.Some?
  }

  function Budget(s: Tables, letter: Letter): int {
    (if Ranked(s, letter) then 45 else 0) + (if Flagged(s, letter) then 5 else 0)
  }

  ghost function BudgetTerms(s: Tables, letters: seq<Letter>): nat -> int {
    (j: nat) => if j < |letters| then Budget(s, letters[j]) else 0
  }

  /** What the groups closed so far can have paid to one user. */
  ghost function Payable(s: Tables, letters: seq<Letter>): int {
    Sum(|letters|, BudgetTerms(s, letters))
  }

  ghost predicate GroupScoresWithin(s: Tables, letters: seq<Letter>) {
    && DistinctPlaces(s.groupPicks)
    && forall u :: 0 <= ScoreOf(s.scores, u).group <= Payable(s, letters)
  }

  /** The contest's groups, each letter once. */
  ghost predicate AreLetters(s: Tables, letters: seq<Letter>) {
    Distinct(letters) && forall c :: c in s.standings ==> s.standings[c].letter in letters
  }

  /** Nobody can be paid more than 50 points per group: 600 for twelve groups. */
  lemma PayableAtMost50(s: Tables, letters: seq<Letter>)
    ensures 0 <= Payable(s, letters) <= 50 * |letters|
  {
    SumAtMost(|letters|, BudgetTerms(s, letters), 50);
  }

  lemma {:induction false} SumAtMost(n: nat, f: nat -> int, bound: nat)
    requires forall j: nat :: 0 <= f(j) <= bound
    ensures 0 <= Sum(n, f) <= bound * n
  {
    if n != 0 {
      SumAtMost(n - 1, f, bound);
    }
  }

  /** Raising the budget of one letter and lowering none raises the whole by as much. */
  lemma PayableRises(s: Tables, t: Tables, letters: seq<Letter>, letter: Letter, points: nat)
    requires Distinct(letters) && letter in letters
    requires Budget(t, letter) >= Budget(s, letter) + points && forall l :: Budget(t, l) >= Budget(s, l)
    ensures Payable(t, letters) >= Payable(s, letters) + points
  {
    var k: nat :| k < |letters| && letters[k] == letter;
    var before := BudgetTerms(s, letters);
    var raised := (j: nat) => if j == k then before(j) + points else before(j);
    SumChange(|letters|, before, raised, k);
    SumBelow(|letters|, raised, BudgetTerms(t, letters));
  }

  lemma PayableSame(s: Tables, t: Tables, letters: seq<Letter>)
    requires SameGroups(s, t)
    ensures Payable(t, letters) == Payable(s, letters)
  {
    forall l ensures Budget(t, l) == Budget(s, l) {
    }
    SumSame(|letters|, BudgetTerms(s, letters), BudgetTerms(t, letters));
  }

  // ---- what the two finalizers pay ----

  /** A ranking pays each user the award of the list, and no knockout points. */
  lemma RankingPays(s: Tables, letter: Letter, ranking: seq<Country>, t: Tables, u: User)
    requires FinalizeRankings(s, letter, ranking) == Success(t)
    ensures ScoreOf(t.scores, u)
         == ScoreOf(s.scores, u).(group := ScoreOf(s.scores, u).group + RankingPoints(s.groupPicks, letter, ranking, u))
  {
    if u !in Predictors(s.groupPicks, letter, ranking) {
      NoPickNoPoints(s.groupPicks, letter, ranking, u);
    }
  }

  lemma NoPickNoPoints(picks: PickTable, letter: Letter, ranking: seq<Country>, u: User)
    requires u !in Predictors(picks, letter, ranking)
    ensures RankingPoints(picks, letter, ranking, u) == 0
  {
    var seen := set k | k in picks && picks[k].letter == letter;
    forall k | k in seen ensures k.0 != u || k.1 !in ranking {
      assert k.1 in ranking ==> k.0 in Predictors(picks, letter, ranking);
    }
    AwardLoop.SeenAll(picks, seen, letter, ranking, u);
    AwardLoop.NothingSeen(picks, seen, letter, ranking, u);
  }

  /** A third-place decision pays 5 points to the users who predicted it and nothing to the others; only where the
      rows of a user disagree on the flag is either possible. */
  lemma DecisionPays(s: Tables, letter: Letter, qualifies: bool, third: Country, paid: set<User>, t: Tables, u: User)
    requires third in s.standings && PaidFor(s.groupPicks, letter, qualifies, paid)
    requires FinalizeThird(s, qualifies, third, paid) == Success(t)
    ensures var before := ScoreOf(s.scores, u);
      var right, wrong := Predicts(s.groupPicks, letter, u, qualifies), Predicts(s.groupPicks, letter, u, !qualifies);
      && (right && !wrong ==> ScoreOf(t.scores, u) == before.(group := before.group + 5))
      && (!right ==> ScoreOf(t.scores, u) == before)
      && (right && wrong ==> ScoreOf(t.scores, u) in {before, before.(group := before.group + 5)})
  {
  }

  // ---- which calls keep the budget ----

  /** No group has two thirds, and a group with a flag is ranked and has no unflagged third. */
  ghost predicate OneThirdEach(s: Tables) {
    && (forall l, c, d :: Holds(s, l, 3, c) && Holds(s, l, 3, d) ==> c == d)
    && (forall l :: Flagged(s, l) ==> Ranked(s, l))
    && (forall l, c :: Flagged(s, l) && Holds(s, l, 3, c) ==> s.standings[c].qualifier.Some?)
  }

  /** The list names a country of its letter, or nobody, and puts no country of another letter third. */
  predicate KeepsToGroup(s: Tables, letter: Letter, ranking: seq<Country>) {
    && (ranking == [] || exists c :: c in ranking && InGroup(s, letter, c))
    && forall c :: c in ranking && c in s.standings && s.standings[c].letter != letter ==> RankIn(ranking, c) != 3
  }

  /** An accepted ranking keeps to its group; an accepted group sheet gives no place of a letter twice. */
  ghost predicate Guarded(s: Tables, call: Call, r: Response) {
    r.Done? ==>
      && (call.FinalizeGroupRankings? ==> KeepsToGroup(s, call.letter, call.ranking))
      && (call.CreateGroupPicks? ==> PlacesDifferInRequest(call.picks))
  }

  ghost predicate GuardedAt(run: Run, k: nat) {
    k < |run.calls| && k < |run.states| && k < |run.responses| && Guarded(run.states[k], run.calls[k], run.responses[k])
  }

  ghost predicate GuardedRun(run: Run) {
    run.Valid() && forall k: nat {:trigger GuardedAt(run, k)} :: k < |run.calls| ==> GuardedAt(run, k)
  }

  lemma GuardedStep(run: Run, k: nat)
    requires GuardedRun(run) && k < |run.calls|
    ensures Step(run.states[k], run.calls[k], run.states[k + 1], run.responses[k])
    ensures Guarded(run.states[k], run.calls[k], run.responses[k])
  {
    assert run.StepAt(k) && GuardedAt(run, k);
  }

  /** A list of exactly the group keeps to it, so disciplined runs are guarded. */
  lemma DisciplinedIsGuarded(run: Run)
    requires DisciplinedRun(run)
    ensures GuardedRun(run)
  {
    forall k: nat | k < |run.calls| ensures GuardedAt(run, k) {
      DisciplinedStep(run, k);
      var s, call := run.states[k], run.calls[k];
      if call.FinalizeGroupRankings? && call.ranking != [] {
        assert call.ranking[0] in call.ranking;
        assert InGroup(s, call.letter, call.ranking[0]);
      }
    }
  }

  // ---- one third per group ----

  lemma RankingKeepsThirds(s: Tables, letter: Letter, ranking: seq<Country>, t: Tables)
    requires OneThirdEach(s) && KeepsToGroup(s, letter, ranking) && FinalizeRankings(s, letter, ranking) == Success(t)
    ensures OneThirdEach(t)
  {
    RankingLists.RankingRanksNamedGroups(s, letter, ranking, t);
    forall l ensures Flagged(t, l) == Flagged(s, l) {
      SameFlags(s, t, l);
    }
    forall l, c | Holds(t, l, 3, c)
      ensures if c in ranking then l == letter && c == ranking[2] else l != letter && Holds(s, l, 3, c)
    {
      assert c !in ranking ==> Holds(s, l, 3, c) && Ranked(s, l);
    }
  }

  lemma DecisionKeepsThirds(s: Tables, letter: Letter, qualifies: bool, third: Country, paid: set<User>, t: Tables)
    requires OneThirdEach(s) && Holds(s, letter, 3, third) && FinalizeThird(s, qualifies, third, paid) == Success(t)
    ensures OneThirdEach(t)
  {
    forall l ensures Ranked(t, l) == Ranked(s, l) && (l != letter ==> Flagged(t, l) == Flagged(s, l)) {
      SameRanks(s, t, l);
      if l != letter {
        SameFlags(s, t, l);
      }
    }
    forall l, c ensures Holds(t, l, 3, c) == Holds(s, l, 3, c) {
    }
    assert Ranked(s, letter);
  }

  lemma SameGroupsKeepThirds(s: Tables, t: Tables)
    requires OneThirdEach(s) && SameGroups(s, t)
    ensures OneThirdEach(t)
  {
    forall l ensures Ranked(t, l) == Ranked(s, l) && Flagged(t, l) == Flagged(s, l) {
      SameRanks(s, t, l);
      SameFlags(s, t, l);
    }
    forall l, c ensures Holds(t, l, 3, c) == Holds(s, l, 3, c) {
    }
  }

  /** What a step does to the groups: nothing, or an accepted ranking, or an accepted decision. */
  lemma StepKeepsThirds(s: Tables, call: Call, t: Tables, r: Response)
    requires OneThirdEach(s) && Guarded(s, call, r) && Step(s, call, t, r)
    ensures OneThirdEach(t)
  {
    if t != s {
      match call
      case UpdateMatch(req) =>
        UpdateKeepsGroups(s, req, t, r);
        SameGroupsKeepThirds(s, t);
      case FinalizeGroupRankings(letter, ranking) =>
        RankingKeepsThirds(s, letter, ranking, t);
      case FinalizeThirdPlaceQualifier(letter, qualifies) =>
        var third, paid := AcceptedDecision(s, letter, qualifies, t, r);
        DecisionKeepsThirds(s, letter, qualifies, third, paid, t);
      case _ =>
        SameGroupsKeepThirds(s, t);
    }
  }

  // ---- the budget is kept ----

  lemma RankingKeepsCap(s: Tables, letter: Letter, ranking: seq<Country>, t: Tables, letters: seq<Letter>)
    requires AreLetters(s, letters) && GroupScoresWithin(s, letters) && KeepsToGroup(s, letter, ranking)
    requires FinalizeRankings(s, letter, ranking) == Success(t)
    ensures GroupScoresWithin(t, letters)
  {
    if ranking == [] {
      assert SameGroups(s, t);
      PayableSame(s, t, letters);
      forall u ensures 0 <= ScoreOf(t.scores, u).group <= Payable(t, letters) {
        RankingPays(s, letter, ranking, t, u);
      }
    } else {
      BudgetAfterRanking(s, letter, ranking, t);
      PayableRises(s, t, letters, letter, 45);
      forall u ensures 0 <= ScoreOf(t.scores, u).group <= Payable(t, letters) {
        RankingPays(s, letter, ranking, t, u);
        RankingPaysAtMost45(s.groupPicks, letter, ranking, u);
      }
    }
  }

  /** Naming a country of another letter may raise the budget of that letter too, but lowers none. */
  lemma BudgetAfterRanking(s: Tables, letter: Letter, ranking: seq<Country>, t: Tables)
    requires exists c :: c in ranking && InGroup(s, letter, c)
    requires FinalizeRankings(s, letter, ranking) == Success(t)
    ensures Budget(t, letter) == Budget(s, letter) + 45
    ensures forall l :: Budget(t, l) >= Budget(s, l)
  {
    RankingLists.RankingRanksNamedGroups(s, letter, ranking, t);
    forall l ensures Flagged(t, l) == Flagged(s, l) {
      SameFlags(s, t, l);
    }
  }

  lemma SameFlags(s: Tables, t: Tables, l: Letter)
    requires t.standings.Keys == s.standings.Keys
    requires forall c :: c in s.standings && (s.standings[c].letter == l || t.standings[c].letter == l) ==>
      t.standings[c].letter == s.standings[c].letter && t.standings[c].qualifier == s.standings[c].qualifier
    ensures Flagged(t, l) == Flagged(s, l)
  {
  }

  lemma SameRanks(s: Tables, t: Tables, l: Letter)
    requires t.standings.Keys == s.standings.Keys
    requires forall c :: c in s.standings && (s.standings[c].letter == l || t.standings[c].letter == l) ==>
      t.standings[c].letter == s.standings[c].letter && t.standings[c].rank == s.standings[c].rank
    ensures Ranked(t, l) == Ranked(s, l)
  {
  }

  lemma BudgetAfterDecision(s: Tables, letter: Letter, qualifies: bool, third: Country, paid: set<User>, t: Tables)
    requires OneThirdEach(s) && Holds(s, letter, 3, third)
    requires FinalizeThird(s, qualifies, third, paid) == Success(t)
    ensures Budget(t, letter) == Budget(s, letter) + 5
    ensures forall l :: l != letter ==> Budget(t, l) == Budget(s, l)
  {
    forall l ensures Ranked(t, l) == Ranked(s, l) && (l != letter ==> Flagged(t, l) == Flagged(s, l)) {
      SameRanks(s, t, l);
      if l != letter {
        SameFlags(s, t, l);
      }
    }
    assert !Flagged(s, letter);
    assert t.standings[third].qualifier.Some?;
  }

  lemma DecisionKeepsCap(s: Tables, letter: Letter, qualifies: bool, third: Country, paid: set<User>, t: Tables,
                         letters: seq<Letter>)
    requires PaidFor(s.groupPicks, letter, qualifies, paid)
    requires AreLetters(s, letters) && GroupScoresWithin(s, letters) && OneThirdEach(s) && Holds(s, letter, 3, third)
    requires FinalizeThird(s, qualifies, third, paid) == Success(t)
    ensures GroupScoresWithin(t, letters)
  {
    BudgetAfterDecision(s, letter, qualifies, third, paid, t);
    PayableRises(s, t, letters, letter, 5);
    forall u ensures 0 <= ScoreOf(t.scores, u).group <= Payable(t, letters) {
      DecisionPays(s, letter, qualifies, third, paid, t, u);
    }
  }

  /** Calls that move no group score and no group. */
  lemma SameGroupsKeepCap(s: Tables, t: Tables, letters: seq<Letter>)
    requires GroupScoresWithin(s, letters) && SameGroups(s, t) && DistinctPlaces(t.groupPicks)
    requires forall u :: ScoreOf(t.scores, u).group == ScoreOf(s.scores, u).group
    ensures GroupScoresWithin(t, letters)
  {
    PayableSame(s, t, letters);
    forall u ensures 0 <= ScoreOf(t.scores, u).group <= Payable(t, letters) {
      assert 0 <= ScoreOf(s.scores, u).group <= Payable(s, letters);
    }
  }

  lemma StepKeepsGroupCap(s: Tables, call: Call, t: Tables, r: Response, letters: seq<Letter>)
    requires AreLetters(s, letters) && GroupScoresWithin(s, letters) && OneThirdEach(s)
    requires Guarded(s, call, r) && Step(s, call, t, r)
    ensures GroupScoresWithin(t, letters)
  {
    if t != s {
      match call
      case UpdateMatch(req) =>
        UpdateKeepsGroups(s, req, t, r);
        SameGroupsKeepCap(s, t, letters);
      case FinalizeGroupRankings(letter, ranking) =>
        RankingKeepsCap(s, letter, ranking, t, letters);
      case FinalizeThirdPlaceQualifier(letter, qualifies) =>
        var third, paid := AcceptedDecision(s, letter, qualifies, t, r);
        DecisionKeepsCap(s, letter, qualifies, third, paid, t, letters);
      case CreateGroupPicks(user, picks) =>
        SubmitKeepsPlacesIff(s, user, picks, t);
        SameGroupsKeepCap(s, t, letters);
      case CreateKnockoutPicks(user, entries) =>
        SameGroupsKeepCap(s, t, letters);
    }
  }

  /** In every guarded run, whatever the order of the calls, no user gets more than 50 points
      per group, counted over both awards and all resubmitted sheets. */
  lemma {:induction false} GroupCapAlways(run: Run, letters: seq<Letter>, k: nat)
    requires GuardedRun(run) && k < |run.states|
    requires OneThirdEach(run.First()) && AreLetters(run.First(), letters) && GroupScoresWithin(run.First(), letters)
    ensures OneThirdEach(run.states[k]) && AreLetters(run.states[k], letters)
      && GroupScoresWithin(run.states[k], letters)
    ensures forall u :: 0 <= ScoreOf(run.states[k].scores, u).group <= 50 * |letters|
  {
    if k > 0 {
      GroupCapAlways(run, letters, k - 1);
      GuardedStep(run, k - 1);
      StepKeepsShape(run.states[k - 1], run.calls[k - 1], run.states[k], run.responses[k - 1]);
      StepKeepsThirds(run.states[k - 1], run.calls[k - 1], run.states[k], run.responses[k - 1]);
      StepKeepsGroupCap(run.states[k - 1], run.calls[k - 1], run.states[k], run.responses[k - 1], letters);
    }
    PayableAtMost50(run.states[k], letters);
  }

  // ---- awards are paid once ----

  /** No call takes back a rank or a flag. */
  lemma StepKeepsClosed(s: Tables, call: Call, t: Tables, r: Response, letter: Letter)
    requires Step(s, call, t, r)
    ensures Ranked(s, letter) ==> Ranked(t, letter)
    ensures Flagged(s, letter) ==> Flagged(t, letter)
  {
    forall c | c in s.standings
      ensures c in t.standings && t.standings[c].letter == s.standings[c].letter
      ensures s.standings[c].rank.Some? ==> t.standings[c].rank.Some?
      ensures s.standings[c].qualifier.Some? ==> t.standings[c].qualifier.Some?
    {
      StepKeepsMarks(s, call, t, r, c);
    }
  }

  lemma StepKeepsMarks(s: Tables, call: Call, t: Tables, r: Response, c: Country)
    requires Step(s, call, t, r) && c in s.standings
    ensures c in t.standings && t.standings[c].letter == s.standings[c].letter
    ensures s.standings[c].rank.Some? ==> t.standings[c].rank.Some?
    ensures s.standings[c].qualifier.Some? ==> t.standings[c].qualifier.Some?
  {
    if call.UpdateMatch? {
      UpdateKeepsGroups(s, call.req, t, r);
    }
  }

  /** A ranked group stays ranked and a decided group stays decided, in every run. */
  lemma {:induction false} ClosedStaysClosed(run: Run, j: nat, k: nat, letter: Letter)
    requires run.Valid() && j <= k < |run.states|
    ensures Ranked(run.states[j], letter) ==> Ranked(run.states[k], letter)
    ensures Flagged(run.states[j], letter) ==> Flagged(run.states[k], letter)
  {
    if j < k {
      ClosedStaysClosed(run, j, k - 1, letter);
      RunStep(run, k - 1);
      StepKeepsClosed(run.states[k - 1], run.calls[k - 1], run.states[k], run.responses[k - 1], letter);
    }
  }

  lemma {:induction false} ThirdsAlways(run: Run, k: nat)
    requires GuardedRun(run) && k < |run.states| && OneThirdEach(run.First())
    ensures OneThirdEach(run.states[k])
  {
    if k > 0 {
      ThirdsAlways(run, k - 1);
      GuardedStep(run, k - 1);
      StepKeepsThirds(run.states[k - 1], run.calls[k - 1], run.states[k], run.responses[k - 1]);
    }
  }

  /** An accepted call of either kind closes its group. */
  lemma AcceptedCloses(s: Tables, call: Call, t: Tables, r: Response)
    requires Guarded(s, call, r) && Step(s, call, t, r) && r.Done?
    ensures call.FinalizeGroupRankings? && call.ranking != [] ==> Ranked(t, call.letter)
    ensures call.FinalizeThirdPlaceQualifier? ==> Flagged(t, call.letter)
  {
    match call
    case FinalizeGroupRankings(letter, ranking) =>
      RankingLists.RankingRanksNamedGroups(s, letter, ranking, t);
    case FinalizeThirdPlaceQualifier(letter, qualifies) =>
      var third, paid := AcceptedDecision(s, letter, qualifies, t, r);
      assert t.standings[third].letter == letter && t.standings[third].qualifier.Some?;
    case _ =>
  }

  /** Two calls for the same award: two rankings of a letter by a list of names, or two decisions of a letter. */
  predicate SameAward(a: Call, b: Call) {
    || (a.FinalizeGroupRankings? && b.FinalizeGroupRankings? && a.letter == b.letter && a.ranking != [])
    || (a.FinalizeThirdPlaceQualifier? && b.FinalizeThirdPlaceQualifier? && a.letter == b.letter)
  }

  /** In every guarded run a group is ranked at most once and decided at most once: after an accepted call of
      either kind every later one is refused. */
  lemma AwardsArePaidOnce(run: Run, j: nat, k: nat)
    requires GuardedRun(run) && OneThirdEach(run.First()) && j < k < |run.calls|
    requires SameAward(run.calls[j], run.calls[k]) && run.responses[j].Done?
    ensures run.responses[k].Rejected?
  {
    GuardedStep(run, j);
    AcceptedCloses(run.states[j], run.calls[j], run.states[j + 1], run.responses[j]);
    ClosedStaysClosed(run, j + 1, k, run.calls[j].letter);
    ThirdsAlways(run, k);
    GuardedStep(run, k);
  }
}
