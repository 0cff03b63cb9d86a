/** Group scores are caches over the recorded ranks and flags. */
module GroupAudit {
  import opened Tables
  import Shape
  import opened Sums
  import opened GroupFinalization
  import opened PickSheets
  import opened Runs
  import opened GroupScores
  import GroupCap

  /** What the recorded rank of a country is worth to a user. */
  function RankWorth(s: Tables, u: User, c: Country): int
    requires c in s.standings
  {
    var st := s.standings[c];
    if st.rank.Some? && PicksInGroup(s.groupPicks, st.letter, u, c)
    then Award(st.rank.value, s.groupPicks[(u, c)].place)
    else 0
  }

  /** What the recorded flag of a country is worth to a user. */
  function FlagWorth(s: Tables, u: User, c: Country): int
    requires c in s.standings
  {
    var st := s.standings[c];
    if st.qualifier.Some? && Predicts(s.groupPicks, st.letter, u, st.qualifier.value) then 5 else 0
  }

  ghost function Worths(s: Tables, members: seq<Country>, u: User): nat -> int {
    (j: nat) =>
      if j < |members| && members[j] in s.standings
      then RankWorth(s, u, members[j]) + FlagWorth(s, u, members[j])
      else 0
  }

  /** One pass over the standings rows. */
  ghost function StandingsAudit(s: Tables, members: seq<Country>, u: User): int {
    Sum(|members|, Worths(s, members, u))
  }

  /** Every standings row, once. */
  ghost predicate ListsStandings(s: Tables, members: seq<Country>) {
    Distinct(members) && forall c :: c in members <==> c in s.standings
  }

  /** The rows of a user agree on the flag of a letter. */
  ghost predicate FlagsAgree(picks: PickTable) {
    forall letter, u :: !(Predicts(picks, letter, u, true) && Predicts(picks, letter, u, false))
  }

  ghost predicate GroupScoresAudited(s: Tables, members: seq<Country>) {
    && FlagsAgree(s.groupPicks)
    && forall u :: ScoreOf(s.scores, u).group == StandingsAudit(s, members, u)
  }

  /** Picks of one letter in a request carry the same flag. */
  predicate FlagsAgreeInRequest(picks: seq<GroupPick>) {
    forall i, j :: 0 <= i < j < |picks| && picks[i].entries != [] && picks[j].entries != []
      && picks[i].letter == picks[j].letter
      ==> picks[i].extraQualifier == picks[j].extraQualifier
  }

  /** A group sheet comes before its letters are ranked, and does not contradict itself. */
  ghost predicate SheetsInTime(s: Tables, call: Call) {
    call.CreateGroupPicks? ==>
      FlagsAgreeInRequest(call.picks) && forall k :: 0 <= k < |call.picks| ==> !Ranked(s, call.picks[k].letter)
  }

  // ---- rankings ----

  ghost function OverList(members: seq<Country>, list: seq<Country>, g: Country -> int): nat -> int {
    (j: nat) => if j < |members| && members[j] in list then g(members[j]) else 0
  }

  /** One more country in the list adds its term to the sum over the members. */
  lemma OneMoreInList(members: seq<Country>, shorter: seq<Country>, last: Country, g: Country -> int)
    requires Distinct(members) && last in members && last !in shorter
    ensures Sum(|members|, OverList(members, shorter + [last], g))
         == Sum(|members|, OverList(members, shorter, g)) + g(last)
  {
    var k: nat :| k < |members| && members[k] == last;
    SumChange(|members|, OverList(members, shorter, g), OverList(members, shorter + [last], g), k);
  }

  /** Summing over the members that are in the list is summing over the list. */
  lemma {:induction false} SumOverList(members: seq<Country>, list: seq<Country>, g: Country -> int)
    requires Distinct(members) && Distinct(list) && forall c :: c in list ==> c in members
    ensures Sum(|members|, OverList(members, list, g)) == Sum(|list|, OverList(list, list, g))
  {
    if list == [] {
      SumZero(|members|, OverList(members, list, g));
    } else {
      var shorter, last := list[..|list| - 1], list[|list| - 1];
      assert list == shorter + [last] && last in list;
      SumOverList(members, shorter, g);
      OneMoreInList(members, shorter, last, g);
      SumSame(|shorter|, OverList(shorter, shorter, g), OverList(list, list, g));
    }
  }

  /** What the list earns the user with a country it names. */
  function EarnedWith(picks: PickTable, letter: Letter, ranking: seq<Country>, u: User, c: Country): int {
    if c in ranking && PicksInGroup(picks, letter, u, c) then Award(RankIn(ranking, c), picks[(u, c)].place) else 0
  }

  lemma PointsByCountry(picks: PickTable, letter: Letter, ranking: seq<Country>, u: User)
    requires Distinct(ranking)
    ensures RankingPoints(picks, letter, ranking, u)
         == Sum(|ranking|, OverList(ranking, ranking, c => EarnedWith(picks, letter, ranking, u, c)))
  {
    forall k: nat | k < |ranking|
      ensures EarnedAt(picks, letter, ranking, u)(k) == EarnedWith(picks, letter, ranking, u, ranking[k])
    {
      RankInDistinct(ranking, k);
    }
    SumSame(|ranking|, EarnedAt(picks, letter, ranking, u),
            OverList(ranking, ranking, c => EarnedWith(picks, letter, ranking, u, c)));
  }

  lemma RankingMovesAudit(s: Tables, letter: Letter, ranking: seq<Country>, t: Tables, members: seq<Country>, u: User)
    requires ListsStandings(s, members) && IsGroup(s, letter, ranking)
      && FinalizeRankings(s, letter, ranking) == Success(t)
    ensures StandingsAudit(t, members, u)
         == StandingsAudit(s, members, u) + RankingPoints(s.groupPicks, letter, ranking, u)
  {
    var g := c => EarnedWith(s.groupPicks, letter, ranking, u, c);
    forall j: nat | j < |members|
      ensures Worths(t, members, u)(j) == Worths(s, members, u)(j) + OverList(members, ranking, g)(j)
    {
      assert members[j] in members;
    }
    SumPlus(|members|, Worths(s, members, u), OverList(members, ranking, g), Worths(t, members, u));
    SumOverList(members, ranking, g);
    PointsByCountry(s.groupPicks, letter, ranking, u);
  }

  lemma RankingKeepsAudit(s: Tables, letter: Letter, ranking: seq<Country>, t: Tables, members: seq<Country>)
    requires ListsStandings(s, members) && GroupScoresAudited(s, members) && IsGroup(s, letter, ranking)
    requires FinalizeRankings(s, letter, ranking) == Success(t)
    ensures GroupScoresAudited(t, members)
  {
    forall u ensures ScoreOf(t.scores, u).group == StandingsAudit(t, members, u) {
      GroupCap.RankingPays(s, letter, ranking, t, u);
      RankingMovesAudit(s, letter, ranking, t, members, u);
    }
  }

  // ---- third-place decisions ----

  lemma DecisionMovesAudit(s: Tables, letter: Letter, qualifies: bool, third: Country, paid: set<User>, t: Tables,
                           members: seq<Country>, u: User)
    requires ListsStandings(s, members) && third in s.standings && s.standings[third].letter == letter
    requires FinalizeThird(s, qualifies, third, paid) == Success(t)
    ensures StandingsAudit(t, members, u)
         == StandingsAudit(s, members, u) + if Predicts(s.groupPicks, letter, u, qualifies) then 5 else 0
  {
    var k: nat :| k < |members| && members[k] == third;
    SumChange(|members|, Worths(s, members, u), Worths(t, members, u), k);
  }

  lemma DecisionKeepsAudit(s: Tables, letter: Letter, qualifies: bool, third: Country, paid: set<User>, t: Tables,
                           members: seq<Country>)
    requires ListsStandings(s, members) && GroupScoresAudited(s, members)
    requires third in s.standings && s.standings[third].letter == letter
      && PaidFor(s.groupPicks, letter, qualifies, paid)
    requires FinalizeThird(s, qualifies, third, paid) == Success(t)
    ensures GroupScoresAudited(t, members)
  {
    forall u ensures ScoreOf(t.scores, u).group == StandingsAudit(t, members, u) {
      GroupCap.DecisionPays(s, letter, qualifies, third, paid, t, u);
      DecisionMovesAudit(s, letter, qualifies, third, paid, t, members, u);
      assert !(Predicts(s.groupPicks, letter, u, true) && Predicts(s.groupPicks, letter, u, false));
    }
  }

  // ---- the other calls ----

  lemma SameSheetSamePrediction(picks: PickTable, after: PickTable, letter: Letter, u: User, qualifies: bool)
    requires SameSheet(picks, after, letter, u)
    ensures Predicts(after, letter, u, qualifies) == Predicts(picks, letter, u, qualifies)
  {
    if Predicts(picks, letter, u, qualifies) {
      var k :| k in picks && k.0 == u && picks[k].letter == letter && picks[k].extraQualifier == qualifies;
      assert PicksInGroup(picks, letter, u, k.1) && k == (u, k.1);
    }
    if Predicts(after, letter, u, qualifies) {
      var k :| k in after && k.0 == u && after[k].letter == letter && after[k].extraQualifier == qualifies;
      assert PicksInGroup(after, letter, u, k.1) && k == (u, k.1);
    }
  }

  /** Calls that change no group score, no rank or flag, and no sheet of a ranked letter. */
  lemma SameSheetsKeepAudit(s: Tables, t: Tables, members: seq<Country>)
    requires GroupScoresAudited(s, members) && GroupsSettled(s) && SameGroups(s, t) && FlagsAgree(t.groupPicks)
    requires forall u :: ScoreOf(t.scores, u).group == ScoreOf(s.scores, u).group
    requires forall letter, u :: Ranked(s, letter) ==> SameSheet(s.groupPicks, t.groupPicks, letter, u)
    ensures GroupScoresAudited(t, members)
  {
    forall u ensures ScoreOf(t.scores, u).group == StandingsAudit(t, members, u) {
      forall c | c in s.standings
        ensures RankWorth(t, u, c) == RankWorth(s, u, c) && FlagWorth(t, u, c) == FlagWorth(s, u, c)
      {
        SameWorth(s, t, u, c);
      }
      SumSame(|members|, Worths(s, members, u), Worths(t, members, u));
    }
  }

  lemma SameWorth(s: Tables, t: Tables, u: User, c: Country)
    requires GroupsSettled(s) && SameGroups(s, t) && c in s.standings
    requires Ranked(s, s.standings[c].letter) ==> SameSheet(s.groupPicks, t.groupPicks, s.standings[c].letter, u)
    ensures RankWorth(t, u, c) == RankWorth(s, u, c) && FlagWorth(t, u, c) == FlagWorth(s, u, c)
  {
    var st := s.standings[c];
    if st.rank.Some? {
      assert Ranked(s, st.letter);
      if st.qualifier.Some? {
        SameSheetSamePrediction(s.groupPicks, t.groupPicks, st.letter, u, st.qualifier.value);
      }
    }
  }

  /** A request that does not contradict itself leaves no sheet that does. */
  lemma SubmitKeepsFlags(s: Tables, user: User, picks: seq<GroupPick>, t: Tables)
    requires FlagsAgree(s.groupPicks) && FlagsAgreeInRequest(picks) && SubmitGroupPicks(s, user, picks) == Success(t)
    ensures FlagsAgree(t.groupPicks)
  {
    forall letter, u ensures !(Predicts(t.groupPicks, letter, u, true) && Predicts(t.groupPicks, letter, u, false)) {
      if u != user || !Submits(picks, letter) || AllRows(picks) == [] {
        OtherOrEmptySheet(s, user, picks, t, letter, u);
      } else {
        SubmittedFlagsAgree(s, user, picks, t, letter);
      }
    }
  }

  lemma OtherOrEmptySheet(s: Tables, user: User, picks: seq<GroupPick>, t: Tables, letter: Letter, u: User)
    requires FlagsAgree(s.groupPicks) && SubmitGroupPicks(s, user, picks) == Success(t)
    requires u != user || !Submits(picks, letter) || AllRows(picks) == []
    ensures !(Predicts(t.groupPicks, letter, u, true) && Predicts(t.groupPicks, letter, u, false))
  {
    if AllRows(picks) != [] {
      OtherSheetsStay(s, user, picks, t, letter, u);
    }
    SameSheetSamePrediction(s.groupPicks, t.groupPicks, letter, u, true);
    SameSheetSamePrediction(s.groupPicks, t.groupPicks, letter, u, false);
  }

  /** The rows of a submitted letter all come from the request. */
  lemma SubmittedFlagsAgree(s: Tables, user: User, picks: seq<GroupPick>, t: Tables, letter: Letter)
    requires FlagsAgreeInRequest(picks) && SubmitGroupPicks(s, user, picks) == Success(t)
    requires Submits(picks, letter) && AllRows(picks) != []
    ensures !(Predicts(t.groupPicks, letter, user, true) && Predicts(t.groupPicks, letter, user, false))
  {
    if Predicts(t.groupPicks, letter, user, true) && Predicts(t.groupPicks, letter, user, false) {
      var base := WithoutLetters(s.groupPicks, user, picks);
      InsertEffect(base, user, AllRows(picks));
      var a :| a in t.groupPicks && a.0 == user && t.groupPicks[a].letter == letter && t.groupPicks[a].extraQualifier;
      var b :| b in t.groupPicks && b.0 == user && t.groupPicks[b].letter == letter && !t.groupPicks[b].extraQualifier;
      assert a == (user, a.1) && b == (user, b.1);
      var i, x := NewRowSource(base, user, picks, user, a.1);
      var j, y := NewRowSource(base, user, picks, user, b.1);
    }
  }

  lemma StepKeepsGroupAudit(s: Tables, call: Call, t: Tables, r: Response, members: seq<Country>)
    requires ListsStandings(s, members) && GroupScoresAudited(s, members) && GroupsSettled(s)
    requires Disciplined(s, call) && SheetsInTime(s, call) && Step(s, call, t, r)
    ensures GroupScoresAudited(t, members)
  {
    if t != s {
      match call
      case UpdateMatch(req) =>
        UpdateKeepsGroups(s, req, t, r);
        SameSheetsKeepAudit(s, t, members);
      case FinalizeGroupRankings(letter, ranking) =>
        RankingKeepsAudit(s, letter, ranking, t, members);
      case FinalizeThirdPlaceQualifier(letter, qualifies) =>
        var third, paid :| third in Thirds(s, letter) && PaidFor(s.groupPicks, letter, qualifies, paid)
                           && FinalizeThird(s, qualifies, third, paid) == Success(t);
        DecisionKeepsAudit(s, letter, qualifies, third, paid, t, members);
      case CreateGroupPicks(user, picks) =>
        SheetKeepsAudit(s, user, picks, t, members);
      case CreateKnockoutPicks(user, entries) =>
        SameSheetsKeepAudit(s, t, members);
    }
  }

  lemma SheetKeepsAudit(s: Tables, user: User, picks: seq<GroupPick>, t: Tables, members: seq<Country>)
    requires GroupScoresAudited(s, members) && GroupsSettled(s)
    requires FlagsAgreeInRequest(picks) && forall k :: 0 <= k < |picks| ==> !Ranked(s, picks[k].letter)
    requires SubmitGroupPicks(s, user, picks) == Success(t)
    ensures GroupScoresAudited(t, members)
  {
    SubmitKeepsFlags(s, user, picks, t);
    forall letter, u | Ranked(s, letter) ensures SameSheet(s.groupPicks, t.groupPicks, letter, u) {
      OtherSheetsStay(s, user, picks, t, letter, u);
    }
    SameSheetsKeepAudit(s, t, members);
  }

  ghost predicate SheetsInTimeAt(run: Run, k: nat) {
    k < |run.calls| && k < |run.states| && SheetsInTime(run.states[k], run.calls[k])
  }

  /** Every group sheet of the run comes before its letters are ranked. */
  ghost predicate SheetsComeInTime(run: Run) {
    forall k: nat {:trigger SheetsInTimeAt(run, k)} :: k < |run.calls| ==> SheetsInTimeAt(run, k)
  }

  lemma RunKeepsGroupAudit(run: Run, members: seq<Country>, k: nat)
    requires DisciplinedRun(run) && SheetsComeInTime(run) && k < |run.calls| && GroupsSettled(run.states[k])
    requires ListsStandings(run.states[k], members) && GroupScoresAudited(run.states[k], members)
    ensures ListsStandings(run.states[k + 1], members) && GroupScoresAudited(run.states[k + 1], members)
  {
    DisciplinedStep(run, k);
    assert SheetsInTimeAt(run, k);
    Shape.StepKeepsShape(run.states[k], run.calls[k], run.states[k + 1], run.responses[k]);
    StepKeepsGroupAudit(run.states[k], run.calls[k], run.states[k + 1], run.responses[k], members);
  }

  /** In every disciplined run whose sheets for a letter come before its ranking, every group score is the award
      read off the recorded ranks plus 5 points for every flag the user predicted. */
  lemma {:induction false} GroupAuditAlways(run: Run, n: nat, members: seq<Country>, k: nat)
    requires DisciplinedRun(run) && SheetsComeInTime(run) && k < |run.states|
    requires Shape.WellShaped(run.First(), n) && GroupsSettled(run.First())
    requires ListsStandings(run.First(), members) && GroupScoresAudited(run.First(), members)
    ensures ListsStandings(run.states[k], members) && GroupScoresAudited(run.states[k], members)
  {
    if k > 0 {
      GroupAuditAlways(run, n, members, k - 1);
      SettledAlways(run, n, k - 1);
      RunKeepsGroupAudit(run, members, k - 1);
    }
  }
}
