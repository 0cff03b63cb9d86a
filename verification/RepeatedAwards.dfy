/** How a group could be paid for twice, and exactly when it cannot. */
module RepeatedAwards {
  import opened Tables
  import opened MatchUpdates
  import opened GroupFinalization
  import opened Runs
  import opened GroupCap
  import opened RankingLists

  // ---- rankings ----

  /** A list of the single country x can be accepted for the letter, where the user has x in place 1. */
  predicate PaysForeign(s: Tables, letter: Letter, x: Country, user: User) {
    && !HasIncompleteMatch(s, letter) && !Ranked(s, letter)
    && x in s.countries && !InGroup(s, letter, x)
    && PicksInGroup(s.groupPicks, letter, user, x) && s.groupPicks[(user, x)].place == 1
  }

  /** A list without any country of the letter is accepted, pays, and leaves the letter open for the same list. */
  lemma ForeignListPays(s: Tables, letter: Letter, x: Country, user: User)
    requires PaysForeign(s, letter, x, user)
    ensures var outcome := FinalizeRankings(s, letter, [x]);
      && outcome.Success? && PaysForeign(outcome.value, letter, x, user)
      && ScoreOf(outcome.value.scores, user).group == ScoreOf(s.scores, user).group + 30
  {
    var t := FinalizeRankings(s, letter, [x]).value;
    RankingPays(s, letter, [x], t, user);
    RankingRanksNamedGroups(s, letter, [x], t);
    assert RankingPoints(s.groupPicks, letter, [x], user) == 30;
  }

  /** The input on which a ranking is not paid once and no cap holds: repeated n times, such a list is accepted
      n times and pays 30 n points. */
  lemma {:induction false} ForeignListPaysForever(s: Tables, letter: Letter, x: Country, user: User, n: nat)
    returns (run: Run)
    requires PaysForeign(s, letter, x, user)
    ensures run.Valid() && run.First() == s && |run.calls| == n && PaysForeign(run.Last(), letter, x, user)
    ensures forall k :: 0 <= k < n ==> run.calls[k] == FinalizeGroupRankings(letter, [x]) && run.responses[k] == Done
    ensures ScoreOf(run.Last().scores, user).group == ScoreOf(s.scores, user).group + 30 * n
  {
    if n == 0 {
      run := Run([s], [], []);
    } else {
      var shorter := ForeignListPaysForever(s, letter, x, user, n - 1);
      ForeignListPays(shorter.Last(), letter, x, user);
      var t := FinalizeRankings(shorter.Last(), letter, [x]).value;
      LongerIsValid(shorter, FinalizeGroupRankings(letter, [x]), t, Done);
      run := Longer(shorter, FinalizeGroupRankings(letter, [x]), t, Done);
    }
  }

  // ---- third-place decisions ----

  /** Every third of the letter has its flag. */
  predicate ThirdsFlagged(s: Tables, letter: Letter) {
    forall c :: c in s.standings && Holds(s, letter, 3, c) ==> s.standings[c].qualifier.Some?
  }

  /** A decision is sure to be refused if and only if every third of the letter has its flag. */
  lemma DecisionIsRefusedIff(s: Tables, letter: Letter, qualifies: bool)
    ensures (forall t, r :: FinalizeThirdStep(s, letter, qualifies, t, r) ==> r.Rejected?) <==> ThirdsFlagged(s, letter)
  {
    if c :| c in s.standings && Holds(s, letter, 3, c) && s.standings[c].qualifier.None? {
      var paid := set k | k in s.groupPicks && Predicts(s.groupPicks, letter, k.0, qualifies) :: k.0;
      assert PaidFor(s.groupPicks, letter, qualifies, paid);
      var t := FinalizeThird(s, qualifies, c, paid).value;
      assert c in Thirds(s, letter) && Commits(s, FinalizeThird(s, qualifies, c, paid), t, Done);
      assert FinalizeThirdStep(s, letter, qualifies, t, Done);
    } else {
      forall t, r | FinalizeThirdStep(s, letter, qualifies, t, r) ensures r.Rejected? {
        if r.Done? {
          var third, paid := AcceptedDecision(s, letter, qualifies, t, r);
        }
      }
    }
  }

  /** An accepted decision of a letter with one third leaves every third flagged. */
  lemma DecisionFlagsThirds(s: Tables, letter: Letter, qualifies: bool, t: Tables, r: Response)
    requires OneThirdEach(s) && FinalizeThirdStep(s, letter, qualifies, t, r) && r.Done?
    ensures ThirdsFlagged(t, letter)
  {
    var third, paid := AcceptedDecision(s, letter, qualifies, t, r);
    forall c | c in t.standings && Holds(t, letter, 3, c) ensures t.standings[c].qualifier.Some? {
      assert Holds(s, letter, 3, c);
    }
  }

  /** An accepted ranking of any letter leaves the decision of l closed if and only if it puts no unflagged country
      of l third. */
  lemma ThirdsStayFlaggedIff(s: Tables, letter: Letter, ranking: seq<Country>, t: Tables, l: Letter)
    requires FinalizeRankings(s, letter, ranking) == Success(t) && ThirdsFlagged(s, l)
    ensures ThirdsFlagged(t, l)
       <==> forall c :: c in ranking && InGroup(s, l, c) && RankIn(ranking, c) == 3 ==> s.standings[c].qualifier.Some?
  {
    forall c | c in s.standings && c !in ranking ensures t.standings[c] == s.standings[c] {
    }
    if c :| c in ranking && InGroup(s, l, c) && RankIn(ranking, c) == 3 && s.standings[c].qualifier.None? {
      assert Holds(t, l, 3, c) && t.standings[c].qualifier.None?;
    } else {
      forall c | c in t.standings && Holds(t, l, 3, c) ensures t.standings[c].qualifier.Some? {
        assert c !in ranking ==> Holds(s, l, 3, c);
      }
    }
  }

  /** The input on which a decision is paid twice: a ranking of another open letter that puts an unflagged country c of
      the decided letter l third is accepted, and then the decision of l is accepted again and pays 5 points more. */
  lemma SecondThirdPaysAgain(s: Tables, letter: Letter, l: Letter, x: Country, y: Country, c: Country, qualifies: bool,
                             user: User)
    requires !HasIncompleteMatch(s, letter) && !Ranked(s, letter) && Flagged(s, l) && ThirdsFlagged(s, l)
    requires {x, y, c} <= s.countries && x != c && y != c && InGroup(s, l, c) && s.standings[c].qualifier.None?
    requires Predicts(s.groupPicks, l, user, qualifies) && !Predicts(s.groupPicks, l, user, !qualifies)
    ensures FinalizeRankings(s, letter, [x, y, c]).Success?
    ensures var t := FinalizeRankings(s, letter, [x, y, c]).value;
      exists after :: FinalizeThirdStep(t, l, qualifies, after, Done)
                   && ScoreOf(after.scores, user).group == ScoreOf(t.scores, user).group + 5
  {
    var t := FinalizeRankings(s, letter, [x, y, c]).value;
    assert RankIn([x, y, c], c) == 3;
    assert Holds(t, l, 3, c) && t.standings[c].qualifier.None?;
    var paid := set k | k in t.groupPicks && Predicts(t.groupPicks, l, k.0, qualifies) :: k.0;
    assert PaidFor(t.groupPicks, l, qualifies, paid);
    var after := FinalizeThird(t, qualifies, c, paid).value;
    assert c in Thirds(t, l) && Commits(t, FinalizeThird(t, qualifies, c, paid), after, Done);
    DecisionPays(t, l, qualifies, c, paid, after, user);
  }
}
