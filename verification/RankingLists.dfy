/** What a ranking list can do that is not checked against its group, and exactly when it does no harm. */
module RankingLists {
  import opened Tables
  import opened GroupFinalization
  import opened Runs
  import opened GroupScores

  /** The list of a ranking is not checked against the group: it ranks exactly the groups it names a country of. */
  lemma RankingRanksNamedGroups(s: Tables, letter: Letter, ranking: seq<Country>, t: Tables)
    requires FinalizeRankings(s, letter, ranking) == Success(t)
    ensures forall l :: Ranked(t, l) <==> Ranked(s, l) || exists c :: c in ranking && InGroup(s, l, c)
  {
    forall l ensures Ranked(t, l) <==> Ranked(s, l) || exists c :: c in ranking && InGroup(s, l, c) {
      if Ranked(s, l) {
        var c :| c in s.standings && s.standings[c].letter == l && s.standings[c].rank.Some?;
        assert t.standings[c].letter == l && t.standings[c].rank.Some?;
      } else if c :| c in ranking && InGroup(s, l, c) {
        assert t.standings[c].letter == l && t.standings[c].rank.Some?;
      }
    }
  }

  /** A name from another group ranks that group early: from then on every ranking of that group is refused. */
  lemma ForeignNameBlocksGroup(s: Tables, letter: Letter, ranking: seq<Country>, t: Tables, c: Country,
                               other: seq<Country>)
    requires FinalizeRankings(s, letter, ranking) == Success(t)
    requires c in ranking && c in s.standings && s.standings[c].letter != letter
    ensures FinalizeRankings(t, s.standings[c].letter, other).Failure?
  {
    assert InGroup(s, s.standings[c].letter, c);
    RankingRanksNamedGroups(s, letter, ranking, t);
  }

  /** The list names a country that has a rank at that rank, or not at all. */
  predicate NamedAtRank(s: Tables, ranking: seq<Country>, c: Country)
    requires c in s.standings
  {
    c in ranking ==> s.standings[c].rank == Some(RankIn(ranking, c))
  }

  /** The list names no country of a ranked group, except at its recorded rank. */
  predicate SparesRankedGroups(s: Tables, ranking: seq<Country>) {
    forall c :: c in s.standings && Ranked(s, s.standings[c].letter) ==> NamedAtRank(s, ranking, c)
  }

  /** A ranking of one group rewrites a row of an already ranked group if and only if it names it at another rank,
      so it leaves the ranked groups frozen if and only if it spares them. */
  lemma RankingFreezesIff(s: Tables, letter: Letter, ranking: seq<Country>, t: Tables)
    requires FinalizeRankings(s, letter, ranking) == Success(t)
    ensures t.standings.Keys == s.standings.Keys
    ensures forall c :: c in s.standings ==> (t.standings[c] == s.standings[c] <==> NamedAtRank(s, ranking, c))
    ensures (forall c :: c in s.standings && Ranked(s, s.standings[c].letter) ==> t.standings[c] == s.standings[c])
       <==> SparesRankedGroups(s, ranking)
  {
    forall c | c in s.standings ensures t.standings[c] == s.standings[c] <==> NamedAtRank(s, ranking, c) {
    }
  }

  /** Whatever is called, a recorded rank survives a step if and only if the step is no accepted ranking that
      names the country at another rank. */
  lemma StepKeepsRankIff(s: Tables, call: Call, t: Tables, r: Response, c: Country)
    requires Step(s, call, t, r) && c in s.standings && s.standings[c].rank.Some?
    ensures c in t.standings
    ensures t.standings[c].rank == s.standings[c].rank
       <==> (call.FinalizeGroupRankings? && r.Done? ==> NamedAtRank(s, call.ranking, c))
  {
    match call
    case UpdateMatch(req) => UpdateKeepsGroups(s, req, t, r);
    case FinalizeGroupRankings(letter, ranking) =>
      if r.Done? {
        RankingFreezesIff(s, letter, ranking, t);
        assert t.standings[c] == s.standings[c].(rank := t.standings[c].rank);
      }
    case FinalizeThirdPlaceQualifier(letter, qualifies) =>
    case _ =>
  }

  ghost predicate SparesAt(run: Run, k: nat) {
    k < |run.calls| && k < |run.states| && k < |run.responses|
    && (run.calls[k].FinalizeGroupRankings? && run.responses[k].Done? ==>
      SparesRankedGroups(run.states[k], run.calls[k].ranking))
  }

  /** In every run whose accepted rankings spare the ranked groups, a rank once recorded stays for good. */
  lemma {:induction false} RecordedRanksStay(run: Run, j: nat, k: nat, c: Country)
    requires run.Valid() && j <= k < |run.states|
    requires forall i: nat {:trigger SparesAt(run, i)} :: i < |run.calls| ==> SparesAt(run, i)
    requires c in run.states[j].standings && run.states[j].standings[c].rank.Some?
    ensures c in run.states[k].standings && run.states[k].standings[c].rank == run.states[j].standings[c].rank
  {
    if j < k {
      RecordedRanksStay(run, j, k - 1, c);
      RunStep(run, k - 1);
      assert SparesAt(run, k - 1);
      var s := run.states[k - 1];
      assert Ranked(s, s.standings[c].letter);
      StepKeepsRankIff(s, run.calls[k - 1], run.states[k], run.responses[k - 1], c);
    }
  }

  /** Without the condition a finalized group is not frozen: a ranking of another, open group that names the second
      of a ranked group first is accepted and leaves that group with two firsts and no second. */
  lemma ForeignNameOverwritesRank(s: Tables, letter: Letter, l: Letter, ranking: seq<Country>)
    requires RankedBy(s, l, ranking) && |ranking| >= 2 && ranking[1] in s.countries
    requires l != letter && !Ranked(s, letter) && !HasIncompleteMatch(s, letter)
    ensures var outcome := FinalizeRankings(s, letter, [ranking[1]]);
      && outcome.Success?
      && (forall c :: Holds(outcome.value, l, 1, c) <==> c == ranking[0] || c == ranking[1])
      && (forall c :: !Holds(outcome.value, l, 2, c))
  {
    var t := FinalizeRankings(s, letter, [ranking[1]]).value;
    assert ranking[0] in ranking && ranking[1] in ranking;
    forall c | InGroup(s, l, c) && c != ranking[1] ensures t.standings[c] == s.standings[c] {
    }
    assert t.standings[ranking[1]].rank == Some(RankIn([ranking[1]], ranking[1]));
    forall c, v | Holds(s, l, v, c) ensures 1 <= v <= |ranking| && ranking[v - 1] == c {
      var k :| 0 <= k < |ranking| && ranking[k] == c;
    }
  }

  /** An accepted ranking closes its letter, so that no later list is accepted for it, if and only if it names a
      country of the letter. */
  lemma RankingIsFinalIff(s: Tables, letter: Letter, ranking: seq<Country>, t: Tables)
    requires FinalizeRankings(s, letter, ranking) == Success(t)
    ensures (forall other :: FinalizeRankings(t, letter, other).Failure?)
       <==> exists c :: c in ranking && InGroup(s, letter, c)
  {
    RankingRanksNamedGroups(s, letter, ranking, t);
    if c :| c in ranking && InGroup(s, letter, c) {
      assert Ranked(t, letter);
    } else {
      assert FinalizeRankings(t, letter, []).Success?;
    }
  }

  // ---- when the ranks are a bijection ----

  /** The list starts with the whole group, each country once, and names none of it again. */
  ghost predicate StartsWithGroup(s: Tables, letter: Letter, ranking: seq<Country>, n: nat) {
    && n <= |ranking| && IsGroup(s, letter, ranking[..n])
    && forall j :: n <= j < |ranking| ==> !InGroup(s, letter, ranking[j])
  }

  /** The countries of a group in the order of its ranks. */
  lemma ListOfRanks(s: Tables, letter: Letter) returns (list: seq<Country>)
    requires RanksAreOneToOne(s, letter)
    ensures RankedBy(s, letter, list) && |list| == |Members(s, letter)|
  {
    var group := Members(s, letter);
    list := [];
    while |list| < |group|
      invariant |list| <= |group| && forall k :: 0 <= k < |list| ==> Holds(s, letter, k + 1, list[k])
    {
      var rank := |list| + 1;
      assert IsGiven(s, letter, rank);
      var c :| Holds(s, letter, rank, c);
      list := list + [c];
    }
    forall c | InGroup(s, letter, c) ensures c in list {
      assert c in group;
      var k := s.standings[c].rank.value - 1;
      assert list[k] in group;
    }
  }

  /** Every country of the group has exactly the rank the list gives it. */
  ghost predicate RanksComeFrom(s: Tables, letter: Letter, ranking: seq<Country>) {
    forall c :: InGroup(s, letter, c) ==> s.standings[c].rank == if c in ranking then Some(RankIn(ranking, c)) else None
  }

  /** Where every country of the group has exactly the rank the list gives it, the ranks are one-to-one if and only
      if the list starts with the group. */
  lemma OneToOneIffStartsWithGroup(s: Tables, letter: Letter, ranking: seq<Country>)
    requires RanksComeFrom(s, letter, ranking)
    ensures RanksAreOneToOne(s, letter) <==> exists n: nat :: StartsWithGroup(s, letter, ranking, n)
  {
    if RanksAreOneToOne(s, letter) {
      var list := ListOfRanks(s, letter);
      OneToOneStarts(s, letter, ranking, list);
    }
    if n: nat :| StartsWithGroup(s, letter, ranking, n) {
      StartsOneToOne(s, letter, ranking, n);
    }
  }

  /** A country with rank k is the k-th name of the list, and is not named again. */
  lemma NamedAtPlace(s: Tables, letter: Letter, ranking: seq<Country>, c: Country, k: int)
    requires RanksComeFrom(s, letter, ranking) && Holds(s, letter, k, c)
    ensures 1 <= k <= |ranking| && ranking[k - 1] == c && RankIn(ranking, c) == k
  {
    assert InGroup(s, letter, c);
    assert c in ranking;
  }

  lemma OneToOneStarts(s: Tables, letter: Letter, ranking: seq<Country>, list: seq<Country>)
    requires RanksComeFrom(s, letter, ranking) && RankedBy(s, letter, list)
    ensures StartsWithGroup(s, letter, ranking, |list|)
  {
    forall k | 0 <= k < |list| ensures Holds(s, letter, k + 1, list[k]) {
      assert list[k] in list;
    }
    if list != [] {
      NamedAtPlace(s, letter, ranking, list[|list| - 1], |list|);
    }
    forall k | 0 <= k < |list| ensures ranking[k] == list[k] {
      NamedAtPlace(s, letter, ranking, list[k], k + 1);
    }
    assert ranking[..|list|] == list;
    forall j | |list| <= j < |ranking| ensures !InGroup(s, letter, ranking[j]) {
      if InGroup(s, letter, ranking[j]) {
        var k: nat :| k < |list| && list[k] == ranking[j];
        NamedAtPlace(s, letter, ranking, list[k], k + 1);
      }
    }
  }

  lemma StartsOneToOne(s: Tables, letter: Letter, ranking: seq<Country>, n: nat)
    requires RanksComeFrom(s, letter, ranking) && StartsWithGroup(s, letter, ranking, n)
    ensures RanksAreOneToOne(s, letter)
  {
    var list := ranking[..n];
    forall k | 0 <= k < n ensures Holds(s, letter, k + 1, list[k]) {
    }
    RankedIsOneToOne(s, letter, list);
  }

  /** After an accepted ranking the ranks of the letter are 1, ..., n, each given once, if and only if the list starts
      with the whole group and names none of it again. */
  lemma RankingIsBijectionIff(s: Tables, letter: Letter, ranking: seq<Country>, t: Tables)
    requires FinalizeRankings(s, letter, ranking) == Success(t)
    ensures RanksAreOneToOne(t, letter) <==> exists n: nat :: StartsWithGroup(s, letter, ranking, n)
  {
    forall c ensures InGroup(t, letter, c) == InGroup(s, letter, c) {
    }
    forall c | InGroup(t, letter, c)
      ensures t.standings[c].rank == if c in ranking then Some(RankIn(ranking, c)) else None
    {
      assert s.standings[c].rank.None?;
    }
    OneToOneIffStartsWithGroup(t, letter, ranking);
    forall n: nat ensures StartsWithGroup(t, letter, ranking, n) == StartsWithGroup(s, letter, ranking, n) {
    }
  }
}
