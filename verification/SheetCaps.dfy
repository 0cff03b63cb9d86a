/** When the sheets of a user keep every ranking within the 45 points of the scoring rules. */
module SheetCaps {
  import opened Tables
  import opened GroupFinalization
  import opened PickSheets
  import GroupScores
  import PickListing

  /** Two countries that a user holds in place 1 pay 30 and 18 points when they finish first and second. */
  lemma TwoFirstsPay48(picks: PickTable, user: User, letter: Letter, c: Country, d: Country)
    requires c != d && (user, c) in picks && (user, d) in picks
    requires picks[(user, c)].letter == picks[(user, d)].letter == letter
      && picks[(user, c)].place == picks[(user, d)].place == 1
    ensures RankingPoints(picks, letter, [c, d], user) == 48
  {
  }

  /** No ranking can pay the user more than the 45 points of the scoring rules. */
  ghost predicate RankingsCapped(picks: PickTable, u: User) {
    forall letter, ranking :: RankingPoints(picks, letter, ranking, u) <= 45
  }

  lemma PlacesCapRankings(picks: PickTable, u: User)
    requires DistinctPlaces(picks)
    ensures RankingsCapped(picks, u)
  {
    forall letter, ranking ensures RankingPoints(picks, letter, ranking, u) <= 45 {
      GroupScores.RankingPaysAtMost45(picks, letter, ranking, u);
    }
  }

  /** The exact condition: an accepted request of the handler leaves the user with at most 45 points for every
      ranking if and only if no letter has entries in two of its picks. */
  lemma RankingsCappedIffLettersOnce(s: Tables, user: User, picks: seq<GroupPick>, t: Tables)
    requires DistinctPlaces(s.groupPicks) && PlacesByPosition(picks) && SubmitGroupPicks(s, user, picks) == Success(t)
    ensures RankingsCapped(t.groupPicks, user) <==> LettersOnce(picks)
  {
    if LettersOnce(picks) {
      PlacesDifferIffLettersOnce(picks);
      SubmitKeepsPlacesIff(s, user, picks, t);
      PlacesCapRankings(t.groupPicks, user);
    } else {
      var i, j, a, b := TwoFirstRows(picks);
      var rows, base := AllRows(picks), WithoutLetters(s.groupPicks, user, picks);
      InsertEffect(base, user, rows);
      InsertSucceedsIff(base, user, rows);
      var c, d := rows[a].country, rows[b].country;
      TwoFirstsPay48(t.groupPicks, user, picks[i].letter, c, d);
    }
  }

  /** Other users' rankings stay within the rules whatever a user submits. */
  lemma OthersStayCapped(s: Tables, user: User, picks: seq<GroupPick>, t: Tables, other: User)
    requires DistinctPlaces(s.groupPicks) && SubmitGroupPicks(s, user, picks) == Success(t) && other != user
    ensures RankingsCapped(t.groupPicks, other)
  {
    forall letter, ranking ensures RankingPoints(t.groupPicks, letter, ranking, other) <= 45 {
      assert PlacesDiffer(s.groupPicks, letter, other);
      OtherSheetsStay(s, user, picks, t, letter, other);
      GroupScores.RankingPaysAtMost45(t.groupPicks, letter, ranking, other);
    }
  }

  /** Two sheets for the same letter in one request. */
  function RepeatedLetter(letter: Letter, c: Country, d: Country): seq<GroupPick> {
    [GroupPick(letter, [GroupPickEntry(c, 1)], false), GroupPick(letter, [GroupPickEntry(d, 1)], false)]
  }

  lemma RepeatedRows(letter: Letter, c: Country, d: Country)
    ensures AllRows(RepeatedLetter(letter, c, d))
         == [NewPick(c, GroupPickRow(letter, 1, false)), NewPick(d, GroupPickRow(letter, 1, false))]
  {
    var picks := RepeatedLetter(letter, c, d);
    assert picks[..1][..0] == [] && picks[..1][0] == picks[0];
    assert AllRows(picks[..1]) == PickRows(picks[0]);
    assert AllRows(picks) == PickRows(picks[0]) + PickRows(picks[1]);
  }

  /** A request that repeats a letter is accepted and lets a user put two countries first: the ranking then
      pays 48 points, more than the 45 the scoring rules allow. */
  lemma RepeatedLetterPays48(s: Tables, user: User, letter: Letter, c: Country, d: Country)
    requires c != d && c in s.countries && d in s.countries
    requires forall e: Country :: (user, e) !in s.groupPicks
    ensures SubmitGroupPicks(s, user, RepeatedLetter(letter, c, d)).Success?
    ensures var t := SubmitGroupPicks(s, user, RepeatedLetter(letter, c, d)).value;
      RankingPoints(t.groupPicks, letter, [c, d], user) == 48
  {
    var picks := RepeatedLetter(letter, c, d);
    var rows := AllRows(picks);
    RepeatedRows(letter, c, d);
    PickListing.SubmitSucceedsIff(s, user, picks);
    var base := WithoutLetters(s.groupPicks, user, picks);
    InsertEffect(base, user, rows);
    assert rows[0].country == c && rows[1].country == d;
    TwoFirstsPay48(SubmitGroupPicks(s, user, picks).value.groupPicks, user, letter, c, d);
  }
}
