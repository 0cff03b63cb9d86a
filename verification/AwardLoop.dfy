/** The ranking award as a sum over pick rows taken in any order. */
module AwardLoop {
  import opened Tables
  import opened Sums
  import opened GroupFinalization

  /** What the k-th name of the ranking earns the user from the rows seen so far. */
  function EarnedSeen(picks: PickTable, seen: set<(User, Country)>, letter: Letter, ranking: seq<Country>, u: User,
                      k: nat): int {
    if k < |ranking| && (u, ranking[k]) in seen then Earned(picks, letter, ranking, u, k) else 0
  }

  ghost function EarnedSeenAt(picks: PickTable, seen: set<(User, Country)>, letter: Letter, ranking: seq<Country>,
                              u: User): nat -> int {
    (k: nat) => EarnedSeen(picks, seen, letter, ranking, u, k)
  }

  ghost function PointsSeen(picks: PickTable, seen: set<(User, Country)>, letter: Letter, ranking: seq<Country>,
                            u: User): int {
    Sum(|ranking|, EarnedSeenAt(picks, seen, letter, ranking, u))
  }

  /** Seeing a row of a ranked country adds that row's points to its user. */
  lemma SeeRankedRow(picks: PickTable, seen: set<(User, Country)>, u: User, c: Country, letter: Letter,
                     ranking: seq<Country>)
    requires PicksInGroup(picks, letter, u, c) && (u, c) !in seen && c in ranking
    ensures PointsSeen(picks, seen + {(u, c)}, letter, ranking, u)
         == PointsSeen(picks, seen, letter, ranking, u) + Award(RankIn(ranking, c), picks[(u, c)].place)
  {
    var before := EarnedSeenAt(picks, seen, letter, ranking, u);
    var after := EarnedSeenAt(picks, seen + {(u, c)}, letter, ranking, u);
    var k: nat := RankIn(ranking, c) - 1;
    assert ranking[k] == c;
    forall j: nat | j < |ranking| && j != k ensures before(j) == after(j) {
      if ranking[j] == c {
        assert Earned(picks, letter, ranking, u, j) == 0;
      }
    }
    SumChange(|ranking|, before, after, k);
  }

  /** Seeing any other row leaves the user's points alone. */
  lemma SeeOtherRow(picks: PickTable, seen: set<(User, Country)>, key: (User, Country), u: User, letter: Letter,
                    ranking: seq<Country>)
    requires key.0 != u || key.1 !in ranking
    ensures PointsSeen(picks, seen + {key}, letter, ranking, u) == PointsSeen(picks, seen, letter, ranking, u)
  {
    var before := EarnedSeenAt(picks, seen, letter, ranking, u);
    var after := EarnedSeenAt(picks, seen + {key}, letter, ranking, u);
    forall j: nat | j < |ranking| ensures before(j) == after(j) {
      assert ranking[j] in ranking;
    }
    SumSame(|ranking|, before, after);
  }

  /** Before any row is seen nobody has points. */
  lemma NothingSeen(picks: PickTable, seen: set<(User, Country)>, letter: Letter, ranking: seq<Country>, u: User)
    requires forall k :: k in seen ==> k.0 != u || k.1 !in ranking
    ensures PointsSeen(picks, seen, letter, ranking, u) == 0
  {
    var earned := EarnedSeenAt(picks, seen, letter, ranking, u);
    forall j: nat | j < |ranking| ensures earned(j) == 0 {
      assert ranking[j] in ranking;
    }
    SumZero(|ranking|, earned);
  }

  /** Having seen every row of the letter, the loop holds the whole award. */
  lemma SeenAll(picks: PickTable, seen: set<(User, Country)>, letter: Letter, ranking: seq<Country>, u: User)
    requires forall k :: k in picks && picks[k].letter == letter ==> k in seen
    ensures PointsSeen(picks, seen, letter, ranking, u) == RankingPoints(picks, letter, ranking, u)
  {
    SumSame(|ranking|, EarnedSeenAt(picks, seen, letter, ranking, u), EarnedAt(picks, letter, ranking, u));
  }

  /** The users the rows seen so far have put into the loop's map. */
  ghost function UsersSeen(seen: set<(User, Country)>, ranking: seq<Country>): set<User> {
    set k | k in seen && k.1 in ranking :: k.0
  }

  /** What the loop's map holds after the rows in `seen`. */
  ghost predicate Tallies(userPoints: map<User, int>, picks: PickTable, seen: set<(User, Country)>, letter: Letter,
                          ranking: seq<Country>) {
    && userPoints.Keys == UsersSeen(seen, ranking)
    && forall u :: u in userPoints ==> userPoints[u] == PointsSeen(picks, seen, letter, ranking, u)
  }

  lemma TallyRow(userPoints: map<User, int>, picks: PickTable, seen: set<(User, Country)>, u: User, c: Country,
                 letter: Letter, ranking: seq<Country>)
    requires Tallies(userPoints, picks, seen, letter, ranking)
    requires PicksInGroup(picks, letter, u, c) && (u, c) !in seen && c in ranking
    ensures var points := if u in userPoints then userPoints[u] else 0;
      Tallies(userPoints[u := points + Award(RankIn(ranking, c), picks[(u, c)].place)],
              picks, seen + {(u, c)}, letter, ranking)
  {
    assert UsersSeen(seen + {(u, c)}, ranking) == UsersSeen(seen, ranking) + {u} by {
      assert (u, c) in seen + {(u, c)};
    }
    SeeRankedRow(picks, seen, u, c, letter, ranking);
    if u !in userPoints {
      NothingSeen(picks, seen, letter, ranking, u);
    }
    forall v | v in userPoints && v != u
      ensures PointsSeen(picks, seen + {(u, c)}, letter, ranking, v) == PointsSeen(picks, seen, letter, ranking, v)
    {
      SeeOtherRow(picks, seen, (u, c), v, letter, ranking);
    }
  }

  lemma TallyUnranked(userPoints: map<User, int>, picks: PickTable, seen: set<(User, Country)>, key: (User, Country),
                      letter: Letter, ranking: seq<Country>)
    requires Tallies(userPoints, picks, seen, letter, ranking)
    requires key.1 !in ranking
    ensures Tallies(userPoints, picks, seen + {key}, letter, ranking)
  {
    assert UsersSeen(seen + {key}, ranking) == UsersSeen(seen, ranking);
    forall v | v in userPoints
      ensures PointsSeen(picks, seen + {key}, letter, ranking, v) == PointsSeen(picks, seen, letter, ranking, v)
    {
      SeeOtherRow(picks, seen, key, v, letter, ranking);
    }
  }

  /** The map after the last row is the award of the ranking. */
  lemma TalliesAll(userPoints: map<User, int>, picks: PickTable, seen: set<(User, Country)>, letter: Letter,
                   ranking: seq<Country>)
    requires Tallies(userPoints, picks, seen, letter, ranking)
    requires seen == set k | k in picks && picks[k].letter == letter
    ensures userPoints.Keys == Predictors(picks, letter, ranking)
    ensures forall u :: u in userPoints ==> userPoints[u] == RankingPoints(picks, letter, ranking, u)
  {
    assert UsersSeen(seen, ranking) == Predictors(picks, letter, ranking);
    forall u | u in userPoints ensures userPoints[u] == RankingPoints(picks, letter, ranking, u) {
      SeenAll(picks, seen, letter, ranking, u);
    }
  }
}
