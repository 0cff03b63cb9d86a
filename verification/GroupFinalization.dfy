/** Closing a group: the official ranking, the third-place decision and the points for both. */
module GroupFinalization {
  import opened Tables
  import Sums

  predicate InGroup(s: Tables, letter: Letter, c: Country) {
    c in s.standings && s.standings[c].letter == letter
  }

  function Members(s: Tables, letter: Letter): set<Country> {
    set c | c in s.standings && s.standings[c].letter == letter
  }

  /** The list names every country of the group once and no other country. */
  ghost predicate IsGroup(s: Tables, letter: Letter, members: seq<Country>) {
    Distinct(members) && forall c :: c in members <==> InGroup(s, letter, c)
  }

  /** A round-0 match without both scores whose first country is in the group. */
  predicate HasIncompleteMatch(s: Tables, letter: Letter) {
    exists id :: id in s.matches && Round(id) == 0 && !Complete(s.matches[id])
                 && s.matches[id].country1.Some? && InGroup(s, letter, s.matches[id].country1.value)
  }

  predicate Ranked(s: Tables, letter: Letter) {
    exists c :: c in s.standings && s.standings[c].letter == letter && s.standings[c].rank.Some?
  }

  function BasePoints(rank: int): int {
    if rank == 1 then 10 else if rank == 2 then 6 else if rank == 3 then 3 else if rank == 4 then 1 else 0
  }

  function Multiplier(place: int): int {
    if place == 1 then 3 else if place == 2 then 2 else if place == 3 then 1 else 0
  }

  /** The rank the list gives to a country it names; a repeated country keeps its last position. */
  function RankIn(ranking: seq<Country>, c: Country): (rank: nat)
    requires c in ranking
    ensures 1 <= rank <= |ranking| && ranking[rank - 1] == c
    ensures forall j :: rank <= j < |ranking| ==> ranking[j] != c
  {
    if ranking[|ranking| - 1] == c then |ranking| else RankIn(ranking[..|ranking| - 1], c)
  }

  function WithRanks(standings: map<Country, GroupStanding>, ranking: seq<Country>): map<Country, GroupStanding> {
    map c | c in standings ::
      if c in ranking then standings[c].(rank := Some(RankIn(ranking, c))) else standings[c]
  }

  function RankMap(ranking: seq<Country>): map<Country, nat> {
    map c | c in ranking :: RankIn(ranking, c)
  }

  /** Appending a name gives it the new last rank and leaves the other ranks. */
  lemma RankMapExtend(ranking: seq<Country>, idx: nat)
    requires idx < |ranking|
    ensures RankMap(ranking[..idx + 1]) == RankMap(ranking[..idx])[ranking[idx] := idx + 1]
  {
    assert ranking[..idx + 1] == ranking[..idx] + [ranking[idx]];
  }

  lemma WithRanksExtend(standings: map<Country, GroupStanding>, ranking: seq<Country>, idx: nat)
    requires idx < |ranking|
    ensures var before, c := WithRanks(standings, ranking[..idx]), ranking[idx];
      WithRanks(standings, ranking[..idx + 1])
      == if c in before then before[c := before[c].(rank := Some(idx + 1))] else before
  {
    assert ranking[..idx + 1] == ranking[..idx] + [ranking[idx]];
  }

  /** The points of one pick: the base points of the rank times the multiplier of the place. */
  function Award(rank: int, place: int): int {
    BasePoints(rank) * Multiplier(place)
  }

  /** What the k-th name of the ranking earns the user. */
  function Earned(picks: PickTable, letter: Letter, ranking: seq<Country>, u: User, k: nat): int {
    if k < |ranking| && RankIn(ranking, ranking[k]) == k + 1 && PicksInGroup(picks, letter, u, ranking[k])
    then Award(k + 1, picks[(u, ranking[k])].place)
    else 0
  }

  ghost function EarnedAt(picks: PickTable, letter: Letter, ranking: seq<Country>, u: User): nat -> int {
    (k: nat) => Earned(picks, letter, ranking, u, k)
  }

  /** The points of one ranking for one user, read off the ranking instead of the pick rows. */
  ghost function RankingPoints(picks: PickTable, letter: Letter, ranking: seq<Country>, u: User): int {
    Sums.Sum(|ranking|, EarnedAt(picks, letter, ranking, u))
  }

  /** Users with a row for a ranked country get a score row, even for no points. */
  ghost function Predictors(picks: PickTable, letter: Letter, ranking: seq<Country>): set<User> {
    set k | k in picks && picks[k].letter == letter && k.1 in ranking :: k.0
  }

  ghost function CreditRanking(scores: map<User, Score>, picks: PickTable,
                               letter: Letter, ranking: seq<Country>): map<User, Score> {
    map u | u in scores.Keys + Predictors(picks, letter, ranking) ::
      var score := ScoreOf(scores, u);
      if u in Predictors(picks, letter, ranking)
      then score.(group := score.group + RankingPoints(picks, letter, ranking, u))
      else score
  }

  /** FinalizeGroupRankings. */
  ghost function FinalizeRankings(s: Tables, letter: Letter, ranking: seq<Country>): Result<Tables> {
    if HasIncompleteMatch(s, letter) then Failure(IncompleteMatches)
    else if Ranked(s, letter) then Failure(AlreadyFinalized)
    else if exists c :: c in ranking && c !in s.countries then Failure(UnknownCountry)
    else Success(s.(standings := WithRanks(s.standings, ranking),
                    scores := CreditRanking(s.scores, s.groupPicks, letter, ranking)))
  }

  /** The country has that rank in the group. */
  predicate Holds(s: Tables, letter: Letter, rank: int, c: Country) {
    InGroup(s, letter, c) && s.standings[c].rank == Some(rank)
  }

  predicate IsThird(s: Tables, letter: Letter, c: Country) {
    Holds(s, letter, 3, c)
  }

  function Thirds(s: Tables, letter: Letter): set<Country> {
    set c | c in s.standings && IsThird(s, letter, c)
  }

  /** The user has a row for the group that predicts the decision. */
  predicate Predicts(picks: PickTable, letter: Letter, u: User, qualifies: bool) {
    exists k :: k in picks && k.0 == u && picks[k].letter == letter && picks[k].extraQualifier == qualifies
  }

  /** Whom a decision pays: the users with a row that predicts it. The query layer keeps one row per user, and
      which one is open, so a user whose rows disagree may be paid or not. */
  ghost predicate PaidFor(picks: PickTable, letter: Letter, qualifies: bool, paid: set<User>) {
    forall u :: (u in paid ==> Predicts(picks, letter, u, qualifies))
             && (Predicts(picks, letter, u, qualifies) && !Predicts(picks, letter, u, !qualifies) ==> u in paid)
  }

  function CreditGroup(scores: map<User, Score>, users: set<User>, points: int): map<User, Score> {
    map u | u in scores.Keys + users ::
      var score := ScoreOf(scores, u);
      if u in users then score.(group := score.group + points) else score
  }

  /** FinalizeThirdPlaceQualifier once the third-placed row and the users to be paid have been read. */
  function FinalizeThird(s: Tables, qualifies: bool, third: Country, paid: set<User>): Result<Tables>
    requires third in s.standings
  {
    if s.standings[third].qualifier.Some? then Failure(AlreadyFinalized)
    else Success(s.(standings := s.standings[third := s.standings[third].(qualifier := Some(qualifies))],
                    scores := CreditGroup(s.scores, paid, 5)))
  }
}
