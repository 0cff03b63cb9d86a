/** The tables of one contest, as maps. */
module Tables {

  datatype Option<+T> = None | Some(value: T)

  datatype Result<+T> = Success(value: T) | Failure(error: Error)

  datatype Error =
    | CountriesUndefined
    | NoSuchMatch
    | AlreadyCompleted
    | StandingMissing
    | IncompleteMatches
    | AlreadyFinalized
    | UnknownCountry
    | NotRanked
    | DuplicateKey
    | EmptyInsert

  /** What a repository call returns to its caller. */
  datatype Response = Done | Rejected(error: Error)

  datatype Country = Country(code: string)
  datatype User = User(id: nat)
  type Letter = char

  /** The identity of a match row: group matches are numbered in insertion order,
      knockout matches are named by their round and their index in the round. */
  datatype MatchId = GroupMatch(number: nat) | KnockoutMatch(round: nat, index: nat)

  /** The round column. */
  function Round(id: MatchId): nat {
    match id
    case GroupMatch(_) => 0
    case KnockoutMatch(round, _) => round
  }

  datatype MatchRow = MatchRow(
    country1: Option<Country>, country2: Option<Country>,
    goals1: Option<int>, goals2: Option<int>,
    penalties1: Option<int>, penalties2: Option<int>,
    conduct1: Option<int>, conduct2: Option<int>)

  const UNSEEDED: MatchRow := MatchRow(None, None, None, None, None, None, None, None)

  datatype GroupStanding = GroupStanding(
    letter: Letter,
    points: int, wins: int, draws: int, losses: int,
    gf: int, ga: int, gd: int, cs: int,
    rank: Option<int>, qualifier: Option<bool>)

  datatype GroupPickRow = GroupPickRow(letter: Letter, place: int, extraQualifier: bool)

  type PickTable = map<(User, Country), GroupPickRow>

  datatype KnockoutPickRow = KnockoutPickRow(user: User, country: Country, round: int)

  datatype Score = Score(group: int, knockout: int)

  /** Every table is a map from its primary key to the rest of the row; a table whose columns are all part of the
      key is a set. The contest column is constant and dropped. A country is named by its unique code and a
      transaction is a local copy of the tables that is either stored back or dropped. */
  datatype Tables = Tables(
    countries: set<Country>,
    matches: map<MatchId, MatchRow>,
    standings: map<Country, GroupStanding>,
    knockoutStandings: map<Country, int>,
    groupPicks: PickTable,
    knockoutPicks: set<KnockoutPickRow>,
    scores: map<User, Score>)

  /** A missing score row reads as the column defaults. */
  function ScoreOf(scores: map<User, Score>, user: User): Score {
    if user in scores then scores[user] else Score(0, 0)
  }

  /** The user has the country in the sheet of that letter. */
  predicate PicksInGroup(picks: PickTable, letter: Letter, u: User, c: Country) {
    (u, c) in picks && picks[(u, c)].letter == letter
  }

  /** A user's places for the letter are all different. */
  ghost predicate PlacesDiffer(picks: PickTable, letter: Letter, u: User) {
    forall c, d :: PicksInGroup(picks, letter, u, c) && PicksInGroup(picks, letter, u, d) && c != d
               ==> picks[(u, c)].place != picks[(u, d)].place
  }

  predicate Complete(row: MatchRow) {
    row.goals1.Some? && row.goals2.Some?
  }

  function OrZero(x: Option<int>): int {
    if x.Some? then x.value else 0
  }

  predicate Distinct<T(==)>(xs: seq<T>) {
    forall i, j :: 0 <= i < j < |xs| ==> xs[i] != xs[j]
  }

  /** The entries of a map in a given order of its letters. */
  method ValuesInOrder<V>(entries: map<Letter, V>, order: seq<Letter>) returns (values: seq<V>)
    requires forall l :: l in order ==> l in entries
    ensures |values| == |order| && forall i :: 0 <= i < |values| ==> values[i] == entries[order[i]]
  {
    values := [];
    for k := 0 to |order|
      invariant |values| == k && forall i :: 0 <= i < k ==> values[i] == entries[order[i]]
    {
      values := values + [entries[order[k]]];
    }
  }
}
