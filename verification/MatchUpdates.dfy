/** What a match update does to the tables, as a function of the row it finds. */
module MatchUpdates {
  import opened Tables

  /** The request: only the fields that are present change the row. */
  datatype MatchRequest = MatchRequest(
    country1: Option<Country>, country2: Option<Country>,
    goals1: Option<int>, goals2: Option<int>,
    penalties1: Option<int>, penalties2: Option<int>,
    conduct1: Option<int>, conduct2: Option<int>,
    round: int, roundIndex: Option<int>)

  /** A country the countries table does not know counts as absent. */
  function Resolve(countries: set<Country>, c: Option<Country>): Option<Country> {
    if c.Some? && c.value in countries then c else None
  }

  predicate ByIndex(req: MatchRequest) {
    req.round > 0 && req.roundIndex.Some?
  }

  predicate IsPairing(row: MatchRow, c1: Option<Country>, c2: Option<Country>) {
    (row.country1 == c1 && row.country2 == c2) || (row.country1 == c2 && row.country2 == c1)
  }

  /** The row's identity and contents meet the WHERE clause of the lookup. */
  predicate Selects(s: Tables, req: MatchRequest, id: MatchId)
    requires id in s.matches
  {
    if ByIndex(req) then
      id.KnockoutMatch? && id.round == req.round && id.index == req.roundIndex.value
    else
      var c1, c2 := Resolve(s.countries, req.country1), Resolve(s.countries, req.country2);
      c1.Some? && c2.Some? && Round(id) == req.round && IsPairing(s.matches[id], c1, c2)
  }

  function Targets(s: Tables, req: MatchRequest): set<MatchId> {
    set id | id in s.matches && Selects(s, req, id)
  }

  function LookupError(s: Tables, req: MatchRequest): Error {
    if !ByIndex(req) && (Resolve(s.countries, req.country1).None? || Resolve(s.countries, req.country2).None?)
    then CountriesUndefined else NoSuchMatch
  }

  function Or<T>(x: Option<T>, otherwise: Option<T>): Option<T> {
    if x.Some? then x else otherwise
  }

  /** Countries and penalties change only on knockout rows. */
  function Merge(s: Tables, row: MatchRow, knockout: bool, req: MatchRequest): MatchRow {
    MatchRow(
      if knockout then Or(Resolve(s.countries, req.country1), row.country1) else row.country1,
      if knockout then Or(Resolve(s.countries, req.country2), row.country2) else row.country2,
      Or(req.goals1, row.goals1), Or(req.goals2, row.goals2),
      if knockout then Or(req.penalties1, row.penalties1) else row.penalties1,
      if knockout then Or(req.penalties2, row.penalties2) else row.penalties2,
      Or(req.conduct1, row.conduct1), Or(req.conduct2, row.conduct2))
  }

  /** Adds one result, seen from one of the two countries, to a standing. */
  function AddResult(st: GroupStanding, scored: int, conceded: int, conduct: int): GroupStanding {
    var st := st.(gf := st.gf + scored, ga := st.ga + conceded, cs := st.cs + conduct);
    var st := st.(gd := st.gf - st.ga);
    if scored > conceded then st.(wins := st.wins + 1, points := st.points + 3)
    else if scored == conceded then st.(draws := st.draws + 1, points := st.points + 1)
    else st.(losses := st.losses + 1)
  }

  /** The country that goes through: more goals, or level goals and more penalties.
      None while the row is incomplete and after a tie that penalties do not settle. */
  function Winner(row: MatchRow): Option<Country> {
    if !Complete(row) || row.country1.None? || row.country2.None? then None
    else if row.goals1.value > row.goals2.value then row.country1
    else if row.goals1.value < row.goals2.value then row.country2
    else if row.penalties1.None? || row.penalties2.None? then None
    else if row.penalties1.value > row.penalties2.value then row.country1
    else if row.penalties1.value < row.penalties2.value then row.country2
    else None
  }

  /** Outscoring: more goals, or as many and more penalties where both sides have taken them. */
  predicate Outscores(goals: Option<int>, penalties: Option<int>, otherGoals: Option<int>,
                      otherPenalties: Option<int>) {
    && goals.Some? && otherGoals.Some?
    && (goals.value > otherGoals.value
        || (goals.value == otherGoals.value
            && penalties.Some? && otherPenalties.Some? && penalties.value > otherPenalties.value))
  }

  /** The winner is the country in the slot that outscored the other slot and the loser is in the other slot; there
      is none exactly when neither slot outscored the other. An override may put one country into both slots. */
  lemma WinnerOutscores(row: MatchRow)
    requires row.country1.Some? && row.country2.Some?
    ensures var first := Outscores(row.goals1, row.penalties1, row.goals2, row.penalties2);
      var second := Outscores(row.goals2, row.penalties2, row.goals1, row.penalties1);
      && !(first && second)
      && (first ==> Winner(row) == row.country1 && Loser(row) == row.country2)
      && (second ==> Winner(row) == row.country2 && Loser(row) == row.country1)
      && (Decided(row) <==> first || second)
  {
  }

  function Loser(row: MatchRow): Option<Country> {
    if Winner(row).None? then None
    else if Winner(row) == row.country1 then row.country2
    else row.country1
  }

  /** A knockout match with a winner. A completed match need not be decided. */
  predicate Decided(row: MatchRow) {
    Winner(row).Some?
  }

  /** UPDATE of one country column of the row with that id, if there is one. */
  function SetSlot(matches: map<MatchId, MatchRow>, id: MatchId, slot: nat, c: Country): map<MatchId, MatchRow> {
    if id !in matches then matches
    else if slot == 0 then matches[id := matches[id].(country1 := Some(c))]
    else matches[id := matches[id].(country2 := Some(c))]
  }

  function Advance(matches: map<MatchId, MatchRow>, r: nat, i: nat, winner: Country,
                   loser: Country): map<MatchId, MatchRow> {
    var matches := if r < 5 then SetSlot(matches, KnockoutMatch(r + 1, i / 2), i % 2, winner) else matches;
    if r == 4 then SetSlot(matches, KnockoutMatch(5, 1), if i == 0 then 0 else 1, loser) else matches
  }

  /** The round a winner of match (r, i) has reached; 6 is champion and 7 is third place. */
  function Achieved(r: nat, i: nat): nat {
    if 1 <= r <= 4 then r + 1
    else if r == 5 then (if i == 1 then 7 else 6)
    else 0
  }

  /** The points for having picked that. */
  function Points(r: nat, i: nat): nat {
    if r == 1 then 15
    else if r == 2 then 20
    else if r == 3 then 25
    else if r == 4 then 30
    else if r == 5 then (if i == 1 then 5 else 35)
    else 0
  }

  function Pickers(picks: set<KnockoutPickRow>, c: Country, round: int): set<User> {
    set p | p in picks && p.country == c && p.round == round :: p.user
  }

  function CreditKnockout(scores: map<User, Score>, users: set<User>, points: int): map<User, Score> {
    map u | u in scores.Keys + users ::
      var score := ScoreOf(scores, u);
      if u in users then score.(knockout := score.knockout + points) else score
  }

  /** The standings step of a completed group match. */
  function RecordGroupResult(s: Tables, row: MatchRow): Result<Tables>
    requires Complete(row)
  {
    if row.country1.None? || row.country2.None? then Failure(CountriesUndefined)
    else
      var c1, c2 := row.country1.value, row.country2.value;
      if c1 !in s.standings || c2 !in s.standings then Failure(StandingMissing)
      else
        var g1, g2 := row.goals1.value, row.goals2.value;
        Success(s.(standings := s.standings
          [c1 := AddResult(s.standings[c1], g1, g2, OrZero(row.conduct1))]
          [c2 := AddResult(s.standings[c2], g2, g1, OrZero(row.conduct2))]))
  }

  /** The bracket, standings and score steps of a decided knockout match (r, i). */
  function RecordWin(s: Tables, r: nat, i: nat, winner: Country, loser: Country): Tables {
    var achieved := Achieved(r, i);
    var upserted := if achieved > 0 then s.knockoutStandings[winner := achieved] else s.knockoutStandings;
    s.(matches := Advance(s.matches, r, i, winner, loser),
       knockoutStandings := if r == 4 then upserted[loser := 5] else upserted,
       scores := if achieved > 0
                 then CreditKnockout(s.scores, Pickers(s.knockoutPicks, winner, achieved), Points(r, i))
                 else s.scores)
  }

  function RecordKnockoutResult(s: Tables, id: MatchId, row: MatchRow): Result<Tables>
    requires id.KnockoutMatch?
  {
    if row.country1.None? || row.country2.None? then Failure(CountriesUndefined)
    else if !Decided(row) then Success(s)
    else Success(RecordWin(s, id.round, id.index, Winner(row).value, Loser(row).value))
  }

  /** No field of the request reaches the row. */
  predicate NothingToUpdate(s: Tables, knockout: bool, req: MatchRequest) {
    && req.goals1.None? && req.goals2.None? && req.conduct1.None? && req.conduct2.None?
    && (knockout ==> Resolve(s.countries, req.country1).None? && Resolve(s.countries, req.country2).None?
                     && req.penalties1.None? && req.penalties2.None?)
  }

  /** The whole update of the row `id`: the new tables, or the error that rolls it back. */
  function UpdateRow(s: Tables, id: MatchId, req: MatchRequest): Result<Tables>
    requires id in s.matches
  {
    var row, knockout := s.matches[id], Round(id) > 0;
    if Complete(row) then Failure(AlreadyCompleted)
    else if NothingToUpdate(s, knockout, req) then Success(s)
    else
      var updated := Merge(s, row, knockout, req);
      var tx := s.(matches := s.matches[id := updated]);
      if !Complete(updated) then Success(tx)
      else if knockout then RecordKnockoutResult(tx, id, updated)
      else RecordGroupResult(tx, updated)
  }

  /** A transaction either stores its tables or leaves the old ones. */
  predicate Commits(s: Tables, outcome: Result<Tables>, t: Tables, r: Response) {
    match outcome
    case Success(tx) => t == tx && r == Done
    case Failure(e) => t == s && r == Rejected(e)
  }

  /** SQL leaves open which of several matching rows is read first. */
  ghost predicate UpdateMatchStep(s: Tables, req: MatchRequest, t: Tables, r: Response) {
    if Targets(s, req) == {} then t == s && r == Rejected(LookupError(s, req))
    else exists id :: id in Targets(s, req) && Commits(s, UpdateRow(s, id, req), t, r)
  }

  /** The row that a changing update has found. */
  lemma ChangingRow(s: Tables, req: MatchRequest, t: Tables, r: Response) returns (id: MatchId)
    requires UpdateMatchStep(s, req, t, r) && t != s
    ensures id in s.matches && id in Targets(s, req) && UpdateRow(s, id, req) == Success(t)
  {
    id :| id in Targets(s, req) && Commits(s, UpdateRow(s, id, req), t, r);
  }
}
