/** What a match update does, field by field. */
module MatchEffects {
  import opened Tables
  import opened MatchUpdates
  import opened Shape
  import opened Bracket
  import Subtrees

  // ---- which row a request finds ----

  /** With a round after the group stage and an index, the request finds the row with that round and index. */
  lemma LookupByIndex(s: Tables, req: MatchRequest, id: MatchId)
    requires req.round > 0 && req.roundIndex.Some?
    ensures id in Targets(s, req)
       <==> id in s.matches && id.KnockoutMatch? && id.round == req.round && id.index == req.roundIndex.value
  {
  }

  /** Otherwise it finds the rows of its round with its two countries in either order, and none when a country is
      missing or unknown. */
  lemma LookupByCountries(s: Tables, req: MatchRequest, id: MatchId)
    requires req.round <= 0 || req.roundIndex.None?
    ensures id in Targets(s, req)
       <==> && id in s.matches && (if id.KnockoutMatch? then id.round else 0) == req.round
            && req.country1.Some? && req.country1.value in s.countries
            && req.country2.Some? && req.country2.value in s.countries
            && ((s.matches[id].country1 == req.country1 && s.matches[id].country2 == req.country2)
                || (s.matches[id].country1 == req.country2 && s.matches[id].country2 == req.country1))
  {
  }

  /** A request that finds no row is refused: for want of two known countries when it does not go by index, for want
      of such a match otherwise. */
  lemma FindingNothing(s: Tables, req: MatchRequest, t: Tables, r: Response)
    requires UpdateMatchStep(s, req, t, r) && forall id :: id in s.matches ==> id !in Targets(s, req)
    ensures t == s
    ensures r == Rejected(
      if (req.round > 0 && req.roundIndex.Some?)
         || (req.country1.Some? && req.country1.value in s.countries
             && req.country2.Some? && req.country2.value in s.countries)
      then NoSuchMatch else CountriesUndefined)
  {
    assert Targets(s, req) == {};
  }

  /** In a bracket that holds, two countries meet at most once in a round, so a lookup by two countries finds at most
      one row of a knockout round. */
  lemma KnockoutPairIsUnique(s: Tables, req: MatchRequest, a: MatchId, b: MatchId)
    requires BracketHolds(s.matches) && req.round > 0 && req.roundIndex.None?
    requires a in Targets(s, req) && b in Targets(s, req)
    ensures a == b
  {
    LookupByCountries(s, req, a);
    LookupByCountries(s, req, b);
    assert InBracket(a.round, a.index) && InBracket(b.round, b.index);
    var x := if Slot(s.matches, a.round, a.index, 0) == req.country1 then 0 else 1;
    var y := if Slot(s.matches, b.round, b.index, 0) == req.country1 then 0 else 1;
    assert Slot(s.matches, a.round, a.index, x) == Slot(s.matches, b.round, b.index, y) == req.country1;
    if a.round == 5 && a.index == 1 {
      Subtrees.LastRoundDisjoint(s.matches, x, b.index, y);
    } else if a.round == 5 && b.index == 1 {
      Subtrees.LastRoundDisjoint(s.matches, y, a.index, x);
    } else {
      Subtrees.OncePerRound(s.matches, a.round, a.index, x, b.index, y);
    }
  }

  // ---- the row after the update ----

  /** Every field of the row is the request's where the request has it, and the old one where it has not; countries
      and penalties only on knockout rows, and only countries that are known. */
  lemma UpdateStoresFields(s: Tables, id: MatchId, req: MatchRequest, t: Tables)
    requires id in s.matches && UpdateRow(s, id, req) == Success(t)
    ensures id in t.matches
    ensures var was, row := s.matches[id], t.matches[id];
      && row.goals1 == (if req.goals1.Some? then req.goals1 else was.goals1)
      && row.goals2 == (if req.goals2.Some? then req.goals2 else was.goals2)
      && row.conduct1 == (if req.conduct1.Some? then req.conduct1 else was.conduct1)
      && row.conduct2 == (if req.conduct2.Some? then req.conduct2 else was.conduct2)
    ensures var was, row, knockout := s.matches[id], t.matches[id], id.KnockoutMatch? && id.round > 0;
      && row.penalties1 == (if knockout && req.penalties1.Some? then req.penalties1 else was.penalties1)
      && row.penalties2 == (if knockout && req.penalties2.Some? then req.penalties2 else was.penalties2)
    ensures var was, row, knockout := s.matches[id], t.matches[id], id.KnockoutMatch? && id.round > 0;
      && row.country1 == (if knockout && req.country1.Some? && req.country1.value in s.countries
                          then req.country1 else was.country1)
      && row.country2 == (if knockout && req.country2.Some? && req.country2.value in s.countries
                          then req.country2 else was.country2)
  {
    assert t.matches[id] == Merge(s, s.matches[id], Round(id) > 0, req) by {
      UpdatedRow(s, id, req, t);
    }
  }

  /** The advance of a winner and a loser does not come back to the row itself. */
  lemma UpdatedRow(s: Tables, id: MatchId, req: MatchRequest, t: Tables)
    requires id in s.matches && UpdateRow(s, id, req) == Success(t)
    ensures id in t.matches && t.matches[id] == Merge(s, s.matches[id], Round(id) > 0, req)
  {
  }

  /** The two goals of a match may come in two requests. */
  lemma GoalsInTwoRequests(s: Tables, id: MatchId, first: MatchRequest, between: Tables, second: MatchRequest,
                           t: Tables)
    requires id in s.matches && UpdateRow(s, id, first) == Success(between)
    requires id in between.matches && UpdateRow(between, id, second) == Success(t)
    requires first.goals1.Some? && second.goals1.None? && second.goals2.Some?
    ensures id in t.matches && t.matches[id].goals1 == first.goals1 && t.matches[id].goals2 == second.goals2
  {
    UpdateStoresFields(s, id, first, between);
    UpdateStoresFields(between, id, second, t);
  }

  /** While a goal is missing the row is all that changes. */
  lemma OpenUpdateIsAlone(s: Tables, id: MatchId, req: MatchRequest, t: Tables)
    requires id in s.matches && UpdateRow(s, id, req) == Success(t) && id in t.matches
    requires t.matches[id].goals1.None? || t.matches[id].goals2.None?
    ensures t == s.(matches := s.matches[id := t.matches[id]])
  {
    UpdatedRow(s, id, req, t);
  }

  // ---- when an update is accepted ----

  /** The field after the update. */
  function After<T>(sent: Option<T>, stored: Option<T>): Option<T> {
    if sent.Some? then sent else stored
  }

  /** The country of a slot after the update. */
  function CountryAfter(s: Tables, knockout: bool, sent: Option<Country>, stored: Option<Country>): Option<Country> {
    if knockout && sent.Some? && sent.value in s.countries then sent else stored
  }

  /** An update of a row is refused exactly when the row has both goals, or when it gets both goals without two
      countries or, in the group stage, without a standing for both. */
  lemma UpdateIsAcceptedIff(s: Tables, id: MatchId, req: MatchRequest)
    requires id in s.matches
    ensures var was, knockout := s.matches[id], id.KnockoutMatch? && id.round > 0;
      var c1 := CountryAfter(s, knockout, req.country1, was.country1);
      var c2 := CountryAfter(s, knockout, req.country2, was.country2);
      var completes := After(req.goals1, was.goals1).Some? && After(req.goals2, was.goals2).Some?;
      UpdateRow(s, id, req).Success? <==>
        && (was.goals1.None? || was.goals2.None?)
        && (completes ==> c1.Some? && c2.Some?)
        && (completes && !knockout ==> c1.value in s.standings && c2.value in s.standings)
  {
  }

  /** Why it is refused. */
  lemma UpdateErrors(s: Tables, id: MatchId, req: MatchRequest, e: Error)
    requires id in s.matches && UpdateRow(s, id, req) == Failure(e)
    ensures var was, knockout := s.matches[id], id.KnockoutMatch? && id.round > 0;
      var c1 := CountryAfter(s, knockout, req.country1, was.country1);
      var c2 := CountryAfter(s, knockout, req.country2, was.country2);
      e == if was.goals1.Some? && was.goals2.Some? then AlreadyCompleted
           else if c1.None? || c2.None? then CountriesUndefined
           else StandingMissing
  {
  }

  // ---- a completed group match ----

  /** The standing of a country after a match with these goals for and against it and this conduct. */
  predicate Counts(was: GroupStanding, st: GroupStanding, scored: int, conceded: int, conduct: Option<int>) {
    && st.gf == was.gf + scored && st.ga == was.ga + conceded && st.gd == st.gf - st.ga
    && st.cs == was.cs + (if conduct.Some? then conduct.value else 0)
    && st.wins == was.wins + (if scored > conceded then 1 else 0)
    && st.draws == was.draws + (if scored == conceded then 1 else 0)
    && st.losses == was.losses + (if scored < conceded then 1 else 0)
    && st.points == was.points + (if scored > conceded then 3 else if scored == conceded then 1 else 0)
    && st.letter == was.letter && st.rank == was.rank && st.qualifier == was.qualifier
  }

  /** Completing a group match counts the stored goals and conduct of each side for its own country, and touches no
      other standing, no other match and no other table. */
  lemma CompletedMatchCounts(s: Tables, id: MatchId, req: MatchRequest, t: Tables)
    requires id in s.matches && id.GroupMatch? && UpdateRow(s, id, req) == Success(t) && id in t.matches
    requires t.matches[id].goals1.Some? && t.matches[id].goals2.Some?
    requires s.matches[id].country1.Some? && s.matches[id].country2.Some?
    requires s.matches[id].country1 != s.matches[id].country2
    ensures t == s.(matches := s.matches[id := t.matches[id]], standings := t.standings)
    ensures t.standings.Keys == s.standings.Keys
    ensures var row, c1, c2 := t.matches[id], s.matches[id].country1.value, s.matches[id].country2.value;
      && c1 in s.standings && c2 in s.standings
      && Counts(s.standings[c1], t.standings[c1], row.goals1.value, row.goals2.value, row.conduct1)
      && Counts(s.standings[c2], t.standings[c2], row.goals2.value, row.goals1.value, row.conduct2)
      && forall c :: c in s.standings && c != c1 && c != c2 ==> t.standings[c] == s.standings[c]
  {
    UpdatedRow(s, id, req, t);
    var tx := s.(matches := s.matches[id := t.matches[id]]);
    assert RecordGroupResult(tx, t.matches[id]) == Success(t);
  }

  // ---- a decided knockout match ----

  /** One side of the completed row outscored the other one. */
  predicate WonBy(row: MatchRow, winner: Country, loser: Country) {
    && row.goals1.Some? && row.goals2.Some? && row.country1.Some? && row.country2.Some?
    && ((Outscores(row.goals1, row.penalties1, row.goals2, row.penalties2)
         && winner == row.country1.value && loser == row.country2.value)
        || (Outscores(row.goals2, row.penalties2, row.goals1, row.penalties1)
            && winner == row.country2.value && loser == row.country1.value))
  }

  lemma DecidedUpdate(s: Tables, id: MatchId, req: MatchRequest, t: Tables, winner: Country, loser: Country)
    requires id in s.matches && id.KnockoutMatch? && id.round > 0 && UpdateRow(s, id, req) == Success(t)
    requires id in t.matches && WonBy(t.matches[id], winner, loser)
    ensures t == RecordWin(s.(matches := s.matches[id := t.matches[id]]), id.round, id.index, winner, loser)
  {
    UpdatedRow(s, id, req, t);
    assert Winner(t.matches[id]) == Some(winner) && Loser(t.matches[id]) == Some(loser);
  }

  /** What winning a match of each round records and pays: the round reached and the points for having picked that. */
  const REWARDS: seq<(int, int)> := [(0, 0), (2, 15), (3, 20), (4, 25), (5, 30), (6, 35)]
  const THIRD_PLACE: (int, int) := (7, 5)

  function Reward(r: nat, i: nat): (int, int)
    requires InBracket(r, i)
  {
    if r == 5 && i == 1 then THIRD_PLACE else REWARDS[r]
  }

  /** A decided match pays exactly the users who picked the winner for the round it reaches. */
  lemma DecidedMatchPays(s: Tables, id: MatchId, req: MatchRequest, t: Tables, winner: Country, loser: Country, u: User)
    requires id in s.matches && id.KnockoutMatch? && InBracket(id.round, id.index)
    requires UpdateRow(s, id, req) == Success(t)
    requires id in t.matches && WonBy(t.matches[id], winner, loser)
    ensures var (round, points) := Reward(id.round, id.index);
      var was := ScoreOf(s.scores, u);
      ScoreOf(t.scores, u)
      == if KnockoutPickRow(u, winner, round) in s.knockoutPicks then was.(knockout := was.knockout + points) else was
  {
    DecidedUpdate(s, id, req, t, winner, loser);
  }

  /** It records the round of the winner, and 5 for the loser of a semifinal. */
  lemma DecidedMatchRecords(s: Tables, id: MatchId, req: MatchRequest, t: Tables, winner: Country, loser: Country)
    requires id in s.matches && id.KnockoutMatch? && InBracket(id.round, id.index)
    requires UpdateRow(s, id, req) == Success(t)
    requires id in t.matches && WonBy(t.matches[id], winner, loser)
    ensures t == s.(matches := t.matches, knockoutStandings := t.knockoutStandings, scores := t.scores)
    ensures var upserted := s.knockoutStandings[winner := Reward(id.round, id.index).0];
      t.knockoutStandings == if id.round == 4 then upserted[loser := 5] else upserted
  {
    DecidedUpdate(s, id, req, t, winner, loser);
  }

  /** It moves the winner to the next round, to the slot given by the parity of the index, and a beaten semifinalist to
      the slot of its semifinal in the third-place match, and changes no other row. */
  lemma DecidedMatchFills(s: Tables, id: MatchId, req: MatchRequest, t: Tables, winner: Country, loser: Country,
                          other: MatchId)
    requires id in s.matches && id.KnockoutMatch? && InBracket(id.round, id.index)
    requires UpdateRow(s, id, req) == Success(t)
    requires id in t.matches && WonBy(t.matches[id], winner, loser) && other in s.matches && other != id
    ensures other in t.matches
    ensures var was, row := s.matches[other], t.matches[other];
      if id.round == 4 && other == KnockoutMatch(5, 1) then
        row == (if id.index == 0 then was.(country1 := Some(loser)) else was.(country2 := Some(loser)))
      else if id.round < 5 && other == KnockoutMatch(id.round + 1, id.index / 2) then
        row == (if id.index % 2 == 0 then was.(country1 := Some(winner)) else was.(country2 := Some(winner)))
      else row == was
  {
    DecidedUpdate(s, id, req, t, winner, loser);
  }

  /** A tie that penalties do not settle completes the match and does nothing else. */
  lemma TieMovesNobody(s: Tables, id: MatchId, req: MatchRequest, t: Tables)
    requires id in s.matches && id.KnockoutMatch? && id.round > 0 && UpdateRow(s, id, req) == Success(t)
    requires id in t.matches && t.matches[id].goals1.Some? && t.matches[id].goals1 == t.matches[id].goals2
    requires var row := t.matches[id]; row.penalties1.None? || row.penalties2.None? || row.penalties1 == row.penalties2
    ensures t == s.(matches := s.matches[id := t.matches[id]])
  {
    UpdatedRow(s, id, req, t);
    assert Winner(t.matches[id]).None?;
  }
}
