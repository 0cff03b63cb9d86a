/** The repository calls, statement by statement, on the tables of one contest. */
module Store {
  import opened Tables
  import opened MatchUpdates
  import opened GroupFinalization
  import opened PickSheets
  import opened Runs
  import opened AwardLoop

  class Repository {
    /** The committed tables. A method works on a copy and stores it back to commit. */
    var tables: Tables

    constructor (tables: Tables)
      ensures this.tables == tables
    {
      this.tables := tables;
    }

    method UpdateMatch(req: MatchRequest) returns (r: Response)
      modifies this
      ensures Step(old(tables), Call.UpdateMatch(req), tables, r)
    {
      var c1 := Resolve(tables.countries, req.country1);
      var c2 := Resolve(tables.countries, req.country2);

      // Find the row, by round and index or by its two countries.
      if !ByIndex(req) && (c1.None? || c2.None?) {
        return Rejected(CountriesUndefined);
      }
      var targets := Targets(tables, req);
      if targets == {} {
        return Rejected(NoSuchMatch);
      }
      var id :| id in targets;
      var existing := tables.matches[id];
      var isKnockout := ByIndex(req) || Round(id) > 0;
      if existing.goals1.Some? && existing.goals2.Some? {
        return Rejected(AlreadyCompleted);
      }

      var updated, hasUpdates := OverwriteFields(tables, existing, isKnockout, req);
      if !hasUpdates {
        return Done;
      }

      var tx := tables.(matches := tables.matches[id := updated]);
      if updated.goals1.Some? && updated.goals2.Some? {
        var outcome;
        if !isKnockout {
          outcome := UpdateStandings(tx, existing, updated);
        } else {
          outcome := UpdateBracket(tx, id, updated);
        }
        if outcome.Failure? {
          return Rejected(outcome.error);
        }
        tx := outcome.value;
      }
      tables := tx;
      return Done;
    }

    /** Overwrites the fields the request carries, countries and penalties on knockout rows only. */
    static method OverwriteFields(s: Tables, existing: MatchRow, isKnockout: bool, req: MatchRequest)
      returns (updated: MatchRow, hasUpdates: bool)
      ensures updated == Merge(s, existing, isKnockout, req)
      ensures hasUpdates == !NothingToUpdate(s, isKnockout, req)
    {
      var c1, c2 := Resolve(s.countries, req.country1), Resolve(s.countries, req.country2);
      updated, hasUpdates := existing, false;
      if isKnockout {
        if c1.Some? { updated, hasUpdates := updated.(country1 := c1), true; }
        if c2.Some? { updated, hasUpdates := updated.(country2 := c2), true; }
      }
      if req.goals1.Some? { updated, hasUpdates := updated.(goals1 := req.goals1), true; }
      if req.goals2.Some? { updated, hasUpdates := updated.(goals2 := req.goals2), true; }
      if req.conduct1.Some? { updated, hasUpdates := updated.(conduct1 := req.conduct1), true; }
      if req.conduct2.Some? { updated, hasUpdates := updated.(conduct2 := req.conduct2), true; }
      if isKnockout {
        if req.penalties1.Some? { updated, hasUpdates := updated.(penalties1 := req.penalties1), true; }
        if req.penalties2.Some? { updated, hasUpdates := updated.(penalties2 := req.penalties2), true; }
      }
    }

    /** The standings of the two countries of a completed group match. */
    static method UpdateStandings(s: Tables, existing: MatchRow, updated: MatchRow) returns (outcome: Result<Tables>)
      requires Complete(updated) && !Complete(existing)
      requires updated.country1 == existing.country1 && updated.country2 == existing.country2
      ensures outcome == RecordGroupResult(s, updated)
    {
      if existing.country1.None? || existing.country2.None? {
        return Failure(CountriesUndefined);
      }
      var c1, c2 := existing.country1.value, existing.country2.value;
      if c1 !in s.standings || c2 !in s.standings {
        return Failure(StandingMissing);
      }
      if existing.goals1.Some? && existing.goals2.Some? {
        // The branch that takes back an earlier score: the caller's guard has closed it.
        assert false;
      }
      var standing1, standing2 := ApplyResult(s.standings[c1], s.standings[c2], updated);
      return Success(s.(standings := s.standings[c1 := standing1][c2 := standing2]));
    }

    static method UpdateBracket(s: Tables, id: MatchId, updated: MatchRow) returns (outcome: Result<Tables>)
      requires id.KnockoutMatch? && Complete(updated)
      ensures outcome == RecordKnockoutResult(s, id, updated)
    {
      if updated.country1.None? || updated.country2.None? {
        return Failure(CountriesUndefined);
      }
      var hasWinner, winner, loser := ChooseWinner(updated);
      var tx := s;
      if hasWinner {
        tx := ProgressBracket(tx, id.round, id.index, winner, loser);
      }
      return Success(tx);
    }

    /** The counters of the two standings rows after a group result. */
    static method ApplyResult(s1: GroupStanding, s2: GroupStanding, row: MatchRow)
      returns (standing1: GroupStanding, standing2: GroupStanding)
      requires Complete(row)
      ensures standing1 == AddResult(s1, row.goals1.value, row.goals2.value, OrZero(row.conduct1))
      ensures standing2 == AddResult(s2, row.goals2.value, row.goals1.value, OrZero(row.conduct2))
    {
      standing1, standing2 := s1, s2;
      var g1, g2 := row.goals1.value, row.goals2.value;
      var cs1, cs2 := 0, 0;
      if row.conduct1.Some? { cs1 := row.conduct1.value; }
      if row.conduct2.Some? { cs2 := row.conduct2.value; }
      standing1 := standing1.(gf := standing1.gf + g1, ga := standing1.ga + g2);
      standing1 := standing1.(gd := standing1.gf - standing1.ga, cs := standing1.cs + cs1);
      standing2 := standing2.(gf := standing2.gf + g2, ga := standing2.ga + g1);
      standing2 := standing2.(gd := standing2.gf - standing2.ga, cs := standing2.cs + cs2);
      if g1 > g2 {
        standing1 := standing1.(wins := standing1.wins + 1, points := standing1.points + 3);
        standing2 := standing2.(losses := standing2.losses + 1);
      } else if g1 == g2 {
        standing1 := standing1.(draws := standing1.draws + 1, points := standing1.points + 1);
        standing2 := standing2.(draws := standing2.draws + 1, points := standing2.points + 1);
      } else {
        standing1 := standing1.(losses := standing1.losses + 1);
        standing2 := standing2.(wins := standing2.wins + 1, points := standing2.points + 3);
      }
    }

    static method ChooseWinner(row: MatchRow) returns (hasWinner: bool, winner: Country, loser: Country)
      requires Complete(row) && row.country1.Some? && row.country2.Some?
      ensures hasWinner == Decided(row)
      ensures hasWinner ==> Winner(row) == Some(winner) && Loser(row) == Some(loser)
    {
      var c1, c2 := row.country1.value, row.country2.value;
      hasWinner, winner, loser := false, c1, c2;
      if row.goals1.value > row.goals2.value {
        hasWinner, winner, loser := true, c1, c2;
      } else if row.goals1.value < row.goals2.value {
        hasWinner, winner, loser := true, c2, c1;
      } else if row.penalties1.Some? && row.penalties2.Some? {
        if row.penalties1.value > row.penalties2.value {
          hasWinner, winner, loser := true, c1, c2;
        } else if row.penalties1.value < row.penalties2.value {
          hasWinner, winner, loser := true, c2, c1;
        }
      }
    }

    /** Puts the winner into the next round, and a beaten semifinalist into the third-place match. */
    static method SeedTargets(s: map<MatchId, MatchRow>, r: nat, i: nat, winner: Country, loser: Country)
      returns (matches: map<MatchId, MatchRow>)
      ensures matches == Advance(s, r, i, winner, loser)
    {
      matches := s;
      var nextRound, nextIndex := r + 1, i / 2;
      if r < 5 {
        var slot := if i % 2 == 0 then 0 else 1;
        matches := SetSlot(matches, KnockoutMatch(nextRound, nextIndex), slot, winner);
      }
      if r == 4 {
        var slot := if i == 0 then 0 else 1;
        matches := SetSlot(matches, KnockoutMatch(5, 1), slot, loser);
      }
    }

    /** The round a winner has achieved and the points for having picked it. */
    static method AwardFor(r: nat, i: nat) returns (achieved: nat, points: nat)
      ensures achieved == Achieved(r, i) && points == Points(r, i)
    {
      achieved, points := 0, 0;
      if r == 1 { achieved, points := 2, 15; }
      else if r == 2 { achieved, points := 3, 20; }
      else if r == 3 { achieved, points := 4, 25; }
      else if r == 4 { achieved, points := 5, 30; }
      else if r == 5 { if i == 1 { achieved, points := 7, 5; } else { achieved, points := 6, 35; } }
    }

    /** Seeds the winner (and a beaten semifinalist), records both and credits the users who picked the winner. */
    static method ProgressBracket(s: Tables, r: nat, i: nat, winner: Country, loser: Country) returns (tx: Tables)
      ensures tx == RecordWin(s, r, i, winner, loser)
    {
      var matches := SeedTargets(s.matches, r, i, winner, loser);
      tx := s.(matches := matches);
      var achieved, points := AwardFor(r, i);
      if achieved > 0 {
        tx := tx.(knockoutStandings := tx.knockoutStandings[winner := achieved]);
        if points > 0 {
          var scores := CreditPickers(tx.scores, Pickers(tx.knockoutPicks, winner, achieved), points);
          tx := tx.(scores := scores);
        }
      }
      if r == 4 {
        tx := tx.(knockoutStandings := tx.knockoutStandings[loser := 5]);
      }
    }

    /** One upsert per user, in any order. */
    static method CreditPickers(s: map<User, Score>, users: set<User>, points: int) returns (scores: map<User, Score>)
      ensures scores == CreditKnockout(s, users, points)
    {
      scores := s;
      var left := users;
      while left != {}
        invariant left <= users
        invariant scores == CreditKnockout(s, users - left, points)
      {
        var u :| u in left;
        left := left - {u};
        var score := ScoreOf(scores, u);
        scores := scores[u := score.(knockout := score.knockout + points)];
      }
      assert users - left == users;
    }

    method FinalizeGroupRankings(letter: Letter, ranking: seq<Country>) returns (r: Response)
      modifies this
      ensures Step(old(tables), Call.FinalizeGroupRankings(letter, ranking), tables, r)
    {
      if HasIncompleteMatch(tables, letter) {
        return Rejected(IncompleteMatches);
      }
      if Ranked(tables, letter) {
        return Rejected(AlreadyFinalized);
      }
      var known, rankMap, standings := AssignRanks(tables, ranking);
      if !known {
        return Rejected(UnknownCountry);
      }
      var userPoints := AddUpPoints(tables.groupPicks, letter, ranking, rankMap);
      var scores := CreditPoints(tables.scores, userPoints);
      assert scores == CreditRanking(tables.scores, tables.groupPicks, letter, ranking);
      tables := tables.(standings := standings, scores := scores);
      return Done;
    }

    /** Walks the list, writing each position as a rank; stops at a name the countries table does not know. */
    static method AssignRanks(s: Tables, ranking: seq<Country>)
      returns (known: bool, rankMap: map<Country, nat>, standings: map<Country, GroupStanding>)
      ensures known == forall c :: c in ranking ==> c in s.countries
      ensures known ==> rankMap == RankMap(ranking)
      ensures known ==> standings == WithRanks(s.standings, ranking)
    {
      known, rankMap, standings := true, map[], s.standings;
      for idx := 0 to |ranking|
        invariant known && forall k :: 0 <= k < idx ==> ranking[k] in s.countries
        invariant rankMap == RankMap(ranking[..idx])
        invariant standings == WithRanks(s.standings, ranking[..idx])
      {
        var c := ranking[idx];
        if c !in s.countries {
          known := false;
          return;
        }
        RankMapExtend(ranking, idx);
        WithRanksExtend(s.standings, ranking, idx);
        rankMap := rankMap[c := idx + 1];
        if c in standings {
          standings := standings[c := standings[c].(rank := Some(idx + 1))];
        }
      }
      assert ranking[..|ranking|] == ranking;
    }

    /** The points of every user with a row for a ranked country, reading the rows in any order. */
    static method AddUpPoints(picks: PickTable, letter: Letter, ranking: seq<Country>, rankMap: map<Country, nat>)
      returns (userPoints: map<User, int>)
      requires rankMap == RankMap(ranking)
      ensures userPoints.Keys == Predictors(picks, letter, ranking)
      ensures forall u :: u in userPoints ==> userPoints[u] == RankingPoints(picks, letter, ranking, u)
    {
      var rows := set k | k in picks && picks[k].letter == letter;
      var left := rows;
      userPoints := map[];
      while left != {}
        invariant left <= rows
        invariant Tallies(userPoints, picks, rows - left, letter, ranking)
      {
        var key :| key in left;
        assert rows - (left - {key}) == rows - left + {key};
        if key.1 in rankMap {
          var award := PickAward(rankMap[key.1], picks[key].place);
          TallyRow(userPoints, picks, rows - left, key.0, key.1, letter, ranking);
          var points := if key.0 in userPoints then userPoints[key.0] else 0;
          userPoints := userPoints[key.0 := points + award];
        } else {
          TallyUnranked(userPoints, picks, rows - left, key, letter, ranking);
        }
        left := left - {key};
      }
      TalliesAll(userPoints, picks, rows - left, letter, ranking);
    }

    static method PickAward(actualRank: int, place: int) returns (points: int)
      ensures points == Award(actualRank, place)
    {
      var multiplier, basePoints := 0, 0;
      match place {
        case 1 => multiplier := 3;
        case 2 => multiplier := 2;
        case 3 => multiplier := 1;
        case _ =>
      }
      match actualRank {
        case 1 => basePoints := 10;
        case 2 => basePoints := 6;
        case 3 => basePoints := 3;
        case 4 => basePoints := 1;
        case _ =>
      }
      points := basePoints * multiplier;
    }

    /** One upsert per entry of the map, in any order. */
    static method CreditPoints(s: map<User, Score>, userPoints: map<User, int>) returns (scores: map<User, Score>)
      ensures scores == map u | u in s.Keys + userPoints.Keys ::
        if u in userPoints then ScoreOf(s, u).(group := ScoreOf(s, u).group + userPoints[u]) else ScoreOf(s, u)
    {
      scores := s;
      var left := userPoints.Keys;
      while left != {}
        invariant left <= userPoints.Keys
        invariant scores == map u | u in s.Keys + (userPoints.Keys - left) ::
          if u in userPoints.Keys - left
          then ScoreOf(s, u).(group := ScoreOf(s, u).group + userPoints[u])
          else ScoreOf(s, u)
      {
        var u :| u in left;
        left := left - {u};
        var score := ScoreOf(scores, u);
        scores := scores[u := score.(group := score.group + userPoints[u])];
      }
    }

    method FinalizeThirdPlaceQualifier(letter: Letter, qualifies: bool) returns (r: Response)
      modifies this
      ensures Step(old(tables), Call.FinalizeThirdPlaceQualifier(letter, qualifies), tables, r)
    {
      var thirds := Thirds(tables, letter);
      if thirds == {} {
        return Rejected(NotRanked);
      }
      var third :| third in thirds;
      if tables.standings[third].qualifier.Some? {
        ghost var paid := set k | k in tables.groupPicks && Predicts(tables.groupPicks, letter, k.0, qualifies) :: k.0;
        assert PaidFor(tables.groupPicks, letter, qualifies, paid);
        assert Commits(tables, FinalizeThird(tables, qualifies, third, paid), tables, Rejected(AlreadyFinalized));
        return Rejected(AlreadyFinalized);
      }
      var scores := CreditQualifier(tables.scores, tables.groupPicks, letter, qualifies);
      tables := tables.(standings := tables.standings[third := tables.standings[third].(qualifier := Some(qualifies))],
                        scores := scores);
      return Done;
    }

    /** SELECT DISTINCT (user, extra_qualifier) of the letter, of which the query layer keeps the first row of
        each user, then one upsert per row that matches. */
    static method CreditQualifier(s: map<User, Score>, picks: PickTable, letter: Letter, qualifies: bool)
      returns (scores: map<User, Score>)
      ensures exists paid :: PaidFor(picks, letter, qualifies, paid) && scores == CreditGroup(s, paid, 5)
    {
      var rows := set k | k in picks && picks[k].letter == letter :: (k.0, picks[k].extraQualifier);
      var left, kept: set<User> := rows, {};
      scores := s;
      ghost var paid: set<User> := {};
      while left != {}
        invariant left <= rows && paid <= kept
        invariant forall u :: u in kept <==> (u, true) in rows - left || (u, false) in rows - left
        invariant forall u :: (u in paid ==> (u, qualifies) in rows) && (u in kept - paid ==> (u, !qualifies) in rows)
        invariant scores == CreditGroup(s, paid, 5)
      {
        var row :| row in left;
        left := left - {row};
        if row.0 !in kept {
          kept := kept + {row.0};
          if row.1 == qualifies {
            var score := ScoreOf(scores, row.0);
            scores := scores[row.0 := score.(group := score.group + 5)];
            paid := paid + {row.0};
          }
        }
      }
      assert forall u, flag :: (u, flag) in rows <==> Predicts(picks, letter, u, flag);
      assert PaidFor(picks, letter, qualifies, paid);
    }

    method CreateGroupPicks(user: User, picks: seq<GroupPick>) returns (r: Response)
      modifies this
      ensures Step(old(tables), Call.CreateGroupPicks(user, picks), tables, r)
    {
      // The distinct letters of the request, whose rows are deleted.
      var letters: seq<Letter> := [];
      for k := 0 to |picks|
        invariant tables == old(tables)
        invariant forall l :: l in letters <==> Submits(picks[..k], l)
      {
        if picks[k].letter !in letters {
          letters := letters + [picks[k].letter];
        }
      }
      var tx := tables.(groupPicks := map k | k in tables.groupPicks
                                              && !(k.0 == user && tables.groupPicks[k].letter in letters)
                                      :: tables.groupPicks[k]);
      assert picks[..|picks|] == picks;
      assert tx.groupPicks == WithoutLetters(tables.groupPicks, user, picks);

      var rows: seq<NewPick> := [];
      for k := 0 to |picks|
        invariant tables == old(tables)
        invariant rows == AllRows(picks[..k])
        invariant forall i :: 0 <= i < |rows| ==> rows[i].country in tables.countries
      {
        var pick, start := picks[k], rows;
        for j := 0 to |pick.entries|
          invariant tables == old(tables)
          invariant rows == start + PickRows(pick)[..j]
          invariant forall i :: 0 <= i < |rows| ==> rows[i].country in tables.countries
        {
          var entry := pick.entries[j];
          if entry.country !in tables.countries {
            UnknownCountryRejects(tables, user, picks, k, j);
            return Rejected(UnknownCountry);
          }
          rows := rows + [NewPick(entry.country, GroupPickRow(pick.letter, entry.place, pick.extraQualifier))];
        }
        assert picks[..k + 1][..k] == picks[..k];
      }
      if rows == [] {
        return Done;
      }
      var inserted := InsertPicks(tx.groupPicks, user, rows);
      if inserted.None? {
        return Rejected(DuplicateKey);
      }
      tables := tx.(groupPicks := inserted.value, scores := EnsureScore(tx.scores, user));
      return Done;
    }

    method CreateKnockoutPicks(user: User, entries: seq<KnockoutPickEntry>) returns (r: Response)
      modifies this
      ensures Step(old(tables), Call.CreateKnockoutPicks(user, entries), tables, r)
    {
      var tx := tables.(knockoutPicks := OthersPicks(tables.knockoutPicks, user));
      for k := 0 to |entries|
        invariant tables == old(tables)
        invariant forall i :: 0 <= i < k ==> entries[i].country in tables.countries
      {
        if entries[k].country !in tables.countries {
          return Rejected(UnknownCountry);
        }
      }
      if entries == [] {
        return Done;
      }
      var inserted := InsertKnockout(tx.knockoutPicks, user, entries);
      if inserted.None? {
        return Rejected(DuplicateKey);
      }
      tables := tx.(knockoutPicks := inserted.value, scores := EnsureScore(tx.scores, user));
      return Done;
    }
  }
}
