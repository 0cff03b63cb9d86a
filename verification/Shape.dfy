/** What no call ever changes: which match rows exist, the group pairings and the group memberships. */
module Shape {
  import opened Tables
  import opened MatchUpdates
  import opened Runs

  /** How many matches round r of the bracket has; index 1 of round 5 is the third-place match. */
  function Size(r: int): nat {
    if r == 1 then 16 else if r == 2 then 8 else if r == 3 then 4 else if r == 4 || r == 5 then 2 else 0
  }

  predicate InBracket(r: int, i: int) {
    0 <= i < Size(r)
  }

  /** A group fixture pairs two different countries of the same group. */
  predicate IsFixture(s: Tables, row: MatchRow) {
    && row.country1.Some? && row.country2.Some? && row.country1 != row.country2
    && row.country1.value in s.standings && row.country2.value in s.standings
    && s.standings[row.country1.value].letter == s.standings[row.country2.value].letter
  }

  /** The match rows are n group fixtures with distinct pairings and the 32 bracket rows. */
  ghost predicate WellShaped(s: Tables, n: nat) {
    && (forall k: nat :: GroupMatch(k) in s.matches <==> k < n)
    && (forall r: nat, i: nat :: KnockoutMatch(r, i) in s.matches <==> InBracket(r, i))
    && (forall k: nat :: k < n ==> IsFixture(s, s.matches[GroupMatch(k)]))
    && (forall j: nat, k: nat :: j < n && k < n && j != k ==>
          !IsPairing(s.matches[GroupMatch(k)], s.matches[GroupMatch(j)].country1, s.matches[GroupMatch(j)].country2))
  }

  /** The parts of the tables that WellShaped reads are the same in both. */
  ghost predicate SameShape(s: Tables, t: Tables) {
    && t.matches.Keys == s.matches.Keys
    && t.standings.Keys == s.standings.Keys
    && (forall c :: c in s.standings ==> t.standings[c].letter == s.standings[c].letter)
    && (forall k: nat :: GroupMatch(k) in s.matches ==>
          && t.matches[GroupMatch(k)].country1 == s.matches[GroupMatch(k)].country1
          && t.matches[GroupMatch(k)].country2 == s.matches[GroupMatch(k)].country2)
  }

  lemma KnockoutResultKeepsShape(s: Tables, id: MatchId, row: MatchRow)
    requires id.KnockoutMatch?
    ensures var outcome := RecordKnockoutResult(s, id, row);
      outcome.Success? ==> SameShape(s, outcome.value)
  {
  }

  lemma UpdateRowKeepsShape(s: Tables, id: MatchId, req: MatchRequest)
    requires id in s.matches
    ensures var outcome := UpdateRow(s, id, req); outcome.Success? ==> SameShape(s, outcome.value)
  {
    var row := Merge(s, s.matches[id], Round(id) > 0, req);
    var tx := s.(matches := s.matches[id := row]);
    assert SameShape(s, tx);
    if Round(id) > 0 {
      KnockoutResultKeepsShape(tx, id, row);
    }
  }

  lemma StepKeepsShape(s: Tables, call: Call, t: Tables, r: Response)
    requires Step(s, call, t, r)
    ensures SameShape(s, t)
  {
    match call
    case UpdateMatch(req) =>
      forall id | id in Targets(s, req)
        ensures var outcome := UpdateRow(s, id, req); outcome.Success? ==> SameShape(s, outcome.value)
      {
        UpdateRowKeepsShape(s, id, req);
      }
    case _ =>
  }

  lemma ShapeKept(s: Tables, t: Tables, n: nat)
    requires WellShaped(s, n) && SameShape(s, t)
    ensures WellShaped(t, n)
  {
  }

  /** The request names these two countries, in either order, and both are known. */
  predicate Names(s: Tables, req: MatchRequest, c1: Option<Country>, c2: Option<Country>) {
    && Resolve(s.countries, req.country1).Some? && Resolve(s.countries, req.country2).Some?
    && ((req.country1 == c1 && req.country2 == c2) || (req.country1 == c2 && req.country2 == c1))
  }

  /** A round-0 request finds exactly the fixture of the two countries it names, whichever it names first. */
  lemma GroupLookupFinds(s: Tables, n: nat, k: nat, req: MatchRequest)
    requires WellShaped(s, n) && k < n && req.round == 0
    requires Names(s, req, s.matches[GroupMatch(k)].country1, s.matches[GroupMatch(k)].country2)
    ensures Targets(s, req) == {GroupMatch(k)}
  {
    assert GroupMatch(k) in Targets(s, req);
    forall id | id in Targets(s, req) ensures id == GroupMatch(k) {
    }
  }

  function GoalsOf(row: MatchRow, c: Option<Country>): Option<int> {
    if row.country1 == c then row.goals1 else if row.country2 == c then row.goals2 else None
  }

  /** The goals of a request are stored by the positions of the stored row: each country gets the goals the
      request gives it if and only if the request names them in the stored order, or the goals are level. */
  lemma GoalsGoByStoredOrder(s: Tables, n: nat, k: nat, req: MatchRequest, t: Tables)
    requires WellShaped(s, n) && k < n && req.round == 0 && req.goals1.Some? && req.goals2.Some?
    requires Names(s, req, s.matches[GroupMatch(k)].country1, s.matches[GroupMatch(k)].country2)
    requires UpdateRow(s, GroupMatch(k), req) == Success(t)
    ensures GroupMatch(k) in t.matches
    ensures var row := t.matches[GroupMatch(k)];
      GoalsOf(row, req.country1) == req.goals1 && GoalsOf(row, req.country2) == req.goals2
      <==> req.country1 == s.matches[GroupMatch(k)].country1 || req.goals1 == req.goals2
  {
    assert IsFixture(s, s.matches[GroupMatch(k)]);
    assert t.matches[GroupMatch(k)] == Merge(s, s.matches[GroupMatch(k)], false, req);
  }
}
