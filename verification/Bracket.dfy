/** The knockout bracket: which match fills which slot. */
module Bracket {
  import opened Tables
  import opened MatchUpdates
  import opened Runs
  import opened Shape

  type MatchTable = map<MatchId, MatchRow>

  function Row(m: MatchTable, r: nat, i: nat): MatchRow {
    if KnockoutMatch(r, i) in m then m[KnockoutMatch(r, i)] else UNSEEDED
  }

  function Slot(m: MatchTable, r: nat, i: nat, s: nat): Option<Country> {
    if s == 0 then Row(m, r, i).country1 else Row(m, r, i).country2
  }

  /** Where slot s of a match after the Round of 32 comes from: slot s of match (r, i) is filled by the winner of
      (r - 1, 2i + s), and slot s of the third-place match (5, 1) by the loser of semifinal (4, s). */
  function Source(m: MatchTable, r: nat, i: nat, s: nat): Option<Country>
    requires r >= 2
  {
    if r == 5 && i == 1 then Loser(Row(m, 4, s)) else Winner(Row(m, r - 1, 2 * i + s))
  }

  /** Every slot after the Round of 32 holds its source: it is filled exactly when that match is decided. */
  ghost predicate Provenance(m: MatchTable) {
    forall r: nat, i: nat, s: nat {:trigger Slot(m, r, i, s)} ::
      2 <= r && InBracket(r, i) && s < 2 ==> Slot(m, r, i, s) == Source(m, r, i, s)
  }

  /** The Round of 32 holds 32 distinct countries. */
  ghost predicate Seeded(m: MatchTable) {
    && (forall i: nat, s: nat {:trigger Slot(m, 1, i, s)} :: i < 16 && s < 2 ==> Slot(m, 1, i, s).Some?)
    && (forall i: nat, s: nat, j: nat, t: nat {:trigger Slot(m, 1, i, s), Slot(m, 1, j, t)} ::
          i < 16 && s < 2 && j < 16 && t < 2 && Slot(m, 1, i, s) == Slot(m, 1, j, t) ==> i == j && s == t)
  }

  /** A completed knockout match has both its countries. */
  ghost predicate CompletedHaveCountries(m: MatchTable) {
    forall r: nat, i: nat {:trigger Row(m, r, i)} :: InBracket(r, i) && Complete(Row(m, r, i)) ==>
      Row(m, r, i).country1.Some? && Row(m, r, i).country2.Some?
  }

  ghost predicate HasBracketRows(m: MatchTable) {
    forall r: nat, i: nat :: KnockoutMatch(r, i) in m <==> InBracket(r, i)
  }

  ghost predicate BracketHolds(m: MatchTable) {
    HasBracketRows(m) && Seeded(m) && Provenance(m) && CompletedHaveCountries(m)
  }

  ghost predicate AllDecided(m: MatchTable) {
    forall r: nat, i: nat {:trigger Row(m, r, i)} :: InBracket(r, i) ==> Decided(Row(m, r, i))
  }

  /** The request puts no country into the row other than the one already there. */
  predicate KeepsSlots(s: Tables, row: MatchRow, req: MatchRequest) {
    && (Resolve(s.countries, req.country1).Some? ==> row.country1 == Resolve(s.countries, req.country1))
    && (Resolve(s.countries, req.country2).Some? ==> row.country2 == Resolve(s.countries, req.country2))
  }

  /** The request gives a Round-of-32 match two countries that differ from each other and from the other thirty. */
  ghost predicate Reseeds(s: Tables, id: MatchId, req: MatchRequest)
    requires id in s.matches
  {
    var row := Merge(s, s.matches[id], true, req);
    && id.KnockoutMatch? && id.round == 1
    && row.country1.Some? && row.country2.Some? && row.country1 != row.country2
    && forall j: nat, t: nat {:trigger Slot(s.matches, 1, j, t)} ::
         j < 16 && j != id.index && t < 2 ==>
           Slot(s.matches, 1, j, t) != row.country1 && Slot(s.matches, 1, j, t) != row.country2
  }

  /** The request may go to this knockout row: it leaves the slots alone, or corrects the seeding. */
  ghost predicate Fits(s: Tables, id: MatchId, req: MatchRequest)
    requires id in s.matches
  {
    KeepsSlots(s, s.matches[id], req) || Reseeds(s, id, req)
  }

  /** A knockout row that a match update of the call may write. */
  predicate MayWrite(s: Tables, call: Call, id: MatchId) {
    call.UpdateMatch? && id in Targets(s, call.req) && id.KnockoutMatch? && !Complete(s.matches[id])
  }

  /** The call fits the open knockout rows it finds. */
  ghost predicate Neutral(s: Tables, call: Call) {
    forall id :: MayWrite(s, call, id) ==> Fits(s, id, call.req)
  }

  /** The call leaves the slots of the open knockout rows it finds alone. */
  ghost predicate LeavesSlots(s: Tables, call: Call) {
    forall id :: MayWrite(s, call, id) ==> KeepsSlots(s, s.matches[id], call.req)
  }

  /** Requests that name no country after the seeding, as the seeder's knockout driver sends them. */
  lemma NamelessIsNeutral(s: Tables, call: Call)
    requires call.UpdateMatch? && call.req.country1.None? && call.req.country2.None?
    ensures LeavesSlots(s, call) && Neutral(s, call)
  {
  }

  /** The same rows, except for the slots of Round-of-32 matches that are still open. */
  ghost predicate SameButOpenSeeds(m: MatchTable, t: MatchTable) {
    forall r: nat, i: nat {:trigger Row(t, r, i)} ::
      Row(t, r, i) == Row(m, r, i) || (r == 1 && !Complete(Row(m, r, i)) && !Complete(Row(t, r, i)))
  }

  /** The tables with the countries of the request, and nothing else of it, in the row. */
  function Reseated(s: Tables, id: MatchId, req: MatchRequest): Tables
    requires id in s.matches
  {
    var row := Merge(s, s.matches[id], true, req);
    s.(matches := s.matches[id := s.matches[id].(country1 := row.country1, country2 := row.country2)])
  }

  /** A fitting request first corrects the seeding, which keeps the bracket, and then leaves the slots alone. */
  lemma ReseatedUpdate(s: Tables, id: MatchId, req: MatchRequest, t: Tables)
    requires id in s.matches && id.KnockoutMatch? && Round(id) > 0 && UpdateRow(s, id, req) == Success(t)
    ensures UpdateRow(Reseated(s, id, req), id, req) == Success(t)
    ensures KeepsSlots(Reseated(s, id, req), Reseated(s, id, req).matches[id], req)
    ensures KeepsSlots(s, s.matches[id], req) ==> Reseated(s, id, req) == s
  {
    var seated := Reseated(s, id, req);
    var row := Merge(s, s.matches[id], true, req);
    assert Merge(seated, seated.matches[id], true, req) == row;
    assert seated.(matches := seated.matches[id := row]) == s.(matches := s.matches[id := row]);
    if KeepsSlots(s, s.matches[id], req) {
      assert seated.matches == s.matches;
    }
  }

  lemma ReseatedKeepsBracket(s: Tables, id: MatchId, req: MatchRequest)
    requires BracketHolds(s.matches) && id in s.matches && !Complete(s.matches[id]) && Reseeds(s, id, req)
    ensures BracketHolds(Reseated(s, id, req).matches) && SameButOpenSeeds(s.matches, Reseated(s, id, req).matches)
  {
    var m, t := s.matches, Reseated(s, id, req).matches;
    forall r: nat, i: nat ensures Row(t, r, i) == if id == KnockoutMatch(r, i) then t[id] else Row(m, r, i) {
    }
    forall r: nat, i: nat, slot: nat | r != 1 || i != id.index ensures Slot(t, r, i, slot) == Slot(m, r, i, slot) {
    }
    forall r: nat, i: nat, slot: nat | 2 <= r && InBracket(r, i) && slot < 2
      ensures Slot(t, r, i, slot) == Source(t, r, i, slot)
    {
      assert Slot(m, r, i, slot) == Source(m, r, i, slot);
    }
    assert InBracket(1, id.index);
  }

  /** The rows of the bracket after match (r, i) got the given merged row. */
  lemma WriteRow(m: MatchTable, r: nat, i: nat, row: MatchRow)
    requires BracketHolds(m) && InBracket(r, i) && !Complete(Row(m, r, i))
    requires row.country1 == Slot(m, r, i, 0) && row.country2 == Slot(m, r, i, 1)
    requires Complete(row) ==> row.country1.Some? && row.country2.Some?
    requires Winner(row).None?
    ensures BracketHolds(m[KnockoutMatch(r, i) := row])
  {
    var m' := m[KnockoutMatch(r, i) := row];
    forall r': nat, i': nat, s: nat | InBracket(r', i') && s < 2
      ensures Slot(m', r', i', s) == Slot(m, r', i', s)
    {
    }
    forall r': nat, i': nat | InBracket(r', i')
      ensures Winner(Row(m', r', i')) == Winner(Row(m, r', i')) && Loser(Row(m', r', i')) == Loser(Row(m, r', i'))
    {
    }
  }

  /** Slot s of match (r', i') is where a decided match (r, i) sends its winner. */
  predicate WinnerGoesTo(r: nat, i: nat, r': nat, i': nat, s: nat) {
    r < 5 && r' == r + 1 && i' == i / 2 && s == i % 2
  }

  /** ... and its loser. */
  predicate LoserGoesTo(r: nat, i: nat, r': nat, i': nat, s: nat) {
    r == 4 && r' == 5 && i' == 1 && s == i
  }

  /** The matches fed by an incomplete match are themselves incomplete: one of their slots is empty. */
  lemma TargetIsOpen(m: MatchTable, r: nat, i: nat, r': nat, i': nat, s: nat)
    requires BracketHolds(m) && InBracket(r, i) && InBracket(r', i') && s < 2
    requires !Complete(Row(m, r, i))
    requires WinnerGoesTo(r, i, r', i', s) || LoserGoesTo(r, i, r', i', s)
    ensures Slot(m, r', i', s).None? && !Complete(Row(m, r', i'))
  {
  }

  /** The table after match (r, i) got the decided row `row`. */
  function AfterWin(m: MatchTable, r: nat, i: nat, row: MatchRow): MatchTable
    requires Decided(row)
  {
    Advance(m[KnockoutMatch(r, i) := row], r, i, Winner(row).value, Loser(row).value)
  }

  /** Deciding a match fills the slots it feeds and touches no other slot. */
  lemma WinFillsSlots(m: MatchTable, r: nat, i: nat, row: MatchRow, r': nat, i': nat, s: nat)
    requires HasBracketRows(m) && InBracket(r, i) && InBracket(r', i') && s < 2 && Decided(row)
    requires row.country1 == Slot(m, r, i, 0) && row.country2 == Slot(m, r, i, 1)
    ensures Slot(AfterWin(m, r, i, row), r', i', s)
         == if WinnerGoesTo(r, i, r', i', s) then Winner(row)
            else if LoserGoesTo(r, i, r', i', s) then Loser(row)
            else Slot(m, r', i', s)
  {
  }

  /** Deciding a match decides no other match. */
  lemma WinDecidesOne(m: MatchTable, r: nat, i: nat, row: MatchRow, r': nat, i': nat)
    requires BracketHolds(m) && InBracket(r, i) && InBracket(r', i') && Decided(row)
    requires !Complete(Row(m, r, i))
    requires row.country1 == Slot(m, r, i, 0) && row.country2 == Slot(m, r, i, 1)
    ensures var after := Row(AfterWin(m, r, i, row), r', i');
      if r' == r && i' == i then after == row
      else && Complete(after) == Complete(Row(m, r', i'))
           && (Complete(after) ==> after == Row(m, r', i'))
  {
    if r' == r + 1 && r < 5 && i' == i / 2 {
      TargetIsOpen(m, r, i, r', i', i % 2);
    }
    if r == 4 && r' == 5 && i' == 1 {
      TargetIsOpen(m, r, i, r', i', i);
    }
  }

  lemma WinKeepsBracket(m: MatchTable, r: nat, i: nat, row: MatchRow)
    requires BracketHolds(m) && InBracket(r, i) && Decided(row)
    requires !Complete(Row(m, r, i))
    requires row.country1 == Slot(m, r, i, 0) && row.country2 == Slot(m, r, i, 1)
    ensures BracketHolds(AfterWin(m, r, i, row))
  {
    var t := AfterWin(m, r, i, row);
    forall r': nat, i': nat, s: nat | InBracket(r', i') && s < 2
      ensures Slot(t, r', i', s) == if WinnerGoesTo(r, i, r', i', s) then Winner(row)
                                    else if LoserGoesTo(r, i, r', i', s) then Loser(row) else Slot(m, r', i', s)
    {
      WinFillsSlots(m, r, i, row, r', i', s);
    }
    forall r': nat, i': nat | InBracket(r', i')
      ensures var after := Row(t, r', i');
        if r' == r && i' == i then after == row
        else Complete(after) == Complete(Row(m, r', i')) && (Complete(after) ==> after == Row(m, r', i'))
    {
      WinDecidesOne(m, r, i, row, r', i');
    }
    forall r': nat, i': nat, s: nat | 2 <= r' && InBracket(r', i') && s < 2
      ensures Slot(t, r', i', s) == Source(t, r', i', s)
    {
      assert Slot(m, r', i', s) == Source(m, r', i', s);
      assert InBracket(4, s);
      assert !(r' == 5 && i' == 1) ==> InBracket(r' - 1, 2 * i' + s);
    }
  }

  /** The knockout standings after match (r, i) has been won and lost. */
  function Upserted(standings: map<Country, int>, r: nat, i: nat, winner: Country, loser: Country): map<Country, int>
    requires InBracket(r, i)
  {
    var upserted := standings[winner := Achieved(r, i)];
    if r == 4 then upserted[loser := 5] else upserted
  }

  /** An update of a knockout row either only writes the row or decides the match. */
  lemma KnockoutUpdateEffect(s: Tables, id: MatchId, req: MatchRequest, t: Tables)
    requires id in s.matches && id.KnockoutMatch? && InBracket(id.round, id.index)
    requires UpdateRow(s, id, req) == Success(t) && t != s
    ensures !Complete(s.matches[id])
    ensures t.knockoutPicks == s.knockoutPicks && t.groupPicks == s.groupPicks && t.standings == s.standings
      && t.countries == s.countries
    ensures var row := Merge(s, s.matches[id], true, req);
      if Decided(row) then
        && t.matches == AfterWin(s.matches, id.round, id.index, row)
        && t.scores
             == CreditKnockout(s.scores, Pickers(s.knockoutPicks, Winner(row).value, Achieved(id.round, id.index)),
                                      Points(id.round, id.index))
        && t.knockoutStandings == Upserted(s.knockoutStandings, id.round, id.index, Winner(row).value, Loser(row).value)
      else
        && t == s.(matches := s.matches[id := row])
        && (Complete(row) ==> row.country1.Some? && row.country2.Some?)
  {
  }

  lemma GroupUpdateSparesBracket(s: Tables, id: MatchId, req: MatchRequest, t: Tables)
    requires id in s.matches && id.GroupMatch? && UpdateRow(s, id, req) == Success(t)
    ensures t.knockoutPicks == s.knockoutPicks && t.scores == s.scores && t.knockoutStandings == s.knockoutStandings
    ensures forall r: nat, i: nat :: Row(t.matches, r, i) == Row(s.matches, r, i)
  {
  }

  /** The row that a changing update has found: a group match or a match of the bracket. */
  lemma ChangedBy(s: Tables, req: MatchRequest, t: Tables, r: Response) returns (id: MatchId)
    requires HasBracketRows(s.matches) && UpdateMatchStep(s, req, t, r) && t != s
    ensures id in Targets(s, req) && UpdateRow(s, id, req) == Success(t)
    ensures id.KnockoutMatch? ==> InBracket(id.round, id.index) && MayWrite(s, Call.UpdateMatch(req), id)
    ensures id.GroupMatch? ==>
      && t.knockoutPicks == s.knockoutPicks && t.scores == s.scores && t.knockoutStandings == s.knockoutStandings
      && forall r: nat, i: nat :: Row(t.matches, r, i) == Row(s.matches, r, i)
  {
    id := ChangingRow(s, req, t, r);
    if id.GroupMatch? {
      GroupUpdateSparesBracket(s, id, req, t);
    }
  }

  /** A changing, fitting knockout update starts from a bracket that differs in open seeds at most
      and whose slots it leaves alone. */
  lemma FittingUpdate(s: Tables, id: MatchId, req: MatchRequest, t: Tables) returns (seated: Tables)
    requires BracketHolds(s.matches) && id in s.matches && id.KnockoutMatch? && Fits(s, id, req)
    requires UpdateRow(s, id, req) == Success(t)
    ensures InBracket(id.round, id.index) && BracketHolds(seated.matches)
    ensures seated == s.(matches := seated.matches) && SameButOpenSeeds(s.matches, seated.matches)
      && id in seated.matches
    ensures UpdateRow(seated, id, req) == Success(t) && KeepsSlots(seated, seated.matches[id], req)
    ensures KeepsSlots(s, s.matches[id], req) ==> seated == s
    ensures !Complete(s.matches[id])
  {
    assert InBracket(id.round, id.index);
    seated := Reseated(s, id, req);
    ReseatedUpdate(s, id, req, t);
    if !KeepsSlots(s, s.matches[id], req) {
      ReseatedKeepsBracket(s, id, req);
    }
  }

  /** An update that leaves the slots alone keeps the bracket. */
  lemma UpdateKeepsBracket(s: Tables, id: MatchId, req: MatchRequest, t: Tables)
    requires BracketHolds(s.matches) && id in s.matches
    requires id.KnockoutMatch? ==> KeepsSlots(s, s.matches[id], req)
    requires UpdateRow(s, id, req) == Success(t)
    ensures BracketHolds(t.matches)
  {
    if t == s {
    } else if id.GroupMatch? {
      SameRowsKeepBracket(s.matches, t.matches);
    } else {
      var r, i := id.round, id.index;
      assert InBracket(r, i);
      var row := Merge(s, s.matches[id], true, req);
      KnockoutUpdateEffect(s, id, req, t);
      if Decided(row) {
        WinKeepsBracket(s.matches, r, i, row);
      } else {
        WriteRow(s.matches, r, i, row);
      }
    }
  }

  lemma SameRowsKeepBracket(m: MatchTable, t: MatchTable)
    requires BracketHolds(m)
    requires forall r: nat, i: nat :: KnockoutMatch(r, i) in m <==> KnockoutMatch(r, i) in t
    requires forall r: nat, i: nat :: Row(t, r, i) == Row(m, r, i)
    ensures BracketHolds(t)
  {
    forall r: nat, i: nat, s: nat ensures Slot(t, r, i, s) == Slot(m, r, i, s) {
    }
  }

  lemma StepKeepsBracket(s: Tables, call: Call, t: Tables, r: Response)
    requires BracketHolds(s.matches) && Neutral(s, call) && Step(s, call, t, r)
    ensures BracketHolds(t.matches)
  {
    if call.UpdateMatch? && t != s {
      var id := ChangedBy(s, call.req, t, r);
      if id.KnockoutMatch? {
        var seated := FittingUpdate(s, id, call.req, t);
        UpdateKeepsBracket(seated, id, call.req, t);
      } else {
        UpdateKeepsBracket(s, id, call.req, t);
      }
    }
  }

  ghost predicate NeutralAt(run: Run, k: nat) {
    k < |run.calls| && k < |run.states| && Neutral(run.states[k], run.calls[k])
  }

  ghost predicate NeutralRun(run: Run) {
    run.Valid() && forall k: nat {:trigger NeutralAt(run, k)} :: k < |run.calls| ==> NeutralAt(run, k)
  }

  lemma NeutralStep(run: Run, k: nat)
    requires NeutralRun(run) && k < |run.calls|
    ensures Step(run.states[k], run.calls[k], run.states[k + 1], run.responses[k])
      && Neutral(run.states[k], run.calls[k])
  {
    assert run.StepAt(k) && NeutralAt(run, k);
  }

  /** In every run after the seeding whose requests fit the rows they find, provenance holds in every state. */
  lemma {:induction false} ProvenanceAlways(run: Run, k: nat)
    requires NeutralRun(run) && k < |run.states| && BracketHolds(run.First().matches)
    ensures BracketHolds(run.states[k].matches)
  {
    if k > 0 {
      ProvenanceAlways(run, k - 1);
      NeutralStep(run, k - 1);
      StepKeepsBracket(run.states[k - 1], run.calls[k - 1], run.states[k], run.responses[k - 1]);
    }
  }

  // ---- what the invariant gives ----

  /** A freshly seeded, unplayed bracket satisfies it. */
  lemma SeedingStartsBracket(m: MatchTable)
    requires HasBracketRows(m) && Seeded(m)
    requires forall r: nat, i: nat {:trigger Row(m, r, i)} :: InBracket(r, i) ==> !Complete(Row(m, r, i))
    requires forall r: nat, i: nat, s: nat {:trigger Slot(m, r, i, s)} :: 2 <= r && InBracket(r, i) && s < 2 ==>
      Slot(m, r, i, s).None?
    ensures BracketHolds(m)
  {
  }

  lemma FrozenWhileSeated(s: Tables, id: MatchId, req: MatchRequest, t: Tables, r: nat, i: nat)
    requires BracketHolds(s.matches) && id in s.matches && id.KnockoutMatch? && KeepsSlots(s, s.matches[id], req)
    requires UpdateRow(s, id, req) == Success(t) && InBracket(r, i) && Complete(Row(s.matches, r, i))
    ensures Row(t.matches, r, i) == Row(s.matches, r, i)
  {
    if t != s {
      KnockoutUpdateEffect(s, id, req, t);
      var row := Merge(s, s.matches[id], true, req);
      if Decided(row) {
        WinDecidesOne(s.matches, id.round, id.index, row, r, i);
      }
    }
  }

  /** A completed match never changes again, in a neutral step. */
  lemma CompletedIsFrozen(s: Tables, call: Call, t: Tables, resp: Response, r: nat, i: nat)
    requires BracketHolds(s.matches) && Neutral(s, call) && Step(s, call, t, resp)
    requires InBracket(r, i) && Complete(Row(s.matches, r, i))
    ensures Row(t.matches, r, i) == Row(s.matches, r, i)
  {
    if call.UpdateMatch? && t != s {
      var id := ChangedBy(s, call.req, t, resp);
      if id.KnockoutMatch? {
        var seated := FittingUpdate(s, id, call.req, t);
        FrozenWhileSeated(seated, id, call.req, t, r, i);
      }
    }
  }

  lemma FilledWhileSeated(s: Tables, id: MatchId, req: MatchRequest, t: Tables, r: nat, i: nat, slot: nat)
    requires BracketHolds(s.matches) && id in s.matches && id.KnockoutMatch? && KeepsSlots(s, s.matches[id], req)
    requires UpdateRow(s, id, req) == Success(t) && InBracket(r, i) && slot < 2 && Slot(s.matches, r, i, slot).Some?
    ensures Slot(t.matches, r, i, slot) == Slot(s.matches, r, i, slot)
  {
    if t != s {
      var r', i' := id.round, id.index;
      KnockoutUpdateEffect(s, id, req, t);
      var row := Merge(s, s.matches[id], true, req);
      if Decided(row) {
        WinFillsSlots(s.matches, r', i', row, r, i, slot);
        if WinnerGoesTo(r', i', r, i, slot) || LoserGoesTo(r', i', r, i, slot) {
          TargetIsOpen(s.matches, r', i', r, i, slot);
        }
      }
    }
  }

  /** No filled slot is ever overwritten in a neutral step, except to correct the seeding of an open match. */
  lemma FilledStaysFilled(s: Tables, call: Call, t: Tables, resp: Response, r: nat, i: nat, slot: nat)
    requires BracketHolds(s.matches) && Neutral(s, call) && Step(s, call, t, resp)
    requires r >= 2 || Complete(Row(s.matches, r, i)) || LeavesSlots(s, call)
    requires InBracket(r, i) && slot < 2 && Slot(s.matches, r, i, slot).Some?
    ensures Slot(t.matches, r, i, slot) == Slot(s.matches, r, i, slot)
  {
    if call.UpdateMatch? && t != s {
      var id := ChangedBy(s, call.req, t, resp);
      if id.KnockoutMatch? {
        var seated := FittingUpdate(s, id, call.req, t);
        assert Row(seated.matches, r, i) == Row(s.matches, r, i);
        FilledWhileSeated(seated, id, call.req, t, r, i, slot);
      }
    }
  }

  ghost predicate LeavesSlotsAt(run: Run, k: nat) {
    k < |run.calls| && k < |run.states| && LeavesSlots(run.states[k], run.calls[k])
  }

  /** No request of the run corrects the seeding. */
  ghost predicate SeedsStay(run: Run) {
    forall k: nat {:trigger LeavesSlotsAt(run, k)} :: k < |run.calls| ==> LeavesSlotsAt(run, k)
  }

  /** In a neutral run a filled slot keeps its country in every later state: every slot after the Round of 32,
      every slot of a completed match, and all slots when no request corrects the seeding. */
  lemma {:induction false} SlotsOnlyFill(run: Run, j: nat, k: nat, r: nat, i: nat, slot: nat)
    requires NeutralRun(run) && j <= k < |run.states| && BracketHolds(run.First().matches)
    requires r >= 2 || Complete(Row(run.states[j].matches, r, i)) || SeedsStay(run)
    requires InBracket(r, i) && slot < 2 && Slot(run.states[j].matches, r, i, slot).Some?
    ensures Slot(run.states[k].matches, r, i, slot) == Slot(run.states[j].matches, r, i, slot)
    ensures Complete(Row(run.states[j].matches, r, i)) ==>
      Row(run.states[k].matches, r, i) == Row(run.states[j].matches, r, i)
  {
    if j < k {
      SlotsOnlyFill(run, j, k - 1, r, i, slot);
      ProvenanceAlways(run, k - 1);
      NeutralStep(run, k - 1);
      var s, call, t := run.states[k - 1], run.calls[k - 1], run.states[k];
      assert SeedsStay(run) ==> LeavesSlotsAt(run, k - 1);
      FilledStaysFilled(s, call, t, run.responses[k - 1], r, i, slot);
      if Complete(Row(s.matches, r, i)) {
        CompletedIsFrozen(s, call, t, run.responses[k - 1], r, i);
      }
    }
  }
}
