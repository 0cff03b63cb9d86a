/** Which updates keep the bracket: the condition on requests is exact. */
module BracketOverrides {
  import opened Tables
  import opened MatchUpdates
  import opened Shape
  import opened Bracket

  /** An update of match (r, i) writes its own row and, beyond it, only later rounds. */
  lemma UpdateWritesForward(s: Tables, id: MatchId, req: MatchRequest, t: Tables, r: nat, i: nat)
    requires id in s.matches && id.KnockoutMatch? && InBracket(id.round, id.index)
    requires UpdateRow(s, id, req) == Success(t) && t != s
    ensures r < id.round ==> Row(t.matches, r, i) == Row(s.matches, r, i)
    ensures id == KnockoutMatch(r, i) ==> Row(t.matches, r, i) == Merge(s, s.matches[id], true, req)
  {
    KnockoutUpdateEffect(s, id, req, t);
  }

  lemma OverriddenSlot(s: Tables, row: MatchRow, req: MatchRequest) returns (slot: nat)
    requires !KeepsSlots(s, row, req)
    ensures slot == 0 ==> Merge(s, row, true, req).country1 != row.country1
    ensures slot != 0 ==> slot == 1 && Merge(s, row, true, req).country2 != row.country2
  {
    var named := Resolve(s.countries, req.country1);
    slot := if named.Some? && row.country1 != named then 0 else 1;
  }

  /** A changed slot over unchanged earlier rounds no longer holds its source. */
  lemma ChangedSlotBreaks(m: MatchTable, t: MatchTable, r: nat, i: nat, slot: nat)
    requires Provenance(m) && 2 <= r && InBracket(r, i) && slot < 2
    requires Slot(t, r, i, slot) != Slot(m, r, i, slot)
    requires forall q: nat, j: nat :: q < r ==> Row(t, q, j) == Row(m, q, j)
    ensures !Provenance(t)
  {
  }

  /** An update that puts another country into a slot after the Round of 32 breaks provenance. */
  lemma OverrideBreaks(s: Tables, id: MatchId, req: MatchRequest, t: Tables)
    requires BracketHolds(s.matches) && id in s.matches && id.KnockoutMatch? && id.round >= 2
      && InBracket(id.round, id.index)
    requires UpdateRow(s, id, req) == Success(t) && !KeepsSlots(s, s.matches[id], req)
    ensures !Provenance(t.matches)
  {
    var r, i := id.round, id.index;
    var slot := OverriddenSlot(s, s.matches[id], req);
    UpdateWritesForward(s, id, req, t, r, i);
    forall q: nat, j: nat | q < r ensures Row(t.matches, q, j) == Row(s.matches, q, j) {
      UpdateWritesForward(s, id, req, t, q, j);
    }
    ChangedSlotBreaks(s.matches, t.matches, r, i, slot);
  }

  /** An update of a Round-of-32 row writes no other row of that round. */
  lemma SeedUpdateIsAlone(s: Tables, id: MatchId, req: MatchRequest, t: Tables, j: nat)
    requires id in s.matches && id.KnockoutMatch? && id.round == 1 && InBracket(1, id.index)
    requires UpdateRow(s, id, req) == Success(t)
    ensures Row(t.matches, 1, j) == if j == id.index then Merge(s, s.matches[id], true, req) else Row(s.matches, 1, j)
  {
    if t != s {
      KnockoutUpdateEffect(s, id, req, t);
    }
  }

  /** A seeded Round of 32 after the update shows that the request seeded it well. */
  lemma SeededAfterwards(s: Tables, id: MatchId, req: MatchRequest, t: Tables)
    requires id in s.matches && id.KnockoutMatch? && id.round == 1 && InBracket(1, id.index)
    requires UpdateRow(s, id, req) == Success(t) && Seeded(t.matches)
    ensures Reseeds(s, id, req)
  {
    var row := Merge(s, s.matches[id], true, req);
    SeedUpdateIsAlone(s, id, req, t, id.index);
    assert Slot(t.matches, 1, id.index, 0) == row.country1 && Slot(t.matches, 1, id.index, 1) == row.country2;
    forall j: nat, side: nat | j < 16 && j != id.index && side < 2
      ensures Slot(s.matches, 1, j, side) != row.country1 && Slot(s.matches, 1, j, side) != row.country2
    {
      SeedUpdateIsAlone(s, id, req, t, j);
      assert Slot(t.matches, 1, j, side) == Slot(s.matches, 1, j, side);
    }
  }

  /** The condition on knockout updates is exact: an update keeps the bracket if and only if it leaves the slots
      of its row alone or, in the Round of 32, seeds two countries that no other match of the round has. */
  lemma BracketKeptIffNeutral(s: Tables, id: MatchId, req: MatchRequest, t: Tables)
    requires BracketHolds(s.matches) && id in s.matches && id.KnockoutMatch?
    requires UpdateRow(s, id, req) == Success(t)
    ensures BracketHolds(t.matches) <==> Fits(s, id, req)
  {
    assert InBracket(id.round, id.index);
    if Fits(s, id, req) {
      var seated := FittingUpdate(s, id, req, t);
      UpdateKeepsBracket(seated, id, req, t);
    } else if id.round >= 2 {
      OverrideBreaks(s, id, req, t);
    } else if Seeded(t.matches) {
      SeededAfterwards(s, id, req, t);
    }
  }

  /** The request that names a country for the first slot of match (r, i), and nothing else. */
  function NameFirst(r: nat, i: nat, c: Country): MatchRequest {
    MatchRequest(Some(c), None, None, None, None, None, None, None, r, Some(i))
  }

  /** Requests that do not fit are accepted: naming any other known country for the first slot of an open match after
      the Round of 32 finds exactly that match, succeeds and breaks the bracket. */
  lemma OverrideIsAccepted(s: Tables, r: nat, i: nat, c: Country)
    requires BracketHolds(s.matches) && 2 <= r && InBracket(r, i) && !Complete(Row(s.matches, r, i))
    requires c in s.countries && Slot(s.matches, r, i, 0) != Some(c)
    ensures var id, req := KnockoutMatch(r, i), NameFirst(r, i, c);
      && id in s.matches && Targets(s, req) == {id}
      && UpdateRow(s, id, req).Success?
      && !Fits(s, id, req) && !BracketHolds(UpdateRow(s, id, req).value.matches)
  {
    var id, req := KnockoutMatch(r, i), NameFirst(r, i, c);
    assert id in s.matches;
    assert UpdateRow(s, id, req) == Success(s.(matches := s.matches[id := Merge(s, s.matches[id], true, req)]));
    BracketKeptIffNeutral(s, id, req, UpdateRow(s, id, req).value);
  }
}
