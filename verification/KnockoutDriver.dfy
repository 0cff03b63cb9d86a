/**
 The seeder's knockout driver. It plays the Round of 32 with goals drawn at random, and penalties after a tie, and
 then, round by round, the matches that a query finds with both their countries. It never gets stuck: every query
 finds the whole round and every update is accepted.
 */
module KnockoutDriver {
  import opened Tables
  import opened MatchUpdates
  import opened Runs
  import Store
  import opened Shape
  import opened Bracket
  import opened BracketScores

  /** The request for one match: goals, and 4:3 on penalties after a tie. It names no country. */
  function PlayRequest(r: nat, i: nat, g1: int, g2: int): MatchRequest {
    var p1, p2 := if g1 == g2 then Some(4) else None, if g1 == g2 then Some(3) else None;
    MatchRequest(None, None, Some(g1), Some(g2), p1, p2, None, None, r, Some(i))
  }

  /** Match (r, i) has its two countries and no result yet. */
  predicate Ready(m: MatchTable, r: nat, i: nat) {
    InBracket(r, i) && Slot(m, r, i, 0).Some? && Slot(m, r, i, 1).Some? && !Complete(Row(m, r, i))
  }

  function PlayedRow(m: MatchTable, r: nat, i: nat, g1: int, g2: int): MatchRow {
    var row := Row(m, r, i).(goals1 := Some(g1), goals2 := Some(g2));
    if g1 == g2 then row.(penalties1 := Some(4), penalties2 := Some(3)) else row
  }

  /** Playing a ready match is accepted and decides that match and no other. */
  lemma PlayingDecides(s: Tables, r: nat, i: nat, g1: int, g2: int)
    requires BracketHolds(s.matches) && Ready(s.matches, r, i)
    ensures var id, req := KnockoutMatch(r, i), PlayRequest(r, i, g1, g2);
      && id in s.matches && Targets(s, req) == {id}
      && UpdateRow(s, id, req).Success?
      && UpdateRow(s, id, req).value.matches == AfterWin(s.matches, r, i, PlayedRow(s.matches, r, i, g1, g2))
  {
    var id, req := KnockoutMatch(r, i), PlayRequest(r, i, g1, g2);
    assert id in s.matches;
    assert Merge(s, s.matches[id], true, req) == PlayedRow(s.matches, r, i, g1, g2);
    var outcome := UpdateRow(s, id, req);
    assert outcome.Success?;
    KnockoutUpdateEffect(s, id, req, outcome.value);
  }

  /** The state of the bracket after its first k matches, in order, have been played. */
  ghost predicate PlayedTo(m: MatchTable, k: nat) {
    && BracketHolds(m)
    && (forall j: nat {:trigger RowAt(m, j)} :: j < 32 ==>
      if j < k then Decided(RowAt(m, j)) else !Complete(RowAt(m, j)))
  }

  /** Slots of match k are fed by earlier matches, so it is ready when those are decided. */
  lemma NextIsReady(m: MatchTable, k: nat)
    requires k < 32 && PlayedTo(m, k)
    ensures Ready(m, RoundAt(k), IndexAt(k))
  {
    RoundIsReady(m, RoundAt(k), IndexAt(k), k);
  }

  lemma RoundIsReady(m: MatchTable, r: nat, i: nat, k: nat)
    requires InBracket(r, i) && PlayedTo(m, k) && k <= PositionOf(r, i) && (r > 1 ==> k >= PositionOf(r, 0))
    ensures Ready(m, r, i)
  {
    assert !Complete(RowAt(m, PositionOf(r, i)));
    if r > 1 {
      forall s: nat | s < 2 ensures Slot(m, r, i, s).Some? {
        assert Slot(m, r, i, s) == Source(m, r, i, s);
        if r == 5 && i == 1 {
          assert Decided(RowAt(m, PositionOf(4, s)));
        } else {
          assert InBracket(r - 1, 2 * i + s);
          assert Decided(RowAt(m, PositionOf(r - 1, 2 * i + s)));
        }
      }
    }
  }

  /** The row has the drawn goals, the first country's first, and 4:3 on penalties for the first country after a tie;
      so the first country has won unless it has fewer goals. */
  predicate ShowsDraw(row: MatchRow, draw: (int, int)) {
    && row.goals1 == Some(draw.0) && row.goals2 == Some(draw.1)
    && (draw.0 == draw.1 ==> row.penalties1 == Some(4) && row.penalties2 == Some(3))
    && Winner(row) == (if draw.0 >= draw.1 then row.country1 else row.country2)
  }

  /** The first k matches have the drawn results. */
  ghost predicate ResultsTo(m: MatchTable, goals: seq<(int, int)>, k: nat)
    requires k <= |goals|
  {
    forall j: nat {:trigger RowAt(m, j)} :: j < k ==> ShowsDraw(RowAt(m, j), goals[j])
  }

  lemma PlayNext(m: MatchTable, k: nat, g1: int, g2: int)
    requires k < 32 && PlayedTo(m, k)
    ensures Ready(m, RoundAt(k), IndexAt(k))
    ensures var t := AfterWin(m, RoundAt(k), IndexAt(k), PlayedRow(m, RoundAt(k), IndexAt(k), g1, g2));
      && PlayedTo(t, k + 1) && ShowsDraw(RowAt(t, k), (g1, g2))
      && forall j: nat {:trigger RowAt(t, j)} :: j < k ==> RowAt(t, j) == RowAt(m, j)
  {
    NextIsReady(m, k);
    var r, i := RoundAt(k), IndexAt(k);
    var row := PlayedRow(m, r, i, g1, g2);
    WinKeepsBracket(m, r, i, row);
    var t := AfterWin(m, r, i, row);
    forall j: nat | j < 32
      ensures if j < k + 1 then Decided(RowAt(t, j)) else !Complete(RowAt(t, j))
      ensures j < k ==> RowAt(t, j) == RowAt(m, j)
      ensures j == k ==> RowAt(t, j) == row
    {
      WinDecidesOne(m, r, i, row, RoundAt(j), IndexAt(j));
      assert RowAt(m, j) == Row(m, RoundAt(j), IndexAt(j));
    }
  }

  /** The query of a round: the indices of its matches with both countries, in order. No round has more than 16. */
  function ListReady(m: MatchTable, r: nat, n: nat): seq<nat> {
    if n == 0 then []
    else ListReady(m, r, n - 1) + if Slot(m, r, n - 1, 0).Some? && Slot(m, r, n - 1, 1).Some? then [n - 1] else []
  }

  lemma {:induction false} ListsWholeRound(m: MatchTable, r: nat, n: nat)
    requires HasBracketRows(m) && forall i :: 0 <= i < Size(r) ==> Ready(m, r, i)
    ensures ListReady(m, r, n) == seq(if n < Size(r) then n else Size(r), i => i)
  {
    if n != 0 {
      ListsWholeRound(m, r, n - 1);
      if n - 1 < Size(r) {
        assert Ready(m, r, n - 1);
      } else {
        assert KnockoutMatch(r, n - 1) !in m;
      }
    }
  }

  /** The query of round r finds all its matches. */
  predicate FindsWholeRound(m: MatchTable, r: nat) {
    var found := ListReady(m, r, 16);
    |found| == Size(r) && forall i: nat :: i < Size(r) ==> found[i] == i
  }

  lemma WholeRoundIsReady(m: MatchTable, r: nat)
    requires 2 <= r <= 5 && PlayedTo(m, PositionOf(r, 0))
    ensures FindsWholeRound(m, r)
  {
    forall i | 0 <= i < Size(r) ensures Ready(m, r, i) {
      RoundIsReady(m, r, i, PositionOf(r, 0));
    }
    ListsWholeRound(m, r, 16);
  }

  /** When the driver comes to round r, its query finds the 8, 4, 2 or 2 matches of the round. */
  ghost predicate FoundRound(run: Run, r: nat) {
    InBracket(r, 0) && PositionOf(r, 0) < |run.states| && FindsWholeRound(run.states[PositionOf(r, 0)].matches, r)
  }

  /** Playing one match through the repository, as a step of the recorded run. */
  method Play(repo: Store.Repository, ghost run: Run, k: nat, g1: int, g2: int) returns (r: Response, ghost longer: Run)
    requires k < 32 && PlayedTo(repo.tables.matches, k)
    requires NeutralRun(run) && run.Last() == repo.tables
    modifies repo
    ensures r.Done? && PlayedTo(repo.tables.matches, k + 1) && ShowsDraw(RowAt(repo.tables.matches, k), (g1, g2))
    ensures forall j: nat {:trigger RowAt(repo.tables.matches, j)} ::
      j < k ==> RowAt(repo.tables.matches, j) == RowAt(old(repo.tables.matches), j)
    ensures NeutralRun(longer) && longer.First() == run.First() && longer.Last() == repo.tables
    ensures longer.states == run.states + [repo.tables]
    ensures |longer.calls| == |run.calls| + 1
      && longer.calls == run.calls + [Call.UpdateMatch(PlayRequest(RoundAt(k), IndexAt(k), g1, g2))]
  {
    var req := PlayRequest(RoundAt(k), IndexAt(k), g1, g2);
    PlayNext(repo.tables.matches, k, g1, g2);
    PlayingDecides(repo.tables, RoundAt(k), IndexAt(k), g1, g2);
    r := repo.UpdateMatch(req);
    LongerIsNeutral(run, Call.UpdateMatch(req), repo.tables, r);
    longer := Longer(run, Call.UpdateMatch(req), repo.tables, r);
  }

  lemma LongerIsNeutral(run: Run, call: Call, t: Tables, r: Response)
    requires NeutralRun(run) && Neutral(run.Last(), call) && Step(run.Last(), call, t, r)
    ensures var longer := Longer(run, call, t, r);
      NeutralRun(longer) && longer.First() == run.First() && longer.Last() == t
  {
    var longer := Longer(run, call, t, r);
    LongerIsValid(run, call, t, r);
    forall k: nat | k < |longer.calls| ensures NeutralAt(longer, k) {
      if k < |run.calls| {
        assert NeutralAt(run, k);
      }
    }
  }

  /** The recorded run leads from the first tables to the present ones in k match updates. */
  ghost predicate DroveTo(run: Run, first: Tables, tables: Tables, k: nat) {
    && NeutralRun(run) && run.First() == first && run.Last() == tables
    && |run.calls| == k && forall j :: 0 <= j < k ==> run.calls[j].UpdateMatch?
  }

  lemma FoundRoundsStay(run: Run, longer: Run, round: nat)
    requires run.states <= longer.states && forall earlier: nat :: 2 <= earlier < round ==> FoundRound(run, earlier)
    ensures forall earlier: nat :: 2 <= earlier < round ==> FoundRound(longer, earlier)
  {
    forall earlier: nat | 2 <= earlier < round ensures FoundRound(longer, earlier) {
      assert FoundRound(run, earlier);
    }
  }

  /** Plays one round after the Round of 32: the query finds all its matches and every update is accepted. */
  method PlayRound(repo: Store.Repository, ghost run: Run, ghost first: Tables, round: nat, before: nat,
                   goals: seq<(int, int)>)
    returns (fatal: bool, played: nat, ghost longer: Run)
    requires 2 <= round <= 5 && |goals| == 32 && before == PositionOf(round, 0)
    requires PlayedTo(repo.tables.matches, before) && DroveTo(run, first, repo.tables, before)
    requires ResultsTo(repo.tables.matches, goals, before)
    modifies repo
    ensures !fatal && played == before + Size(round) && PlayedTo(repo.tables.matches, played)
    ensures ResultsTo(repo.tables.matches, goals, played)
    ensures DroveTo(longer, first, repo.tables, played) && run.states <= longer.states && FoundRound(longer, round)
  {
    var matches := ListReady(repo.tables.matches, round, 16);
    WholeRoundIsReady(repo.tables.matches, round);
    assert FoundRound(run, round);
    played, longer := before, run;
    for j := 0 to |matches|
      invariant played == before + j && PlayedTo(repo.tables.matches, played)
      invariant ResultsTo(repo.tables.matches, goals, played)
      invariant DroveTo(longer, first, repo.tables, played) && run.states <= longer.states
    {
      var r;
      assert played == PositionOf(round, matches[j]);
      r, longer := Play(repo, longer, played, goals[played].0, goals[played].1);
      if r.Rejected? {
        return true, played, longer;
      }
      played := played + 1;
    }
    assert longer.states[before] == run.states[before];
    return false, played, longer;
  }

  /** Plays the whole bracket with the given goals. It is never stopped: every update is accepted, the later
      rounds find 8, 4, 2 and 2 complete pairings, and all 32 matches end decided. */
  method SimulateKnockoutStage(repo: Store.Repository, goals: seq<(int, int)>) returns (fatal: bool, ghost run: Run)
    requires |goals| == 32 && PlayedTo(repo.tables.matches, 0)
    modifies repo
    ensures !fatal && AllDecided(repo.tables.matches) && BracketHolds(repo.tables.matches)
    ensures DroveTo(run, old(repo.tables), repo.tables, 32) && ResultsTo(repo.tables.matches, goals, 32)
    ensures forall round: nat :: 2 <= round <= 5 ==> FoundRound(run, round)
  {
    run := Run([repo.tables], [], []);
    for i := 0 to 16
      invariant PlayedTo(repo.tables.matches, i) && DroveTo(run, old(repo.tables), repo.tables, i)
      invariant ResultsTo(repo.tables.matches, goals, i)
    {
      var r;
      r, run := Play(repo, run, i, goals[i].0, goals[i].1);
      if r.Rejected? {
        return true, run;
      }
    }
    var played: nat := 16;
    for round := 2 to 6
      invariant played == (if round == 6 then 32 else PositionOf(round, 0)) && PlayedTo(repo.tables.matches, played)
      invariant DroveTo(run, old(repo.tables), repo.tables, played) && ResultsTo(repo.tables.matches, goals, played)
      invariant forall earlier: nat :: 2 <= earlier < round ==> FoundRound(run, earlier)
    {
      ghost var shorter := run;
      fatal, played, run := PlayRound(repo, run, old(repo.tables), round, played, goals);
      FoundRoundsStay(shorter, run, round);
      if fatal {
        return true, run;
      }
    }
    forall r: nat, i: nat | InBracket(r, i) ensures Decided(Row(repo.tables.matches, r, i)) {
      assert Decided(RowAt(repo.tables.matches, PositionOf(r, i)));
    }
    return false, run;
  }
}
