/** Scores are caches over the bracket: they equal a recomputation from the match rows. */
module BracketScores {
  import opened Tables
  import opened Sums
  import opened MatchUpdates
  import opened Runs
  import opened Shape
  import opened Bracket

  /** The 32 bracket matches in order of round and index. */
  function RoundAt(k: nat): nat {
    if k < 16 then 1 else if k < 24 then 2 else if k < 28 then 3 else if k < 30 then 4 else 5
  }

  function IndexAt(k: nat): nat {
    if k < 16 then k else if k < 24 then k - 16 else if k < 28 then k - 24 else if k < 30 then k - 28 else k - 30
  }

  function PositionOf(r: nat, i: nat): (k: nat)
    requires InBracket(r, i)
    ensures k < 32 && RoundAt(k) == r && IndexAt(k) == i
  {
    if r == 1 then i else if r == 2 then 16 + i else if r == 3 then 24 + i else if r == 4 then 28 + i else 30 + i
  }

  function RowAt(m: MatchTable, k: nat): MatchRow {
    Row(m, RoundAt(k), IndexAt(k))
  }

  function PointsAt(k: nat): nat {
    Points(RoundAt(k), IndexAt(k))
  }

  function AchievedAt(k: nat): nat {
    Achieved(RoundAt(k), IndexAt(k))
  }

  // ---- how calls reach scores and bracket ----

  lemma CreditedScore(scores: map<User, Score>, picks: set<KnockoutPickRow>, c: Country, round: int, points: int,
                      u: User)
    ensures ScoreOf(CreditKnockout(scores, Pickers(picks, c, round), points), u)
         == ScoreOf(scores, u).(knockout := ScoreOf(scores, u).knockout
                                            + if Picked(picks, u, Some(c), round) then points else 0)
  {
  }

  /** Every other call leaves bracket rows and knockout scores alone. */
  lemma OtherCallEffect(s: Tables, call: Call, t: Tables, r: Response)
    requires Step(s, call, t, r) && !call.UpdateMatch?
    ensures forall r: nat, i: nat :: Row(t.matches, r, i) == Row(s.matches, r, i)
    ensures forall u :: ScoreOf(t.scores, u).knockout == ScoreOf(s.scores, u).knockout
    ensures call.CreateKnockoutPicks? || t.knockoutPicks == s.knockoutPicks
    ensures t.knockoutStandings == s.knockoutStandings
  {
  }

  // ---- the score audit ----

  /** The user picked this country to get this far. */
  predicate Picked(picks: set<KnockoutPickRow>, u: User, winner: Option<Country>, round: int) {
    winner.Some? && KnockoutPickRow(u, winner.value, round) in picks
  }

  ghost function AuditTerms(m: MatchTable, picks: set<KnockoutPickRow>, u: User): nat -> int {
    (k: nat) => if Picked(picks, u, Winner(RowAt(m, k)), AchievedAt(k)) then PointsAt(k) else 0
  }

  /** One pass over the match rows: the points of every decided match whose winner the user picked. */
  ghost function Audit(m: MatchTable, picks: set<KnockoutPickRow>, u: User): int {
    Sum(32, AuditTerms(m, picks, u))
  }

  ghost predicate ScoresAudited(s: Tables) {
    forall u :: ScoreOf(s.scores, u).knockout == Audit(s.matches, s.knockoutPicks, u)
  }

  ghost predicate NothingDecided(m: MatchTable) {
    forall k: nat :: k < 32 ==> !Decided(RowAt(m, k))
  }

  /** Knockout sheets are handed in before the first decided match. */
  ghost predicate PicksInTime(s: Tables, call: Call) {
    call.CreateKnockoutPicks? ==> NothingDecided(s.matches)
  }

  lemma AuditOfNothing(m: MatchTable, picks: set<KnockoutPickRow>, u: User)
    requires NothingDecided(m)
    ensures Audit(m, picks, u) == 0
  {
    SumZero(32, AuditTerms(m, picks, u));
  }

  lemma SameWinnersSameAudit(m: MatchTable, t: MatchTable, picks: set<KnockoutPickRow>, u: User)
    requires forall k: nat :: k < 32 ==> Winner(RowAt(t, k)) == Winner(RowAt(m, k))
    ensures Audit(t, picks, u) == Audit(m, picks, u)
  {
    SumSame(32, AuditTerms(m, picks, u), AuditTerms(t, picks, u));
  }

  /** Deciding one match moves the audit of every user by that match's award. */
  lemma WinMovesAudit(m: MatchTable, r: nat, i: nat, row: MatchRow, picks: set<KnockoutPickRow>, u: User)
    requires BracketHolds(m) && InBracket(r, i) && Decided(row) && !Complete(Row(m, r, i))
    requires row.country1 == Slot(m, r, i, 0) && row.country2 == Slot(m, r, i, 1)
    ensures Audit(AfterWin(m, r, i, row), picks, u)
         == Audit(m, picks, u) + if Picked(picks, u, Winner(row), Achieved(r, i)) then Points(r, i) else 0
  {
    var t, k := AfterWin(m, r, i, row), PositionOf(r, i);
    var before, after := AuditTerms(m, picks, u), AuditTerms(t, picks, u);
    forall j: nat | j < 32 ensures j != k ==> before(j) == after(j) {
      WinDecidesOne(m, r, i, row, RoundAt(j), IndexAt(j));
    }
    WinDecidesOne(m, r, i, row, r, i);
    SumChange(32, before, after, k);
  }

  /** Awarding a decided match keeps every score equal to its audit. */
  lemma WinKeepsAudit(s: Tables, r: nat, i: nat, row: MatchRow, t: Tables)
    requires BracketHolds(s.matches) && ScoresAudited(s)
    requires InBracket(r, i) && Decided(row) && !Complete(Row(s.matches, r, i))
    requires row.country1 == Slot(s.matches, r, i, 0) && row.country2 == Slot(s.matches, r, i, 1)
    requires t.matches == AfterWin(s.matches, r, i, row) && t.knockoutPicks == s.knockoutPicks
    requires t.scores
         == CreditKnockout(s.scores, Pickers(s.knockoutPicks, Winner(row).value, Achieved(r, i)), Points(r, i))
    ensures ScoresAudited(t)
  {
    forall u ensures ScoreOf(t.scores, u).knockout == Audit(t.matches, t.knockoutPicks, u) {
      assert ScoreOf(s.scores, u).knockout == Audit(s.matches, s.knockoutPicks, u);
      WinMovesAudit(s.matches, r, i, row, s.knockoutPicks, u);
      CreditedScore(s.scores, s.knockoutPicks, Winner(row).value, Achieved(r, i), Points(r, i), u);
    }
  }

  lemma SameWinnersKeepAudit(s: Tables, t: Tables)
    requires ScoresAudited(s) && t.scores == s.scores && t.knockoutPicks == s.knockoutPicks
    requires forall k: nat :: k < 32 ==> Winner(RowAt(t.matches, k)) == Winner(RowAt(s.matches, k))
    ensures ScoresAudited(t)
  {
    forall u ensures ScoreOf(t.scores, u).knockout == Audit(t.matches, t.knockoutPicks, u) {
      assert ScoreOf(s.scores, u).knockout == Audit(s.matches, s.knockoutPicks, u);
      SameWinnersSameAudit(s.matches, t.matches, s.knockoutPicks, u);
    }
  }

  lemma UpdateKeepsAudit(s: Tables, id: MatchId, req: MatchRequest, t: Tables)
    requires BracketHolds(s.matches) && ScoresAudited(s) && id in s.matches
    requires id.KnockoutMatch? && InBracket(id.round, id.index) && KeepsSlots(s, s.matches[id], req)
    requires UpdateRow(s, id, req) == Success(t) && t != s
    ensures ScoresAudited(t)
  {
    var row := Merge(s, s.matches[id], true, req);
    KnockoutUpdateEffect(s, id, req, t);
    if Decided(row) {
      WinKeepsAudit(s, id.round, id.index, row, t);
    } else {
      SameWinnersKeepAudit(s, t);
    }
  }

  /** Calls that leave the bracket rows, the knockout picks and the knockout scores alone. */
  lemma OtherCallsKeepAudit(s: Tables, t: Tables)
    requires ScoresAudited(s) && t.knockoutPicks == s.knockoutPicks
    requires forall r: nat, i: nat :: Row(t.matches, r, i) == Row(s.matches, r, i)
    requires forall u :: ScoreOf(t.scores, u).knockout == ScoreOf(s.scores, u).knockout
    ensures ScoresAudited(t)
  {
    forall u ensures ScoreOf(t.scores, u).knockout == Audit(t.matches, t.knockoutPicks, u) {
      assert ScoreOf(s.scores, u).knockout == Audit(s.matches, s.knockoutPicks, u);
      SameWinnersSameAudit(s.matches, t.matches, s.knockoutPicks, u);
    }
  }

  lemma NewSheetKeepsAudit(s: Tables, t: Tables)
    requires ScoresAudited(s) && NothingDecided(s.matches) && NothingDecided(t.matches)
    requires forall u :: ScoreOf(t.scores, u).knockout == ScoreOf(s.scores, u).knockout
    ensures ScoresAudited(t)
  {
    forall u ensures ScoreOf(t.scores, u).knockout == Audit(t.matches, t.knockoutPicks, u) {
      assert ScoreOf(s.scores, u).knockout == Audit(s.matches, s.knockoutPicks, u);
      AuditOfNothing(s.matches, s.knockoutPicks, u);
      AuditOfNothing(t.matches, t.knockoutPicks, u);
    }
  }

  lemma StepKeepsAudit(s: Tables, call: Call, t: Tables, r: Response)
    requires BracketHolds(s.matches) && ScoresAudited(s)
    requires Neutral(s, call) && PicksInTime(s, call) && Step(s, call, t, r)
    ensures ScoresAudited(t)
  {
    if t != s {
      if call.UpdateMatch? {
        var id := ChangedBy(s, call.req, t, r);
        if id.KnockoutMatch? {
          var seated := FittingUpdate(s, id, call.req, t);
          SameWinnersKeepAudit(s, seated);
          if t != seated {
            UpdateKeepsAudit(seated, id, call.req, t);
          }
        } else {
          OtherCallsKeepAudit(s, t);
        }
      } else {
        OtherCallEffect(s, call, t, r);
        if call.CreateKnockoutPicks? {
          NewSheetKeepsAudit(s, t);
        } else {
          OtherCallsKeepAudit(s, t);
        }
      }
    }
  }

  ghost predicate PicksInTimeAt(run: Run, k: nat) {
    k < |run.calls| && k < |run.states| && PicksInTime(run.states[k], run.calls[k])
  }

  /** Every knockout sheet of the run is handed in before the first decided match. */
  ghost predicate TimelyRun(run: Run) {
    forall k: nat {:trigger PicksInTimeAt(run, k)} :: k < |run.calls| ==> PicksInTimeAt(run, k)
  }

  lemma RunKeepsAudit(run: Run, k: nat)
    requires NeutralRun(run) && TimelyRun(run) && k < |run.calls|
    requires BracketHolds(run.states[k].matches) && ScoresAudited(run.states[k])
    ensures ScoresAudited(run.states[k + 1])
  {
    NeutralStep(run, k);
    assert PicksInTimeAt(run, k);
    StepKeepsAudit(run.states[k], run.calls[k], run.states[k + 1], run.responses[k]);
  }

  /** In every neutral run with timely sheets, every knockout score is the audit of the match rows. */
  lemma {:induction false} AuditAlways(run: Run, k: nat)
    requires NeutralRun(run) && TimelyRun(run) && k < |run.states|
    requires BracketHolds(run.First().matches) && ScoresAudited(run.First())
    ensures ScoresAudited(run.states[k])
  {
    if k > 0 {
      AuditAlways(run, k - 1);
      ProvenanceAlways(run, k - 1);
      RunKeepsAudit(run, k - 1);
    }
  }

  // ---- the cap of 600, for any run at all ----

  ghost function SpentTerms(m: MatchTable): nat -> int {
    (k: nat) => if Complete(RowAt(m, k)) then PointsAt(k) else 0
  }

  /** The points that the completed matches can have paid to one user. */
  ghost function Spent(m: MatchTable): int {
    Sum(32, SpentTerms(m))
  }

  ghost predicate ScoresWithinSpent(s: Tables) {
    forall u :: 0 <= ScoreOf(s.scores, u).knockout <= Spent(s.matches)
  }

  /** The points of the first n matches: 16 x 15, 8 x 20, 4 x 25, 2 x 30, 35 and 5. */
  function PointsUpTo(n: nat): nat {
    if n <= 16 then 15 * n
    else if n <= 24 then 240 + 20 * (n - 16)
    else if n <= 28 then 400 + 25 * (n - 24)
    else if n <= 30 then 500 + 30 * (n - 28)
    else if n == 31 then 595
    else 600
  }

  lemma {:induction false} TotalPoints(n: nat)
    requires n <= 32
    ensures Sum(n, (k: nat) => PointsAt(k)) == PointsUpTo(n)
  {
    if n != 0 {
      TotalPoints(n - 1);
    }
  }

  lemma SpentAtMost600(m: MatchTable)
    ensures Spent(m) <= 600
  {
    SumBelow(32, SpentTerms(m), (k: nat) => PointsAt(k));
    TotalPoints(32);
  }

  /** Which matches are completed after an update: the same ones, and perhaps the updated one. */
  lemma UpdateCompletes(s: Tables, id: MatchId, req: MatchRequest, t: Tables, r: nat, i: nat)
    requires id in s.matches && id.KnockoutMatch? && InBracket(id.round, id.index)
    requires UpdateRow(s, id, req) == Success(t) && t != s
    ensures id == KnockoutMatch(r, i) ==> Complete(Row(t.matches, r, i)) == Complete(Merge(s, s.matches[id], true, req))
    ensures id != KnockoutMatch(r, i) ==> Complete(Row(t.matches, r, i)) == Complete(Row(s.matches, r, i))
  {
    KnockoutUpdateEffect(s, id, req, t);
  }

  /** The budget grows by the points of a match that the update completes. */
  lemma UpdateSpends(s: Tables, id: MatchId, req: MatchRequest, t: Tables)
    requires id in s.matches && id.KnockoutMatch? && InBracket(id.round, id.index)
    requires UpdateRow(s, id, req) == Success(t) && t != s
    ensures Spent(t.matches)
         == Spent(s.matches) + if Complete(Merge(s, s.matches[id], true, req)) then Points(id.round, id.index) else 0
  {
    KnockoutUpdateEffect(s, id, req, t);
    var k := PositionOf(id.round, id.index);
    var before, after := SpentTerms(s.matches), SpentTerms(t.matches);
    forall j: nat | j < 32 ensures j != k ==> before(j) == after(j) {
      UpdateCompletes(s, id, req, t, RoundAt(j), IndexAt(j));
    }
    UpdateCompletes(s, id, req, t, id.round, id.index);
    SumChange(32, before, after, k);
  }

  lemma UpdateKeepsCap(s: Tables, id: MatchId, req: MatchRequest, t: Tables)
    requires ScoresWithinSpent(s) && id in s.matches && id.KnockoutMatch? && InBracket(id.round, id.index)
    requires UpdateRow(s, id, req) == Success(t) && t != s
    ensures ScoresWithinSpent(t)
  {
    KnockoutUpdateEffect(s, id, req, t);
    UpdateSpends(s, id, req, t);
    var row := Merge(s, s.matches[id], true, req);
    forall u ensures 0 <= ScoreOf(t.scores, u).knockout <= Spent(t.matches) {
      assert 0 <= ScoreOf(s.scores, u).knockout <= Spent(s.matches);
      if Decided(row) {
        CreditedScore(s.scores, s.knockoutPicks, Winner(row).value, Achieved(id.round, id.index),
                      Points(id.round, id.index), u);
      }
    }
  }

  lemma StepKeepsCap(s: Tables, call: Call, t: Tables, r: Response)
    requires HasBracketRows(s.matches) && ScoresWithinSpent(s) && Step(s, call, t, r)
    ensures ScoresWithinSpent(t)
  {
    if t != s {
      if call.UpdateMatch? {
        var id := ChangedBy(s, call.req, t, r);
        if id.KnockoutMatch? {
          UpdateKeepsCap(s, id, call.req, t);
        } else {
          SumSame(32, SpentTerms(s.matches), SpentTerms(t.matches));
        }
      } else {
        OtherCallEffect(s, call, t, r);
        SumSame(32, SpentTerms(s.matches), SpentTerms(t.matches));
        forall u ensures 0 <= ScoreOf(t.scores, u).knockout <= Spent(t.matches) {
          assert 0 <= ScoreOf(s.scores, u).knockout <= Spent(s.matches);
        }
      }
    }
  }

  /** No user ever holds more than 600 knockout points, whatever is requested in whatever order,
      including country overrides and sheets handed in between matches. */
  lemma KnockoutCap(run: Run, k: nat, u: User)
    requires run.Valid() && k < |run.states|
    requires HasBracketRows(run.First().matches) && ScoresWithinSpent(run.First())
    ensures 0 <= ScoreOf(run.states[k].scores, u).knockout <= 600
  {
    CapAlways(run, k);
    SpentAtMost600(run.states[k].matches);
    assert ScoreOf(run.states[k].scores, u).knockout <= Spent(run.states[k].matches);
  }

  lemma {:induction false} CapAlways(run: Run, k: nat)
    requires run.Valid() && k < |run.states|
    requires HasBracketRows(run.First().matches) && ScoresWithinSpent(run.First())
    ensures HasBracketRows(run.states[k].matches) && ScoresWithinSpent(run.states[k])
  {
    if k > 0 {
      CapAlways(run, k - 1);
      RunStep(run, k - 1);
      StepKeepsShape(run.states[k - 1], run.calls[k - 1], run.states[k], run.responses[k - 1]);
      StepKeepsCap(run.states[k - 1], run.calls[k - 1], run.states[k], run.responses[k - 1]);
    }
  }
}
