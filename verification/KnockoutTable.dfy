/** What the knockout standings record, and what they hold when the bracket is done. */
module KnockoutTable {
  import opened Tables
  import opened MatchUpdates
  import Runs
  import opened Shape
  import opened Bracket
  import opened Subtrees
  import opened BracketScores

  /** What match k records for a country: the achieved round of its winner, round 5 for a beaten semifinalist. */
  function Mark(m: MatchTable, k: nat, c: Country): nat {
    if Winner(RowAt(m, k)) == Some(c) then AchievedAt(k)
    else if RoundAt(k) == 4 && Loser(RowAt(m, k)) == Some(c) then 5
    else 0
  }

  /** The best mark of a country over the first n matches; 0 when it has none. */
  function Best(m: MatchTable, n: nat, c: Country): nat {
    if n == 0 then 0
    else if Mark(m, n - 1, c) > Best(m, n - 1, c) then Mark(m, n - 1, c)
    else Best(m, n - 1, c)
  }

  lemma {:induction false} BestIsBound(m: MatchTable, n: nat, c: Country, k: nat)
    requires k < n
    ensures Mark(m, k, c) <= Best(m, n, c)
  {
    if k < n - 1 {
      BestIsBound(m, n - 1, c, k);
    }
  }

  lemma {:induction false} BestIsReached(m: MatchTable, n: nat, c: Country) returns (k: nat)
    requires Best(m, n, c) > 0
    ensures k < n && Mark(m, k, c) == Best(m, n, c)
  {
    if Mark(m, n - 1, c) == Best(m, n, c) {
      k := n - 1;
    } else {
      k := BestIsReached(m, n - 1, c);
    }
  }

  lemma {:induction false} BestSame(m: MatchTable, t: MatchTable, n: nat, c: Country)
    requires forall k: nat :: k < n ==> Mark(t, k, c) == Mark(m, k, c)
    ensures Best(t, n, c) == Best(m, n, c)
  {
    if n != 0 {
      BestSame(m, t, n - 1, c);
    }
  }

  /** A new mark above all earlier ones becomes the best. */
  lemma BestRaised(m: MatchTable, t: MatchTable, n: nat, c: Country, k: nat)
    requires k < n && Mark(t, k, c) > Best(m, n, c)
    requires forall j: nat :: j < n && j != k ==> Mark(t, j, c) == Mark(m, j, c)
    ensures Best(t, n, c) == Mark(t, k, c)
  {
    BestIsBound(t, n, c, k);
    var j := BestIsReached(t, n, c);
    BestIsBound(m, n, c, j);
  }

  ghost predicate RecordsBest(s: Tables, c: Country) {
    && (c in s.knockoutStandings <==> Best(s.matches, 32, c) > 0)
    && (c in s.knockoutStandings ==> s.knockoutStandings[c] == Best(s.matches, 32, c))
  }

  /** The table records the best mark of every country that has one, and nothing else. */
  ghost predicate TableAgrees(s: Tables) {
    forall c :: RecordsBest(s, c)
  }

  /** A country in a slot of round r' has come through a completed match of every earlier round. */
  lemma {:induction false} CameThrough(m: MatchTable, r': nat, i': nat, s': nat, r: nat, c: Country)
    returns (i: nat, s: nat)
    requires BracketHolds(m) && InBracket(r', i') && s' < 2 && 1 <= r < r'
    requires Slot(m, r', i', s') == Some(c)
    ensures InBracket(r, i) && s < 2 && Slot(m, r, i, s) == Some(c) && Complete(Row(m, r, i))
    ensures r == 5 ==> i == 0
    decreases r'
  {
    assert Slot(m, r', i', s') == Source(m, r', i', s');
    var feeder := if r' == 5 && i' == 1 then s' else 2 * i' + s';
    assert InBracket(r' - 1, feeder);
    var came := if Row(m, r' - 1, feeder).country1 == Some(c) then 0 else 1;
    assert Slot(m, r' - 1, feeder, came) == Some(c);
    if r == r' - 1 {
      i, s := feeder, came;
    } else {
      i, s := CameThrough(m, r' - 1, feeder, came, r, c);
    }
  }

  /** A country waiting in an incomplete match of round r has been in no completed match of that round or later. */
  lemma NotBeyond(m: MatchTable, r: nat, i: nat, s: nat, c: Country, r': nat, i': nat, s': nat)
    requires BracketHolds(m) && InBracket(r, i) && s < 2 && Slot(m, r, i, s) == Some(c) && !Complete(Row(m, r, i))
    requires InBracket(r', i') && s' < 2 && Slot(m, r', i', s') == Some(c) && Complete(Row(m, r', i'))
    ensures r' < r
  {
    if r' > r {
      var j, t := CameThrough(m, r', i', s', r, c);
      OncePerRound(m, r, i, s, j, t);
    } else if r' == r {
      if r == 5 && i == 1 {
        LastRoundDisjoint(m, s, i', s');
      } else if r == 5 && i' == 1 {
        LastRoundDisjoint(m, s', i, s);
      } else {
        OncePerRound(m, r, i, s, i', s');
      }
    }
  }

  /** ... so everything recorded for it is below what round r can give it. */
  lemma WaitingMarks(m: MatchTable, r: nat, i: nat, s: nat, c: Country, k: nat)
    requires BracketHolds(m) && InBracket(r, i) && s < 2 && Slot(m, r, i, s) == Some(c) && !Complete(Row(m, r, i))
    requires k < 32
    ensures Mark(m, k, c) <= r
  {
    if Mark(m, k, c) > 0 {
      var s' := if RowAt(m, k).country1 == Some(c) then 0 else 1;
      assert Slot(m, RoundAt(k), IndexAt(k), s') == Some(c);
      NotBeyond(m, r, i, s, c, RoundAt(k), IndexAt(k), s');
    }
  }

  lemma WaitingBest(m: MatchTable, r: nat, i: nat, s: nat, c: Country)
    requires BracketHolds(m) && InBracket(r, i) && s < 2 && Slot(m, r, i, s) == Some(c) && !Complete(Row(m, r, i))
    ensures Best(m, 32, c) <= r
  {
    if Best(m, 32, c) > 0 {
      var k := BestIsReached(m, 32, c);
      WaitingMarks(m, r, i, s, c, k);
    }
  }

  /** Deciding match (r, i) changes no mark but those of that match. */
  lemma WinMarks(m: MatchTable, r: nat, i: nat, row: MatchRow, k: nat, c: Country)
    requires BracketHolds(m) && InBracket(r, i) && Decided(row) && !Complete(Row(m, r, i))
    requires row.country1 == Slot(m, r, i, 0) && row.country2 == Slot(m, r, i, 1)
    requires k < 32
    ensures k != PositionOf(r, i) ==> Mark(AfterWin(m, r, i, row), k, c) == Mark(m, k, c)
    ensures k == PositionOf(r, i) ==>
      Mark(AfterWin(m, r, i, row), k, c)
      == if Winner(row) == Some(c) then Achieved(r, i) else if r == 4 && Loser(row) == Some(c) then 5 else 0
    ensures k == PositionOf(r, i) ==> Mark(m, k, c) == 0
  {
    WinDecidesOne(m, r, i, row, RoundAt(k), IndexAt(k));
  }

  /** A winner's recorded round strictly rises to the round it has achieved. */
  lemma WinRaises(m: MatchTable, r: nat, i: nat, row: MatchRow, c: Country)
    requires BracketHolds(m) && InBracket(r, i) && Decided(row) && !Complete(Row(m, r, i))
    requires row.country1 == Slot(m, r, i, 0) && row.country2 == Slot(m, r, i, 1)
    ensures var t := AfterWin(m, r, i, row);
      if Winner(row) == Some(c) then Best(m, 32, c) < Achieved(r, i) == Best(t, 32, c)
      else if r == 4 && Loser(row) == Some(c) then Best(m, 32, c) < 5 == Best(t, 32, c)
      else Best(t, 32, c) == Best(m, 32, c)
  {
    var t, k := AfterWin(m, r, i, row), PositionOf(r, i);
    forall j: nat | j < 32 ensures j != k ==> Mark(t, j, c) == Mark(m, j, c) {
      WinMarks(m, r, i, row, j, c);
    }
    WinMarks(m, r, i, row, k, c);
    if Winner(row) == Some(c) || (r == 4 && Loser(row) == Some(c)) {
      var s := if row.country1 == Some(c) then 0 else 1;
      assert Slot(m, r, i, s) == Some(c);
      WaitingBest(m, r, i, s, c);
      BestRaised(m, t, 32, c, k);
    } else {
      BestSame(m, t, 32, c);
    }
  }

  /** No country's record goes down. */
  ghost predicate OnlyRises(s: Tables, t: Tables) {
    forall c :: c in s.knockoutStandings ==>
      c in t.knockoutStandings && s.knockoutStandings[c] <= t.knockoutStandings[c]
  }

  lemma WinKeepsTable(s: Tables, r: nat, i: nat, row: MatchRow, t: Tables)
    requires BracketHolds(s.matches) && TableAgrees(s)
    requires InBracket(r, i) && Decided(row) && !Complete(Row(s.matches, r, i))
    requires row.country1 == Slot(s.matches, r, i, 0) && row.country2 == Slot(s.matches, r, i, 1)
    requires t.matches == AfterWin(s.matches, r, i, row)
    requires t.knockoutStandings == Upserted(s.knockoutStandings, r, i, Winner(row).value, Loser(row).value)
    ensures TableAgrees(t) && OnlyRises(s, t)
  {
    if r <= 4 {
      SidesDiffer(s.matches, r, i);
    }
    forall c
      ensures RecordsBest(t, c) && (c in s.knockoutStandings ==> s.knockoutStandings[c] <= t.knockoutStandings[c])
    {
      assert RecordsBest(s, c);
      WinRaises(s.matches, r, i, row, c);
    }
  }

  lemma SameMarksKeepTable(s: Tables, t: Tables)
    requires TableAgrees(s) && t.knockoutStandings == s.knockoutStandings
    requires forall k: nat, c :: k < 32 ==> Mark(t.matches, k, c) == Mark(s.matches, k, c)
    ensures TableAgrees(t) && OnlyRises(s, t)
  {
    forall c ensures RecordsBest(t, c) {
      assert RecordsBest(s, c);
      BestSame(s.matches, t.matches, 32, c);
    }
  }

  lemma UpdateKeepsTable(s: Tables, id: MatchId, req: MatchRequest, t: Tables)
    requires BracketHolds(s.matches) && TableAgrees(s) && id in s.matches && id.KnockoutMatch?
    requires KeepsSlots(s, s.matches[id], req) && UpdateRow(s, id, req) == Success(t)
    ensures TableAgrees(t) && OnlyRises(s, t)
  {
    if t != s {
      assert InBracket(id.round, id.index);
      KnockoutUpdateEffect(s, id, req, t);
      var row := Merge(s, s.matches[id], true, req);
      if Decided(row) {
        WinKeepsTable(s, id.round, id.index, row, t);
      } else {
        SameMarksKeepTable(s, t);
      }
    }
  }

  lemma StepKeepsTable(s: Tables, call: Runs.Call, t: Tables, r: Response)
    requires BracketHolds(s.matches) && TableAgrees(s) && Neutral(s, call) && Runs.Step(s, call, t, r)
    ensures TableAgrees(t) && OnlyRises(s, t)
  {
    if t != s {
      if call.UpdateMatch? {
        var id := ChangedBy(s, call.req, t, r);
        if id.KnockoutMatch? {
          var seated := FittingUpdate(s, id, call.req, t);
          SameMarksKeepTable(s, seated);
          UpdateKeepsTable(seated, id, call.req, t);
        } else {
          SameMarksKeepTable(s, t);
        }
      } else {
        OtherCallEffect(s, call, t, r);
        SameMarksKeepTable(s, t);
      }
    }
  }

  /** In every neutral run the table records the best mark of every country, and records only rise. */
  lemma {:induction false} TableAlways(run: Runs.Run, k: nat)
    requires NeutralRun(run) && k < |run.states|
    requires BracketHolds(run.First().matches) && TableAgrees(run.First())
    ensures TableAgrees(run.states[k])
    ensures k > 0 ==> OnlyRises(run.states[k - 1], run.states[k])
  {
    if k > 0 {
      TableAlways(run, k - 1);
      ProvenanceAlways(run, k - 1);
      NeutralStep(run, k - 1);
      StepKeepsTable(run.states[k - 1], run.calls[k - 1], run.states[k], run.responses[k - 1]);
    }
  }

  // ---- the table of a finished bracket ----

  function WinnerOf(m: MatchTable, r: nat, i: nat): Country {
    if Decided(Row(m, r, i)) then Winner(Row(m, r, i)).value else Country("")
  }

  function LoserOf(m: MatchTable, r: nat, i: nat): Country {
    if Decided(Row(m, r, i)) then Loser(Row(m, r, i)).value else Country("")
  }

  /** The winners of round r. */
  ghost function Winners(m: MatchTable, r: nat): set<Country> {
    set i: nat | i < Size(r) :: WinnerOf(m, r, i)
  }

  ghost function SemifinalLosers(m: MatchTable): set<Country> {
    {LoserOf(m, 4, 0), LoserOf(m, 4, 1)}
  }

  function AtLevel(standings: map<Country, int>, level: int): set<Country> {
    set c | c in standings && standings[c] == level
  }

  /** The image of n numbers under an injective function has n elements. */
  lemma {:induction false} ImageSize(n: nat, f: nat -> Country, image: set<Country>)
    requires forall i: nat, j: nat :: i < n && j < n && f(i) == f(j) ==> i == j
    requires forall c :: c in image <==> exists i: nat :: i < n && f(i) == c
    ensures |image| == n
  {
    if n == 0 {
      assert image == {};
    } else {
      ImageSize(n - 1, f, image - {f(n - 1)});
    }
  }

  /** The winner of (r, i) sits in one of its slots, the loser in the other. */
  lemma WinnerSlot(m: MatchTable, r: nat, i: nat) returns (s: nat)
    requires Decided(Row(m, r, i))
    ensures s < 2 && Slot(m, r, i, s) == Some(WinnerOf(m, r, i)) && Slot(m, r, i, 1 - s) == Some(LoserOf(m, r, i))
  {
    s := if Row(m, r, i).country1 == Winner(Row(m, r, i)) then 0 else 1;
  }

  lemma WinnersSize(m: MatchTable, r: nat)
    requires BracketHolds(m) && AllDecided(m) && 1 <= r <= 4
    ensures |Winners(m, r)| == Size(r)
  {
    var f := (i: nat) => WinnerOf(m, r, i);
    forall i: nat, j: nat | i < Size(r) && j < Size(r) && f(i) == f(j) ensures i == j {
      assert InBracket(r, i) && InBracket(r, j);
      var s := WinnerSlot(m, r, i);
      var t := WinnerSlot(m, r, j);
      OncePerRound(m, r, i, s, j, t);
    }
    forall c ensures c in Winners(m, r) <==> exists i: nat :: i < Size(r) && f(i) == c {
      if c in Winners(m, r) {
        var i: nat :| i < Size(r) && WinnerOf(m, r, i) == c;
        assert f(i) == c;
      }
    }
    ImageSize(Size(r), f, Winners(m, r));
  }

  /** A country in a slot of round r + 1 has won in round r, or lost a semifinal if it is in the third-place match. */
  lemma OccupantWon(m: MatchTable, r: nat, i: nat, s: nat)
    requires BracketHolds(m) && 1 <= r && InBracket(r + 1, i) && s < 2 && Slot(m, r + 1, i, s).Some?
    ensures !(r == 4 && i == 1) ==> Slot(m, r + 1, i, s).value in Winners(m, r)
    ensures r == 4 && i == 1 ==> Slot(m, r + 1, i, s).value in SemifinalLosers(m)
  {
    assert Slot(m, r + 1, i, s) == Source(m, r + 1, i, s);
    if !(r == 4 && i == 1) {
      assert 2 * i + s < Size(r);
      assert WinnerOf(m, r, 2 * i + s) == Slot(m, r + 1, i, s).value;
    }
  }

  /** Both countries of a semifinal have won their quarterfinal. */
  lemma SemifinalistsWon(m: MatchTable, i: nat)
    requires BracketHolds(m) && AllDecided(m) && i < 2
    ensures WinnerOf(m, 4, i) in Winners(m, 3) && LoserOf(m, 4, i) in Winners(m, 3)
  {
    assert InBracket(4, i);
    var s := WinnerSlot(m, 4, i);
    OccupantWon(m, 3, i, s);
    OccupantWon(m, 3, i, 1 - s);
  }

  /** Every quarterfinal winner wins or loses a semifinal. */
  lemma QuarterfinalistsSplit(m: MatchTable, c: Country)
    requires BracketHolds(m) && AllDecided(m) && c in Winners(m, 3)
    ensures c in Winners(m, 4) || c in SemifinalLosers(m)
  {
    var j: nat :| j < 4 && WinnerOf(m, 3, j) == c;
    assert InBracket(3, j) && InBracket(4, j / 2);
    assert Slot(m, 4, j / 2, j % 2) == Source(m, 4, j / 2, j % 2);
    var s := WinnerSlot(m, 4, j / 2);
  }

  /** The countries of the semifinals are exactly the quarterfinal winners; they split into winners and losers. */
  lemma SemifinalsSplit(m: MatchTable)
    requires BracketHolds(m) && AllDecided(m)
    ensures Winners(m, 4) + SemifinalLosers(m) == Winners(m, 3)
    ensures Winners(m, 4) !! SemifinalLosers(m)
    ensures |SemifinalLosers(m)| == 2
  {
    WinnersSize(m, 3);
    WinnersSize(m, 4);
    var finalists, losers := Winners(m, 4), SemifinalLosers(m);
    assert finalists == {WinnerOf(m, 4, 0), WinnerOf(m, 4, 1)};
    SemifinalistsWon(m, 0);
    SemifinalistsWon(m, 1);
    forall c | c in Winners(m, 3) ensures c in finalists + losers {
      QuarterfinalistsSplit(m, c);
    }
    assert finalists + losers == Winners(m, 3);
  }

  /** What a mark says about its country. */
  lemma MarkMeans(m: MatchTable, k: nat, c: Country)
    requires AllDecided(m) && k < 32 && Mark(m, k, c) > 0
    ensures match Mark(m, k, c)
      case 2 => c in Winners(m, 1)
      case 3 => c in Winners(m, 2)
      case 4 => c in Winners(m, 3)
      case 5 => c in Winners(m, 4) || c in SemifinalLosers(m)
      case 6 => c == WinnerOf(m, 5, 0)
      case _ => Mark(m, k, c) == 7 && c == WinnerOf(m, 5, 1)
  {
    var r, i := RoundAt(k), IndexAt(k);
    assert InBracket(r, i);
    if Winner(RowAt(m, k)) == Some(c) {
      assert WinnerOf(m, r, i) == c;
    }
  }

  /** A winner of match (r, i) has at least the mark for it, and a beaten semifinalist has 5. */
  lemma WinnerIsMarked(m: MatchTable, r: nat, i: nat)
    requires AllDecided(m) && InBracket(r, i)
    ensures Best(m, 32, WinnerOf(m, r, i)) >= Achieved(r, i)
    ensures r == 4 ==> Best(m, 32, LoserOf(m, r, i)) >= 5
  {
    var k := PositionOf(r, i);
    BestIsBound(m, 32, WinnerOf(m, r, i), k);
    if r == 4 {
      BestIsBound(m, 32, LoserOf(m, r, i), k);
    }
  }

  lemma WinnersAreMarked(m: MatchTable, r: nat, c: Country)
    requires AllDecided(m) && 1 <= r <= 4 && c in Winners(m, r)
    ensures Best(m, 32, c) >= r + 1
  {
    var i: nat :| i < Size(r) && WinnerOf(m, r, i) == c;
    WinnerIsMarked(m, r, i);
  }

  /** The winner of a match of round r + 1 won in round r, or lost a semifinal. */
  lemma WinnerWonBefore(m: MatchTable, r: nat, i: nat)
    requires BracketHolds(m) && AllDecided(m) && 1 <= r && InBracket(r + 1, i)
    ensures r == 4 && i == 1 ==> WinnerOf(m, r + 1, i) in SemifinalLosers(m)
    ensures !(r == 4 && i == 1) ==> WinnerOf(m, r + 1, i) in Winners(m, r)
  {
    assert Decided(Row(m, r + 1, i));
    var s := WinnerSlot(m, r + 1, i);
    OccupantWon(m, r, i, s);
  }

  lemma WinnersNest(m: MatchTable, r: nat)
    requires BracketHolds(m) && AllDecided(m) && 1 <= r <= 3
    ensures Winners(m, r + 1) <= Winners(m, r)
  {
    forall c | c in Winners(m, r + 1) ensures c in Winners(m, r) {
      var i: nat :| i < Size(r + 1) && WinnerOf(m, r + 1, i) == c;
      WinnerWonBefore(m, r, i);
    }
  }

  function LevelWithin(c: Country, w2: set<Country>, w3: set<Country>, first: Country, third: Country): int {
    if c == first then 6 else if c == third then 7 else if c in w3 then 5 else if c in w2 then 3 else 2
  }

  /** The final record of a country, told by how far it won. */
  ghost function FinalLevel(m: MatchTable, c: Country): int {
    if c in Winners(m, 1) then LevelWithin(c, Winners(m, 2), Winners(m, 3), WinnerOf(m, 5, 0), WinnerOf(m, 5, 1)) else 0
  }

  /** How far a country has won bounds its best mark from below. */
  lemma BestAtLeast(m: MatchTable, c: Country)
    requires AllDecided(m)
    ensures c in Winners(m, 1) ==> Best(m, 32, c) >= 2
    ensures c in Winners(m, 2) ==> Best(m, 32, c) >= 3
    ensures c in Winners(m, 4) || c in SemifinalLosers(m) ==> Best(m, 32, c) >= 5
    ensures c == WinnerOf(m, 5, 0) ==> Best(m, 32, c) >= 6
    ensures c == WinnerOf(m, 5, 1) ==> Best(m, 32, c) >= 7
  {
    if c in Winners(m, 1) { WinnersAreMarked(m, 1, c); }
    if c in Winners(m, 2) { WinnersAreMarked(m, 2, c); }
    if c in Winners(m, 4) { WinnersAreMarked(m, 4, c); }
    WinnerIsMarked(m, 4, 0);
    WinnerIsMarked(m, 4, 1);
    WinnerIsMarked(m, 5, 0);
    WinnerIsMarked(m, 5, 1);
  }

  lemma BestIsFinalLevel(m: MatchTable, c: Country)
    requires BracketHolds(m) && AllDecided(m)
    ensures Best(m, 32, c) == FinalLevel(m, c)
  {
    WinnersNest(m, 1);
    WinnersNest(m, 2);
    SemifinalsSplit(m);
    WinnerWonBefore(m, 4, 0);
    WinnerWonBefore(m, 4, 1);
    BestAtLeast(m, c);
    if Best(m, 32, c) > 0 {
      var k := BestIsReached(m, 32, c);
      MarkMeans(m, k, c);
    }
  }

  /** The finished table has a row for every Round-of-32 winner, with the level it won. */
  lemma LevelsAreFinal(s: Tables)
    requires BracketHolds(s.matches) && AllDecided(s.matches) && TableAgrees(s)
    ensures forall c :: c in s.knockoutStandings <==> c in Winners(s.matches, 1)
    ensures forall c :: c in s.knockoutStandings ==> s.knockoutStandings[c] == FinalLevel(s.matches, c)
  {
    forall c
      ensures c in s.knockoutStandings <==> c in Winners(s.matches, 1)
      ensures c in s.knockoutStandings ==> s.knockoutStandings[c] == FinalLevel(s.matches, c)
    {
      BestIsFinalLevel(s.matches, c);
      assert RecordsBest(s, c);
    }
  }

  /** Counting a table whose levels are told by three nested sets and two of the innermost. */
  lemma CountLevels(rows: map<Country, int>, w1: set<Country>, w2: set<Country>, w3: set<Country>, first: Country,
                    third: Country)
    requires w3 <= w2 <= w1 && first in w3 && third in w3 && first != third
    requires rows.Keys == w1
    requires forall c :: c in w1 ==> rows[c] == LevelWithin(c, w2, w3, first, third)
    ensures |AtLevel(rows, 2)| == |w1| - |w2| && |AtLevel(rows, 3)| == |w2| - |w3|
    ensures AtLevel(rows, 4) == {} && |AtLevel(rows, 5)| == |w3| - 2
    ensures AtLevel(rows, 6) == {first} && AtLevel(rows, 7) == {third}
  {
    assert AtLevel(rows, 2) == w1 - w2;
    assert AtLevel(rows, 3) == w2 - w3;
    assert AtLevel(rows, 5) == w3 - {first, third};
    assert AtLevel(rows, 6) == {first};
    assert AtLevel(rows, 7) == {third};
  }

  /** The nested winner sets of a finished bracket and their sizes. */
  lemma WinnerSetsOf(m: MatchTable)
    requires BracketHolds(m) && AllDecided(m)
    ensures |Winners(m, 1)| == 16 && |Winners(m, 2)| == 8 && |Winners(m, 3)| == 4
    ensures Winners(m, 3) <= Winners(m, 2) <= Winners(m, 1)
    ensures WinnerOf(m, 5, 0) in Winners(m, 3) && WinnerOf(m, 5, 1) in Winners(m, 3)
      && WinnerOf(m, 5, 0) != WinnerOf(m, 5, 1)
  {
    WinnersSize(m, 1);
    WinnersSize(m, 2);
    WinnersSize(m, 3);
    WinnersNest(m, 1);
    WinnersNest(m, 2);
    SemifinalsSplit(m);
    WinnerWonBefore(m, 4, 0);
    WinnerWonBefore(m, 4, 1);
  }

  /** Sixteen rows: eight countries at round 2, four at 3, none at 4, two at 5. */
  predicate SixteenRows(rows: map<Country, int>) {
    && |rows.Keys| == 16
    && |AtLevel(rows, 2)| == 8 && |AtLevel(rows, 3)| == 4 && |AtLevel(rows, 4)| == 0 && |AtLevel(rows, 5)| == 2
  }

  /** A finished bracket leaves sixteen rows: eight countries at round 2, four at 3, none at 4,
      two at 5, the champion at 6 and the third-placed country at 7. */
  lemma FinishedTable(s: Tables)
    requires BracketHolds(s.matches) && AllDecided(s.matches) && TableAgrees(s)
    ensures var rows := s.knockoutStandings;
      && SixteenRows(rows)
      && AtLevel(rows, 6) == {WinnerOf(s.matches, 5, 0)} && AtLevel(rows, 7) == {WinnerOf(s.matches, 5, 1)}
  {
    var m := s.matches;
    LevelsAreFinal(s);
    WinnerSetsOf(m);
    assert s.knockoutStandings.Keys == Winners(m, 1);
    CountLevels(s.knockoutStandings, Winners(m, 1), Winners(m, 2), Winners(m, 3), WinnerOf(m, 5, 0), WinnerOf(m, 5, 1));
  }
}
