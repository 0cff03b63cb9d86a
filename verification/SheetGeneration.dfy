/** The seeder's random knockout sheets, and why every one of them could have scored all 600 points. */
module SheetGeneration {
  import opened Tables
  import Sums
  import opened MatchUpdates
  import opened PickSheets
  import opened Runs
  import Store
  import Shape
  import opened Bracket
  import Subtrees
  import opened BracketScores
  import opened KnockoutDriver

  /** A Round-of-32 match as the generator reads it. */
  datatype Pairing = Pairing(c1: Country, c2: Country)

  function SlotCountry(m: MatchTable, i: nat, s: nat): Country {
    if Slot(m, 1, i, s).Some? then Slot(m, 1, i, s).value else Country("")
  }

  function Pairings(m: MatchTable): seq<Pairing> {
    seq(16, i requires 0 <= i < 16 => Pairing(SlotCountry(m, i, 0), SlotCountry(m, i, 1)))
  }

  // ---- the generator as a function of the bracket position ----

  /** The two countries the sheet puts into match k: its picked winners of the feeding matches,
      or, for the third-place match 31, its picked losers of the semifinals 28 and 29. */
  function Contender(ps: seq<Pairing>, flips: seq<bool>, k: nat, s: nat): Country
    requires |ps| == 16 && |flips| == 32 && k < 32 && s < 2
    decreases k, 0
  {
    if k < 16 then (if s == 0 then ps[k].c1 else ps[k].c2)
    else if k < 31 then Pick(ps, flips, 2 * (k - 16) + s)
    else Drop(ps, flips, 28 + s)
  }

  /** A flip that comes up takes the second country. */
  function Pick(ps: seq<Pairing>, flips: seq<bool>, k: nat): Country
    requires |ps| == 16 && |flips| == 32 && k < 32
    decreases k, 1
  {
    Contender(ps, flips, k, if flips[k] then 1 else 0)
  }

  function Drop(ps: seq<Pairing>, flips: seq<bool>, k: nat): Country
    requires |ps| == 16 && |flips| == 32 && k < 32
    decreases k, 1
  {
    Contender(ps, flips, k, if flips[k] then 0 else 1)
  }

  function SheetEntry(ps: seq<Pairing>, flips: seq<bool>, k: nat): KnockoutPickEntry
    requires |ps| == 16 && |flips| == 32 && k < 32
  {
    KnockoutPickEntry(Pick(ps, flips, k), AchievedAt(k))
  }

  function Sheet(ps: seq<Pairing>, flips: seq<bool>): seq<KnockoutPickEntry>
    requires |ps| == 16 && |flips| == 32
  {
    seq(32, k requires 0 <= k < 32 => SheetEntry(ps, flips, k))
  }

  ghost predicate IsPrefix(entries: seq<KnockoutPickEntry>, ps: seq<Pairing>, flips: seq<bool>, n: nat)
    requires |ps| == 16 && |flips| == 32 && n <= 32
  {
    |entries| == n && forall k :: 0 <= k < n ==> entries[k] == SheetEntry(ps, flips, k)
  }

  /** xs holds the picks of matches from .. from + |xs|. */
  ghost predicate ArePicks(xs: seq<Country>, ps: seq<Pairing>, flips: seq<bool>, from: nat)
    requires |ps| == 16 && |flips| == 32
  {
    from + |xs| <= 32 && forall k :: 0 <= k < |xs| ==> xs[k] == Pick(ps, flips, from + k)
  }

  /** The generator's loops: 16 winners, then 8, 4 and 2 out of neighbouring ones, then champion and third place. */
  method GenerateSheet(ps: seq<Pairing>, flips: seq<bool>) returns (entries: seq<KnockoutPickEntry>)
    requires |ps| == 16 && |flips| == 32
    ensures entries == Sheet(ps, flips)
  {
    entries := [];
    var r16Picks: seq<Country> := [];
    for i := 0 to 16
      invariant |r16Picks| == i && ArePicks(r16Picks, ps, flips, 0) && IsPrefix(entries, ps, flips, i)
    {
      var winner := ps[i].c1;
      if flips[i] { winner := ps[i].c2; }
      assert winner == Contender(ps, flips, i, if flips[i] then 1 else 0) == Pick(ps, flips, i);
      assert AchievedAt(i) == 2;
      r16Picks := r16Picks + [winner];
      entries := entries + [KnockoutPickEntry(winner, 2)];
    }
    var qfPicks: seq<Country>;
    qfPicks, entries := NextRound(ps, flips, r16Picks, 16, 8, 3, entries);
    var sfPicks: seq<Country>;
    sfPicks, entries := NextRound(ps, flips, qfPicks, 24, 4, 4, entries);
    var finalPicks, sfLosers: seq<Country>;
    finalPicks, sfLosers, entries := Semifinals(ps, flips, sfPicks, entries);
    var champion := finalPicks[0];
    if flips[30] { champion := finalPicks[1]; }
    assert champion == Pick(ps, flips, 30);
    entries := entries + [KnockoutPickEntry(champion, 6)];
    var thirdPlaceWinner := sfLosers[0];
    if flips[31] { thirdPlaceWinner := sfLosers[1]; }
    assert thirdPlaceWinner == Pick(ps, flips, 31);
    entries := entries + [KnockoutPickEntry(thirdPlaceWinner, 7)];
    assert IsPrefix(entries, ps, flips, 32);
  }

  /** One of the two rounds that are drawn the same way: a pick out of every two neighbours of the round before. */
  method NextRound(ps: seq<Pairing>, flips: seq<bool>, picks: seq<Country>, start: nat, count: nat, round: int,
                   before: seq<KnockoutPickEntry>)
    returns (next: seq<Country>, entries: seq<KnockoutPickEntry>)
    requires |ps| == 16 && |flips| == 32
    requires (start == 16 && count == 8 && round == 3) || (start == 24 && count == 4 && round == 4)
    requires |picks| == 2 * count && ArePicks(picks, ps, flips, 2 * (start - 16)) && IsPrefix(before, ps, flips, start)
    ensures |next| == count && ArePicks(next, ps, flips, start) && IsPrefix(entries, ps, flips, start + count)
  {
    next, entries := [], before;
    for i := 0 to count
      invariant |next| == i && ArePicks(next, ps, flips, start) && IsPrefix(entries, ps, flips, start + i)
    {
      assert picks[i * 2] == Contender(ps, flips, start + i, 0)
        && picks[i * 2 + 1] == Contender(ps, flips, start + i, 1);
      var winner := picks[i * 2];
      if flips[start + i] { winner := picks[i * 2 + 1]; }
      assert winner == Pick(ps, flips, start + i);
      next := next + [winner];
      entries := entries + [KnockoutPickEntry(winner, round)];
    }
  }

  method Semifinals(ps: seq<Pairing>, flips: seq<bool>, sfPicks: seq<Country>, before: seq<KnockoutPickEntry>)
    returns (finalPicks: seq<Country>, sfLosers: seq<Country>, entries: seq<KnockoutPickEntry>)
    requires |ps| == 16 && |flips| == 32
    requires |sfPicks| == 4 && ArePicks(sfPicks, ps, flips, 24) && IsPrefix(before, ps, flips, 28)
    ensures |finalPicks| == |sfLosers| == 2 && ArePicks(finalPicks, ps, flips, 28) && IsPrefix(entries, ps, flips, 30)
    ensures sfLosers[0] == Drop(ps, flips, 28) && sfLosers[1] == Drop(ps, flips, 29)
  {
    finalPicks, sfLosers, entries := [], [], before;
    for i := 0 to 2
      invariant |finalPicks| == |sfLosers| == i && ArePicks(finalPicks, ps, flips, 28)
        && IsPrefix(entries, ps, flips, 28 + i)
      invariant forall k :: 0 <= k < i ==> sfLosers[k] == Drop(ps, flips, 28 + k)
    {
      var t1, t2 := sfPicks[i * 2], sfPicks[i * 2 + 1];
      assert t1 == Contender(ps, flips, 28 + i, 0) && t2 == Contender(ps, flips, 28 + i, 1);
      var winner, loser := t1, t2;
      if flips[28 + i] { winner, loser := t2, t1; }
      assert winner == Pick(ps, flips, 28 + i) && loser == Drop(ps, flips, 28 + i);
      finalPicks := finalPicks + [winner];
      sfLosers := sfLosers + [loser];
      entries := entries + [KnockoutPickEntry(winner, 5)];
    }
  }

  // ---- the results under which a sheet is perfect ----

  /** The first k matches went as the sheet says, in a bracket seeded with these pairings. */
  ghost predicate FollowsSheet(m: MatchTable, ps: seq<Pairing>, flips: seq<bool>, k: nat)
    requires |ps| == 16 && |flips| == 32
  {
    && PlayedTo(m, k)
    && (forall i: nat, s: nat :: i < 16 && s < 2 ==> Slot(m, 1, i, s) == Some(Contender(ps, flips, i, s)))
    && (forall j: nat {:trigger RowAt(m, j)} :: j < 32 && j < k ==>
          Winner(RowAt(m, j)) == Some(Pick(ps, flips, j)) && Loser(RowAt(m, j)) == Some(Drop(ps, flips, j)))
  }

  /** The countries of match k are the sheet's contenders for it. */
  lemma SheetFillsMatch(m: MatchTable, ps: seq<Pairing>, flips: seq<bool>, k: nat, s: nat)
    requires |ps| == 16 && |flips| == 32 && k < 32 && s < 2
    requires FollowsSheet(m, ps, flips, k)
    ensures Slot(m, RoundAt(k), IndexAt(k), s) == Some(Contender(ps, flips, k, s))
  {
    var r, i := RoundAt(k), IndexAt(k);
    if r > 1 {
      assert Slot(m, r, i, s) == Source(m, r, i, s);
      if k == 31 {
        assert Loser(RowAt(m, 28 + s)) == Some(Drop(ps, flips, 28 + s));
      } else {
        var feeder := 2 * (k - 16) + s;
        assert RoundAt(feeder) == r - 1 && IndexAt(feeder) == 2 * i + s;
        assert Winner(RowAt(m, feeder)) == Some(Pick(ps, flips, feeder));
      }
    }
  }

  /** A 1:0 or 0:1 for the picked country. */
  function SheetGoals(flips: seq<bool>, k: nat): (int, int)
    requires |flips| == 32 && k < 32
  {
    if flips[k] then (0, 1) else (1, 0)
  }

  function SheetRow(m: MatchTable, flips: seq<bool>, k: nat): MatchRow
    requires |flips| == 32 && k < 32
  {
    PlayedRow(m, RoundAt(k), IndexAt(k), SheetGoals(flips, k).0, SheetGoals(flips, k).1)
  }

  lemma SheetNext(m: MatchTable, ps: seq<Pairing>, flips: seq<bool>, k: nat)
    requires |ps| == 16 && |flips| == 32 && k < 32 && FollowsSheet(m, ps, flips, k)
    ensures Ready(m, RoundAt(k), IndexAt(k))
    ensures FollowsSheet(AfterWin(m, RoundAt(k), IndexAt(k), SheetRow(m, flips, k)), ps, flips, k + 1)
  {
    var r, i, row := RoundAt(k), IndexAt(k), SheetRow(m, flips, k);
    PlayNext(m, k, SheetGoals(flips, k).0, SheetGoals(flips, k).1);
    SheetFillsMatch(m, ps, flips, k, 0);
    SheetFillsMatch(m, ps, flips, k, 1);
    var t := AfterWin(m, r, i, row);
    assert Winner(row) == Some(Pick(ps, flips, k)) && Loser(row) == Some(Drop(ps, flips, k));
    forall j: nat | j < k + 1
      ensures Winner(RowAt(t, j)) == Some(Pick(ps, flips, j)) && Loser(RowAt(t, j)) == Some(Drop(ps, flips, j))
    {
      WinDecidesOne(m, r, i, row, RoundAt(j), IndexAt(j));
      assert j < k ==> Decided(RowAt(m, j));
    }
    forall i': nat, s: nat | i' < 16 && s < 2 ensures Slot(t, 1, i', s) == Some(Contender(ps, flips, i', s)) {
      WinFillsSlots(m, r, i, row, 1, i', s);
    }
  }

  /** The tables after match k has gone as the sheet says. */
  function AfterMatch(s: Tables, flips: seq<bool>, k: nat): Tables
    requires |flips| == 32 && k < 32
  {
    var req := PlayRequest(RoundAt(k), IndexAt(k), SheetGoals(flips, k).0, SheetGoals(flips, k).1);
    var id := KnockoutMatch(RoundAt(k), IndexAt(k));
    if id in s.matches && UpdateRow(s, id, req).Success? then UpdateRow(s, id, req).value else s
  }

  /** The next match of the sheet is an accepted, neutral step. */
  lemma SheetStep(s: Tables, ps: seq<Pairing>, flips: seq<bool>, k: nat)
    requires |ps| == 16 && |flips| == 32 && k < 32 && FollowsSheet(s.matches, ps, flips, k)
    ensures var t := AfterMatch(s, flips, k);
      && Step(s, SheetCall(flips, k), t, Done) && Neutral(s, SheetCall(flips, k))
      && FollowsSheet(t.matches, ps, flips, k + 1) && t.knockoutPicks == s.knockoutPicks
  {
    var g, id := SheetGoals(flips, k), KnockoutMatch(RoundAt(k), IndexAt(k));
    var req := PlayRequest(RoundAt(k), IndexAt(k), g.0, g.1);
    SheetNext(s.matches, ps, flips, k);
    PlayingDecides(s, RoundAt(k), IndexAt(k), g.0, g.1);
    var t := AfterMatch(s, flips, k);
    assert id in Targets(s, req) && Commits(s, UpdateRow(s, id, req), t, Done);
    KnockoutUpdateEffect(s, id, req, t);
  }

  function SheetCall(flips: seq<bool>, k: nat): Call
    requires |flips| == 32 && k < 32
  {
    Call.UpdateMatch(PlayRequest(RoundAt(k), IndexAt(k), SheetGoals(flips, k).0, SheetGoals(flips, k).1))
  }

  /** There is a run of 32 match updates that follows the sheet to the end. */
  lemma {:induction false} FollowToTheEnd(run: Run, ps: seq<Pairing>, flips: seq<bool>, k: nat) returns (longer: Run)
    requires |ps| == 16 && |flips| == 32 && k <= 32
    requires NeutralRun(run) && FollowsSheet(run.Last().matches, ps, flips, k)
    ensures NeutralRun(longer) && FollowsSheet(longer.Last().matches, ps, flips, 32)
    ensures longer.First() == run.First() && run.calls <= longer.calls
      && longer.Last().knockoutPicks == run.Last().knockoutPicks
    ensures forall j :: |run.calls| <= j < |longer.calls| ==> longer.calls[j].UpdateMatch?
    decreases 32 - k
  {
    if k == 32 {
      longer := run;
    } else {
      var t := AfterMatch(run.Last(), flips, k);
      SheetStep(run.Last(), ps, flips, k);
      LongerIsNeutral(run, SheetCall(flips, k), t, Done);
      var next := Longer(run, SheetCall(flips, k), t, Done);
      longer := FollowToTheEnd(next, ps, flips, k + 1);
    }
  }

  /** A sheet names no country twice for the same round, so its rows have different keys. */
  lemma SheetKeysDiffer(m: MatchTable, ps: seq<Pairing>, flips: seq<bool>, j: nat, k: nat)
    requires |ps| == 16 && |flips| == 32 && j < 32 && k < 32
    requires FollowsSheet(m, ps, flips, 32) && Sheet(ps, flips)[j] == Sheet(ps, flips)[k]
    ensures j == k
  {
    assert Winner(RowAt(m, j)) == Some(Pick(ps, flips, j)) && Winner(RowAt(m, k)) == Some(Pick(ps, flips, k));
    var s := if RowAt(m, j).country1 == Winner(RowAt(m, j)) then 0 else 1;
    var t := if RowAt(m, k).country1 == Winner(RowAt(m, k)) then 0 else 1;
    assert Slot(m, RoundAt(j), IndexAt(j), s) == Slot(m, RoundAt(k), IndexAt(k), t);
    if RoundAt(j) != 5 {
      Subtrees.OncePerRound(m, RoundAt(j), IndexAt(j), s, IndexAt(k), t);
    }
  }

  /** The countries table knows the countries of the Round of 32. */
  predicate KnownPairings(s: Tables) {
    forall i :: 0 <= i < 16 ==>
      SlotCountry(s.matches, i, 0) in s.countries && SlotCountry(s.matches, i, 1) in s.countries
  }

  lemma {:induction false} ContendersKnown(s: Tables, flips: seq<bool>, k: nat, slot: nat)
    requires |flips| == 32 && k < 32 && slot < 2 && KnownPairings(s)
    ensures Contender(Pairings(s.matches), flips, k, slot) in s.countries
    decreases k
  {
    if k >= 16 && k < 31 {
      var feeder := 2 * (k - 16) + slot;
      ContendersKnown(s, flips, feeder, if flips[feeder] then 1 else 0);
    } else if k == 31 {
      ContendersKnown(s, flips, 28 + slot, if flips[28 + slot] then 0 else 1);
    }
  }

  /** Storing the sheet is accepted: the generator repeats no key and names only known countries. */
  lemma SheetIsAccepted(s: Tables, user: User, flips: seq<bool>)
    requires |flips| == 32 && PlayedTo(s.matches, 0) && KnownPairings(s)
    ensures var sheet := Sheet(Pairings(s.matches), flips);
      && SubmitKnockoutPicks(s, user, sheet).Success?
      && var t := SubmitKnockoutPicks(s, user, sheet).value;
         && t == s.(knockoutPicks := t.knockoutPicks, scores := EnsureScore(s.scores, user))
         && forall k :: 0 <= k < 32 ==> KnockoutPickRow(user, sheet[k].country, sheet[k].round) in t.knockoutPicks
  {
    var ps := Pairings(s.matches);
    var sheet := Sheet(ps, flips);
    var run := FollowToTheEnd(Run([s], [], []), ps, flips, 0);
    forall j, k | 0 <= j < k < 32 ensures sheet[j] != sheet[k] {
      if sheet[j] == sheet[k] {
        SheetKeysDiffer(run.Last().matches, ps, flips, j, k);
      }
    }
    forall k | 0 <= k < 32 ensures sheet[k].country in s.countries {
      ContendersKnown(s, flips, k, if flips[k] then 1 else 0);
    }
    assert Distinct(sheet);
    KnockoutRoundTrip(s, user, sheet);
    forall k | 0 <= k < 32
      ensures var t := SubmitKnockoutPicks(s, user, sheet).value;
        KnockoutPickRow(user, sheet[k].country, sheet[k].round) in t.knockoutPicks
    {
      assert KnockoutPickEntry(sheet[k].country, sheet[k].round) == sheet[k];
    }
  }

  /** When every match went as the sheet says, the audit of its owner is the full 600 points. */
  lemma PerfectAudit(m: MatchTable, ps: seq<Pairing>, flips: seq<bool>, picks: set<KnockoutPickRow>, user: User)
    requires |ps| == 16 && |flips| == 32 && FollowsSheet(m, ps, flips, 32)
    requires forall k :: 0 <= k < 32 ==>
      KnockoutPickRow(user, Sheet(ps, flips)[k].country, Sheet(ps, flips)[k].round) in picks
    ensures Audit(m, picks, user) == 600
  {
    forall k: nat | k < 32 ensures AuditTerms(m, picks, user)(k) == PointsAt(k) {
      assert Winner(RowAt(m, k)) == Some(Sheet(ps, flips)[k].country);
    }
    Sums.SumSame(32, AuditTerms(m, picks, user), (k: nat) => PointsAt(k));
    TotalPoints(32);
  }

  /** A run that stores a sheet in an undecided bracket and then only updates matches ends audited. */
  lemma OneSheetThenMatches(run: Run)
    requires NeutralRun(run) && BracketHolds(run.First().matches) && ScoresAudited(run.First())
    requires NothingDecided(run.First().matches)
    requires forall j :: 1 <= j < |run.calls| ==> run.calls[j].UpdateMatch?
    ensures ScoresAudited(run.Last())
  {
    forall j: nat | j < |run.calls| ensures PicksInTimeAt(run, j) {
      if j == 0 {
        assert run.states[0] == run.First();
      }
    }
    AuditAlways(run, |run.calls|);
  }

  lemma UnplayedIsUndecided(m: MatchTable)
    requires PlayedTo(m, 0)
    ensures NothingDecided(m)
  {
  }

  /** For every sequence of coin flips there are results under which the generated sheet, once stored,
      scores exactly 600 knockout points. */
  lemma EverySheetIsAchievable(s: Tables, user: User, flips: seq<bool>) returns (run: Run)
    requires |flips| == 32 && PlayedTo(s.matches, 0) && KnownPairings(s) && ScoresAudited(s)
    ensures NeutralRun(run) && run.First() == s
    ensures |run.calls| >= 1 && run.calls[0] == Call.CreateKnockoutPicks(user, Sheet(Pairings(s.matches), flips))
    ensures forall j :: 1 <= j < |run.calls| ==> run.calls[j].UpdateMatch?
    ensures AllDecided(run.Last().matches) && ScoreOf(run.Last().scores, user).knockout == 600
  {
    var ps := Pairings(s.matches);
    var call := Call.CreateKnockoutPicks(user, Sheet(ps, flips));
    SheetIsAccepted(s, user, flips);
    var t := SubmitKnockoutPicks(s, user, call.entries).value;
    assert Step(s, call, t, Done);
    LongerIsNeutral(Run([s], [], []), call, t, Done);
    var first := Longer(Run([s], [], []), call, t, Done);
    run := FollowToTheEnd(first, ps, flips, 0);
    assert run.calls[0] == first.calls[0];
    UnplayedIsUndecided(s.matches);
    OneSheetThenMatches(run);
    var last := run.Last();
    forall r: nat, i: nat | Shape.InBracket(r, i) ensures Decided(Row(last.matches, r, i)) {
      assert Decided(RowAt(last.matches, PositionOf(r, i)));
    }
    PerfectAudit(last.matches, ps, flips, last.knockoutPicks, user);
    assert ScoreOf(last.scores, user).knockout == Audit(last.matches, last.knockoutPicks, user);
  }

  /** The seeder's call for one user: it finds the 16 pairings and its sheet is stored. */
  method SeedKnockoutPicks(repo: Store.Repository, user: User, flips: seq<bool>) returns (r: Response)
    requires |flips| == 32 && PlayedTo(repo.tables.matches, 0) && KnownPairings(repo.tables)
    modifies repo
    ensures r.Done?
    ensures var sheet := Sheet(Pairings(old(repo.tables.matches)), flips);
      Step(old(repo.tables), Call.CreateKnockoutPicks(user, sheet), repo.tables, r)
    ensures PlayedTo(repo.tables.matches, 0) && KnownPairings(repo.tables)
  {
    forall i | 0 <= i < Shape.Size(1) ensures Ready(repo.tables.matches, 1, i) {
      RoundIsReady(repo.tables.matches, 1, i, 0);
    }
    ListsWholeRound(repo.tables.matches, 1, 16);
    if |ListReady(repo.tables.matches, 1, 16)| != 16 {
      return Rejected(NoSuchMatch);
    }
    var entries := GenerateSheet(Pairings(repo.tables.matches), flips);
    SheetIsAccepted(repo.tables, user, flips);
    r := repo.CreateKnockoutPicks(user, entries);
  }
}
