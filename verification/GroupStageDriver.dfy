/**
 The seeder's way from twelve ranked groups to the Round of 32: the thirds of the twelve groups are decided, the first
 two of each group and the eight best thirds advance, and these 32 countries fill the 16 matches in order of letter
 and rank.
 */
module GroupStageDriver {
  import opened Tables
  import Runs
  import opened MatchUpdates
  import opened GroupFinalization
  import Store
  import opened Shape
  import opened Bracket
  import KnockoutDriver
  import opened GroupScores
  import GroupCap

  /** Twelve groups of four, all ranked, none decided. */
  ghost predicate TwelveRankedGroups(s: Tables, letters: seq<Letter>) {
    && |letters| == 12 && Distinct(letters)
    && (forall c :: c in s.standings ==> s.standings[c].letter in letters && s.standings[c].qualifier.None?)
    && (forall k :: 0 <= k < 12 ==> FourRanked(s, letters[k]))
  }

  ghost predicate FourRanked(s: Tables, letter: Letter) {
    exists ranking :: RankedBy(s, letter, ranking) && |ranking| == 4
  }

  lemma RankHolder(s: Tables, letter: Letter, rank: int) returns (c: Country)
    requires FourRanked(s, letter) && 1 <= rank <= 4
    ensures Holds(s, letter, rank, c)
    ensures forall d :: Holds(s, letter, rank, d) ==> d == c
  {
    var ranking :| RankedBy(s, letter, ranking) && |ranking| == 4;
    c := ranking[rank - 1];
    assert c in ranking;
  }

  /** Countries with that rank in one of the letters. */
  ghost function HoldersOf(s: Tables, letters: seq<Letter>, rank: int): set<Country> {
    set c | c in s.standings && s.standings[c].letter in letters && s.standings[c].rank == Some(rank)
  }

  /** One country per letter. */
  lemma {:induction false} HoldersSize(s: Tables, letters: seq<Letter>, rank: int)
    requires Distinct(letters) && 1 <= rank <= 4
    requires forall k :: 0 <= k < |letters| ==> FourRanked(s, letters[k])
    ensures |HoldersOf(s, letters, rank)| == |letters|
  {
    if letters == [] {
      assert HoldersOf(s, letters, rank) == {};
    } else {
      var shorter, last := letters[..|letters| - 1], letters[|letters| - 1];
      HoldersSize(s, shorter, rank);
      var c := RankHolder(s, last, rank);
      assert last !in shorter;
      assert forall l :: l in letters <==> l in shorter || l == last;
      forall d | d in HoldersOf(s, letters, rank) && d !in HoldersOf(s, shorter, rank) ensures d == c {
        assert Holds(s, last, rank, d);
      }
      assert HoldersOf(s, letters, rank) == HoldersOf(s, shorter, rank) + {c};
      assert c !in HoldersOf(s, shorter, rank);
    }
  }

  /** The WHERE clause of the query for the advancing countries. */
  predicate Advances(st: GroupStanding) {
    st.rank == Some(1) || st.rank == Some(2) || (st.rank == Some(3) && st.qualifier == Some(true))
  }

  function AdvancingSet(s: Tables): set<Country> {
    set c | c in s.standings && Advances(s.standings[c])
  }

  /** A third of one of the letters gets its flag: true for the best, false for the others. */
  function WithFlag(st: GroupStanding, letters: seq<Letter>, best: seq<Letter>): GroupStanding {
    st.(qualifier := if st.rank == Some(3) && st.letter in letters then Some(st.letter in best) else None)
  }

  /** The thirds of the letters up to k are flagged and the bracket is as before. */
  ghost predicate FlaggedTo(before: Tables, s: Tables, letters: seq<Letter>, best: seq<Letter>, k: nat)
    requires k <= |letters|
  {
    && s.standings == (map c | c in before.standings :: WithFlag(before.standings[c], letters[..k], best))
    && s == before.(standings := s.standings, scores := s.scores)
    && forall u :: ScoreOf(s.scores, u).knockout == ScoreOf(before.scores, u).knockout
  }

  /** Eight flags among twelve thirds make thirty-two. */
  lemma ThirtyTwoAdvance(before: Tables, s: Tables, letters: seq<Letter>, best: seq<Letter>)
    requires TwelveRankedGroups(before, letters) && FlaggedTo(before, s, letters, best, 12)
    requires |best| == 8 && Distinct(best) && forall k :: 0 <= k < 8 ==> best[k] in letters
    ensures |AdvancingSet(s)| == 32
  {
    assert letters[..12] == letters;
    HoldersSize(before, letters, 1);
    HoldersSize(before, letters, 2);
    forall k | 0 <= k < 8 ensures FourRanked(before, best[k]) {
      var j :| 0 <= j < 12 && letters[j] == best[k];
    }
    HoldersSize(before, best, 3);
    AdvancingSplits(before, s, letters, best);
  }

  lemma AdvancingSplits(before: Tables, s: Tables, letters: seq<Letter>, best: seq<Letter>)
    requires TwelveRankedGroups(before, letters) && FlaggedTo(before, s, letters, best, 12)
    requires forall k :: 0 <= k < |best| ==> best[k] in letters
    ensures AdvancingSet(s)
         == HoldersOf(before, letters, 1) + HoldersOf(before, letters, 2) + HoldersOf(before, best, 3)
  {
  }

  /** A letter not yet decided has one third, without a flag. */
  lemma OpenThird(before: Tables, s: Tables, letters: seq<Letter>, best: seq<Letter>, k: nat) returns (third: Country)
    requires TwelveRankedGroups(before, letters) && k < 12 && FlaggedTo(before, s, letters, best, k)
    ensures third in s.standings && Thirds(s, letters[k]) == {third} && s.standings[third].qualifier.None?
    ensures Holds(before, letters[k], 3, third)
    ensures forall d :: Holds(before, letters[k], 3, d) ==> d == third
  {
    third := RankHolder(before, letters[k], 3);
    forall d | d in Thirds(s, letters[k]) ensures d == third {
      assert Holds(before, letters[k], 3, d);
    }
    assert letters[k] !in letters[..k];
    assert third in Thirds(s, letters[k]);
  }

  /** Flagging that third is the next step of the flagging. */
  lemma FlagNext(before: Tables, standings: map<Country, GroupStanding>, letters: seq<Letter>, best: seq<Letter>,
                 k: nat, third: Country)
    requires TwelveRankedGroups(before, letters) && k < 12
    requires standings == map c | c in before.standings :: WithFlag(before.standings[c], letters[..k], best)
    requires Holds(before, letters[k], 3, third)
    requires forall d :: Holds(before, letters[k], 3, d) ==> d == third
    ensures standings[third := standings[third].(qualifier := Some(letters[k] in best))]
         == map c | c in before.standings :: WithFlag(before.standings[c], letters[..k + 1], best)
  {
    forall d | d in before.standings && d != third
      ensures before.standings[d].letter != letters[k] || before.standings[d].rank != Some(3)
    {
      assert !Holds(before, letters[k], 3, d);
    }
  }

  /** The decision for the next letter flags its third and moves no knockout score. */
  lemma DecisionFlags(before: Tables, s: Tables, letters: seq<Letter>, best: seq<Letter>, k: nat, third: Country,
                      paid: set<User>, t: Tables)
    requires TwelveRankedGroups(before, letters) && k < 12 && FlaggedTo(before, s, letters, best, k)
    requires Thirds(s, letters[k]) == {third} && PaidFor(s.groupPicks, letters[k], letters[k] in best, paid)
    requires third in s.standings && FinalizeThird(s, letters[k] in best, third, paid) == Success(t)
    ensures FlaggedTo(before, t, letters, best, k + 1)
  {
    var d := OpenThird(before, s, letters, best, k);
    assert d in Thirds(s, letters[k]);
    FlagNext(before, s.standings, letters, best, k, third);
    forall u ensures ScoreOf(t.scores, u).knockout == ScoreOf(before.scores, u).knockout {
      GroupCap.DecisionPays(s, letters[k], letters[k] in best, third, paid, t, u);
    }
  }

  /** The call for the next letter is accepted. */
  lemma DecisionAccepted(before: Tables, s: Tables, letters: seq<Letter>, best: seq<Letter>, k: nat, t: Tables,
                         r: Response)
    requires TwelveRankedGroups(before, letters) && k < 12 && FlaggedTo(before, s, letters, best, k)
    requires Runs.FinalizeThirdStep(s, letters[k], letters[k] in best, t, r)
    ensures r.Done? && FlaggedTo(before, t, letters, best, k + 1)
  {
    var third := OpenThird(before, s, letters, best, k);
    var c, paid :| c in Thirds(s, letters[k]) && PaidFor(s.groupPicks, letters[k], letters[k] in best, paid)
                   && Commits(s, FinalizeThird(s, letters[k] in best, c, paid), t, r);
    assert c == third;
    DecisionFlags(before, s, letters, best, k, third, paid, t);
  }

  /** What the database answers to the query for the advancing countries: each once, by letter and rank. */
  ghost predicate IsAdvancingQuery(s: Tables, rows: seq<Country>) {
    && Distinct(rows)
    && (forall c :: c in rows <==> c in AdvancingSet(s))
    && (forall i, j :: 0 <= i < j < |rows| ==> Before(s, rows[i], rows[j]))
  }

  ghost predicate Before(s: Tables, c: Country, d: Country) {
    c in s.standings && d in s.standings && s.standings[c].rank.Some? && s.standings[d].rank.Some?
    && (s.standings[c].letter < s.standings[d].letter
        || (s.standings[c].letter == s.standings[d].letter && s.standings[c].rank.value <= s.standings[d].rank.value))
  }

  // ---- seeding ----

  function SeedRequest(i: nat, c1: Country, c2: Country): MatchRequest {
    MatchRequest(Some(c1), Some(c2), None, None, None, None, None, None, 1, Some(i))
  }

  /** No bracket match has a result, and no match after the Round of 32 has a country. */
  ghost predicate Untouched(m: MatchTable) {
    && HasBracketRows(m)
    && (forall r: nat, i: nat {:trigger Row(m, r, i)} :: InBracket(r, i) ==> !Complete(Row(m, r, i)))
    && (forall r: nat, i: nat, s: nat {:trigger Slot(m, r, i, s)} :: 2 <= r && InBracket(r, i) && s < 2 ==>
      Slot(m, r, i, s).None?)
  }

  /** The first i matches of the Round of 32 hold the first 2i countries of the list. */
  ghost predicate SeededTo(m: MatchTable, rows: seq<Country>, i: nat)
    requires |rows| == 32
  {
    Untouched(m) && forall j: nat, s: nat {:trigger Slot(m, 1, j, s)} ::
      j < i && j < 16 && s < 2 ==> Slot(m, 1, j, s) == Some(rows[2 * j + s])
  }

  lemma SeedingAccepted(s: Tables, rows: seq<Country>, i: nat, t: Tables, r: Response)
    requires |rows| == 32 && i < 16 && SeededTo(s.matches, rows, i)
    requires rows[2 * i] in s.countries && rows[2 * i + 1] in s.countries
    requires UpdateMatchStep(s, SeedRequest(i, rows[2 * i], rows[2 * i + 1]), t, r)
    ensures r.Done? && SeededTo(t.matches, rows, i + 1) && t == s.(matches := t.matches)
  {
    var req, id := SeedRequest(i, rows[2 * i], rows[2 * i + 1]), KnockoutMatch(1, i);
    assert InBracket(1, i) && id in s.matches;
    assert !Complete(Row(s.matches, 1, i));
    assert Targets(s, req) == {id};
    var row := Merge(s, s.matches[id], true, req);
    assert UpdateRow(s, id, req) == Success(s.(matches := s.matches[id := row]));
    forall r: nat, j: nat | InBracket(r, j) ensures !Complete(Row(t.matches, r, j)) {
      assert !Complete(Row(s.matches, r, j));
    }
    forall r: nat, j: nat, slot: nat | InBracket(r, j) && slot < 2 && !(r == 1 && j == i)
      ensures Slot(t.matches, r, j, slot) == Slot(s.matches, r, j, slot)
    {
    }
  }

  lemma SeededBracketHolds(m: MatchTable, rows: seq<Country>)
    requires |rows| == 32 && Distinct(rows) && SeededTo(m, rows, 16)
    ensures KnockoutDriver.PlayedTo(m, 0)
  {
  }

  /** The rows of the query in an order the database could return, found letter by letter and rank by rank. */
  method QueryAdvancing(s: Tables, letters: seq<Letter>) returns (rows: seq<Country>)
    requires forall i, j :: 0 <= i < j < |letters| ==> letters[i] < letters[j]
    requires forall c :: c in AdvancingSet(s) ==> s.standings[c].letter in letters
    ensures IsAdvancingQuery(s, rows)
  {
    rows := [];
    for k := 0 to |letters|
      invariant IsSorted(s, rows)
      invariant forall c :: c in rows <==> c in AdvancingSet(s) && s.standings[c].letter in letters[..k]
    {
      ghost var shorter := letters[..k];
      assert letters[..k + 1] == shorter + [letters[k]];
      for rank := 1 to 4
        invariant IsSorted(s, rows)
        invariant forall c :: c in rows <==> c in AdvancingSet(s) && Listed(s.standings[c], shorter, letters[k], rank)
      {
        rows := AppendHolders(s, rows, letters[k], rank);
      }
    }
    assert letters[..|letters|] == letters;
  }

  /** Already listed: an earlier letter, or an earlier rank of this one. */
  predicate Listed(st: GroupStanding, shorter: seq<Letter>, letter: Letter, rank: int) {
    st.letter in shorter || (st.letter == letter && st.rank.Some? && st.rank.value < rank)
  }

  ghost predicate IsSorted(s: Tables, rows: seq<Country>) {
    Distinct(rows) && forall i, j :: 0 <= i < j < |rows| ==> Before(s, rows[i], rows[j])
  }

  method AppendHolders(s: Tables, before: seq<Country>, letter: Letter, rank: int) returns (rows: seq<Country>)
    requires IsSorted(s, before)
    requires forall c :: c in before ==>
      && c in AdvancingSet(s)
      && (s.standings[c].letter < letter || (s.standings[c].letter == letter && s.standings[c].rank.value < rank))
    ensures IsSorted(s, rows)
    ensures forall c :: c in rows <==>
      c in before || (c in AdvancingSet(s) && s.standings[c].letter == letter && s.standings[c].rank.value == rank)
  {
    rows := before;
    var here := set c | c in AdvancingSet(s) && s.standings[c].letter == letter && s.standings[c].rank.value == rank;
    var left := here;
    while left != {}
      invariant left <= here && IsSorted(s, rows)
      invariant forall c :: c in rows <==> c in before || c in here - left
    {
      var c :| c in left;
      assert c !in rows;
      assert forall d :: d in rows ==> Before(s, d, c);
      rows := rows + [c];
      left := left - {c};
    }
  }

  // ---- the driver ----

  const LETTERS: seq<Letter> := ['A', 'B', 'C', 'D', 'E', 'F', 'G', 'H', 'I', 'J', 'K', 'L']

  /** The letters whose thirds go through. */
  function BestEight(thirds: seq<Letter>): seq<Letter> {
    if |thirds| < 8 then thirds else thirds[..8]
  }

  /** Decides the third places and fills the Round of 32. `thirds` is the database's list of the letters of
      all third-placed countries, best first. The driver is never stopped, exactly 32 countries advance and
      the bracket starts with them. */
  method SeedRoundOf32(repo: Store.Repository, thirds: seq<Letter>) returns (fatal: bool, ghost list: seq<Country>)
    requires TwelveRankedGroups(repo.tables, LETTERS) && Untouched(repo.tables.matches)
    requires repo.tables.standings.Keys <= repo.tables.countries
    requires Distinct(thirds) && forall l :: l in thirds <==> Thirds(repo.tables, l) != {}
    modifies repo
    ensures !fatal && KnockoutDriver.PlayedTo(repo.tables.matches, 0)
    ensures |AdvancingSet(repo.tables)| == 32
    ensures FilledFrom(repo.tables) && FilledInOrder(repo.tables, list)
    ensures FlaggedTo(old(repo.tables), repo.tables.(matches := old(repo.tables.matches)), LETTERS,
                      BestEight(thirds), 12)
  {
    ThirdsAreLetters(repo.tables, thirds);
    list := [];
    if |thirds| != 12 {
      return true, list;
    }
    ghost var before := repo.tables;
    fatal := DecideThirds(repo, thirds[..8]);
    if !fatal {
      ThirtyTwoAdvance(before, repo.tables, LETTERS, thirds[..8]);
      ghost var flagged := repo.tables;
      fatal, list := FillRoundOf32(repo);
      assert repo.tables.(matches := before.matches) == flagged;
    }
  }

  method DecideThirds(repo: Store.Repository, best: seq<Letter>) returns (fatal: bool)
    requires TwelveRankedGroups(repo.tables, LETTERS)
    modifies repo
    ensures !fatal && FlaggedTo(old(repo.tables), repo.tables, LETTERS, best, 12)
  {
    ghost var before := repo.tables;
    assert before.standings == map c | c in before.standings :: WithFlag(before.standings[c], LETTERS[..0], best);
    for k := 0 to 12
      invariant FlaggedTo(before, repo.tables, LETTERS, best, k)
    {
      ghost var s := repo.tables;
      var r := repo.FinalizeThirdPlaceQualifier(LETTERS[k], LETTERS[k] in best);
      DecisionAccepted(before, s, LETTERS, best, k, repo.tables, r);
      if r.Rejected? {
        return true;
      }
    }
    return false;
  }

  /** Every Round-of-32 slot holds an advancing country. */
  ghost predicate FilledFrom(s: Tables) {
    forall i: nat, slot: nat {:trigger Slot(s.matches, 1, i, slot)} :: i < 16 && slot < 2 ==>
      Slot(s.matches, 1, i, slot).Some? && Slot(s.matches, 1, i, slot).value in AdvancingSet(s)
  }

  /** The Round of 32 holds this list, two by two: the first and second of every group and the thirds that go through,
      by letter and rank. */
  ghost predicate FilledInOrder(s: Tables, list: seq<Country>) {
    && |list| == 32 && Distinct(list)
    && (forall c :: c in list <==>
          c in s.standings
          && (s.standings[c].rank == Some(1) || s.standings[c].rank == Some(2)
              || (s.standings[c].rank == Some(3) && s.standings[c].qualifier == Some(true))))
    && (forall i, j :: 0 <= i < j < 32 ==>
          var a, b := s.standings[list[i]], s.standings[list[j]];
          a.letter < b.letter || (a.letter == b.letter && OrZero(a.rank) <= OrZero(b.rank)))
    && (forall i: nat, slot: nat {:trigger Slot(s.matches, 1, i, slot)} ::
          i < 16 && slot < 2 ==> Slot(s.matches, 1, i, slot) == Some(list[2 * i + slot]))
  }

  method FillRoundOf32(repo: Store.Repository) returns (fatal: bool, ghost list: seq<Country>)
    requires |AdvancingSet(repo.tables)| == 32 && Untouched(repo.tables.matches)
    requires forall c :: c in repo.tables.standings ==>
      repo.tables.standings[c].letter in LETTERS && c in repo.tables.countries
    modifies repo
    ensures !fatal && KnockoutDriver.PlayedTo(repo.tables.matches, 0) && FilledFrom(repo.tables)
    ensures repo.tables == old(repo.tables).(matches := repo.tables.matches) && FilledInOrder(repo.tables, list)
  {
    var advancing := QueryAdvancing(repo.tables, LETTERS);
    list := advancing;
    DistinctSize(advancing, AdvancingSet(repo.tables));
    if |advancing| != 32 {
      return true, list;
    }
    ghost var before := repo.tables;
    for i := 0 to 16
      invariant SeededTo(repo.tables.matches, advancing, i)
      invariant repo.tables == before.(matches := repo.tables.matches)
    {
      ghost var s := repo.tables;
      assert advancing[2 * i] in advancing && advancing[2 * i + 1] in advancing;
      var r := repo.UpdateMatch(SeedRequest(i, advancing[2 * i], advancing[2 * i + 1]));
      SeedingAccepted(s, advancing, i, repo.tables, r);
      if r.Rejected? {
        return true, list;
      }
    }
    SeededBracketHolds(repo.tables.matches, advancing);
    assert AdvancingSet(repo.tables) == AdvancingSet(before);
    forall i: nat, slot: nat | i < 16 && slot < 2
      ensures Slot(repo.tables.matches, 1, i, slot).Some?
        && Slot(repo.tables.matches, 1, i, slot).value in AdvancingSet(repo.tables)
    {
      assert advancing[2 * i + slot] in advancing;
    }
    FilledByQuery(before, advancing, repo.tables);
    return false, list;
  }

  lemma FilledByQuery(before: Tables, list: seq<Country>, s: Tables)
    requires IsAdvancingQuery(before, list) && |list| == 32 && s == before.(matches := s.matches)
    requires SeededTo(s.matches, list, 16)
    ensures FilledInOrder(s, list)
  {
    forall c ensures c in list <==> c in s.standings && Advances(s.standings[c]) {
    }
    forall i, j | 0 <= i < j < 32
      ensures var a, b := s.standings[list[i]], s.standings[list[j]];
        a.letter < b.letter || (a.letter == b.letter && OrZero(a.rank) <= OrZero(b.rank))
    {
      assert Before(before, list[i], list[j]);
    }
  }

  /** The letters with a third are the twelve letters. */
  lemma ThirdsAreLetters(s: Tables, thirds: seq<Letter>)
    requires TwelveRankedGroups(s, LETTERS) && Distinct(thirds) && forall l :: l in thirds <==> Thirds(s, l) != {}
    ensures |thirds| == 12 && forall l :: l in thirds <==> l in LETTERS
  {
    forall l ensures l in thirds <==> l in LETTERS {
      if l in LETTERS {
        var k :| 0 <= k < 12 && LETTERS[k] == l;
        var third := RankHolder(s, l, 3);
        assert third in Thirds(s, l);
      }
    }
    var all := set l | l in LETTERS;
    DistinctSize(thirds, all);
    DistinctSize(LETTERS, all);
  }
}
