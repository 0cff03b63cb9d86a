/** Creating a contest: its countries, its match rows and its zero standings. */
module ContestCreation {
  import opened Tables
  import Sums
  import MatchUpdates
  import Runs
  import opened Shape
  import opened Generation
  import Store
  import opened GroupResults
  import Bracket
  import opened BracketScores
  import GroupScores
  import opened GroupCap
  import opened GroupAudit

  /** A group match is numbered by its position in the insert, a bracket match named by round and index. */
  function InsertedId(m: NewMatch, k: nat): MatchId {
    if m.roundIndex.None? then GroupMatch(k) else KnockoutMatch(m.round, m.roundIndex.value)
  }

  function InsertMatches(ms: seq<NewMatch>): map<MatchId, MatchRow> {
    if ms == [] then map[]
    else
      var last := ms[|ms| - 1];
      var row := UNSEEDED.(country1 := last.country1, country2 := last.country2);
      InsertMatches(ms[..|ms| - 1])[InsertedId(last, |ms| - 1) := row]
  }

  function ZeroStanding(letter: Letter): GroupStanding {
    GroupStanding(letter, 0, 0, 0, 0, 0, 0, 0, 0, None, None)
  }

  function GroupZeros(letter: Letter, cs: seq<Country>): map<Country, GroupStanding> {
    map c | c in cs :: ZeroStanding(letter)
  }

  function ZeroStandings(groups: seq<Group>): map<Country, GroupStanding> {
    if groups == [] then map[]
    else ZeroStandings(groups[..|groups| - 1]) + GroupZeros(groups[|groups| - 1].letter, groups[|groups| - 1].countries)
  }

  /** The tables of a contest that has just been created. */
  function NewContest(countries: set<Country>, groups: seq<Group>): Tables {
    Tables(countries + (set c | c in AllCountries(groups)), InsertMatches(ContestMatches(groups)),
           ZeroStandings(groups),
           map[], map[], {}, map[])
  }

  /** A standings insert without a single row is not a statement. */
  predicate InsertsNothing(groups: seq<Group>) {
    groups != [] && AllCountries(groups) == []
  }

  /** Succeeds exactly when no country is named twice and the groups, if any, have a country; a failing standings
      insert leaves the rows before it. */
  method CreateContest(known: set<Country>, groups: seq<Group>) returns (repo: Store.Repository, r: Response)
    ensures fresh(repo)
    ensures r.Done? <==> Distinct(AllCountries(groups)) && !InsertsNothing(groups)
    ensures repo.tables == if r.Done? then NewContest(known, groups) else NewContest(known, groups).(standings := map[])
  {
    var allCountries: seq<Country> := [];
    for k := 0 to |groups|
      invariant allCountries == AllCountries(groups[..k])
    {
      allCountries := allCountries + groups[k].countries;
      assert groups[..k + 1][..k] == groups[..k];
    }
    assert groups[..|groups|] == groups;
    var countries := known + (set c | c in allCountries);
    var matches := GenerateMatches(groups);
    var rows := CreateMatches(matches);
    repo := new Store.Repository(Tables(countries, rows, map[], map[], map[], {}, map[]));
    if groups == [] {
      return repo, Done;
    }
    if allCountries == [] {
      return repo, Rejected(EmptyInsert);
    }
    var standings := CreateGroupStandings(groups);
    if standings.None? {
      return repo, Rejected(DuplicateKey);
    }
    repo.tables := repo.tables.(standings := standings.value);
    return repo, Done;
  }

  method CreateMatches(matches: seq<NewMatch>) returns (rows: map<MatchId, MatchRow>)
    ensures rows == InsertMatches(matches)
  {
    rows := map[];
    for k := 0 to |matches|
      invariant rows == InsertMatches(matches[..k])
    {
      var m := matches[k];
      rows := rows[InsertedId(m, k) := UNSEEDED.(country1 := m.country1, country2 := m.country2)];
      assert matches[..k + 1][..k] == matches[..k];
    }
    assert matches[..|matches|] == matches;
  }

  /** None when a country is inserted twice. */
  method CreateGroupStandings(groups: seq<Group>) returns (standings: Option<map<Country, GroupStanding>>)
    ensures standings.Some? <==> Distinct(AllCountries(groups))
    ensures standings.Some? ==> standings.value == ZeroStandings(groups)
  {
    var rows: map<Country, GroupStanding> := map[];
    for k := 0 to |groups|
      invariant rows == ZeroStandings(groups[..k])
      invariant Distinct(AllCountries(groups[..k]))
    {
      assert groups[..k + 1][..k] == groups[..k];
      ZeroStandingsKeys(groups[..k]);
      var more := InsertGroup(rows, AllCountries(groups[..k]), groups[k]);
      if more.None? {
        AllCountriesPrefix(groups, k + 1);
        return None;
      }
      rows := more.value;
    }
    assert groups[..|groups|] == groups;
    return Some(rows);
  }

  /** The next country keeps the list distinct exactly when it is new; otherwise the whole list repeats it. */
  lemma NextCountry(taken: seq<Country>, cs: seq<Country>, j: nat)
    requires j < |cs| && Distinct(taken + cs[..j])
    ensures cs[j] in taken || cs[j] in cs[..j] ==> !Distinct(taken + cs)
    ensures cs[j] !in taken && cs[j] !in cs[..j] ==> Distinct(taken + cs[..j + 1])
  {
    var upTo := taken + cs[..j];
    assert taken + cs[..j + 1] == upTo + [cs[j]];
    if cs[j] in upTo {
      var i :| 0 <= i < |upTo| && upTo[i] == cs[j];
      assert (taken + cs)[i] == upTo[i] && (taken + cs)[|taken| + j] == cs[j];
    }
  }

  lemma AddZero(start: map<Country, GroupStanding>, g: Group, j: nat)
    requires j < |g.countries|
    ensures start + GroupZeros(g.letter, g.countries[..j + 1])
         == (start + GroupZeros(g.letter, g.countries[..j]))[g.countries[j] := ZeroStanding(g.letter)]
  {
    assert g.countries[..j + 1] == g.countries[..j] + [g.countries[j]];
  }

  /** Adds the zero rows of one group; None when a key is taken. */
  method InsertGroup(start: map<Country, GroupStanding>, ghost taken: seq<Country>, g: Group)
    returns (rows: Option<map<Country, GroupStanding>>)
    requires Distinct(taken) && forall c :: c in start <==> c in taken
    ensures rows.Some? <==> Distinct(taken + g.countries)
    ensures rows.Some? ==> rows.value == start + GroupZeros(g.letter, g.countries)
  {
    var table := start;
    for j := 0 to |g.countries|
      invariant table == start + GroupZeros(g.letter, g.countries[..j])
      invariant Distinct(taken + g.countries[..j])
    {
      var c := g.countries[j];
      NextCountry(taken, g.countries, j);
      if c in table {
        return None;
      }
      AddZero(start, g, j);
      table := table[c := ZeroStanding(g.letter)];
    }
    assert g.countries[..|g.countries|] == g.countries;
    return Some(table);
  }

  lemma {:induction false} ZeroStandingsKeys(groups: seq<Group>)
    ensures forall c :: c in ZeroStandings(groups) <==> c in AllCountries(groups)
  {
    if groups != [] {
      ZeroStandingsKeys(groups[..|groups| - 1]);
    }
  }

  lemma {:induction false} AllCountriesPrefix(groups: seq<Group>, k: nat)
    requires k <= |groups|
    ensures AllCountries(groups[..k]) <= AllCountries(groups)
  {
    if k < |groups| {
      AllCountriesPrefix(groups[..|groups| - 1], k);
      assert groups[..|groups| - 1][..k] == groups[..k];
    } else {
      assert groups[..k] == groups;
    }
  }

  // ---- what a new contest starts with ----

  lemma {:induction false} InsertedGroupRow(ms: seq<NewMatch>, k: nat)
    ensures GroupMatch(k) in InsertMatches(ms) <==> k < |ms| && ms[k].roundIndex.None?
    ensures GroupMatch(k) in InsertMatches(ms) ==>
      InsertMatches(ms)[GroupMatch(k)] == UNSEEDED.(country1 := ms[k].country1, country2 := ms[k].country2)
  {
    if ms != [] {
      InsertedGroupRow(ms[..|ms| - 1], k);
    }
  }

  lemma {:induction false} InsertedBracketRow(ms: seq<NewMatch>, r: nat, i: nat)
    requires forall k :: 0 <= k < |ms| && ms[k].roundIndex.Some? ==> ms[k].country1.None? && ms[k].country2.None?
    ensures KnockoutMatch(r, i) in InsertMatches(ms) <==> Count(ms, IsSlot(r, i)) >= 1
    ensures KnockoutMatch(r, i) in InsertMatches(ms) ==> InsertMatches(ms)[KnockoutMatch(r, i)] == UNSEEDED
  {
    if ms != [] {
      InsertedBracketRow(ms[..|ms| - 1], r, i);
    }
  }

  lemma {:induction false} GroupLetter(groups: seq<Group>, k: nat, c: Country)
    requires Distinct(AllCountries(groups)) && k < |groups| && c in groups[k].countries
    ensures c in ZeroStandings(groups) && ZeroStandings(groups)[c].letter == groups[k].letter
  {
    if k < |groups| - 1 {
      var before := groups[..|groups| - 1];
      LastGroupApart(groups);
      GroupLetter(before, k, c);
      InAllCountries(before, k, c);
    }
  }

  lemma {:induction false} StandingsAreZero(groups: seq<Group>, c: Country)
    requires c in ZeroStandings(groups)
    ensures exists k :: 0 <= k < |groups| && ZeroStandings(groups)[c] == ZeroStanding(groups[k].letter)
  {
    var last := groups[|groups| - 1];
    if c !in last.countries {
      var before := groups[..|groups| - 1];
      StandingsAreZero(before, c);
      var k :| 0 <= k < |before| && ZeroStandings(before)[c] == ZeroStanding(before[k].letter);
      assert groups[k] == before[k];
    }
  }

  /** Row k of the group stage is the k-th generated group match, unplayed. */
  lemma {:induction false} NewGroupRow(groups: seq<Group>, k: nat)
    requires Distinct(AllCountries(groups))
    ensures var rows := InsertMatches(ContestMatches(groups));
      && (GroupMatch(k) in rows <==> k < |GroupMatches(groups)|)
      && (k < |GroupMatches(groups)| ==>
            rows[GroupMatch(k)]
            == UNSEEDED.(country1 := GroupMatches(groups)[k].country1, country2 := GroupMatches(groups)[k].country2))
  {
    InsertedGroupRow(ContestMatches(groups), k);
    if k < |GroupMatches(groups)| {
      GroupMatchShape(groups, k);
    } else if k < |ContestMatches(groups)| {
      SkeletonShape(k - |GroupMatches(groups)|);
    }
  }

  lemma {:induction false} NewBracketRow(groups: seq<Group>, r: nat, i: nat)
    requires Distinct(AllCountries(groups))
    ensures var rows := InsertMatches(ContestMatches(groups));
      && (KnockoutMatch(r, i) in rows <==> InBracket(r, i))
      && (InBracket(r, i) ==> rows[KnockoutMatch(r, i)] == UNSEEDED)
  {
    var ms := ContestMatches(groups);
    forall k | 0 <= k < |ms| && ms[k].roundIndex.Some? ensures ms[k].country1.None? && ms[k].country2.None? {
      if k < |GroupMatches(groups)| {
        GroupMatchShape(groups, k);
      } else {
        SkeletonShape(k - |GroupMatches(groups)|);
      }
    }
    InsertedBracketRow(ms, r, i);
    GeneratedOnce(groups, Country("a"), Country("b"), r, i);
  }

  lemma {:induction false} NewFixture(groups: seq<Group>, known: set<Country>, k: nat)
    requires Distinct(AllCountries(groups)) && k < |GroupMatches(groups)|
    ensures var t := NewContest(known, groups);
      GroupMatch(k) in t.matches && IsFixture(t, t.matches[GroupMatch(k)])
  {
    NewGroupRow(groups, k);
    GroupMatchShape(groups, k);
    var m := GroupMatches(groups)[k];
    var g :| 0 <= g < |groups| && m.country1.value in groups[g].countries && m.country2.value in groups[g].countries;
    GroupLetter(groups, g, m.country1.value);
    GroupLetter(groups, g, m.country2.value);
  }

  lemma {:induction false} NewFixturesDiffer(groups: seq<Group>, j: nat, k: nat)
    requires Distinct(AllCountries(groups)) && j < |GroupMatches(groups)| && k < |GroupMatches(groups)| && j != k
    ensures var rows := InsertMatches(ContestMatches(groups));
      && GroupMatch(j) in rows && GroupMatch(k) in rows
      && !MatchUpdates.IsPairing(rows[GroupMatch(k)], rows[GroupMatch(j)].country1, rows[GroupMatch(j)].country2)
  {
    NewGroupRow(groups, j);
    NewGroupRow(groups, k);
    GroupMatchShape(groups, j);
    var m := GroupMatches(groups)[j];
    var p := Meets(m.country1.value, m.country2.value);
    GroupMatchesMeet(groups, m.country1.value, m.country2.value);
    if p(GroupMatches(groups)[k]) {
      OnePosition(GroupMatches(groups), p, j, k);
    }
  }

  /** Every standing of a new contest is that of a country of a group, under its letter, with nothing counted. */
  lemma {:induction false} NewStandings(known: set<Country>, groups: seq<Group>, g: nat, c: Country)
    requires Distinct(AllCountries(groups)) && g < |groups| && c in groups[g].countries
    ensures var t := NewContest(known, groups);
      && c in t.countries && c in t.standings && t.standings[c].letter == groups[g].letter
      && var st := t.standings[c];
         && st.points == 0 && st.wins == 0 && st.draws == 0 && st.losses == 0
         && st.gf == 0 && st.ga == 0 && st.gd == 0 && st.cs == 0 && st.rank.None? && st.qualifier.None?
  {
    GroupLetter(groups, g, c);
    StandingsAreZero(groups, c);
    InAllCountries(groups, g, c);
  }

  /** Every group match of a new contest is open and pairs two countries of one group, the earlier one first; every
      bracket match is empty; and nothing else has been stored. */
  lemma {:induction false} NewMatches(known: set<Country>, groups: seq<Group>, id: MatchId)
    requires Distinct(AllCountries(groups)) && id in NewContest(known, groups).matches
    ensures var t := NewContest(known, groups);
      var row := t.matches[id];
      && row.goals1.None? && row.goals2.None? && row.penalties1.None? && row.penalties2.None?
      && row.conduct1.None? && row.conduct2.None?
      && t.knockoutStandings == map[] && t.groupPicks == map[] && t.knockoutPicks == {} && t.scores == map[]
    ensures var row := NewContest(known, groups).matches[id];
      if id.KnockoutMatch? then row.country1.None? && row.country2.None?
      else exists g, i, j :: 0 <= g < |groups| && 0 <= i < j < |groups[g].countries|
                          && row.country1 == Some(groups[g].countries[i])
                          && row.country2 == Some(groups[g].countries[j])
  {
    if id.KnockoutMatch? {
      NewBracketRow(groups, id.round, id.index);
    } else {
      NewGroupRow(groups, id.number);
      var g, i, j := GroupMatchOrder(groups, id.number);
    }
  }

  /** A contest with distinct countries starts well shaped, so every lookup in every later run is unambiguous. */
  lemma {:induction false} NewContestIsWellShaped(known: set<Country>, groups: seq<Group>)
    requires Distinct(AllCountries(groups))
    ensures WellShaped(NewContest(known, groups), |GroupMatches(groups)|)
  {
    var t, n := NewContest(known, groups), |GroupMatches(groups)|;
    forall k: nat ensures GroupMatch(k) in t.matches <==> k < n {
      NewGroupRow(groups, k);
    }
    forall r: nat, i: nat ensures KnockoutMatch(r, i) in t.matches <==> InBracket(r, i) {
      NewBracketRow(groups, r, i);
    }
    forall k: nat | k < n ensures IsFixture(t, t.matches[GroupMatch(k)]) {
      NewFixture(groups, known, k);
    }
    forall j: nat, k: nat | j < n && k < n && j != k
      ensures !MatchUpdates.IsPairing(t.matches[GroupMatch(k)], t.matches[GroupMatch(j)].country1,
                                      t.matches[GroupMatch(j)].country2)
    {
      NewFixturesDiffer(groups, j, k);
    }
  }

  lemma {:induction false} NewStandingAgrees(known: set<Country>, groups: seq<Group>, c: Country)
    requires Distinct(AllCountries(groups)) && c in ZeroStandings(groups)
    ensures StandingAgrees(NewContest(known, groups), |GroupMatches(groups)|, c)
  {
    var t, n := NewContest(known, groups), |GroupMatches(groups)|;
    StandingsAreZero(groups, c);
    forall stat ensures Recomputed(t, n, stat, c) == 0 {
      forall k: nat | k < n ensures Contributions(t.matches, stat, c)(k) == 0 {
        NewGroupRow(groups, k);
      }
      Sums.SumZero(n, Contributions(t.matches, stat, c));
    }
  }

  /** A new contest satisfies the starting conditions of the group theorems: standings agree with the
      (empty) results, no group is settled, and nobody has group points. */
  lemma {:induction false} NewContestStartsGroups(known: set<Country>, groups: seq<Group>, letters: seq<Letter>)
    requires Distinct(AllCountries(groups))
    requires Distinct(letters) && forall k :: 0 <= k < |groups| ==> groups[k].letter in letters
    ensures var t, n := NewContest(known, groups), |GroupMatches(groups)|;
      && WellShaped(t, n) && StandingsAgree(t, n) && GroupScores.GroupsSettled(t)
      && OneThirdEach(t) && AreLetters(t, letters) && GroupScoresWithin(t, letters)
      && ListsStandings(t, AllCountries(groups)) && GroupScoresAudited(t, AllCountries(groups))
  {
    var t := NewContest(known, groups);
    ZeroStandingsKeys(groups);
    NewContestIsWellShaped(known, groups);
    forall c | c in t.standings
      ensures StandingAgrees(t, |GroupMatches(groups)|, c)
      ensures t.standings[c].letter in letters && t.standings[c].rank.None? && t.standings[c].qualifier.None?
    {
      NewStandingAgrees(known, groups, c);
      StandingsAreZero(groups, c);
    }
    PayableAtMost50(t, letters);
    forall u ensures StandingsAudit(t, AllCountries(groups), u) == 0 {
      Sums.SumZero(|AllCountries(groups)|, Worths(t, AllCountries(groups), u));
    }
  }

  /** ... and those of the knockout theorems: an empty bracket, nothing decided and nobody with points. */
  lemma {:induction false} NewContestStartsKnockout(known: set<Country>, groups: seq<Group>)
    requires Distinct(AllCountries(groups))
    ensures var t := NewContest(known, groups);
      Bracket.HasBracketRows(t.matches) && NothingDecided(t.matches) && ScoresWithinSpent(t) && ScoresAudited(t)
  {
    var t := NewContest(known, groups);
    forall r: nat, i: nat ensures KnockoutMatch(r, i) in t.matches <==> InBracket(r, i) {
      NewBracketRow(groups, r, i);
    }
    forall k: nat | k < 32 ensures !MatchUpdates.Decided(RowAt(t.matches, k)) && !Complete(RowAt(t.matches, k)) {
      NewBracketRow(groups, RoundAt(k), IndexAt(k));
    }
    Sums.SumZero(32, SpentTerms(t.matches));
    forall u ensures Audit(t.matches, t.knockoutPicks, u) == 0 {
      AuditOfNothing(t.matches, t.knockoutPicks, u);
    }
  }

  /** From a new contest of at most twelve groups no guarded run gives a user more than 600 points in
      either stage, nor more than 1200 together. */
  lemma {:induction false} ScoreAtMost1200(known: set<Country>, groups: seq<Group>, letters: seq<Letter>,
                                           run: Runs.Run, k: nat, u: User)
    requires Distinct(AllCountries(groups)) && |letters| <= 12
    requires Distinct(letters) && forall j :: 0 <= j < |groups| ==> groups[j].letter in letters
    requires GuardedRun(run) && run.First() == NewContest(known, groups) && k < |run.states|
    ensures var score := ScoreOf(run.states[k].scores, u);
      0 <= score.group <= 600 && 0 <= score.knockout <= 600 && score.group + score.knockout <= 1200
  {
    NewContestStartsGroups(known, groups, letters);
    NewContestStartsKnockout(known, groups);
    GroupCapAlways(run, letters, k);
    KnockoutCap(run, k, u);
  }
}
