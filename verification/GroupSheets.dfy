/**
 The seeder's random group sheets, and why every one of them is accepted: a sheet ranks the countries of every group
 in a shuffled order, and groups have no country in common.
 */
module GroupSheets {
  import opened Tables
  import opened GroupFinalization
  import opened PickSheets
  import PickListing
  import opened Runs
  import Store

  // ---- what a generated sheet is ----

  function CountriesOf(entries: seq<GroupPickEntry>): seq<Country> {
    seq(|entries|, k requires 0 <= k < |entries| => entries[k].country)
  }

  /** Every pick ranks all countries of its group in some order. */
  ghost predicate RanksGroups(s: Tables, picks: seq<GroupPick>) {
    forall k :: 0 <= k < |picks| ==> IsGroup(s, picks[k].letter, CountriesOf(picks[k].entries))
  }

  /** Every row of the user for a country of the contest is under the letter of that country's group. */
  predicate HeldAtHome(s: Tables, user: User) {
    forall c :: (user, c) in s.groupPicks && c in s.standings ==>
      s.groupPicks[(user, c)].letter == s.standings[c].letter
  }

  lemma EntryInGroup(s: Tables, picks: seq<GroupPick>, k: nat, j: nat)
    requires RanksGroups(s, picks) && k < |picks| && j < |picks[k].entries|
    ensures InGroup(s, picks[k].letter, picks[k].entries[j].country)
  {
    assert CountriesOf(picks[k].entries)[j] in CountriesOf(picks[k].entries);
  }

  /** Groups have no country in common, so all rows of the request are different. */
  lemma {:induction false} SheetRowsDiffer(s: Tables, picks: seq<GroupPick>)
    requires RanksGroups(s, picks) && WellFormed(picks)
    ensures AllDifferent(AllRows(picks))
  {
    if picks != [] {
      var before, last := picks[..|picks| - 1], picks[|picks| - 1];
      SheetRowsDiffer(s, before);
      var rows, shorter := AllRows(picks), AllRows(before);
      forall i, j | 0 <= i < j < |rows| ensures rows[i].country != rows[j].country {
        if i < |shorter| <= j {
          var k, e := RowSource(before, i);
          EntryInGroup(s, picks, k, e);
          EntryInGroup(s, picks, |picks| - 1, j - |shorter|);
        } else if |shorter| <= i {
          var own := CountriesOf(last.entries);
          assert own[i - |shorter|] == rows[i].country && own[j - |shorter|] == rows[j].country;
        }
      }
    }
  }

  /** Every generated sheet is accepted, and the user's rows stay at home. */
  lemma SheetIsAccepted(s: Tables, user: User, picks: seq<GroupPick>)
    requires RanksGroups(s, picks) && WellFormed(picks) && HeldAtHome(s, user) && s.standings.Keys <= s.countries
    ensures SubmitGroupPicks(s, user, picks).Success?
  {
    var rows := AllRows(picks);
    forall i: nat | i < |rows|
      ensures rows[i].country in s.countries && !PickListing.HeldElsewhere(s, user, picks, rows[i].country)
    {
      var k, j := RowSource(picks, i);
      EntryInGroup(s, picks, k, j);
      assert Submits(picks, picks[k].letter);
    }
    SheetRowsDiffer(s, picks);
    PickListing.SubmitSucceedsIff(s, user, picks);
  }

  lemma SheetStaysAtHome(s: Tables, user: User, picks: seq<GroupPick>, t: Tables, u: User)
    requires RanksGroups(s, picks) && HeldAtHome(s, u) && SubmitGroupPicks(s, user, picks) == Success(t)
    ensures HeldAtHome(t, u)
  {
    if AllRows(picks) != [] {
      var base := WithoutLetters(s.groupPicks, user, picks);
      forall c | (u, c) in t.groupPicks && c in t.standings
        ensures t.groupPicks[(u, c)].letter == t.standings[c].letter
      {
        InsertEffect(base, user, AllRows(picks));
        if (u, c) !in base {
          var k, j := NewRowSource(base, user, picks, u, c);
          EntryInGroup(s, picks, k, j);
        }
      }
    }
  }

  // ---- the generator ----

  /** Shuffles in place: every position, from the last to the second, is swapped with a drawn one not behind it. */
  method Shuffle(xs: seq<Country>, draw: nat -> nat) returns (shuffled: seq<Country>)
    requires Distinct(xs)
    ensures Distinct(shuffled) && forall c :: c in shuffled <==> c in xs
  {
    shuffled := xs;
    var i := |xs|;
    while i > 1
      invariant |shuffled| == |xs| && 0 <= i <= |xs|
      invariant Distinct(shuffled) && forall c :: c in shuffled <==> c in xs
    {
      i := i - 1;
      var j := draw(i) % (i + 1);
      SwapKeeps(shuffled, i, j);
      shuffled := shuffled[i := shuffled[j]][j := shuffled[i]];
    }
  }

  /** Swapping two positions neither loses nor repeats an element. */
  lemma SwapKeeps(xs: seq<Country>, i: nat, j: nat)
    requires Distinct(xs) && i < |xs| && j < |xs|
    ensures var ys := xs[i := xs[j]][j := xs[i]]; Distinct(ys) && forall c :: c in ys <==> c in xs
  {
    var ys := xs[i := xs[j]][j := xs[i]];
    forall c | c in xs ensures c in ys {
      var k :| 0 <= k < |xs| && xs[k] == c;
      assert ys[if k == i then j else if k == j then i else k] == c;
    }
  }

  /** The map from letters to countries, filled from the standings rows in any order. */
  method GroupCountries(s: Tables) returns (groupMap: map<Letter, seq<Country>>)
    ensures forall l :: l in groupMap ==> IsGroup(s, l, groupMap[l])
    ensures forall c :: c in s.standings ==> s.standings[c].letter in groupMap
  {
    groupMap := map[];
    var left := s.standings.Keys;
    while left != {}
      invariant left <= s.standings.Keys
      invariant forall l :: l in groupMap ==> Distinct(groupMap[l])
      invariant forall l :: l in groupMap ==> forall c :: c in groupMap[l] <==> InGroup(s, l, c) && c !in left
      invariant forall c :: c in s.standings && c !in left ==> s.standings[c].letter in groupMap
    {
      var c :| c in left;
      left := left - {c};
      var letter := s.standings[c].letter;
      var before := if letter in groupMap then groupMap[letter] else [];
      groupMap := groupMap[letter := before + [c]];
    }
  }

  /** The entries of one group: the shuffled countries with places by position. */
  method DrawEntries(countries: seq<Country>, draw: nat -> nat) returns (entries: seq<GroupPickEntry>)
    requires Distinct(countries)
    ensures Distinct(CountriesOf(entries)) && forall c :: c in CountriesOf(entries) <==> c in countries
    ensures forall j :: 0 <= j < |entries| ==> entries[j].place == j + 1
  {
    var shuffled := Shuffle(countries, draw);
    entries := [];
    for idx := 0 to |shuffled|
      invariant |entries| == idx
      invariant forall j :: 0 <= j < idx ==> entries[j] == GroupPickEntry(shuffled[j], j + 1)
    {
      entries := entries + [GroupPickEntry(shuffled[idx], idx + 1)];
    }
    assert CountriesOf(entries) == shuffled;
  }

  /** One pick per letter that has a group, in the order of the letters. */
  method GenerateSheet(s: Tables, letters: seq<Letter>, draws: Letter -> nat -> nat, flips: Letter -> bool)
    returns (picks: seq<GroupPick>)
    requires Distinct(letters)
    ensures RanksGroups(s, picks) && WellFormed(picks)
    ensures forall c :: c in s.standings && s.standings[c].letter in letters ==> Submits(picks, s.standings[c].letter)
    ensures forall k :: 0 <= k < |picks| ==> picks[k].extraQualifier == flips(picks[k].letter)
  {
    var groupMap := GroupCountries(s);
    picks := [];
    for k := 0 to |letters|
      invariant RanksGroups(s, picks) && WellFormed(picks)
      invariant forall i :: 0 <= i < |picks| ==> picks[i].letter in letters[..k]
      invariant forall i :: 0 <= i < |picks| ==> picks[i].extraQualifier == flips(picks[i].letter)
      invariant forall l :: l in letters[..k] && l in groupMap && groupMap[l] != [] ==> Submits(picks, l)
    {
      var letter := letters[k];
      assert letters[..k + 1] == letters[..k] + [letter];
      if letter in groupMap && groupMap[letter] != [] {
        var entries := DrawEntries(groupMap[letter], draws(letter));
        AddPick(s, picks, GroupPick(letter, entries, flips(letter)), letters[..k]);
        picks := picks + [GroupPick(letter, entries, flips(letter))];
      }
    }
    assert letters[..|letters|] == letters;
    forall c | c in s.standings && s.standings[c].letter in letters ensures Submits(picks, s.standings[c].letter) {
      assert InGroup(s, s.standings[c].letter, c) && c in groupMap[s.standings[c].letter];
    }
  }

  /** One more pick, for a letter the request does not have. */
  lemma AddPick(s: Tables, picks: seq<GroupPick>, pick: GroupPick, letters: seq<Letter>)
    requires RanksGroups(s, picks) && WellFormed(picks) && forall i :: 0 <= i < |picks| ==> picks[i].letter in letters
    requires pick.letter !in letters && IsGroup(s, pick.letter, CountriesOf(pick.entries))
    requires forall j :: 0 <= j < |pick.entries| ==> pick.entries[j].place == j + 1
    ensures RanksGroups(s, picks + [pick]) && WellFormed(picks + [pick])
    ensures forall l :: Submits(picks + [pick], l) <==> Submits(picks, l) || l == pick.letter
  {
    var longer := picks + [pick];
    forall l | Submits(picks, l) || l == pick.letter ensures Submits(longer, l) {
      if l == pick.letter {
        assert longer[|picks|].letter == l;
      } else {
        var k :| 0 <= k < |picks| && picks[k].letter == l;
        assert longer[k].letter == l;
      }
    }
  }

  /** The seeder's call for one user: its sheet is stored, and covers every group of the letters. */
  method SeedGroupPicks(repo: Store.Repository, user: User, letters: seq<Letter>, draws: Letter -> nat -> nat,
                        flips: Letter -> bool)
    returns (r: Response, ghost picks: seq<GroupPick>)
    requires Distinct(letters) && repo.tables.standings.Keys <= repo.tables.countries
    requires forall u :: HeldAtHome(repo.tables, u)
    modifies repo
    ensures r.Done? && Step(old(repo.tables), Call.CreateGroupPicks(user, picks), repo.tables, r)
    ensures RanksGroups(old(repo.tables), picks) && WellFormed(picks)
    ensures forall c :: c in repo.tables.standings && repo.tables.standings[c].letter in letters ==>
      Submits(picks, repo.tables.standings[c].letter)
    ensures forall u :: HeldAtHome(repo.tables, u)
  {
    ghost var s := repo.tables;
    var sheet := GenerateSheet(repo.tables, letters, draws, flips);
    SheetIsAccepted(s, user, sheet);
    r := repo.CreateGroupPicks(user, sheet);
    forall u ensures HeldAtHome(repo.tables, u) {
      SheetStaysAtHome(s, user, sheet, repo.tables, u);
    }
    picks := sheet;
  }
}
