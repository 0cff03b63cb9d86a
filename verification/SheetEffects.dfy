/** What submitting a sheet does, told on entries and rows. */
module SheetEffects {
  import opened Tables
  import opened PickSheets

  // ---- the handler's request ----

  /** One pick as the client sends it: the countries in the order of their places. */
  datatype SentPick = SentPick(letter: Letter, countries: seq<Country>, extraQualifier: bool)

  /** Fills the picks and their entries by index; the place is the position. */
  method ConvertPicks(sent: seq<SentPick>) returns (picks: seq<GroupPick>)
    ensures |picks| == |sent| && PlacesByPosition(picks)
    ensures forall k :: 0 <= k < |sent| ==>
      && picks[k].letter == sent[k].letter && picks[k].extraQualifier == sent[k].extraQualifier
      && |picks[k].entries| == |sent[k].countries|
      && forall j :: 0 <= j < |sent[k].countries| ==> picks[k].entries[j].country == sent[k].countries[j]
  {
    var ePicks := new GroupPick[|sent|](_ => GroupPick('A', [], false));
    for i := 0 to |sent|
      invariant forall k :: 0 <= k < i ==> Converts(sent[k], ePicks[k])
    {
      var entries := ConvertCountries(sent[i].countries);
      ePicks[i] := GroupPick(sent[i].letter, entries, sent[i].extraQualifier);
    }
    picks := ePicks[..];
    assert forall k :: 0 <= k < |sent| ==> Converts(sent[k], picks[k]);
  }

  predicate Converts(sent: SentPick, pick: GroupPick) {
    && pick.letter == sent.letter && pick.extraQualifier == sent.extraQualifier && |pick.entries| == |sent.countries|
    && forall j :: 0 <= j < |sent.countries| ==> pick.entries[j] == GroupPickEntry(sent.countries[j], j + 1)
  }

  method ConvertCountries(countries: seq<Country>) returns (entries: seq<GroupPickEntry>)
    ensures |entries| == |countries|
    ensures forall j :: 0 <= j < |countries| ==> entries[j] == GroupPickEntry(countries[j], j + 1)
  {
    var eCountries := new GroupPickEntry[|countries|](_ => GroupPickEntry(Country(""), 0));
    for j := 0 to |countries|
      invariant forall i :: 0 <= i < j ==> eCountries[i] == GroupPickEntry(countries[i], i + 1)
    {
      eCountries[j] := GroupPickEntry(countries[j], j + 1);
    }
    entries := eCountries[..];
  }

  // ---- group sheets ----

  /** The request has an entry for the country. */
  predicate Lists(picks: seq<GroupPick>, c: Country) {
    exists k, j :: 0 <= k < |picks| && 0 <= j < |picks[k].entries| && picks[k].entries[j].country == c
  }

  predicate HasEntries(picks: seq<GroupPick>) {
    exists k :: 0 <= k < |picks| && picks[k].entries != []
  }

  lemma RowsIffEntries(picks: seq<GroupPick>)
    ensures AllRows(picks) != [] <==> HasEntries(picks)
  {
    if AllRows(picks) != [] {
      var k, j := RowSource(picks, 0);
      assert picks[k].entries != [];
    }
    if k :| 0 <= k < |picks| && picks[k].entries != [] {
      var i := RowPosition(picks, k, 0);
    }
  }

  /** A request without any entry is accepted and changes nothing: the deleted rows come back with the rollback. */
  lemma EmptySheetChangesNothing(s: Tables, user: User, picks: seq<GroupPick>)
    requires forall k :: 0 <= k < |picks| ==> picks[k].entries == []
    ensures SubmitGroupPicks(s, user, picks) == Success(s)
  {
    RowsIffEntries(picks);
  }

  /** The user's row for a country after an accepted request is its entry, with the letter and the flag of its pick;
      the old row stays when its letter was not submitted and is gone when it was. Nobody else's rows change. */
  lemma SheetAfterSubmit(s: Tables, user: User, picks: seq<GroupPick>, t: Tables, u: User, c: Country)
    requires SubmitGroupPicks(s, user, picks) == Success(t) && HasEntries(picks)
    ensures (u, c) in t.groupPicks <==>
      || (u == user && Lists(picks, c))
      || ((u, c) in s.groupPicks
          && !(u == user && exists k :: 0 <= k < |picks| && picks[k].letter == s.groupPicks[(u, c)].letter))
    ensures (u, c) in t.groupPicks && !(u == user && Lists(picks, c)) ==> t.groupPicks[(u, c)] == s.groupPicks[(u, c)]
    ensures forall k, j :: 0 <= k < |picks| && 0 <= j < |picks[k].entries| && picks[k].entries[j].country == c ==>
      (user, c) in t.groupPicks
      && t.groupPicks[(user, c)] == GroupPickRow(picks[k].letter, picks[k].entries[j].place, picks[k].extraQualifier)
  {
    var rows, base := AllRows(picks), WithoutLetters(s.groupPicks, user, picks);
    RowsIffEntries(picks);
    InsertEffect(base, user, rows);
    forall k: nat, j: nat | k < |picks| && j < |picks[k].entries| && picks[k].entries[j].country == c
      ensures (user, c) in t.groupPicks && (user, c) !in base
      ensures t.groupPicks[(user, c)]
           == GroupPickRow(picks[k].letter, picks[k].entries[j].place, picks[k].extraQualifier)
    {
      var i := RowPosition(picks, k, j);
    }
    if (u, c) in t.groupPicks && (u, c) !in base {
      var k, j := NewRowSource(base, user, picks, u, c);
    }
  }

  /** Besides the sheet an accepted request changes at most the user's score row, which is created with no points. */
  lemma SubmitCreatesScore(s: Tables, user: User, picks: seq<GroupPick>, t: Tables)
    requires SubmitGroupPicks(s, user, picks) == Success(t) && HasEntries(picks)
    ensures t == s.(groupPicks := t.groupPicks, scores := t.scores)
    ensures t.scores == if user in s.scores then s.scores else s.scores[user := Score(0, 0)]
  {
    RowsIffEntries(picks);
  }

  /** The row of entry j of pick k comes after the rows of the picks before. */
  lemma EntryRow(picks: seq<GroupPick>, k: nat, j: nat)
    requires k < |picks| && j < |picks[k].entries|
    ensures |AllRows(picks[..k])| + j < |AllRows(picks[..k + 1])| <= |AllRows(picks)|
    ensures AllRows(picks)[|AllRows(picks[..k])| + j].country == picks[k].entries[j].country
  {
    AllRowsPrefix(picks, k + 1);
    assert picks[..k + 1][..k] == picks[..k];
  }

  /** No country has two entries, in one pick or in two. */
  predicate ListsOnce(picks: seq<GroupPick>) {
    && (forall k, i, j :: 0 <= k < |picks| && 0 <= i < j < |picks[k].entries| ==>
          picks[k].entries[i].country != picks[k].entries[j].country)
    && (forall k, l, i, j :: 0 <= k < l < |picks| && 0 <= i < |picks[k].entries| && 0 <= j < |picks[l].entries| ==>
          picks[k].entries[i].country != picks[l].entries[j].country)
  }

  lemma RowsDifferIffListedOnce(picks: seq<GroupPick>)
    ensures AllDifferent(AllRows(picks)) <==> ListsOnce(picks)
  {
    var rows := AllRows(picks);
    if AllDifferent(rows) {
      forall k: nat, l: nat, i: nat, j: nat
        | k <= l < |picks| && i < |picks[k].entries| && j < |picks[l].entries| && (k == l ==> i < j)
        ensures picks[k].entries[i].country != picks[l].entries[j].country
      {
        EntryRow(picks, k, i);
        EntryRow(picks, l, j);
        AllRowsPrefix(picks[..l], if k < l then k + 1 else k);
        assert k < l ==> picks[..l][..k + 1] == picks[..k + 1];
      }
    }
    if ListsOnce(picks) {
      forall a: nat, b: nat | a < b < |rows| ensures rows[a].country != rows[b].country {
        var k, i := RowSource(picks, a);
        var l, j := RowSource(picks, b);
      }
    }
  }

  /** The exact condition: a request is accepted if and only if it lists known countries, each once, and the user holds
      none of them under a letter that the request does not submit. */
  lemma SubmitIsAcceptedIff(s: Tables, user: User, picks: seq<GroupPick>)
    ensures SubmitGroupPicks(s, user, picks).Success? <==>
      && (forall c :: Lists(picks, c) ==> c in s.countries)
      && ListsOnce(picks)
      && (forall c :: Lists(picks, c) && (user, c) in s.groupPicks ==>
            exists k :: 0 <= k < |picks| && picks[k].letter == s.groupPicks[(user, c)].letter)
  {
    var rows, base := AllRows(picks), WithoutLetters(s.groupPicks, user, picks);
    RowsDifferIffListedOnce(picks);
    InsertSucceedsIff(base, user, rows);
    forall c ensures Lists(picks, c) <==> exists i :: 0 <= i < |rows| && rows[i].country == c {
      ListedIffRow(picks, c);
    }
  }

  lemma ListedIffRow(picks: seq<GroupPick>, c: Country)
    ensures Lists(picks, c) <==> exists i :: 0 <= i < |AllRows(picks)| && AllRows(picks)[i].country == c
  {
    if i: nat :| i < |AllRows(picks)| && AllRows(picks)[i].country == c {
      var k, j := RowSource(picks, i);
    }
    if k: nat, j: nat :| k < |picks| && j < |picks[k].entries| && picks[k].entries[j].country == c {
      EntryRow(picks, k, j);
    }
  }

  /** A refused request says why: an unknown country anywhere, or else a country that cannot be inserted. */
  lemma SubmitErrors(s: Tables, user: User, picks: seq<GroupPick>, e: Error)
    requires SubmitGroupPicks(s, user, picks) == Failure(e)
    ensures e in {UnknownCountry, DuplicateKey}
    ensures e == UnknownCountry <==> exists c :: Lists(picks, c) && c !in s.countries
  {
    var rows := AllRows(picks);
    if i: nat :| i < |rows| && rows[i].country !in s.countries {
      var k, j := RowSource(picks, i);
      assert Lists(picks, rows[i].country);
    }
    if c :| Lists(picks, c) && c !in s.countries {
      var k: nat, j: nat :| k < |picks| && j < |picks[k].entries| && picks[k].entries[j].country == c;
      UnknownCountryRejects(s, user, picks, k, j);
    }
  }

  // ---- knockout sheets ----

  /** An empty knockout sheet is accepted and changes nothing. */
  lemma EmptyKnockoutSheetChangesNothing(s: Tables, user: User)
    ensures SubmitKnockoutPicks(s, user, []) == Success(s)
  {
  }

  /** An accepted sheet creates the user's score row with no points where it is missing. */
  lemma KnockoutSubmitCreatesScore(s: Tables, user: User, entries: seq<KnockoutPickEntry>, t: Tables)
    requires entries != [] && SubmitKnockoutPicks(s, user, entries) == Success(t)
    ensures t == s.(knockoutPicks := t.knockoutPicks, scores := t.scores)
    ensures t.scores == if user in s.scores then s.scores else s.scores[user := Score(0, 0)]
  {
  }

  lemma KnockoutSubmitErrors(s: Tables, user: User, entries: seq<KnockoutPickEntry>, e: Error)
    requires SubmitKnockoutPicks(s, user, entries) == Failure(e)
    ensures e in {UnknownCountry, DuplicateKey}
    ensures e == UnknownCountry <==> exists k :: 0 <= k < |entries| && entries[k].country !in s.countries
  {
  }
}
