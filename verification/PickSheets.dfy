/** Storing prediction sheets: an old sheet is deleted and the new rows are inserted, or nothing changes. */
module PickSheets {
  import opened Tables

  datatype GroupPickEntry = GroupPickEntry(country: Country, place: int)
  datatype GroupPick = GroupPick(letter: Letter, entries: seq<GroupPickEntry>, extraQualifier: bool)
  datatype KnockoutPickEntry = KnockoutPickEntry(country: Country, round: int)

  /** One VALUES tuple of the insert statement. */
  datatype NewPick = NewPick(country: Country, row: GroupPickRow)

  function PickRows(p: GroupPick): (rows: seq<NewPick>)
    ensures |rows| == |p.entries|
  {
    seq(|p.entries|, k requires 0 <= k < |p.entries| =>
      NewPick(p.entries[k].country, GroupPickRow(p.letter, p.entries[k].place, p.extraQualifier)))
  }

  function AllRows(picks: seq<GroupPick>): seq<NewPick> {
    if picks == [] then [] else AllRows(picks[..|picks| - 1]) + PickRows(picks[|picks| - 1])
  }

  predicate Submits(picks: seq<GroupPick>, letter: Letter) {
    exists k :: 0 <= k < |picks| && picks[k].letter == letter
  }

  function WithoutLetters(table: PickTable, user: User, picks: seq<GroupPick>): PickTable {
    map k | k in table && !(k.0 == user && Submits(picks, table[k].letter)) :: table[k]
  }

  /** INSERT of several rows: None when a primary key repeats. */
  function InsertPicks(table: PickTable, user: User, rows: seq<NewPick>): Option<PickTable> {
    if rows == [] then Some(table)
    else
      var before := InsertPicks(table, user, rows[..|rows| - 1]);
      var last := rows[|rows| - 1];
      if before.None? || (user, last.country) in before.value then None
      else Some(before.value[(user, last.country) := last.row])
  }

  /** INSERT ... ON CONFLICT DO NOTHING of a zero score row. */
  function EnsureScore(scores: map<User, Score>, user: User): map<User, Score> {
    if user in scores then scores else scores[user := Score(0, 0)]
  }

  predicate AllKnown(s: Tables, rows: seq<NewPick>) {
    forall i :: 0 <= i < |rows| ==> rows[i].country in s.countries
  }

  predicate AllDifferent(rows: seq<NewPick>) {
    forall i, j :: 0 <= i < j < |rows| ==> rows[i].country != rows[j].country
  }

  /** CreateGroupPicks. A request without any entry returns before the commit. */
  function SubmitGroupPicks(s: Tables, user: User, picks: seq<GroupPick>): Result<Tables> {
    var rows := AllRows(picks);
    if !AllKnown(s, rows) then Failure(UnknownCountry)
    else if rows == [] then Success(s)
    else
      match InsertPicks(WithoutLetters(s.groupPicks, user, picks), user, rows)
      case None => Failure(DuplicateKey)
      case Some(table) => Success(s.(groupPicks := table, scores := EnsureScore(s.scores, user)))
  }

  /** An unknown country anywhere in the request refuses the whole request. */
  lemma UnknownCountryRejects(s: Tables, user: User, picks: seq<GroupPick>, k: nat, j: nat)
    requires k < |picks| && j < |picks[k].entries| && picks[k].entries[j].country !in s.countries
    ensures SubmitGroupPicks(s, user, picks) == Failure(UnknownCountry)
  {
    var i := RowPosition(picks, k, j);
  }

  /** The j-th entry of the k-th pick is one of the inserted rows. */
  lemma {:induction false} RowPosition(picks: seq<GroupPick>, k: nat, j: nat) returns (i: nat)
    requires k < |picks| && j < |picks[k].entries|
    ensures i < |AllRows(picks)| && AllRows(picks)[i] == PickRows(picks[k])[j]
  {
    if k == |picks| - 1 {
      i := |AllRows(picks[..|picks| - 1])| + j;
    } else {
      i := RowPosition(picks[..|picks| - 1], k, j);
    }
  }

  /** Every inserted row is an entry of the request. */
  lemma {:induction false} RowSource(picks: seq<GroupPick>, i: nat) returns (k: nat, j: nat)
    requires i < |AllRows(picks)|
    ensures k < |picks| && j < |picks[k].entries| && AllRows(picks)[i] == PickRows(picks[k])[j]
    ensures i == |AllRows(picks[..k])| + j
  {
    var before := AllRows(picks[..|picks| - 1]);
    if i < |before| {
      k, j := RowSource(picks[..|picks| - 1], i);
      assert picks[..|picks| - 1][..k] == picks[..k];
    } else {
      k, j := |picks| - 1, i - |before|;
    }
  }

  /** A successful insert adds exactly the given rows, under keys that were free and are all different. */
  lemma {:induction false} InsertEffect(table: PickTable, user: User, rows: seq<NewPick>)
    requires InsertPicks(table, user, rows).Some?
    ensures var after := InsertPicks(table, user, rows).value;
      && (forall k :: k in table ==> k in after && after[k] == table[k])
      && (forall i :: 0 <= i < |rows| ==> (user, rows[i].country) in after && (user, rows[i].country) !in table
                                          && after[(user, rows[i].country)] == rows[i].row)
      && (forall k :: k in after ==>
        k in table || (k.0 == user && exists i :: 0 <= i < |rows| && rows[i].country == k.1))
  {
    if rows != [] {
      InsertEffect(table, user, rows[..|rows| - 1]);
      var before := InsertPicks(table, user, rows[..|rows| - 1]).value;
      var after := InsertPicks(table, user, rows).value;
      forall k | k in after && k !in table
        ensures k.0 == user && exists i :: 0 <= i < |rows| && rows[i].country == k.1
      {
        if k in before {
          var i :| 0 <= i < |rows| - 1 && rows[..|rows| - 1][i].country == k.1;
          assert rows[i].country == k.1;
        } else {
          assert rows[|rows| - 1].country == k.1;
        }
      }
      forall i | 0 <= i < |rows|
        ensures (user, rows[i].country) in after && (user, rows[i].country) !in table
          && after[(user, rows[i].country)] == rows[i].row
      {
        if i < |rows| - 1 {
          assert rows[..|rows| - 1][i] == rows[i];
        }
      }
    }
  }

  /** An insert succeeds exactly when all its keys are free and different. */
  lemma {:induction false} InsertSucceedsIff(table: PickTable, user: User, rows: seq<NewPick>)
    ensures InsertPicks(table, user, rows).Some?
       <==> AllDifferent(rows) && forall i :: 0 <= i < |rows| ==> (user, rows[i].country) !in table
  {
    if rows != [] {
      var shorter, last := rows[..|rows| - 1], rows[|rows| - 1];
      InsertSucceedsIff(table, user, shorter);
      assert forall i :: 0 <= i < |shorter| ==> shorter[i] == rows[i];
      if InsertPicks(table, user, shorter).Some? {
        InsertEffect(table, user, shorter);
      }
    }
  }

  /** Places are positions, as the handler sends them. */
  predicate PlacesByPosition(picks: seq<GroupPick>) {
    forall k, j :: 0 <= k < |picks| && 0 <= j < |picks[k].entries| ==> picks[k].entries[j].place == j + 1
  }

  /** No letter has entries in two picks of the request. */
  predicate LettersOnce(picks: seq<GroupPick>) {
    forall i, j :: 0 <= i < j < |picks| && picks[i].entries != [] && picks[j].entries != [] ==>
      picks[i].letter != picks[j].letter
  }

  /** Letters are submitted once and places are positions. */
  predicate WellFormed(picks: seq<GroupPick>) {
    && (forall i, j :: 0 <= i < j < |picks| ==> picks[i].letter != picks[j].letter)
    && PlacesByPosition(picks)
  }

  /** The request gives no place of a letter twice, counted over all its entries. */
  predicate PlacesDifferInRequest(picks: seq<GroupPick>) {
    var rows := AllRows(picks);
    forall i, j :: 0 <= i < j < |rows| && rows[i].row.letter == rows[j].row.letter ==>
      rows[i].row.place != rows[j].row.place
  }

  /** A request of the handler gives no place twice if and only if no letter has entries in two of its picks. */
  lemma PlacesDifferIffLettersOnce(picks: seq<GroupPick>)
    requires PlacesByPosition(picks)
    ensures PlacesDifferInRequest(picks) <==> LettersOnce(picks)
  {
    if LettersOnce(picks) {
      LettersOncePlacesDiffer(picks);
    } else {
      var i, j, a, b := TwoFirstRows(picks);
    }
  }

  lemma {:induction false} LettersOncePlacesDiffer(picks: seq<GroupPick>)
    requires PlacesByPosition(picks) && LettersOnce(picks)
    ensures PlacesDifferInRequest(picks)
  {
    if picks != [] {
      var before, last := picks[..|picks| - 1], picks[|picks| - 1];
      LettersOncePlacesDiffer(before);
      var rows, shorter := AllRows(picks), AllRows(before);
      forall i, j | 0 <= i < j < |rows| && rows[i].row.letter == rows[j].row.letter
        ensures rows[i].row.place != rows[j].row.place
      {
        if i < |shorter| <= j {
          var k, e := RowSource(before, i);
        }
      }
    }
  }

  /** A letter with entries in two picks is inserted with two different first rows. */
  lemma TwoFirstRows(picks: seq<GroupPick>) returns (i: nat, j: nat, a: nat, b: nat)
    requires PlacesByPosition(picks) && !LettersOnce(picks)
    ensures i < j < |picks| && picks[i].entries != [] && picks[j].entries != [] && picks[i].letter == picks[j].letter
    ensures a < |AllRows(picks)| && b < |AllRows(picks)| && a != b
    ensures AllRows(picks)[a] == PickRows(picks[i])[0] && AllRows(picks)[b] == PickRows(picks[j])[0]
    ensures AllRows(picks)[a].row.place == AllRows(picks)[b].row.place == 1
  {
    i, j :| 0 <= i < j < |picks| && picks[i].entries != [] && picks[j].entries != []
            && picks[i].letter == picks[j].letter;
    a, b := RowPositionsDiffer(picks, i, j);
  }

  /** The first rows of two picks are at different positions. */
  lemma RowPositionsDiffer(picks: seq<GroupPick>, i: nat, j: nat) returns (a: nat, b: nat)
    requires i < j < |picks| && picks[i].entries != [] && picks[j].entries != []
    ensures a < b < |AllRows(picks)| && AllRows(picks)[a] == PickRows(picks[i])[0]
      && AllRows(picks)[b] == PickRows(picks[j])[0]
  {
    AllRowsPrefix(picks, j);
    AllRowsPrefix(picks, j + 1);
    a := RowPosition(picks[..j], i, 0);
    b := |AllRows(picks[..j])|;
    assert picks[..j + 1][..j] == picks[..j];
  }

  /** The rows of the first k picks come first. */
  lemma {:induction false} AllRowsPrefix(picks: seq<GroupPick>, k: nat)
    requires k <= |picks|
    ensures AllRows(picks[..k]) <= AllRows(picks)
  {
    if k == |picks| {
      assert picks[..k] == picks;
    } else {
      AllRowsPrefix(picks[..|picks| - 1], k);
      assert picks[..|picks| - 1][..k] == picks[..k];
    }
  }

  /** The handler's requests are of that kind as long as the client names no letter twice. */
  lemma WellFormedPlacesDiffer(picks: seq<GroupPick>)
    requires WellFormed(picks)
    ensures PlacesDifferInRequest(picks)
  {
    PlacesDifferIffLettersOnce(picks);
  }

  /** A user gives no place of a group twice. */
  ghost predicate DistinctPlaces(table: PickTable) {
    forall letter, u :: PlacesDiffer(table, letter, u)
  }

  /** An accepted request keeps the places of every sheet different if and only if its own entries are. */
  lemma SubmitKeepsPlacesIff(s: Tables, user: User, picks: seq<GroupPick>, t: Tables)
    requires DistinctPlaces(s.groupPicks) && SubmitGroupPicks(s, user, picks) == Success(t)
    ensures DistinctPlaces(t.groupPicks) <==> PlacesDifferInRequest(picks)
  {
    var rows, base := AllRows(picks), WithoutLetters(s.groupPicks, user, picks);
    if rows != [] {
      InsertEffect(base, user, rows);
      InsertSucceedsIff(base, user, rows);
      if PlacesDifferInRequest(picks) {
        InsertKeepsPlaces(s, user, picks, t);
      } else {
        var i, j :| 0 <= i < j < |rows| && rows[i].row.letter == rows[j].row.letter
                    && rows[i].row.place == rows[j].row.place;
        assert PicksInGroup(t.groupPicks, rows[i].row.letter, user, rows[i].country);
        assert PicksInGroup(t.groupPicks, rows[i].row.letter, user, rows[j].country);
        assert !PlacesDiffer(t.groupPicks, rows[i].row.letter, user);
      }
    }
  }

  lemma InsertKeepsPlaces(s: Tables, user: User, picks: seq<GroupPick>, t: Tables)
    requires DistinctPlaces(s.groupPicks) && SubmitGroupPicks(s, user, picks) == Success(t)
    requires AllRows(picks) != [] && PlacesDifferInRequest(picks)
    ensures DistinctPlaces(t.groupPicks)
  {
    var rows, base, after := AllRows(picks), WithoutLetters(s.groupPicks, user, picks), t.groupPicks;
    forall letter, u: User, c, d | PicksInGroup(after, letter, u, c) && PicksInGroup(after, letter, u, d) && c != d
      ensures after[(u, c)].place != after[(u, d)].place
    {
      if (u, c) !in base || (u, d) !in base {
        var i := NewRow(base, user, picks, u, c, after[(u, c)].letter, d);
        var j := NewRow(base, user, picks, u, d, after[(u, c)].letter, c);
      } else {
        InsertEffect(base, user, rows);
        assert PlacesDiffer(s.groupPicks, letter, u);
      }
    }
  }

  /** When one of two rows of a letter is new, so is the other: the user's old rows of the letter are gone. */
  lemma NewRow(base: PickTable, user: User, picks: seq<GroupPick>, u: User, c: Country, letter: Letter, d: Country)
    returns (i: nat)
    requires InsertPicks(base, user, AllRows(picks)).Some?
    requires forall k :: k in base && k.0 == user ==> !Submits(picks, base[k].letter)
    requires var after := InsertPicks(base, user, AllRows(picks)).value;
      && (u, c) in after && (u, d) in after && after[(u, c)].letter == after[(u, d)].letter == letter
      && ((u, c) !in base || (u, d) !in base)
    ensures i < |AllRows(picks)| && AllRows(picks)[i].country == c
    ensures InsertPicks(base, user, AllRows(picks)).value[(u, c)] == AllRows(picks)[i].row
  {
    InsertEffect(base, user, AllRows(picks));
    if (u, c) in base {
      var k, j := NewRowSource(base, user, picks, u, d);
      assert false;
    }
    i :| 0 <= i < |AllRows(picks)| && AllRows(picks)[i].country == c;
  }

  /** A row that the insert has added is an entry of the request. */
  lemma NewRowSource(base: PickTable, user: User, picks: seq<GroupPick>, u: User, c: Country) returns (k: nat, j: nat)
    requires InsertPicks(base, user, AllRows(picks)).Some?
    requires (u, c) in InsertPicks(base, user, AllRows(picks)).value && (u, c) !in base
    ensures u == user && k < |picks| && j < |picks[k].entries| && picks[k].entries[j].country == c
    ensures InsertPicks(base, user, AllRows(picks)).value[(u, c)]
         == GroupPickRow(picks[k].letter, picks[k].entries[j].place, picks[k].extraQualifier)
  {
    InsertEffect(base, user, AllRows(picks));
    var i: nat :| i < |AllRows(picks)| && AllRows(picks)[i].country == c;
    k, j := RowSource(picks, i);
  }

  /** The sheet of u for the letter is the same in both. */
  ghost predicate SameSheet(picks: PickTable, after: PickTable, letter: Letter, u: User) {
    forall c :: (PicksInGroup(after, letter, u, c) <==> PicksInGroup(picks, letter, u, c))
             && (PicksInGroup(picks, letter, u, c) ==> after[(u, c)] == picks[(u, c)])
  }

  /** A request leaves the sheets of other users and of letters it does not submit as they were. */
  lemma OtherSheetsStay(s: Tables, user: User, picks: seq<GroupPick>, t: Tables, letter: Letter, u: User)
    requires SubmitGroupPicks(s, user, picks) == Success(t) && (u != user || !Submits(picks, letter))
    ensures SameSheet(s.groupPicks, t.groupPicks, letter, u)
  {
    if AllRows(picks) != [] {
      var base := WithoutLetters(s.groupPicks, user, picks);
      InsertEffect(base, user, AllRows(picks));
      forall c | PicksInGroup(t.groupPicks, letter, u, c) && (u, c) !in base ensures false {
        var k, j := NewRowSource(base, user, picks, u, c);
      }
    }
  }

  function InsertKnockout(table: set<KnockoutPickRow>, user: User,
                          entries: seq<KnockoutPickEntry>): Option<set<KnockoutPickRow>> {
    if entries == [] then Some(table)
    else
      var before := InsertKnockout(table, user, entries[..|entries| - 1]);
      var last := entries[|entries| - 1];
      var row := KnockoutPickRow(user, last.country, last.round);
      if before.None? || row in before.value then None else Some(before.value + {row})
  }

  function OthersPicks(table: set<KnockoutPickRow>, user: User): set<KnockoutPickRow> {
    set p | p in table && p.user != user
  }

  /** CreateKnockoutPicks. */
  function SubmitKnockoutPicks(s: Tables, user: User, entries: seq<KnockoutPickEntry>): Result<Tables> {
    if exists k :: 0 <= k < |entries| && entries[k].country !in s.countries then Failure(UnknownCountry)
    else if entries == [] then Success(s)
    else
      match InsertKnockout(OthersPicks(s.knockoutPicks, user), user, entries)
      case None => Failure(DuplicateKey)
      case Some(table) => Success(s.(knockoutPicks := table, scores := EnsureScore(s.scores, user)))
  }

  /** Over a table without rows of the user, the insert succeeds exactly for different entries and adds just those. */
  lemma {:induction false} InsertKnockoutEffect(table: set<KnockoutPickRow>, user: User,
                                                entries: seq<KnockoutPickEntry>)
    requires forall p :: p in table ==> p.user != user
    ensures var after := InsertKnockout(table, user, entries);
      && (after.Some? <==> Distinct(entries))
      && (after.Some? ==> forall p ::
            p in after.value <==> p in table || (p.user == user && KnockoutPickEntry(p.country, p.round) in entries))
  {
    if entries != [] {
      var shorter, last := entries[..|entries| - 1], entries[|entries| - 1];
      InsertKnockoutEffect(table, user, shorter);
      assert entries == shorter + [last];
      assert Distinct(entries) <==> Distinct(shorter) && last !in shorter;
    }
  }

  /** A knockout sheet is accepted exactly when it names known countries and repeats no entry; then the user
      has the entries of the sheet and nothing else, and nobody else's sheet or score row changes. */
  lemma KnockoutRoundTrip(s: Tables, user: User, entries: seq<KnockoutPickEntry>)
    requires entries != []
    ensures var outcome := SubmitKnockoutPicks(s, user, entries);
      && (outcome.Success?
         <==> (forall k :: 0 <= k < |entries| ==> entries[k].country in s.countries) && Distinct(entries))
      && (outcome.Success? ==>
            && outcome.value == s.(knockoutPicks := outcome.value.knockoutPicks, scores := outcome.value.scores)
            && (forall p :: p in outcome.value.knockoutPicks <==>
                  if p.user == user then KnockoutPickEntry(p.country, p.round) in entries else p in s.knockoutPicks)
            && (forall u :: u in s.scores ==> u in outcome.value.scores && outcome.value.scores[u] == s.scores[u]))
  {
    InsertKnockoutEffect(OthersPicks(s.knockoutPicks, user), user, entries);
  }
}
