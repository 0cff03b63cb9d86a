/** Reading a group sheet back: rows are grouped by letter and the letters are sorted. */
module PickListing {
  import opened Tables
  import opened PickSheets

  /** One row of the query. */
  datatype ListedRow = ListedRow(country: Country, row: GroupPickRow)

  /** What the database answers: every row of the user once, and rows of a letter in order of their place.
      How it orders the letters depends on its collation and is left open. */
  ghost predicate IsPicksQuery(s: Tables, user: User, rows: seq<ListedRow>) {
    && (forall i, j :: 0 <= i < j < |rows| ==> rows[i].country != rows[j].country)
    && (forall i :: 0 <= i < |rows| ==>
      (user, rows[i].country) in s.groupPicks && s.groupPicks[(user, rows[i].country)] == rows[i].row)
    && (forall c :: (user, c) in s.groupPicks ==> exists i :: 0 <= i < |rows| && rows[i].country == c)
    && (forall i, j :: 0 <= i < j < |rows| && rows[i].row.letter == rows[j].row.letter ==>
      rows[i].row.place <= rows[j].row.place)
  }

  // ---- the grouping loop ----

  function EntriesOf(rows: seq<ListedRow>, letter: Letter): seq<GroupPickEntry> {
    if rows == [] then []
    else
      var last := rows[|rows| - 1];
      EntriesOf(rows[..|rows| - 1], letter)
      + if last.row.letter == letter then [GroupPickEntry(last.country, last.row.place)] else []
  }

  /** The flag of the letter's last row. */
  function FlagOf(rows: seq<ListedRow>, letter: Letter): bool {
    if rows == [] then false
    else if rows[|rows| - 1].row.letter == letter then rows[|rows| - 1].row.extraQualifier
    else FlagOf(rows[..|rows| - 1], letter)
  }

  function Grouped(rows: seq<ListedRow>, letter: Letter): GroupPick {
    GroupPick(letter, EntriesOf(rows, letter), FlagOf(rows, letter))
  }

  function LettersSeen(rows: seq<ListedRow>): seq<Letter> {
    if rows == [] then []
    else
      var before := LettersSeen(rows[..|rows| - 1]);
      var letter := rows[|rows| - 1].row.letter;
      if letter in before then before else before + [letter]
  }

  function InsertLetter(l: Letter, sorted: seq<Letter>): seq<Letter> {
    if sorted == [] || l <= sorted[0] then [l] + sorted else [sorted[0]] + InsertLetter(l, sorted[1..])
  }

  /** sort.Strings on one-letter strings. */
  function SortLetters(ls: seq<Letter>): seq<Letter> {
    if ls == [] then [] else InsertLetter(ls[0], SortLetters(ls[1..]))
  }

  function Listing(rows: seq<ListedRow>): seq<GroupPick> {
    var order := SortLetters(LettersSeen(rows));
    seq(|order|, k requires 0 <= k < |order| => Grouped(rows, order[k]))
  }

  /** The loop's map and order after these rows. */
  ghost predicate HoldsRows(grouped: map<Letter, GroupPick>, order: seq<Letter>, rows: seq<ListedRow>) {
    && order == LettersSeen(rows)
    && (forall l :: l in grouped <==> l in order)
    && (forall l :: l in grouped ==> grouped[l] == Grouped(rows, l))
  }

  lemma SeenGrows(rows: seq<ListedRow>, row: ListedRow)
    ensures LettersSeen(rows + [row])
         == if row.row.letter in LettersSeen(rows) then LettersSeen(rows) else LettersSeen(rows) + [row.row.letter]
  {
  }

  lemma OwnPickGrows(rows: seq<ListedRow>, row: ListedRow)
    ensures Grouped(rows + [row], row.row.letter)
         == GroupPick(row.row.letter,
                      EntriesOf(rows, row.row.letter) + [GroupPickEntry(row.country, row.row.place)],
                      row.row.extraQualifier)
  {
  }

  /** The picks of the other letters are what they were. */
  lemma OtherPicksHold(before: map<Letter, GroupPick>, was: seq<Letter>, rows: seq<ListedRow>, row: ListedRow,
                       grouped: map<Letter, GroupPick>)
    requires HoldsRows(before, was, rows)
    requires forall l :: l in grouped ==> l in before || l == row.row.letter
    requires forall l :: l in before && l != row.row.letter ==> l in grouped && grouped[l] == before[l]
    ensures forall l :: l in grouped && l != row.row.letter ==> grouped[l] == Grouped(rows + [row], l)
  {
    forall l | l in grouped && l != row.row.letter ensures grouped[l] == Grouped(rows + [row], l) {
      assert Grouped(rows + [row], l) == Grouped(rows, l);
    }
  }

  lemma HoldsLonger(grouped: map<Letter, GroupPick>, order: seq<Letter>, longer: seq<ListedRow>, letter: Letter)
    requires order == LettersSeen(longer) && forall l :: l in grouped <==> l in order
    requires letter in grouped && grouped[letter] == Grouped(longer, letter)
    requires forall l :: l in grouped && l != letter ==> grouped[l] == Grouped(longer, l)
    ensures HoldsRows(grouped, order, longer)
  {
  }

  /** The letter's pick is created when it is new. */
  method OpenPick(before: map<Letter, GroupPick>, was: seq<Letter>, ghost rows: seq<ListedRow>, letter: Letter)
    returns (grouped: map<Letter, GroupPick>, order: seq<Letter>)
    requires HoldsRows(before, was, rows)
    ensures order == if letter in before then was else was + [letter]
    ensures forall l :: l in grouped <==> l in before || l == letter
    ensures grouped[letter].letter == letter && grouped[letter].entries == EntriesOf(rows, letter)
    ensures forall l :: l in before && l != letter ==> grouped[l] == before[l]
  {
    grouped, order := before, was;
    if letter !in grouped {
      NothingUnseen(rows, letter);
      grouped := grouped[letter := GroupPick(letter, [], false)];
      order := order + [letter];
    }
  }

  /** One turn of the loop: the row goes to the pick of its letter and brings its flag. */
  method AddRow(before: map<Letter, GroupPick>, was: seq<Letter>, ghost rows: seq<ListedRow>, row: ListedRow)
    returns (grouped: map<Letter, GroupPick>, order: seq<Letter>)
    requires HoldsRows(before, was, rows)
    ensures HoldsRows(grouped, order, rows + [row])
  {
    var letter := row.row.letter;
    grouped, order := OpenPick(before, was, rows, letter);
    var entries := grouped[letter].entries + [GroupPickEntry(row.country, row.row.place)];
    OwnPickGrows(rows, row);
    grouped := grouped[letter := grouped[letter].(entries := entries, extraQualifier := row.row.extraQualifier)];
    SeenGrows(rows, row);
    OtherPicksHold(before, was, rows, row, grouped);
    HoldsLonger(grouped, order, rows + [row], letter);
  }

  /** The map and the order after the last row. */
  method GroupRows(rows: seq<ListedRow>) returns (grouped: map<Letter, GroupPick>, order: seq<Letter>)
    ensures HoldsRows(grouped, order, rows)
  {
    grouped, order := map[], [];
    for k := 0 to |rows|
      invariant HoldsRows(grouped, order, rows[..k])
    {
      assert rows[..k + 1] == rows[..k] + [rows[k]];
      grouped, order := AddRow(grouped, order, rows[..k], rows[k]);
    }
    assert rows[..|rows|] == rows;
  }

  /** One pick per letter, letters in alphabetical order, each showing the rows of its letter. */
  method ListGroupPicks(rows: seq<ListedRow>) returns (result: seq<GroupPick>)
    ensures result == Listing(rows)
    ensures forall k :: 0 <= k < |result| ==> ShowsPick(result[k], rows)
    ensures forall i :: 0 <= i < |rows| ==> Submits(result, rows[i].row.letter)
    ensures forall j, k :: 0 <= j < k < |result| ==> result[j].letter < result[k].letter
  {
    var grouped, order := GroupRows(rows);
    SeenSort(rows);
    order := SortLetters(order);
    result := ValuesInOrder(grouped, order);
    CollectedListing(grouped, rows, result);
  }

  lemma SeenSort(rows: seq<ListedRow>)
    ensures forall l :: l in SortLetters(LettersSeen(rows)) <==> l in LettersSeen(rows)
  {
    NothingUnseen(rows, 'A');
    SortedLetters(LettersSeen(rows));
  }

  lemma CollectedListing(grouped: map<Letter, GroupPick>, rows: seq<ListedRow>, result: seq<GroupPick>)
    requires HoldsRows(grouped, LettersSeen(rows), rows) && |result| == |SortLetters(LettersSeen(rows))|
    requires forall k :: 0 <= k < |result| ==>
      var l := SortLetters(LettersSeen(rows))[k]; l in grouped && result[k] == grouped[l]
    ensures result == Listing(rows)
    ensures forall k :: 0 <= k < |result| ==> ShowsPick(result[k], rows)
    ensures forall i :: 0 <= i < |rows| ==> Submits(result, rows[i].row.letter)
    ensures forall j, k :: 0 <= j < k < |result| ==> result[j].letter < result[k].letter
  {
    assert result == Listing(rows);
    ListingShowsRows(rows);
  }

  lemma {:induction false} NothingUnseen(rows: seq<ListedRow>, letter: Letter)
    ensures letter in LettersSeen(rows) <==> exists i :: 0 <= i < |rows| && rows[i].row.letter == letter
    ensures letter !in LettersSeen(rows) ==> EntriesOf(rows, letter) == []
    ensures Distinct(LettersSeen(rows))
  {
    if rows != [] {
      NothingUnseen(rows[..|rows| - 1], letter);
      assert forall i :: 0 <= i < |rows| - 1 ==> rows[..|rows| - 1][i] == rows[i];
    }
  }

  predicate Ascending(ls: seq<Letter>) {
    forall i, j :: 0 <= i < j < |ls| ==> ls[i] < ls[j]
  }

  lemma {:induction false} InsertedLetter(l: Letter, sorted: seq<Letter>)
    requires Ascending(sorted) && l !in sorted
    ensures Ascending(InsertLetter(l, sorted))
    ensures forall x :: x in InsertLetter(l, sorted) <==> x == l || x in sorted
  {
    if sorted != [] && l > sorted[0] {
      InsertedLetter(l, sorted[1..]);
      assert sorted == [sorted[0]] + sorted[1..];
      var rest := InsertLetter(l, sorted[1..]);
      forall i | 0 <= i < |rest| ensures sorted[0] < rest[i] {
        assert rest[i] in rest;
      }
    }
  }

  /** Sorting distinct letters puts them into strict order and loses none. */
  lemma {:induction false} SortedLetters(ls: seq<Letter>)
    requires Distinct(ls)
    ensures Ascending(SortLetters(ls)) && forall l :: l in SortLetters(ls) <==> l in ls
  {
    if ls != [] {
      SortedLetters(ls[1..]);
      assert ls == [ls[0]] + ls[1..];
      InsertedLetter(ls[0], SortLetters(ls[1..]));
    }
  }

  // ---- what the listing of a sheet contains ----

  predicate ByPlace(entries: seq<GroupPickEntry>) {
    forall i, j :: 0 <= i < j < |entries| ==> entries[i].place < entries[j].place
  }

  lemma FirstIsIn(xs: seq<GroupPickEntry>)
    ensures xs != [] ==> xs[0] in xs
  {
  }

  /** A list in strict order of the places is determined by its elements. */
  lemma {:induction false} OrderIsUnique(xs: seq<GroupPickEntry>, ys: seq<GroupPickEntry>)
    requires ByPlace(xs) && ByPlace(ys) && forall e :: e in xs <==> e in ys
    ensures xs == ys
  {
    FirstIsIn(xs);
    FirstIsIn(ys);
    if xs != [] && ys != [] {
      assert xs[0] == ys[0];
      forall e ensures e in xs[1..] <==> e in ys[1..] {
        assert e in xs[1..] ==> e in xs && e != xs[0];
        assert e in ys[1..] ==> e in ys && e != ys[0];
        assert e in xs && e != xs[0] ==> e in xs[1..];
        assert e in ys && e != ys[0] ==> e in ys[1..];
      }
      OrderIsUnique(xs[1..], ys[1..]);
      assert xs == [xs[0]] + xs[1..] && ys == [ys[0]] + ys[1..];
    }
  }

  lemma {:induction false} EntryRows(rows: seq<ListedRow>, letter: Letter)
    ensures forall e :: e in EntriesOf(rows, letter) <==>
      exists i :: 0 <= i < |rows| && rows[i].row.letter == letter
               && e == GroupPickEntry(rows[i].country, rows[i].row.place)
  {
    if rows != [] {
      var shorter := rows[..|rows| - 1];
      EntryRows(shorter, letter);
      assert forall i :: 0 <= i < |shorter| ==> shorter[i] == rows[i];
    }
  }

  /** A listed letter is in the order of its places, if the user gives no place twice. */
  lemma {:induction false} EntriesByPlace(rows: seq<ListedRow>, letter: Letter)
    requires forall i, j :: 0 <= i < j < |rows| && rows[i].row.letter == letter && rows[j].row.letter == letter
                        ==> rows[i].row.place < rows[j].row.place
    ensures ByPlace(EntriesOf(rows, letter))
  {
    if rows != [] {
      var shorter := rows[..|rows| - 1];
      EntriesByPlace(shorter, letter);
      EntryRows(shorter, letter);
      var before := EntriesOf(shorter, letter);
      forall k | 0 <= k < |before| && rows[|rows| - 1].row.letter == letter
        ensures before[k].place < rows[|rows| - 1].row.place
      {
        assert before[k] in before;
      }
    }
  }

  /** The user's rows of the letter give no place twice and agree on the flag. */
  ghost predicate CleanLetter(s: Tables, user: User, letter: Letter) {
    && PlacesDiffer(s.groupPicks, letter, user)
    && (forall c, d :: PicksInGroup(s.groupPicks, letter, user, c) && PicksInGroup(s.groupPicks, letter, user, d)
                   ==> s.groupPicks[(user, c)].extraQualifier == s.groupPicks[(user, d)].extraQualifier)
  }

  /** The entries listed for a letter are its rows, in the order of the places. */
  lemma ListedEntries(s: Tables, user: User, rows: seq<ListedRow>, letter: Letter)
    requires IsPicksQuery(s, user, rows) && CleanLetter(s, user, letter)
    ensures ByPlace(EntriesOf(rows, letter))
    ensures forall e :: e in EntriesOf(rows, letter) <==>
      PicksInGroup(s.groupPicks, letter, user, e.country) && s.groupPicks[(user, e.country)].place == e.place
  {
    forall i, j | 0 <= i < j < |rows| && rows[i].row.letter == letter && rows[j].row.letter == letter
      ensures rows[i].row.place < rows[j].row.place
    {
      assert PicksInGroup(s.groupPicks, letter, user, rows[i].country)
        && PicksInGroup(s.groupPicks, letter, user, rows[j].country);
    }
    EntriesByPlace(rows, letter);
    EntryRows(rows, letter);
  }

  /** A letter is listed exactly when the user has a row for it, and then once. */
  lemma ListedLetters(s: Tables, user: User, rows: seq<ListedRow>, letter: Letter)
    requires IsPicksQuery(s, user, rows)
    ensures letter in LettersSeen(rows) <==> exists c :: PicksInGroup(s.groupPicks, letter, user, c)
    ensures letter in LettersSeen(rows) <==> exists k :: 0 <= k < |Listing(rows)| && Listing(rows)[k].letter == letter
    ensures letter in LettersSeen(rows) ==> Grouped(rows, letter) in Listing(rows)
  {
    NothingUnseen(rows, letter);
    SortedLetters(LettersSeen(rows));
    var order := SortLetters(LettersSeen(rows));
    if letter in LettersSeen(rows) {
      var i :| 0 <= i < |rows| && rows[i].row.letter == letter;
      assert PicksInGroup(s.groupPicks, letter, user, rows[i].country);
      assert letter in order;
      var k :| 0 <= k < |order| && order[k] == letter;
      assert Listing(rows)[k] == Grouped(rows, letter);
    }
    if c :| PicksInGroup(s.groupPicks, letter, user, c) {
      var i :| 0 <= i < |rows| && rows[i].country == c;
    }
    forall k | 0 <= k < |Listing(rows)| && Listing(rows)[k].letter == letter ensures letter in LettersSeen(rows) {
      assert order[k] == letter;
    }
  }

  /** Letters are listed in alphabetical order, each once. */
  lemma ListingInOrder(rows: seq<ListedRow>)
    ensures forall i, j :: 0 <= i < j < |Listing(rows)| ==> Listing(rows)[i].letter < Listing(rows)[j].letter
  {
    NothingUnseen(rows, 'A');
    SortedLetters(LettersSeen(rows));
  }

  // ---- the listing told on the rows ----

  /** The entries come from these rows of the letter: all of them, in their order. */
  ghost predicate ListsRowsAt(entries: seq<GroupPickEntry>, rows: seq<ListedRow>, letter: Letter, at: seq<nat>) {
    && |at| == |entries| && (forall j, k :: 0 <= j < k < |at| ==> at[j] < at[k])
    && (forall i: nat :: i in at <==> i < |rows| && rows[i].row.letter == letter)
    && (forall k :: 0 <= k < |at| ==>
          at[k] < |rows| && entries[k] == GroupPickEntry(rows[at[k]].country, rows[at[k]].row.place))
  }

  /** Row i is the last row of the letter. */
  predicate IsLastOf(rows: seq<ListedRow>, letter: Letter, i: nat) {
    i < |rows| && rows[i].row.letter == letter && forall j :: i < j < |rows| ==> rows[j].row.letter != letter
  }

  /** The pick lists the rows of its letter in their order and carries the flag of the last of them. */
  ghost predicate ShowsPick(p: GroupPick, rows: seq<ListedRow>) {
    && (exists at :: ListsRowsAt(p.entries, rows, p.letter, at))
    && exists i: nat :: IsLastOf(rows, p.letter, i) && p.extraQualifier == rows[i].row.extraQualifier
  }

  /** One more row of the letter comes last. */
  lemma OwnRowComesLast(entries: seq<GroupPickEntry>, rows: seq<ListedRow>, row: ListedRow, at: seq<nat>)
    requires ListsRowsAt(entries, rows, row.row.letter, at)
    ensures var entry := GroupPickEntry(row.country, row.row.place);
      ListsRowsAt(entries + [entry], rows + [row], row.row.letter, at + [|rows|])
  {
    var longer := at + [|rows|];
    forall i: nat ensures i in longer <==> i < |rows + [row]| && (rows + [row])[i].row.letter == row.row.letter {
      assert i in longer <==> i in at || i == |rows|;
    }
    forall k | 0 <= k < |at| ensures at[k] < |rows| {
      assert at[k] in at;
    }
  }

  /** A row of another letter is not among them. */
  lemma OtherRowIsNot(entries: seq<GroupPickEntry>, rows: seq<ListedRow>, row: ListedRow, letter: Letter, at: seq<nat>)
    requires ListsRowsAt(entries, rows, letter, at) && row.row.letter != letter
    ensures ListsRowsAt(entries, rows + [row], letter, at)
  {
    forall i: nat ensures i in at <==> i < |rows + [row]| && (rows + [row])[i].row.letter == letter {
    }
  }

  lemma {:induction false} EntriesComeFrom(rows: seq<ListedRow>, letter: Letter) returns (at: seq<nat>)
    ensures ListsRowsAt(EntriesOf(rows, letter), rows, letter, at)
  {
    at := [];
    if rows != [] {
      var shorter, last := rows[..|rows| - 1], rows[|rows| - 1];
      assert rows == shorter + [last];
      at := EntriesComeFrom(shorter, letter);
      if last.row.letter == letter {
        OwnRowComesLast(EntriesOf(shorter, letter), shorter, last, at);
        at := at + [|shorter|];
      } else {
        OtherRowIsNot(EntriesOf(shorter, letter), shorter, last, letter, at);
      }
    }
  }

  lemma {:induction false} FlagComesFrom(rows: seq<ListedRow>, letter: Letter) returns (i: nat)
    requires letter in LettersSeen(rows)
    ensures IsLastOf(rows, letter, i) && FlagOf(rows, letter) == rows[i].row.extraQualifier
  {
    if rows[|rows| - 1].row.letter == letter {
      i := |rows| - 1;
    } else {
      i := FlagComesFrom(rows[..|rows| - 1], letter);
    }
  }

  lemma GroupedShowsRows(rows: seq<ListedRow>, letter: Letter)
    requires letter in LettersSeen(rows)
    ensures ShowsPick(Grouped(rows, letter), rows)
  {
    var at := EntriesComeFrom(rows, letter);
    var i := FlagComesFrom(rows, letter);
  }

  lemma ListedShowsRows(rows: seq<ListedRow>, k: nat)
    requires k < |Listing(rows)|
    ensures ShowsPick(Listing(rows)[k], rows)
  {
    var order := SortLetters(LettersSeen(rows));
    SeenSort(rows);
    assert order[k] in order;
    GroupedShowsRows(rows, order[k]);
  }

  lemma ListingShowsRows(rows: seq<ListedRow>)
    ensures forall k :: 0 <= k < |Listing(rows)| ==> ShowsPick(Listing(rows)[k], rows)
    ensures forall i :: 0 <= i < |rows| ==> Submits(Listing(rows), rows[i].row.letter)
    ensures forall j, k :: 0 <= j < k < |Listing(rows)| ==> Listing(rows)[j].letter < Listing(rows)[k].letter
  {
    ListingInOrder(rows);
    forall k | 0 <= k < |Listing(rows)| ensures ShowsPick(Listing(rows)[k], rows) {
      ListedShowsRows(rows, k);
    }
    forall i | 0 <= i < |rows| ensures Submits(Listing(rows), rows[i].row.letter) {
      LetterIsListed(rows, rows[i].row.letter, i);
    }
  }

  lemma LetterIsListed(rows: seq<ListedRow>, letter: Letter, i: nat)
    requires i < |rows| && rows[i].row.letter == letter
    ensures Submits(Listing(rows), letter)
  {
    var order := SortLetters(LettersSeen(rows));
    NothingUnseen(rows, letter);
    SortedLetters(LettersSeen(rows));
    assert letter in order;
    var k :| 0 <= k < |order| && order[k] == letter;
    assert Listing(rows)[k].letter == letter;
  }

  // ---- the round trip ----

  /** What a client may send: each letter once, no empty group, no place twice in a group. */
  predicate CleanRequest(picks: seq<GroupPick>) {
    && (forall i, j :: 0 <= i < j < |picks| ==> picks[i].letter != picks[j].letter)
    && (forall k :: 0 <= k < |picks| ==> picks[k].entries != [] && DistinctEntryPlaces(picks[k].entries))
  }

  predicate DistinctEntryPlaces(entries: seq<GroupPickEntry>) {
    forall i, j :: 0 <= i < j < |entries| ==> entries[i].place != entries[j].place
  }

  /** Every row of a submitted letter comes from the request. */
  lemma StoredFrom(s: Tables, user: User, picks: seq<GroupPick>, t: Tables, k: nat, c: Country)
    requires CleanRequest(picks) && SubmitGroupPicks(s, user, picks) == Success(t) && k < |picks|
      && AllRows(picks) != []
    requires PicksInGroup(t.groupPicks, picks[k].letter, user, c)
    ensures GroupPickEntry(c, t.groupPicks[(user, c)].place) in picks[k].entries
    ensures t.groupPicks[(user, c)].extraQualifier == picks[k].extraQualifier
  {
    var base := WithoutLetters(s.groupPicks, user, picks);
    InsertEffect(base, user, AllRows(picks));
    assert Submits(picks, picks[k].letter);
    var k', j := NewRowSource(base, user, picks, user, c);
    assert k' == k && picks[k].entries[j] in picks[k].entries;
  }

  /** Every entry of the request is stored. */
  lemma StoredEntry(s: Tables, user: User, picks: seq<GroupPick>, t: Tables, k: nat, j: nat)
    requires SubmitGroupPicks(s, user, picks) == Success(t) && k < |picks| && j < |picks[k].entries|
    ensures var e := picks[k].entries[j];
      PicksInGroup(t.groupPicks, picks[k].letter, user, e.country) && t.groupPicks[(user, e.country)].place == e.place
  {
    var i := RowPosition(picks, k, j);
    InsertEffect(WithoutLetters(s.groupPicks, user, picks), user, AllRows(picks));
  }

  /** After an accepted request the rows of a submitted letter are exactly its entries. */
  lemma StoredLetter(s: Tables, user: User, picks: seq<GroupPick>, t: Tables, k: nat)
    requires CleanRequest(picks) && SubmitGroupPicks(s, user, picks) == Success(t) && k < |picks|
    ensures forall c, place ::
      (PicksInGroup(t.groupPicks, picks[k].letter, user, c) && t.groupPicks[(user, c)].place == place)
      <==> GroupPickEntry(c, place) in picks[k].entries
    ensures forall c :: PicksInGroup(t.groupPicks, picks[k].letter, user, c) ==>
      t.groupPicks[(user, c)].extraQualifier == picks[k].extraQualifier
    ensures CleanLetter(t, user, picks[k].letter)
  {
    var i0 := RowPosition(picks, k, 0);
    forall c | PicksInGroup(t.groupPicks, picks[k].letter, user, c)
      ensures GroupPickEntry(c, t.groupPicks[(user, c)].place) in picks[k].entries
      ensures t.groupPicks[(user, c)].extraQualifier == picks[k].extraQualifier
    {
      StoredFrom(s, user, picks, t, k, c);
    }
    forall j | 0 <= j < |picks[k].entries|
      ensures var e := picks[k].entries[j];
        PicksInGroup(t.groupPicks, picks[k].letter, user, e.country) && t.groupPicks[(user, e.country)].place == e.place
    {
      StoredEntry(s, user, picks, t, k, j);
    }
  }

  /** Submitting and listing returns the submitted group in the order of its places, with its flag. */
  lemma RoundTrip(s: Tables, user: User, picks: seq<GroupPick>, t: Tables, rows: seq<ListedRow>, k: nat)
    requires CleanRequest(picks) && SubmitGroupPicks(s, user, picks) == Success(t) && k < |picks|
    requires IsPicksQuery(t, user, rows)
    ensures var listed := Grouped(rows, picks[k].letter);
      && listed in Listing(rows)
      && listed.extraQualifier == picks[k].extraQualifier
      && ByPlace(listed.entries)
      && (forall e :: e in listed.entries <==> e in picks[k].entries)
      && (ByPlace(picks[k].entries) ==> listed == picks[k])
  {
    var letter := picks[k].letter;
    StoredLetter(s, user, picks, t, k);
    ListedEntries(t, user, rows, letter);
    var first := picks[k].entries[0];
    assert GroupPickEntry(first.country, first.place) in picks[k].entries;
    assert PicksInGroup(t.groupPicks, letter, user, first.country);
    ListedLetters(t, user, rows, letter);
    var i := FlagComesFrom(rows, letter);
    assert PicksInGroup(t.groupPicks, letter, user, rows[i].country);
    if ByPlace(picks[k].entries) {
      OrderIsUnique(EntriesOf(rows, letter), picks[k].entries);
    }
  }

  /** A letter that is not in the request is listed after it as before it. */
  lemma OtherLettersStay(s: Tables, user: User, picks: seq<GroupPick>, t: Tables, was: seq<ListedRow>,
                         rows: seq<ListedRow>, letter: Letter)
    requires SubmitGroupPicks(s, user, picks) == Success(t) && !Submits(picks, letter) && CleanLetter(s, user, letter)
    requires IsPicksQuery(s, user, was) && IsPicksQuery(t, user, rows)
    ensures letter in LettersSeen(rows) <==> letter in LettersSeen(was)
    ensures letter in LettersSeen(rows) ==>
      Grouped(rows, letter) == Grouped(was, letter) && Grouped(rows, letter) in Listing(rows)
  {
    OtherSheetsStay(s, user, picks, t, letter, user);
    ListedLetters(s, user, was, letter);
    ListedLetters(t, user, rows, letter);
    ListedEntries(s, user, was, letter);
    ListedEntries(t, user, rows, letter);
    OrderIsUnique(EntriesOf(rows, letter), EntriesOf(was, letter));
    if letter in LettersSeen(rows) {
      var i := FlagComesFrom(rows, letter);
      var j := FlagComesFrom(was, letter);
      assert PicksInGroup(s.groupPicks, letter, user, rows[i].country)
        && PicksInGroup(s.groupPicks, letter, user, was[j].country);
    }
  }

  /** A request changes nothing of other users, of scores that exist, or of other tables. */
  lemma SubmitTouchesOneSheet(s: Tables, user: User, picks: seq<GroupPick>, t: Tables)
    requires SubmitGroupPicks(s, user, picks) == Success(t)
    ensures t == s.(groupPicks := t.groupPicks, scores := t.scores)
    ensures forall u :: u in s.scores ==> u in t.scores && t.scores[u] == s.scores[u]
    ensures forall u :: u in t.scores && u !in s.scores ==> u == user && t.scores[u] == Score(0, 0)
    ensures AllRows(picks) != [] ==> user in t.scores
    ensures forall u, c: Country :: u != user ==> ((u, c) in t.groupPicks <==> (u, c) in s.groupPicks)
    ensures forall u, c: Country :: u != user && (u, c) in s.groupPicks ==> t.groupPicks[(u, c)] == s.groupPicks[(u, c)]
  {
    if t != s {
      var base := WithoutLetters(s.groupPicks, user, picks);
      InsertEffect(base, user, AllRows(picks));
      forall u, c: Country | u != user ensures (u, c) in base <==> (u, c) in s.groupPicks {
      }
    }
  }

  /** The user holds the country under a letter outside the request. */
  predicate HeldElsewhere(s: Tables, user: User, picks: seq<GroupPick>, c: Country) {
    (user, c) in s.groupPicks && !Submits(picks, s.groupPicks[(user, c)].letter)
  }

  predicate NoneHeldElsewhere(s: Tables, user: User, picks: seq<GroupPick>, rows: seq<NewPick>) {
    forall i :: 0 <= i < |rows| ==> !HeldElsewhere(s, user, picks, rows[i].country)
  }

  /** A request is accepted exactly when it names known countries, none twice, and none that the user
      still holds under a letter outside the request. */
  lemma SubmitSucceedsIff(s: Tables, user: User, picks: seq<GroupPick>)
    ensures SubmitGroupPicks(s, user, picks).Success? <==>
      AllKnown(s, AllRows(picks)) && AllDifferent(AllRows(picks)) && NoneHeldElsewhere(s, user, picks, AllRows(picks))
  {
    var rows, base := AllRows(picks), WithoutLetters(s.groupPicks, user, picks);
    InsertSucceedsIff(base, user, rows);
    assert forall c :: (user, c) in base <==> HeldElsewhere(s, user, picks, c);
  }
}
