/** The handler's grouping of a flat list of standings into one ranked group per letter. */
module RankedGroups {
  import opened Tables

  /** One row of the standings list. */
  datatype StandingRow = StandingRow(country: Country, standing: GroupStanding)

  /** A row as it is sent; a missing flag is sent as false. */
  datatype RankedCountry = RankedCountry(country: Country, points: int, wins: int, draws: int, losses: int,
    gf: int, ga: int, gd: int, cs: int, isThirdPlaceQualifier: bool, rank: Option<int>)

  datatype RankedGroup = RankedGroup(letter: Letter, countries: seq<RankedCountry>, finalized: bool,
    extraQualifierFinalized: bool, extraQualifier: Option<bool>)

  function Sent(row: StandingRow): RankedCountry {
    var st := row.standing;
    RankedCountry(row.country, st.points, st.wins, st.draws, st.losses, st.gf, st.ga, st.gd, st.cs,
                  st.qualifier == Some(true), st.rank)
  }

  /** The rows of a letter, in their order. */
  function RowsOf(rows: seq<StandingRow>, letter: Letter): seq<StandingRow> {
    if rows == [] then []
    else
      var last := rows[|rows| - 1];
      RowsOf(rows[..|rows| - 1], letter) + if last.standing.letter == letter then [last] else []
  }

  function SentAll(rows: seq<StandingRow>): seq<RankedCountry> {
    if rows == [] then [] else SentAll(rows[..|rows| - 1]) + [Sent(rows[|rows| - 1])]
  }

  /** The last flag that is present among the rows. */
  function LastFlag(rows: seq<StandingRow>): Option<bool> {
    if rows == [] then None
    else if rows[|rows| - 1].standing.qualifier.Some? then rows[|rows| - 1].standing.qualifier
    else LastFlag(rows[..|rows| - 1])
  }

  predicate AnyRank(rows: seq<StandingRow>) {
    exists k :: 0 <= k < |rows| && rows[k].standing.rank.Some?
  }

  function GroupOf(rows: seq<StandingRow>, letter: Letter): RankedGroup {
    var own := RowsOf(rows, letter);
    RankedGroup(letter, SentAll(own), AnyRank(own), LastFlag(own).Some?, LastFlag(own))
  }

  function FirstSeen(rows: seq<StandingRow>): seq<Letter> {
    if rows == [] then []
    else
      var before := FirstSeen(rows[..|rows| - 1]);
      var letter := rows[|rows| - 1].standing.letter;
      if letter in before then before else before + [letter]
  }

  lemma FirstSeenGrows(rows: seq<StandingRow>, row: StandingRow)
    ensures FirstSeen(rows + [row])
         == if row.standing.letter in FirstSeen(rows) then FirstSeen(rows) else FirstSeen(rows) + [row.standing.letter]
  {
  }

  lemma OneMoreStanding(rows: seq<StandingRow>, row: StandingRow)
    ensures var letter := row.standing.letter;
      && FirstSeen(rows + [row]) == (if letter in FirstSeen(rows) then FirstSeen(rows) else FirstSeen(rows) + [letter])
      && RowsOf(rows + [row], letter) == RowsOf(rows, letter) + [row]
      && (forall l :: l != letter ==> RowsOf(rows + [row], l) == RowsOf(rows, l))
  {
  }

  function Extended(group: RankedGroup, row: StandingRow): RankedGroup {
    RankedGroup(group.letter, group.countries + [Sent(row)], group.finalized || row.standing.rank.Some?,
                group.extraQualifierFinalized || row.standing.qualifier.Some?,
                if row.standing.qualifier.Some? then row.standing.qualifier else group.extraQualifier)
  }

  lemma GroupGrows(rows: seq<StandingRow>, row: StandingRow)
    ensures GroupOf(rows + [row], row.standing.letter) == Extended(GroupOf(rows, row.standing.letter), row)
  {
    OneMoreStanding(rows, row);
    var own := RowsOf(rows, row.standing.letter);
    assert (own + [row])[..|own|] == own;
    if AnyRank(own) {
      var k :| 0 <= k < |own| && own[k].standing.rank.Some?;
      assert (own + [row])[k].standing.rank.Some?;
    }
    assert (own + [row])[|own|] == row;
  }

  lemma OtherGroupsStay(rows: seq<StandingRow>, row: StandingRow, letter: Letter)
    requires letter != row.standing.letter
    ensures GroupOf(rows + [row], letter) == GroupOf(rows, letter)
  {
    OneMoreStanding(rows, row);
  }

  lemma UnseenGroup(rows: seq<StandingRow>, letter: Letter)
    requires letter !in FirstSeen(rows)
    ensures GroupOf(rows, letter) == RankedGroup(letter, [], false, false, None)
  {
    SeenHaveRows(rows, letter);
  }

  /** Adds one row to the group of its letter. */
  method AddRow(group: RankedGroup, ghost rows: seq<StandingRow>, row: StandingRow) returns (g: RankedGroup)
    requires group == GroupOf(rows, row.standing.letter)
    ensures g == GroupOf(rows + [row], row.standing.letter)
  {
    GroupGrows(rows, row);
    var isThirdPlaceQ := false;
    if row.standing.qualifier.Some? {
      isThirdPlaceQ := row.standing.qualifier.value;
    }
    g := group;
    if row.standing.rank.Some? {
      g := g.(finalized := true);
    }
    if row.standing.qualifier.Some? {
      g := g.(extraQualifierFinalized := true, extraQualifier := row.standing.qualifier);
    }
    var st := row.standing;
    g := g.(countries := g.countries + [RankedCountry(row.country, st.points, st.wins, st.draws, st.losses,
                                                      st.gf, st.ga, st.gd, st.cs, isThirdPlaceQ, st.rank)]);
  }

  /** The loop's map and order after these rows. */
  ghost predicate HoldsGroups(groupMap: map<Letter, RankedGroup>, order: seq<Letter>, rows: seq<StandingRow>) {
    && order == FirstSeen(rows)
    && (forall l :: l in groupMap <==> l in order)
    && (forall l :: l in groupMap ==> groupMap[l] == GroupOf(rows, l))
  }

  /** The groups of the other letters are what they were. */
  lemma OtherGroupsHold(groupMap: map<Letter, RankedGroup>, order: seq<Letter>, rows: seq<StandingRow>,
                        row: StandingRow,
                        newMap: map<Letter, RankedGroup>)
    requires HoldsGroups(groupMap, order, rows)
    requires forall l :: l in newMap ==> l in groupMap || l == row.standing.letter
    requires forall l :: l in groupMap && l != row.standing.letter ==> l in newMap && newMap[l] == groupMap[l]
    ensures forall l :: l in newMap && l != row.standing.letter ==> newMap[l] == GroupOf(rows + [row], l)
  {
    forall l | l in newMap && l != row.standing.letter ensures newMap[l] == GroupOf(rows + [row], l) {
      OtherGroupsStay(rows, row, l);
    }
  }

  /** The map holds the groups of the longer list once its order, its own group and the other groups do. */
  lemma HoldsLonger(newMap: map<Letter, RankedGroup>, newOrder: seq<Letter>, longer: seq<StandingRow>, letter: Letter)
    requires newOrder == FirstSeen(longer) && forall l :: l in newMap <==> l in newOrder
    requires letter in newMap && newMap[letter] == GroupOf(longer, letter)
    requires forall l :: l in newMap && l != letter ==> newMap[l] == GroupOf(longer, l)
    ensures HoldsGroups(newMap, newOrder, longer)
  {
  }

  /** One group per letter, in the order in which the letters are first seen, each showing the rows of its letter. */
  method BuildRankedGroups(rows: seq<StandingRow>) returns (result: seq<RankedGroup>)
    ensures |result| == |FirstSeen(rows)|
    ensures forall i :: 0 <= i < |result| ==> result[i] == GroupOf(rows, FirstSeen(rows)[i])
    ensures forall i :: 0 <= i < |result| ==> ShowsGroup(result[i], rows)
    ensures forall p :: 0 <= p < |rows| ==> exists i :: 0 <= i < |result| && result[i].letter == rows[p].standing.letter
    ensures forall i, j :: 0 <= i < j < |result| ==> SeenBefore(rows, result[i].letter, result[j].letter)
  {
    var groupMap: map<Letter, RankedGroup>, order: seq<Letter> := map[], [];
    for k := 0 to |rows|
      invariant HoldsGroups(groupMap, order, rows[..k])
    {
      assert rows[..k + 1] == rows[..k] + [rows[k]];
      groupMap, order := AddToMap(groupMap, order, rows[..k], rows[k]);
    }
    assert rows[..|rows|] == rows;
    result := ValuesInOrder(groupMap, order);
    GroupsShowAllRows(rows, result);
  }

  /** The letter's group is created when it is new. */
  method OpenGroup(groupMap: map<Letter, RankedGroup>, order: seq<Letter>, ghost rows: seq<StandingRow>, letter: Letter)
    returns (grown: map<Letter, RankedGroup>, newOrder: seq<Letter>)
    requires HoldsGroups(groupMap, order, rows)
    ensures newOrder == if letter in groupMap then order else order + [letter]
    ensures forall l :: l in grown <==> l in groupMap || l == letter
    ensures grown[letter] == GroupOf(rows, letter)
    ensures forall l :: l in groupMap && l != letter ==> grown[l] == groupMap[l]
  {
    grown, newOrder := groupMap, order;
    if letter !in grown {
      UnseenGroup(rows, letter);
      grown := grown[letter := RankedGroup(letter, [], false, false, None)];
      newOrder := newOrder + [letter];
    }
  }

  /** One turn of the loop: the row is added to the group of its letter. */
  method AddToMap(groupMap: map<Letter, RankedGroup>, order: seq<Letter>, ghost rows: seq<StandingRow>,
                  row: StandingRow)
    returns (newMap: map<Letter, RankedGroup>, newOrder: seq<Letter>)
    requires HoldsGroups(groupMap, order, rows)
    ensures HoldsGroups(newMap, newOrder, rows + [row])
  {
    var letter := row.standing.letter;
    newMap, newOrder := OpenGroup(groupMap, order, rows, letter);
    var group := AddRow(newMap[letter], rows, row);
    newMap := newMap[letter := group];
    FirstSeenGrows(rows, row);
    OtherGroupsHold(groupMap, order, rows, row, newMap);
    HoldsLonger(newMap, newOrder, rows + [row], letter);
  }

  lemma {:induction false} SeenHaveRows(rows: seq<StandingRow>, letter: Letter)
    ensures letter in FirstSeen(rows) <==> RowsOf(rows, letter) != []
  {
    if rows != [] {
      SeenHaveRows(rows[..|rows| - 1], letter);
    }
  }

  // ---- a stable partition ----

  lemma {:induction false} SentInOrder(rows: seq<StandingRow>)
    ensures |SentAll(rows)| == |rows| && forall k :: 0 <= k < |rows| ==> SentAll(rows)[k] == Sent(rows[k])
  {
    if rows != [] {
      SentInOrder(rows[..|rows| - 1]);
    }
  }

  lemma {:induction false} FirstSeenDistinct(rows: seq<StandingRow>)
    ensures Distinct(FirstSeen(rows))
  {
    if rows != [] {
      FirstSeenDistinct(rows[..|rows| - 1]);
    }
  }

  /** The positions of the rows of a letter. */
  function Positions(rows: seq<StandingRow>, letter: Letter): seq<nat> {
    if rows == [] then []
    else Positions(rows[..|rows| - 1], letter) + if rows[|rows| - 1].standing.letter == letter then [|rows| - 1] else []
  }

  /** The rows of a letter are a subsequence of the list: they come from increasing positions, all of the letter's. */
  lemma {:induction false} RowsKeepOrder(rows: seq<StandingRow>, letter: Letter)
    ensures var at := Positions(rows, letter);
      && |at| == |RowsOf(rows, letter)|
      && (forall k :: 0 <= k < |at| ==> at[k] < |rows| && RowsOf(rows, letter)[k] == rows[at[k]])
      && (forall j, k :: 0 <= j < k < |at| ==> at[j] < at[k])
      && (forall i: nat :: i in at <==> i < |rows| && rows[i].standing.letter == letter)
  {
    if rows != [] {
      var shorter := rows[..|rows| - 1];
      RowsKeepOrder(shorter, letter);
      assert forall i :: 0 <= i < |shorter| ==> shorter[i] == rows[i];
    }
  }

  /** How many rows the groups of the given letters hold together. */
  function TotalRows(rows: seq<StandingRow>, letters: seq<Letter>): nat {
    if letters == [] then 0 else TotalRows(rows, letters[..|letters| - 1]) + |RowsOf(rows, letters[|letters| - 1])|
  }

  lemma {:induction false} TotalRowsGrow(rows: seq<StandingRow>, row: StandingRow, letters: seq<Letter>)
    requires Distinct(letters)
    ensures TotalRows(rows + [row], letters)
         == TotalRows(rows, letters) + if row.standing.letter in letters then 1 else 0
  {
    if letters != [] {
      var last := letters[|letters| - 1];
      TotalRowsGrow(rows, row, letters[..|letters| - 1]);
      OneMoreStanding(rows, row);
      assert forall l :: l in letters <==> l in letters[..|letters| - 1] || l == last;
    }
  }

  /** No row is lost and none is sent twice: the groups together are as long as the list. */
  lemma {:induction false} PartitionKeepsCount(rows: seq<StandingRow>)
    ensures TotalRows(rows, FirstSeen(rows)) == |rows|
  {
    if rows != [] {
      var shorter, row := rows[..|rows| - 1], rows[|rows| - 1];
      var before := FirstSeen(shorter);
      assert rows == shorter + [row];
      PartitionKeepsCount(shorter);
      FirstSeenDistinct(shorter);
      FirstSeenDistinct(rows);
      TotalRowsGrow(shorter, row, before);
      OneMoreStanding(shorter, row);
      if row.standing.letter !in before {
        SeenHaveRows(shorter, row.standing.letter);
        assert FirstSeen(rows)[..|before|] == before;
      }
    }
  }

  // ---- what is sent, told on the rows ----

  /** The country is sent with the columns of the row; its flag is sent as true exactly when the row's flag is true. */
  predicate ShowsRow(sent: RankedCountry, row: StandingRow) {
    var st := row.standing;
    && sent.country == row.country && sent.points == st.points
    && sent.wins == st.wins && sent.draws == st.draws && sent.losses == st.losses
    && sent.gf == st.gf && sent.ga == st.ga && sent.gd == st.gd && sent.cs == st.cs
    && sent.rank == st.rank && (sent.isThirdPlaceQualifier <==> st.qualifier == Some(true))
  }

  /** These are the positions of the letter's rows, in their order. */
  ghost predicate ArePositions(rows: seq<StandingRow>, letter: Letter, at: seq<nat>) {
    && (forall j, k :: 0 <= j < k < |at| ==> at[j] < at[k])
    && (forall i: nat :: i in at <==> i < |rows| && rows[i].standing.letter == letter)
  }

  predicate ShowsRowsAt(g: RankedGroup, rows: seq<StandingRow>, at: seq<nat>) {
    |g.countries| == |at| && forall k :: 0 <= k < |at| ==> at[k] < |rows| && ShowsRow(g.countries[k], rows[at[k]])
  }

  /** Row i is the last row of the letter with a flag. */
  ghost predicate LastFlagged(rows: seq<StandingRow>, letter: Letter, i: nat) {
    && i < |rows| && rows[i].standing.letter == letter && rows[i].standing.qualifier.Some?
    && forall j :: i < j < |rows| && rows[j].standing.letter == letter ==> rows[j].standing.qualifier.None?
  }

  /** The flag is the last flag of the letter, and None when the letter has none. */
  ghost predicate IsFlagOf(rows: seq<StandingRow>, letter: Letter, flag: Option<bool>) {
    if flag.Some? then exists i: nat :: LastFlagged(rows, letter, i) && rows[i].standing.qualifier == flag
    else forall i :: 0 <= i < |rows| && rows[i].standing.letter == letter ==> rows[i].standing.qualifier.None?
  }

  /** The group shows the rows of its letter in their order, is finalized exactly when one of them has a rank, and has
      the last flag among them. */
  ghost predicate ShowsGroup(g: RankedGroup, rows: seq<StandingRow>) {
    && (exists at :: ArePositions(rows, g.letter, at) && ShowsRowsAt(g, rows, at))
    && (g.finalized <==>
          exists i :: 0 <= i < |rows| && rows[i].standing.letter == g.letter && rows[i].standing.rank.Some?)
    && g.extraQualifierFinalized == g.extraQualifier.Some?
    && IsFlagOf(rows, g.letter, g.extraQualifier)
  }

  /** The first row of letter a comes before every row of letter b. */
  ghost predicate SeenBefore(rows: seq<StandingRow>, a: Letter, b: Letter) {
    exists p :: 0 <= p < |rows| && rows[p].standing.letter == a
             && forall q :: 0 <= q <= p ==> rows[q].standing.letter != b
  }

  /** One more row leaves the flag of a letter or sets it. */
  lemma OneMoreFlag(rows: seq<StandingRow>, letter: Letter)
    requires rows != []
    ensures var shorter, last := rows[..|rows| - 1], rows[|rows| - 1];
      LastFlag(RowsOf(rows, letter))
      == if last.standing.letter == letter && last.standing.qualifier.Some? then last.standing.qualifier
         else LastFlag(RowsOf(shorter, letter))
  {
    var own, last := RowsOf(rows[..|rows| - 1], letter), rows[|rows| - 1];
    assert RowsOf(rows, letter) == own + if last.standing.letter == letter then [last] else [];
    if last.standing.letter == letter {
      assert (own + [last])[..|own|] == own && (own + [last])[|own|] == last;
    } else {
      assert RowsOf(rows, letter) == own;
    }
  }

  lemma {:induction false} LastFlagIsFlagOf(rows: seq<StandingRow>, letter: Letter)
    ensures IsFlagOf(rows, letter, LastFlag(RowsOf(rows, letter)))
  {
    if rows != [] {
      var shorter, last := rows[..|rows| - 1], rows[|rows| - 1];
      LastFlagIsFlagOf(shorter, letter);
      OneMoreFlag(rows, letter);
      FlagStays(rows, letter, LastFlag(RowsOf(shorter, letter)));
      if last.standing.letter == letter && last.standing.qualifier.Some? {
        assert LastFlagged(rows, letter, |rows| - 1);
      }
    }
  }

  /** A last row without a flag of the letter changes nothing. */
  lemma FlagStays(rows: seq<StandingRow>, letter: Letter, flag: Option<bool>)
    requires rows != [] && IsFlagOf(rows[..|rows| - 1], letter, flag)
    ensures var last := rows[|rows| - 1].standing;
      last.letter != letter || last.qualifier.None? ==> IsFlagOf(rows, letter, flag)
  {
    var shorter, last := rows[..|rows| - 1], rows[|rows| - 1].standing;
    assert forall i :: 0 <= i < |shorter| ==> shorter[i] == rows[i];
    if flag.Some? && (last.letter != letter || last.qualifier.None?) {
      var i: nat :| LastFlagged(shorter, letter, i) && shorter[i].standing.qualifier == flag;
      assert LastFlagged(rows, letter, i);
    }
  }

  lemma GroupShowsRows(rows: seq<StandingRow>, letter: Letter)
    ensures ShowsGroup(GroupOf(rows, letter), rows)
  {
    var own, at, g := RowsOf(rows, letter), Positions(rows, letter), GroupOf(rows, letter);
    RowsKeepOrder(rows, letter);
    SentInOrder(own);
    assert ArePositions(rows, letter, at) && ShowsRowsAt(g, rows, at);
    if i :| 0 <= i < |rows| && rows[i].standing.letter == letter && rows[i].standing.rank.Some? {
      assert i in at;
      var k :| 0 <= k < |at| && at[k] == i;
      assert own[k].standing.rank.Some?;
    }
    LastFlagIsFlagOf(rows, letter);
  }

  lemma {:induction false} LetterIsSeen(rows: seq<StandingRow>, p: nat)
    requires p < |rows|
    ensures rows[p].standing.letter in FirstSeen(rows)
  {
    if p < |rows| - 1 {
      LetterIsSeen(rows[..|rows| - 1], p);
    }
  }

  lemma {:induction false} LettersInOrder(rows: seq<StandingRow>, i: nat, j: nat)
    requires i < j < |FirstSeen(rows)|
    ensures SeenBefore(rows, FirstSeen(rows)[i], FirstSeen(rows)[j])
  {
    var shorter := rows[..|rows| - 1];
    var before := FirstSeen(shorter);
    if j < |before| {
      LettersInOrder(shorter, i, j);
      var p :| 0 <= p < |shorter| && shorter[p].standing.letter == before[i]
               && forall q :: 0 <= q <= p ==> shorter[q].standing.letter != before[j];
      assert rows[p].standing.letter == before[i] && forall q :: 0 <= q <= p ==> rows[q] == shorter[q];
    } else {
      SeenHasRow(shorter, before[i]);
      var p :| 0 <= p < |shorter| && shorter[p].standing.letter == before[i];
      forall q | 0 <= q <= p ensures rows[q].standing.letter != FirstSeen(rows)[j] {
        LetterIsSeen(shorter, q);
      }
      assert rows[p] == shorter[p];
    }
  }

  /** The groups in the order of first sight show all rows. */
  lemma GroupsShowAllRows(rows: seq<StandingRow>, result: seq<RankedGroup>)
    requires |result| == |FirstSeen(rows)|
    requires forall i :: 0 <= i < |result| ==> result[i] == GroupOf(rows, FirstSeen(rows)[i])
    ensures forall i :: 0 <= i < |result| ==> ShowsGroup(result[i], rows)
    ensures forall p :: 0 <= p < |rows| ==> exists i :: 0 <= i < |result| && result[i].letter == rows[p].standing.letter
    ensures forall i, j :: 0 <= i < j < |result| ==> SeenBefore(rows, result[i].letter, result[j].letter)
  {
    var order := FirstSeen(rows);
    forall i | 0 <= i < |result| ensures ShowsGroup(result[i], rows) && result[i].letter == order[i] {
      GroupShowsRows(rows, order[i]);
    }
    forall p | 0 <= p < |rows| ensures exists i :: 0 <= i < |result| && result[i].letter == rows[p].standing.letter {
      LetterIsSeen(rows, p);
      var i :| 0 <= i < |order| && order[i] == rows[p].standing.letter;
      assert result[i].letter == order[i];
    }
    forall i, j | 0 <= i < j < |result| ensures SeenBefore(rows, result[i].letter, result[j].letter) {
      LettersInOrder(rows, i, j);
    }
  }

  lemma {:induction false} SeenHasRow(rows: seq<StandingRow>, letter: Letter)
    requires letter in FirstSeen(rows)
    ensures exists p :: 0 <= p < |rows| && rows[p].standing.letter == letter
  {
    if rows[|rows| - 1].standing.letter != letter {
      SeenHasRow(rows[..|rows| - 1], letter);
      var p :| 0 <= p < |rows| - 1 && rows[..|rows| - 1][p].standing.letter == letter;
      assert rows[p].standing.letter == letter;
    }
  }
}
