/** Where the countries of a bracket started: every match draws on its own part of the Round of 32. */
module Subtrees {
  import opened MatchUpdates
  import opened Shape
  import opened Bracket

  /** How many Round-of-32 matches lie below a match of round r. */
  function Span(r: int): nat {
    if r == 1 then 1 else if r == 2 then 2 else if r == 3 then 4 else if r == 4 then 8 else 16
  }

  /** A country in slot s of winner-bracket match (r, i) started in Round-of-32 match j of that subtree. */
  lemma {:induction false} Origin(m: MatchTable, r: nat, i: nat, s: nat) returns (j: nat, t: nat)
    requires BracketHolds(m) && InBracket(r, i) && s < 2 && !(r == 5 && i == 1)
    requires Slot(m, r, i, s).Some?
    ensures j < 16 && t < 2 && Slot(m, 1, j, t) == Slot(m, r, i, s)
    ensures i * Span(r) <= j < (i + 1) * Span(r)
    ensures r == 1 ==> t == s
    ensures r >= 2 ==> (2 * i + s) * Span(r - 1) <= j < (2 * i + s + 1) * Span(r - 1)
  {
    if r == 1 {
      j, t := i, s;
    } else {
      var feeder := 2 * i + s;
      assert Slot(m, r, i, s) == Source(m, r, i, s);
      assert InBracket(r - 1, feeder);
      var won := if Winner(Row(m, r - 1, feeder)) == Row(m, r - 1, feeder).country1 then 0 else 1;
      assert Slot(m, r - 1, feeder, won) == Slot(m, r, i, s);
      j, t := Origin(m, r - 1, feeder, won);
    }
  }

  /** No country is in two slots of the same round of the winner bracket. */
  lemma OncePerRound(m: MatchTable, r: nat, i: nat, s: nat, j: nat, t: nat)
    requires BracketHolds(m) && InBracket(r, i) && InBracket(r, j) && s < 2 && t < 2
    requires r == 5 ==> i == 0 && j == 0
    requires Slot(m, r, i, s).Some? && Slot(m, r, i, s) == Slot(m, r, j, t)
    ensures i == j && s == t
  {
    var a, x := Origin(m, r, i, s);
    var b, y := Origin(m, r, j, t);
    assert Slot(m, 1, a, x) == Slot(m, 1, b, y);
  }

  /** The two sides of a match are different countries. */
  lemma SidesDiffer(m: MatchTable, r: nat, i: nat)
    requires BracketHolds(m) && InBracket(r, i) && !(r == 5 && i == 1)
    requires Slot(m, r, i, 0).Some?
    ensures Slot(m, r, i, 0) != Slot(m, r, i, 1)
  {
    if Slot(m, r, i, 0) == Slot(m, r, i, 1) {
      OncePerRound(m, r, i, 0, i, 1);
    }
  }

  /** The final and the third-place match have no country in common, nor is a country twice in the latter. */
  lemma LastRoundDisjoint(m: MatchTable, s: nat, i: nat, t: nat)
    requires BracketHolds(m) && s < 2 && i < 2 && t < 2
    requires Slot(m, 5, 1, s).Some? && Slot(m, 5, 1, s) == Slot(m, 5, i, t)
    ensures i == 1 && s == t
  {
    assert Slot(m, 5, 1, s) == Source(m, 5, 1, s);
    assert Slot(m, 5, i, t) == Source(m, 5, i, t);
    var lost := if Loser(Row(m, 4, s)) == Row(m, 4, s).country1 then 0 else 1;
    assert Slot(m, 4, s, lost) == Slot(m, 5, 1, s);
    SidesDiffer(m, 4, s);
    var other := Row(m, 4, t);
    var came := if Slot(m, 5, i, t) == other.country1 then 0 else 1;
    assert Slot(m, 4, t, came) == Slot(m, 5, i, t);
    OncePerRound(m, 4, s, lost, t, came);
  }
}
