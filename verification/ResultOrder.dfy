/** The order of the seeder's queries: points, then goal difference, then goals scored, then the country code. */
module ResultOrder {
  import opened Tables
  import opened GroupFinalization

  /** Codes compare character by character. */
  predicate CodeBefore(a: string, b: string) {
    b != "" && (a == "" || a[0] < b[0] || (a[0] == b[0] && CodeBefore(a[1..], b[1..])))
  }

  lemma {:induction false} CodesCompare(a: string, b: string)
    ensures !(CodeBefore(a, b) && CodeBefore(b, a))
    ensures CodeBefore(a, b) || CodeBefore(b, a) || a == b
    ensures a == b ==> !CodeBefore(a, b)
  {
    if a != "" && b != "" {
      CodesCompare(a[1..], b[1..]);
      assert a == [a[0]] + a[1..] && b == [b[0]] + b[1..];
    }
  }

  lemma {:induction false} CodesChain(a: string, b: string, c: string)
    requires CodeBefore(a, b) && CodeBefore(b, c)
    ensures CodeBefore(a, c)
  {
    if a != "" && a[0] == b[0] == c[0] {
      CodesChain(a[1..], b[1..], c[1..]);
    }
  }

  /** c comes before d in a query ordered by results. */
  predicate Ahead(s: Tables, c: Country, d: Country) {
    && c in s.standings && d in s.standings
    && var a, b := s.standings[c], s.standings[d];
       a.points > b.points || (a.points == b.points &&
         (a.gd > b.gd || (a.gd == b.gd &&
           (a.gf > b.gf || (a.gf == b.gf && CodeBefore(c.code, d.code))))))
  }

  /** Any two different countries are in one order and not in the other. */
  lemma ResultsCompare(s: Tables, c: Country, d: Country)
    requires c in s.standings && d in s.standings
    ensures !(Ahead(s, c, d) && Ahead(s, d, c))
    ensures c != d ==> Ahead(s, c, d) || Ahead(s, d, c)
    ensures !Ahead(s, c, c)
  {
    CodesCompare(c.code, d.code);
    CodesCompare(c.code, c.code);
  }

  lemma ResultsChain(s: Tables, a: Country, b: Country, c: Country)
    requires Ahead(s, a, b) && Ahead(s, b, c)
    ensures Ahead(s, a, c)
  {
    if CodeBefore(a.code, b.code) && CodeBefore(b.code, c.code) {
      CodesChain(a.code, b.code, c.code);
    }
  }

  /** Every set of countries has a best one. */
  lemma {:induction false} BestExists(s: Tables, some: set<Country>) returns (best: Country)
    requires some != {} && some <= s.standings.Keys
    ensures best in some && forall d :: d in some && d != best ==> Ahead(s, best, d)
  {
    best :| best in some;
    if some != {best} {
      var other := BestExists(s, some - {best});
      ResultsCompare(s, best, other);
      if Ahead(s, best, other) {
        forall d | d in some && d != best && d != other ensures Ahead(s, best, d) {
          ResultsChain(s, best, other, d);
        }
      } else {
        best := other;
      }
    }
  }

  predicate InOrder(s: Tables, ordered: seq<Country>) {
    forall i, j :: 0 <= i < j < |ordered| ==> Ahead(s, ordered[i], ordered[j])
  }

  /** What a query for these countries answers: each of them once, best first. */
  method Ordered(s: Tables, all: set<Country>) returns (ordered: seq<Country>)
    requires all <= s.standings.Keys
    ensures Distinct(ordered) && InOrder(s, ordered) && forall c :: c in ordered <==> c in all
  {
    ordered := [];
    var left := all;
    while left != {}
      invariant left <= all && Distinct(ordered) && InOrder(s, ordered)
      invariant forall c :: c in ordered <==> c in all - left
      invariant forall c, d :: c in ordered && d in left ==> Ahead(s, c, d)
    {
      ghost var best := BestExists(s, left);
      var c :| c in left && forall d :: d in left && d != c ==> Ahead(s, c, d);
      assert c !in ordered;
      ordered, left := ordered + [c], left - {c};
    }
  }

  /** In every group the ranks follow the results. */
  ghost predicate RanksFollowResults(s: Tables) {
    forall c, d :: Compared(s, c, d) ==> (s.standings[c].rank.value < s.standings[d].rank.value <==> Ahead(s, c, d))
  }

  /** Two countries of one ranked group. */
  predicate Compared(s: Tables, c: Country, d: Country) {
    && c in s.standings && d in s.standings && s.standings[c].letter == s.standings[d].letter
    && s.standings[c].rank.Some? && s.standings[d].rank.Some?
  }

  /** Ranking an open group in the order of the query keeps that. */
  lemma RankingFollows(s: Tables, letter: Letter, ranking: seq<Country>, t: Tables)
    requires RanksFollowResults(s) && IsGroup(s, letter, ranking) && InOrder(s, ranking)
    requires FinalizeRankings(s, letter, ranking) == Success(t)
    ensures RanksFollowResults(t)
  {
    forall c, d | Compared(t, c, d)
      ensures t.standings[c].rank.value < t.standings[d].rank.value <==> Ahead(t, c, d)
    {
      assert Ahead(t, c, d) == Ahead(s, c, d);
      ResultsCompare(s, c, d);
      if s.standings[c].letter == letter {
        assert InGroup(s, letter, c) && InGroup(s, letter, d);
        var i, j := RankIn(ranking, c) - 1, RankIn(ranking, d) - 1;
        assert ranking[i] == c && ranking[j] == d;
        assert i < j ==> Ahead(s, ranking[i], ranking[j]);
        assert j < i ==> Ahead(s, ranking[j], ranking[i]);
      } else {
        assert Compared(s, c, d);
      }
    }
  }

  predicate DecidedThird(s: Tables, c: Country, qualifies: bool) {
    c in s.standings && s.standings[c].rank == Some(3) && s.standings[c].qualifier == Some(qualifies)
  }

  /** Every third that goes through is ahead of every third that does not. */
  ghost predicate BestThirdsGoThrough(s: Tables) {
    forall c, d :: DecidedThird(s, c, true) && DecidedThird(s, d, false) ==> Ahead(s, c, d)
  }

  /** The letters of the thirds, best third first. */
  ghost predicate ThirdsInOrder(s: Tables, letters: seq<Letter>) {
    forall i, j, c, d :: 0 <= i < j < |letters| && c in Thirds(s, letters[i]) && d in Thirds(s, letters[j]) ==>
      Ahead(s, c, d)
  }

  /** The query for the letters of the third-placed countries. */
  method QueryThirds(s: Tables) returns (letters: seq<Letter>)
    requires forall l, c, d :: c in Thirds(s, l) && d in Thirds(s, l) ==> c == d
    ensures Distinct(letters) && ThirdsInOrder(s, letters) && forall l :: l in letters <==> Thirds(s, l) != {}
  {
    var all := set c | c in s.standings && s.standings[c].rank == Some(3);
    var ordered := Ordered(s, all);
    assert forall c :: c in all <==> c in s.standings && c in Thirds(s, s.standings[c].letter);
    letters := [];
    for k := 0 to |ordered|
      invariant |letters| == k && forall i :: 0 <= i < k ==> ordered[i] in Thirds(s, letters[i])
    {
      assert ordered[k] in all;
      letters := letters + [s.standings[ordered[k]].letter];
    }
    forall l ensures l in letters <==> Thirds(s, l) != {} {
      if l in letters {
        var i :| 0 <= i < |letters| && letters[i] == l;
        assert ordered[i] in Thirds(s, l);
      }
      if c :| c in Thirds(s, l) {
        assert c in ordered;
        var i :| 0 <= i < |ordered| && ordered[i] == c;
        assert letters[i] == l;
      }
    }
  }

  // ---- the order told on the columns ----

  /** At the first position where the codes differ the first one has ended or has the smaller character. */
  predicate SmallerCode(a: string, b: string) {
    exists k :: 0 <= k <= |a| && DiffersAt(a, b, k)
  }

  predicate DiffersAt(a: string, b: string, k: nat)
    requires k <= |a|
  {
    k < |b| && a[..k] == b[..k] && (k == |a| || a[k] < b[k])
  }

  lemma {:induction false} SmallerCodeIsBefore(a: string, b: string, k: nat)
    requires k <= |a| && DiffersAt(a, b, k)
    ensures CodeBefore(a, b)
  {
    if k > 0 {
      assert a[0] == a[..k][0] == b[..k][0] == b[0];
      assert a[1..][..k - 1] == a[..k][1..] && b[1..][..k - 1] == b[..k][1..];
      SmallerCodeIsBefore(a[1..], b[1..], k - 1);
    }
  }

  /** In one ranked group more points give the smaller rank, at equal points the greater goal difference, then more
      goals scored, then the smaller code. */
  ghost predicate RanksByResults(s: Tables) {
    forall c, d :: c in s.standings && d in s.standings && s.standings[c].letter == s.standings[d].letter
                   && s.standings[c].rank.Some? && s.standings[d].rank.Some?
      ==> var a, b := s.standings[c], s.standings[d];
          && (a.points > b.points ==> a.rank.value < b.rank.value)
          && (a.points == b.points && a.gd > b.gd ==> a.rank.value < b.rank.value)
          && (a.points == b.points && a.gd == b.gd && a.gf > b.gf ==> a.rank.value < b.rank.value)
          && (a.points == b.points && a.gd == b.gd && a.gf == b.gf && SmallerCode(c.code, d.code)
              ==> a.rank.value < b.rank.value)
  }

  /** A third that does not go through is above none that does, in points, then goal difference, then goals scored. */
  ghost predicate ThirdsByResults(s: Tables) {
    forall c, d :: c in s.standings && d in s.standings
                   && s.standings[c].rank == Some(3) && s.standings[c].qualifier == Some(false)
                   && s.standings[d].rank == Some(3) && s.standings[d].qualifier == Some(true)
      ==> var out, through := s.standings[c], s.standings[d];
          && out.points <= through.points
          && (out.points == through.points ==> out.gd <= through.gd)
          && (out.points == through.points && out.gd == through.gd ==> out.gf <= through.gf)
  }

  lemma ResultsTellRanks(s: Tables)
    requires RanksFollowResults(s)
    ensures RanksByResults(s)
  {
    forall c, d | Compared(s, c, d) && SmallerCode(c.code, d.code) ensures CodeBefore(c.code, d.code) {
      var k: nat :| k <= |c.code| && DiffersAt(c.code, d.code, k);
      SmallerCodeIsBefore(c.code, d.code, k);
    }
    forall c, d | c in s.standings && d in s.standings && s.standings[c].letter == s.standings[d].letter
                  && s.standings[c].rank.Some? && s.standings[d].rank.Some?
      ensures Compared(s, c, d)
    {
    }
  }

  lemma ResultsTellThirds(s: Tables)
    requires BestThirdsGoThrough(s)
    ensures ThirdsByResults(s)
  {
    forall c, d | c in s.standings && d in s.standings
                  && s.standings[c].rank == Some(3) && s.standings[c].qualifier == Some(false)
                  && s.standings[d].rank == Some(3) && s.standings[d].qualifier == Some(true)
      ensures Ahead(s, d, c)
    {
      assert DecidedThird(s, d, true) && DecidedThird(s, c, false);
    }
  }
}
