/**
 The matches of a new contest: a round robin inside every group and the empty bracket. Two countries of a group meet
 once, and every position of the bracket is generated once.
 */
module Generation {
  import opened Tables
  import Shape

  datatype Group = Group(letter: Letter, countries: seq<Country>)

  /** A match to be inserted; only knockout matches have an index. */
  datatype NewMatch = NewMatch(
    country1: Option<Country>, country2: Option<Country>, round: nat, roundIndex: Option<nat>)

  function AllCountries(groups: seq<Group>): seq<Country> {
    if groups == [] then [] else AllCountries(groups[..|groups| - 1]) + groups[|groups| - 1].countries
  }

  function Pairs(c: Country, rest: seq<Country>): seq<NewMatch> {
    if rest == [] then [] else [NewMatch(Some(c), Some(rest[0]), 0, None)] + Pairs(c, rest[1..])
  }

  function RoundRobin(cs: seq<Country>): seq<NewMatch> {
    if cs == [] then [] else Pairs(cs[0], cs[1..]) + RoundRobin(cs[1..])
  }

  function GroupMatches(groups: seq<Group>): seq<NewMatch> {
    if groups == [] then [] else GroupMatches(groups[..|groups| - 1]) + RoundRobin(groups[|groups| - 1].countries)
  }

  function RoundSlots(r: nat, n: nat): seq<NewMatch> {
    seq(n, i requires 0 <= i < n => NewMatch(None, None, r, Some(i)))
  }

  function Skeleton(): seq<NewMatch> {
    RoundSlots(1, 16) + RoundSlots(2, 8) + RoundSlots(3, 4) + RoundSlots(4, 2) + RoundSlots(5, 2)
  }

  function ContestMatches(groups: seq<Group>): seq<NewMatch> {
    GroupMatches(groups) + Skeleton()
  }

  // ---- the loops of the service ----

  /** Moving one pair from what is to come to what has been emitted. */
  lemma EmitPair(emitted: seq<NewMatch>, c: Country, rest: seq<Country>, later: seq<NewMatch>)
    requires rest != []
    ensures emitted + (Pairs(c, rest) + later)
         == (emitted + [NewMatch(Some(c), Some(rest[0]), 0, None)]) + (Pairs(c, rest[1..]) + later)
  {
  }

  /** Emits every pair of the group, in the order of the two nested loops. */
  method PairGroup(group: Group, before: seq<NewMatch>) returns (matches: seq<NewMatch>)
    ensures matches == before + RoundRobin(group.countries)
  {
    matches := before;
    var cs := group.countries;
    for i := 0 to |cs|
      invariant matches + RoundRobin(cs[i..]) == before + RoundRobin(cs)
    {
      ghost var later := RoundRobin(cs[i + 1..]);
      assert cs[i..][1..] == cs[i + 1..];
      for j := i + 1 to |cs|
        invariant matches + (Pairs(cs[i], cs[j..]) + later) == before + RoundRobin(cs)
      {
        EmitPair(matches, cs[i], cs[j..], later);
        assert cs[j..][1..] == cs[j + 1..];
        matches := matches + [NewMatch(Some(cs[i]), Some(cs[j]), 0, None)];
      }
      assert matches + (Pairs(cs[i], []) + later) == matches + later;
    }
    assert matches + RoundRobin([]) == matches;
  }

  /** Emits the whole list of a contest. */
  method GenerateMatches(groups: seq<Group>) returns (matches: seq<NewMatch>)
    ensures matches == ContestMatches(groups)
  {
    matches := [];
    for k := 0 to |groups|
      invariant matches == GroupMatches(groups[..k])
    {
      matches := PairGroup(groups[k], matches);
      assert groups[..k + 1][..k] == groups[..k];
    }
    assert groups[..|groups|] == groups;
    matches := AppendSkeleton(matches);
  }

  /** The five rounds with their numbers of matches. */
  const KNOCKOUTS: seq<(nat, nat)> := [(1, 16), (2, 8), (3, 4), (4, 2), (5, 2)]

  method AppendSkeleton(before: seq<NewMatch>) returns (matches: seq<NewMatch>)
    ensures matches == before + Skeleton()
  {
    matches := before;
    for k := 0 to |KNOCKOUTS|
      invariant matches == before + SkeletonPrefix(k)
    {
      var start, round, count := matches, KNOCKOUTS[k].0, KNOCKOUTS[k].1;
      for i := 0 to count
        invariant matches == start + RoundSlots(round, i)
      {
        matches := matches + [NewMatch(None, None, round, Some(i))];
      }
    }
    SkeletonIsPrefix();
  }

  function SkeletonPrefix(k: nat): seq<NewMatch>
    requires k <= 5
  {
    if k == 0 then [] else SkeletonPrefix(k - 1) + RoundSlots(KNOCKOUTS[k - 1].0, KNOCKOUTS[k - 1].1)
  }

  lemma SkeletonIsPrefix()
    ensures SkeletonPrefix(5) == Skeleton()
  {
  }

  // ---- how often something is emitted ----

  function Count(ms: seq<NewMatch>, p: NewMatch -> bool): nat {
    if ms == [] then 0 else Count(ms[..|ms| - 1], p) + if p(ms[|ms| - 1]) then 1 else 0
  }

  lemma {:induction false} CountConcat(xs: seq<NewMatch>, ys: seq<NewMatch>, p: NewMatch -> bool)
    ensures Count(xs + ys, p) == Count(xs, p) + Count(ys, p)
  {
    if ys == [] {
      assert xs + ys == xs;
    } else {
      assert (xs + ys)[..|xs + ys| - 1] == xs + ys[..|ys| - 1];
      CountConcat(xs, ys[..|ys| - 1], p);
    }
  }

  lemma {:induction false} CountNone(ms: seq<NewMatch>, p: NewMatch -> bool)
    requires forall k :: 0 <= k < |ms| ==> !p(ms[k])
    ensures Count(ms, p) == 0
  {
    if ms != [] {
      CountNone(ms[..|ms| - 1], p);
    }
  }

  lemma {:induction false} CountAtLeast(ms: seq<NewMatch>, p: NewMatch -> bool, k: nat)
    requires k < |ms| && p(ms[k])
    ensures Count(ms, p) >= 1
  {
    if k < |ms| - 1 {
      CountAtLeast(ms[..|ms| - 1], p, k);
    }
  }

  /** What is emitted once is emitted at one position. */
  lemma {:induction false} OnePosition(ms: seq<NewMatch>, p: NewMatch -> bool, j: nat, k: nat)
    requires Count(ms, p) <= 1 && j < |ms| && k < |ms| && p(ms[j]) && p(ms[k])
    ensures j == k
  {
    if j == |ms| - 1 && k < j {
      CountAtLeast(ms[..|ms| - 1], p, k);
    } else if k == |ms| - 1 && j < k {
      CountAtLeast(ms[..|ms| - 1], p, j);
    } else if j < |ms| - 1 {
      OnePosition(ms[..|ms| - 1], p, j, k);
    }
  }

  /** The match is between a and b, whichever way round. */
  function Meets(a: Country, b: Country): NewMatch -> bool {
    (m: NewMatch) =>
      (m.country1 == Some(a) && m.country2 == Some(b)) || (m.country1 == Some(b) && m.country2 == Some(a))
  }

  function Involves(a: Country): NewMatch -> bool {
    (m: NewMatch) => m.country1 == Some(a) || m.country2 == Some(a)
  }

  function IsSlot(r: nat, i: nat): NewMatch -> bool {
    (m: NewMatch) => m.round == r && m.roundIndex == Some(i)
  }

  lemma {:induction false} PairsMeet(c: Country, rest: seq<Country>, a: Country, b: Country)
    requires Distinct(rest) && c !in rest && a != b
    ensures Count(Pairs(c, rest), Meets(a, b)) == if (a == c && b in rest) || (b == c && a in rest) then 1 else 0
  {
    if rest != [] {
      var head := [NewMatch(Some(c), Some(rest[0]), 0, None)];
      assert rest == [rest[0]] + rest[1..];
      PairsMeet(c, rest[1..], a, b);
      CountConcat(head, Pairs(c, rest[1..]), Meets(a, b));
      assert head[..0] == [];
      assert Count(head, Meets(a, b)) == if Meets(a, b)(head[0]) then 1 else 0;
    }
  }

  /** In a round robin every two of the countries meet exactly once. */
  lemma {:induction false} RoundRobinMeets(cs: seq<Country>, a: Country, b: Country)
    requires Distinct(cs) && a != b
    ensures Count(RoundRobin(cs), Meets(a, b)) == if a in cs && b in cs then 1 else 0
  {
    if cs != [] {
      assert cs == [cs[0]] + cs[1..];
      PairsMeet(cs[0], cs[1..], a, b);
      RoundRobinMeets(cs[1..], a, b);
      CountConcat(Pairs(cs[0], cs[1..]), RoundRobin(cs[1..]), Meets(a, b));
    }
  }

  lemma {:induction false} PairsInvolve(c: Country, rest: seq<Country>, a: Country)
    requires Distinct(rest) && c !in rest
    ensures Count(Pairs(c, rest), Involves(a)) == if a == c then |rest| else if a in rest then 1 else 0
  {
    if rest != [] {
      var head := [NewMatch(Some(c), Some(rest[0]), 0, None)];
      assert rest == [rest[0]] + rest[1..];
      PairsInvolve(c, rest[1..], a);
      CountConcat(head, Pairs(c, rest[1..]), Involves(a));
      assert head[..0] == [];
      assert Count(head, Involves(a)) == if Involves(a)(head[0]) then 1 else 0;
    }
  }

  /** ... and each of n countries plays n - 1 matches. */
  lemma {:induction false} RoundRobinInvolves(cs: seq<Country>, a: Country)
    requires Distinct(cs)
    ensures Count(RoundRobin(cs), Involves(a)) == if a in cs then |cs| - 1 else 0
  {
    if cs != [] {
      assert cs == [cs[0]] + cs[1..];
      PairsInvolve(cs[0], cs[1..], a);
      RoundRobinInvolves(cs[1..], a);
      CountConcat(Pairs(cs[0], cs[1..]), RoundRobin(cs[1..]), Involves(a));
    }
  }

  predicate TogetherIn(groups: seq<Group>, a: Country, b: Country) {
    exists k :: 0 <= k < |groups| && a in groups[k].countries && b in groups[k].countries
  }

  predicate Apart(xs: seq<Country>, ys: seq<Country>) {
    forall c :: c in xs ==> c !in ys
  }

  /** The parts of a list of distinct countries are distinct and apart. */
  lemma {:induction false} LastGroupApart(groups: seq<Group>)
    requires groups != [] && Distinct(AllCountries(groups))
    ensures Distinct(AllCountries(groups[..|groups| - 1])) && Distinct(groups[|groups| - 1].countries)
    ensures Apart(AllCountries(groups[..|groups| - 1]), groups[|groups| - 1].countries)
  {
    var before, last := AllCountries(groups[..|groups| - 1]), groups[|groups| - 1].countries;
    var all := AllCountries(groups);
    assert all[..|before|] == before && all[|before|..] == last;
  }

  lemma {:induction false} InAllCountries(groups: seq<Group>, k: nat, c: Country)
    requires k < |groups| && c in groups[k].countries
    ensures c in AllCountries(groups)
  {
    if k < |groups| - 1 {
      InAllCountries(groups[..|groups| - 1], k, c);
    }
  }

  lemma {:induction false} GroupMatchesMeet(groups: seq<Group>, a: Country, b: Country)
    requires Distinct(AllCountries(groups)) && a != b
    ensures Count(GroupMatches(groups), Meets(a, b)) == if TogetherIn(groups, a, b) then 1 else 0
  {
    if groups != [] {
      var before, last := groups[..|groups| - 1], groups[|groups| - 1];
      LastGroupApart(groups);
      GroupMatchesMeet(before, a, b);
      RoundRobinMeets(last.countries, a, b);
      CountConcat(GroupMatches(before), RoundRobin(last.countries), Meets(a, b));
      if TogetherIn(before, a, b) {
        var k :| 0 <= k < |before| && a in before[k].countries && b in before[k].countries;
        InAllCountries(before, k, a);
        assert a in groups[k].countries && b in groups[k].countries;
      } else if TogetherIn(groups, a, b) {
        var k :| 0 <= k < |groups| && a in groups[k].countries && b in groups[k].countries;
        assert k < |before| ==> before[k] == groups[k];
      }
    }
  }

  lemma {:induction false} GroupMatchesInvolve(groups: seq<Group>, k: nat, a: Country)
    requires Distinct(AllCountries(groups)) && k < |groups| && a in groups[k].countries
    ensures Count(GroupMatches(groups), Involves(a)) == |groups[k].countries| - 1
  {
    var before, last := groups[..|groups| - 1], groups[|groups| - 1];
    LastGroupApart(groups);
    RoundRobinInvolves(last.countries, a);
    CountConcat(GroupMatches(before), RoundRobin(last.countries), Involves(a));
    if k < |groups| - 1 {
      InAllCountries(before, k, a);
      GroupMatchesInvolve(before, k, a);
    } else {
      AbsentPlaysNothing(before, a);
    }
  }

  lemma {:induction false} AbsentPlaysNothing(groups: seq<Group>, a: Country)
    requires Distinct(AllCountries(groups)) && a !in AllCountries(groups)
    ensures Count(GroupMatches(groups), Involves(a)) == 0
  {
    if groups != [] {
      LastGroupApart(groups);
      AbsentPlaysNothing(groups[..|groups| - 1], a);
      RoundRobinInvolves(groups[|groups| - 1].countries, a);
      CountConcat(GroupMatches(groups[..|groups| - 1]), RoundRobin(groups[|groups| - 1].countries), Involves(a));
    }
  }

  lemma {:induction false} RoundSlotsCount(r: nat, n: nat, r': nat, i: nat)
    ensures Count(RoundSlots(r, n), IsSlot(r', i)) == if r == r' && i < n then 1 else 0
  {
    if n != 0 {
      assert RoundSlots(r, n)[..n - 1] == RoundSlots(r, n - 1);
      RoundSlotsCount(r, n - 1, r', i);
    }
  }

  lemma SkeletonCount(r: nat, i: nat)
    ensures Count(Skeleton(), IsSlot(r, i)) == if Shape.InBracket(r, i) then 1 else 0
  {
    var p := IsSlot(r, i);
    RoundSlotsCount(1, 16, r, i);
    RoundSlotsCount(2, 8, r, i);
    RoundSlotsCount(3, 4, r, i);
    RoundSlotsCount(4, 2, r, i);
    RoundSlotsCount(5, 2, r, i);
    CountConcat(RoundSlots(1, 16), RoundSlots(2, 8), p);
    CountConcat(RoundSlots(1, 16) + RoundSlots(2, 8), RoundSlots(3, 4), p);
    CountConcat(RoundSlots(1, 16) + RoundSlots(2, 8) + RoundSlots(3, 4), RoundSlots(4, 2), p);
    CountConcat(RoundSlots(1, 16) + RoundSlots(2, 8) + RoundSlots(3, 4) + RoundSlots(4, 2), RoundSlots(5, 2), p);
  }

  /** Group matches have two different countries of one group and no index. */
  lemma {:induction false} GroupMatchShape(groups: seq<Group>, k: nat)
    requires Distinct(AllCountries(groups)) && k < |GroupMatches(groups)|
    ensures var m := GroupMatches(groups)[k];
      && m.round == 0 && m.roundIndex.None? && m.country1.Some? && m.country2.Some?
      && m.country1 != m.country2 && TogetherIn(groups, m.country1.value, m.country2.value)
  {
    var before, last := groups[..|groups| - 1], groups[|groups| - 1];
    LastGroupApart(groups);
    if k < |GroupMatches(before)| {
      GroupMatchShape(before, k);
      var m := GroupMatches(groups)[k];
      assert m == GroupMatches(before)[k];
      var g :| 0 <= g < |before| && m.country1.value in before[g].countries && m.country2.value in before[g].countries;
      assert groups[g] == before[g];
    } else {
      RoundRobinShape(last.countries, k - |GroupMatches(before)|);
      assert last == groups[|groups| - 1];
    }
  }

  /** Each match of a round robin names two countries of the list, the earlier one first. */
  lemma {:induction false} RoundRobinOrder(cs: seq<Country>, k: nat) returns (i: nat, j: nat)
    requires k < |RoundRobin(cs)|
    ensures i < j < |cs| && RoundRobin(cs)[k] == NewMatch(Some(cs[i]), Some(cs[j]), 0, None)
  {
    var first := Pairs(cs[0], cs[1..]);
    if k < |first| {
      PairsShape(cs[0], cs[1..], k);
      i, j := 0, k + 1;
    } else {
      i, j := RoundRobinOrder(cs[1..], k - |first|);
      i, j := i + 1, j + 1;
    }
  }

  /** Each group match names two countries of one group, the earlier one of the group first. */
  lemma {:induction false} GroupMatchOrder(groups: seq<Group>, k: nat) returns (g: nat, i: nat, j: nat)
    requires k < |GroupMatches(groups)|
    ensures g < |groups| && i < j < |groups[g].countries|
    ensures GroupMatches(groups)[k] == NewMatch(Some(groups[g].countries[i]), Some(groups[g].countries[j]), 0, None)
  {
    var before := groups[..|groups| - 1];
    if k < |GroupMatches(before)| {
      g, i, j := GroupMatchOrder(before, k);
    } else {
      g := |groups| - 1;
      i, j := RoundRobinOrder(groups[g].countries, k - |GroupMatches(before)|);
    }
  }

  lemma {:induction false} PairsShape(c: Country, rest: seq<Country>, k: nat)
    requires k < |Pairs(c, rest)|
    ensures |Pairs(c, rest)| == |rest| && Pairs(c, rest)[k] == NewMatch(Some(c), Some(rest[k]), 0, None)
  {
    if k > 0 {
      PairsShape(c, rest[1..], k - 1);
    } else if rest[1..] != [] {
      PairsShape(c, rest[1..], 0);
    }
  }

  lemma {:induction false} RoundRobinShape(cs: seq<Country>, k: nat)
    requires Distinct(cs) && k < |RoundRobin(cs)|
    ensures var m := RoundRobin(cs)[k];
      && m.round == 0 && m.roundIndex.None? && m.country1.Some? && m.country2.Some?
      && m.country1 != m.country2 && m.country1.value in cs && m.country2.value in cs
  {
    var pairs := Pairs(cs[0], cs[1..]);
    if k < |pairs| {
      PairsShape(cs[0], cs[1..], k);
    } else {
      RoundRobinShape(cs[1..], k - |pairs|);
    }
  }

  lemma SkeletonShape(k: nat)
    requires k < |Skeleton()|
    ensures var m := Skeleton()[k];
      && m.country1.None? && m.country2.None? && m.roundIndex.Some?
      && Shape.InBracket(m.round, m.roundIndex.value)
  {
  }

  /** The list of a contest with distinct countries: two countries of the same group meet exactly once and
      others never, and each bracket position is emitted exactly once and no other position. */
  lemma {:induction false} GeneratedOnce(groups: seq<Group>, a: Country, b: Country, r: nat, i: nat)
    requires Distinct(AllCountries(groups)) && a != b
    ensures Count(ContestMatches(groups), Meets(a, b)) == if TogetherIn(groups, a, b) then 1 else 0
    ensures Count(ContestMatches(groups), IsSlot(r, i)) == if Shape.InBracket(r, i) then 1 else 0
  {
    CountConcat(GroupMatches(groups), Skeleton(), Meets(a, b));
    CountConcat(GroupMatches(groups), Skeleton(), IsSlot(r, i));
    GroupMatchesMeet(groups, a, b);
    SkeletonCount(r, i);
    forall k | 0 <= k < |Skeleton()| ensures !Meets(a, b)(Skeleton()[k]) {
      SkeletonShape(k);
    }
    CountNone(Skeleton(), Meets(a, b));
    forall k | 0 <= k < |GroupMatches(groups)| ensures !IsSlot(r, i)(GroupMatches(groups)[k]) {
      GroupMatchShape(groups, k);
    }
    CountNone(GroupMatches(groups), IsSlot(r, i));
  }

  /** A country of a group of n plays n - 1 generated matches. */
  lemma {:induction false} GeneratedPerCountry(groups: seq<Group>, k: nat, a: Country)
    requires Distinct(AllCountries(groups)) && k < |groups| && a in groups[k].countries
    ensures Count(ContestMatches(groups), Involves(a)) == |groups[k].countries| - 1
  {
    CountConcat(GroupMatches(groups), Skeleton(), Involves(a));
    GroupMatchesInvolve(groups, k, a);
    forall j | 0 <= j < |Skeleton()| ensures !Involves(a)(Skeleton()[j]) {
      SkeletonShape(j);
    }
    CountNone(Skeleton(), Involves(a));
  }
}
