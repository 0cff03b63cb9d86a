/** Serialized runs: every repository call is one atomic step on the tables. */
module Runs {
  import opened Tables
  import opened MatchUpdates
  import opened GroupFinalization
  import opened PickSheets

  datatype Call =
    | UpdateMatch(req: MatchRequest)
    | FinalizeGroupRankings(letter: Letter, ranking: seq<Country>)
    | FinalizeThirdPlaceQualifier(letter: Letter, qualifies: bool)
    | CreateGroupPicks(user: User, picks: seq<GroupPick>)
    | CreateKnockoutPicks(user: User, entries: seq<KnockoutPickEntry>)

  ghost predicate FinalizeThirdStep(s: Tables, letter: Letter, qualifies: bool, t: Tables, r: Response) {
    if Thirds(s, letter) == {} then t == s && r == Rejected(NotRanked)
    else exists c, paid :: c in Thirds(s, letter) && PaidFor(s.groupPicks, letter, qualifies, paid)
                           && Commits(s, FinalizeThird(s, qualifies, c, paid), t, r)
  }

  /** The third and the users that an accepted decision has found. */
  lemma AcceptedDecision(s: Tables, letter: Letter, qualifies: bool, t: Tables, r: Response)
    returns (third: Country, paid: set<User>)
    requires FinalizeThirdStep(s, letter, qualifies, t, r) && r.Done?
    ensures Holds(s, letter, 3, third) && PaidFor(s.groupPicks, letter, qualifies, paid)
    ensures FinalizeThird(s, qualifies, third, paid) == Success(t)
    ensures s.standings[third].qualifier.None?
    ensures t.standings == s.standings[third := s.standings[third].(qualifier := Some(qualifies))]
  {
    third, paid :| third in Thirds(s, letter) && PaidFor(s.groupPicks, letter, qualifies, paid)
                   && Commits(s, FinalizeThird(s, qualifies, third, paid), t, r);
  }

  /** The call takes the tables from s to t and answers r. */
  ghost predicate Step(s: Tables, call: Call, t: Tables, r: Response) {
    match call
    case UpdateMatch(req) => UpdateMatchStep(s, req, t, r)
    case FinalizeGroupRankings(letter, ranking) => Commits(s, FinalizeRankings(s, letter, ranking), t, r)
    case FinalizeThirdPlaceQualifier(letter, qualifies) => FinalizeThirdStep(s, letter, qualifies, t, r)
    case CreateGroupPicks(user, picks) => Commits(s, SubmitGroupPicks(s, user, picks), t, r)
    case CreateKnockoutPicks(user, entries) => Commits(s, SubmitKnockoutPicks(s, user, entries), t, r)
  }

  /** A finite history of the service: states[k] is the state before calls[k]. */
  datatype Run = Run(states: seq<Tables>, calls: seq<Call>, responses: seq<Response>) {
    ghost predicate StepAt(k: nat) {
      k < |calls| && k < |responses| && k + 1 < |states| && Step(states[k], calls[k], states[k + 1], responses[k])
    }

    ghost predicate Valid() {
      && |states| == |calls| + 1 == |responses| + 1
      && forall k: nat {:trigger StepAt(k)} :: k < |calls| ==> StepAt(k)
    }

    function First(): Tables
      requires |states| > 0
    {
      states[0]
    }

    function Last(): Tables
      requires |states| > 0
    {
      states[|states| - 1]
    }
  }

  /** The k-th step of a run. */
  lemma RunStep(run: Run, k: nat)
    requires run.Valid() && k < |run.calls|
    ensures Step(run.states[k], run.calls[k], run.states[k + 1], run.responses[k])
  {
    assert run.StepAt(k);
  }

  /** The run with one more step. */
  function Longer(run: Run, call: Call, t: Tables, r: Response): Run {
    Run(run.states + [t], run.calls + [call], run.responses + [r])
  }

  lemma LongerIsValid(run: Run, call: Call, t: Tables, r: Response)
    requires run.Valid() && Step(run.Last(), call, t, r)
    ensures var longer := Longer(run, call, t, r); longer.Valid() && longer.First() == run.First() && longer.Last() == t
  {
    var longer := Longer(run, call, t, r);
    forall k: nat | k < |longer.calls| ensures longer.StepAt(k) {
      if k < |run.calls| {
        assert run.StepAt(k);
      }
    }
  }

  /** A refused call changes nothing: the transaction is rolled back. */
  lemma RefusedChangesNothing(s: Tables, call: Call, t: Tables, r: Response)
    requires Step(s, call, t, r)
    requires r.Rejected?
    ensures t == s
  {
  }
}
