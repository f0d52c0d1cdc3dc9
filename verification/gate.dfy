/** The validation gate run before any tally: player names must be unique,
    every ranking must be filled without repetition, and every allocation
    must spend exactly the point budget. Otherwise evaluation stops with a
    status message and no tally is computed. */
module Gate {
  import opened Wrappers
  import opened Sequences
  import opened Ballots

  /** The two status messages the gate can show. */
  datatype Incomplete =
    | DuplicatePlayerNames   // "Make sure each player name is unique."
    | WaitingForVotes        // "Waiting for Votes to be completed (& valid)."

  /** The votes once the gate has let them through: rankings with every
      select box filled, and the allocations unchanged. */
  datatype ValidVotes = ValidVotes(rankings: seq<seq<Candidate>>, allocations: seq<seq<Allocation>>)

  /** No two players share a name. */
  predicate NamesUnique(names: seq<string>)
  {
    |ToSet(names)| == |names|
  }

  /** Every select box of a ranking is filled, and no entry repeats. */
  predicate RankingFilled(r: seq<Option<Candidate>>)
  {
    |ToSet(r)| == |r| && None !in r
  }

  /** The points of an allocation add up to exactly the budget. */
  predicate PointsExact(allocation: seq<Allocation>, maxPoints: int)
  {
    PointsTotal(allocation) == maxPoints
  }

  /** The candidates of a ranking whose select boxes are all filled. */
  function Unwrap(r: seq<Option<Candidate>>): (u: seq<Candidate>)
    requires None !in r
    ensures |u| == |r|
    ensures forall j :: 0 <= j < |r| ==> r[j] == Some(u[j])
  {
    assert forall j :: 0 <= j < |r| ==> r[j] in r && r[j].Some?;
    seq(|r|, j requires 0 <= j < |r| => r[j].value)
  }

  function Validate(req: Request): (r: Result<ValidVotes, Incomplete>)
    ensures r == Failure(DuplicatePlayerNames) <==> !Distinct(Names(req.votes))
    ensures r.Success? <==>
      && Distinct(Names(req.votes))
      && (forall i :: 0 <= i < |req.votes| ==>
            Distinct(req.votes[i].ranking) && None !in req.votes[i].ranking)
      && (forall i :: 0 <= i < |req.votes| ==>
            PointsTotal(req.votes[i].allocation) == req.maxPoints)
    ensures r.Success? ==>
      && |r.value.rankings| == |req.votes|
      && |r.value.allocations| == |req.votes|
      && (forall i :: 0 <= i < |req.votes| ==>
            && Distinct(r.value.rankings[i])
            && |r.value.rankings[i]| == |req.votes[i].ranking|
            && (forall j :: 0 <= j < |req.votes[i].ranking| ==>
                  req.votes[i].ranking[j] == Some(r.value.rankings[i][j]))
            && r.value.allocations[i] == req.votes[i].allocation)
  {
    var votes := req.votes;
    DistinctIffSetSize(Names(votes));
    RankingFilledMeansDistinct(votes);
    if !NamesUnique(Names(votes)) then
      Failure(DuplicatePlayerNames)
    else if !(forall i :: 0 <= i < |votes| ==> RankingFilled(votes[i].ranking)) then
      Failure(WaitingForVotes)
    else if !(forall i :: 0 <= i < |votes| ==> PointsExact(votes[i].allocation, req.maxPoints)) then
      Failure(WaitingForVotes)
    else
      var rankings := seq(|votes|, i requires 0 <= i < |votes| => Unwrap(votes[i].ranking));
      var allocations := seq(|votes|, i requires 0 <= i < |votes| => votes[i].allocation);
      UnwrapKeepsDistinct(votes, rankings);
      Success(ValidVotes(rankings, allocations))
  }

  lemma RankingFilledMeansDistinct(votes: seq<Vote>)
    ensures forall i :: 0 <= i < |votes| ==>
      (RankingFilled(votes[i].ranking) <==> Distinct(votes[i].ranking) && None !in votes[i].ranking)
  {
    forall i | 0 <= i < |votes| {
      DistinctIffSetSize(votes[i].ranking);
    }
  }

  lemma UnwrapKeepsDistinct(votes: seq<Vote>, rankings: seq<seq<Candidate>>)
    requires |rankings| == |votes|
    requires forall i :: 0 <= i < |votes| ==> Distinct(votes[i].ranking) && None !in votes[i].ranking
    requires forall i :: 0 <= i < |votes| ==> rankings[i] == Unwrap(votes[i].ranking)
    ensures forall i :: 0 <= i < |votes| ==> Distinct(rankings[i])
  {
    forall i, j, k | 0 <= i < |votes| && 0 <= j < k < |rankings[i]|
      ensures rankings[i][j] != rankings[i][k]
    {
      assert votes[i].ranking[j] != votes[i].ranking[k];
    }
  }

  /** The form's two warnings and the gate agree on a player's vote except
      for empty select boxes, which only the gate looks for. */
  lemma GateAcceptsVoteIffFormSilent(v: Vote, maxPoints: int)
    ensures RankingFilled(v.ranking) && PointsExact(v.allocation, maxPoints) <==>
      var w := CheckForm(v.ranking, v.allocation, maxPoints);
      !w.duplicateRanking && !w.wrongTotal && None !in v.ranking
  {
    DistinctIffSetSize(v.ranking);
  }

  /** One empty select box is not a duplicate, so the form shows no warning,
      yet the gate keeps waiting. */
  lemma FormSilentButGateWaits()
    ensures
      var v := Vote("Player 1", [None, Some("Pepperoni"), Some("Cheese")],
                    [Allocation("Pepperoni", 10), Allocation("Brocolli", 0), Allocation("Cheese", 0)]);
      var w := CheckForm(v.ranking, v.allocation, 10);
      && !w.duplicateRanking && !w.wrongTotal
      && Validate(Request([v], 10)) == Failure(WaitingForVotes)
  {
    var v := Vote("Player 1", [None, Some("Pepperoni"), Some("Cheese")],
                  [Allocation("Pepperoni", 10), Allocation("Brocolli", 0), Allocation("Cheese", 0)]);
    assert Distinct(v.ranking);
    assert Distinct(Names([v]));
    assert PointsTotal(v.allocation) == 10 by {
      var a, f := v.allocation, (a: Allocation) => a.points;
      assert Sum(a[..1], f) == 10 by { assert a[..1][..0] == []; }
      assert Sum(a[..2], f) == 10 by { assert a[..2][..1] == a[..1]; }
      assert Sum(a, f) == 10 by { assert a[..2] == a[..|a| - 1]; }
    }
    assert v.ranking[0] == None;
  }
}
