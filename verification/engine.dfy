/** One evaluation: the gate first, and only if it lets the votes through,
    the rank indices built once and every tally computed from them. */
module Engine {
  import opened Wrappers
  import opened Sequences
  import opened Ballots
  import opened Gate
  import opened Rankings
  import opened Condorcet
  import opened Scoring

  /** The score tables of one evaluation. `condorcet`, `plurality`,
      `bordaAsWritten` and `quadratic` are the program's four tables;
      `bordaAsWritten` is the one it shows under "Borda". `borda` is the
      conventional count, which the program does not compute; it is carried
      alongside as the corrected Borda table. */
  datatype Outcome = Outcome(
    condorcet: map<Candidate, int>,
    plurality: map<Candidate, int>,
    bordaAsWritten: map<Candidate, int>,
    borda: map<Candidate, int>,
    quadratic: map<Candidate, int>)

  /** The sum of a score table over the candidates. */
  function Total(cands: seq<Candidate>, table: map<Candidate, int>): int
  {
    Sum(cands, c => if c in table then table[c] else 0)
  }

  lemma CandidatesDistinct()
    ensures Distinct(Candidates) && |Candidates| == 3
  {
  }

  /** Every vote came out of the preference form. */
  predicate FormInputs(req: Request)
  {
    forall i :: 0 <= i < |req.votes| ==> FromForm(Candidates, req.maxPoints, req.votes[i])
  }

  function ToRankIndices(rankings: seq<seq<Candidate>>): (ixs: seq<RankIndex>)
    ensures |ixs| == |rankings|
    ensures forall i :: 0 <= i < |rankings| ==> ixs[i] == ToRankIndex(rankings[i])
  {
    seq(|rankings|, i requires 0 <= i < |rankings| => ToRankIndex(rankings[i]))
  }

  function ComputeResult(req: Request): (r: Result<Outcome, Incomplete>)
    requires FormInputs(req)
    // no tally is computed unless all three conditions hold
    ensures r == Failure(DuplicatePlayerNames) <==> !Distinct(Names(req.votes))
    ensures r.Success? <==>
      && Distinct(Names(req.votes))
      && (forall i :: 0 <= i < |req.votes| ==>
            Distinct(req.votes[i].ranking) && None !in req.votes[i].ranking)
      && (forall i :: 0 <= i < |req.votes| ==>
            PointsTotal(req.votes[i].allocation) == req.maxPoints)
    // every table has exactly the candidates as keys
    ensures r.Success? ==>
      && r.value.condorcet.Keys == ToSet(Candidates)
      && r.value.plurality.Keys == ToSet(Candidates)
      && r.value.bordaAsWritten.Keys == ToSet(Candidates)
      && r.value.borda.Keys == ToSet(Candidates)
      && r.value.quadratic.Keys == ToSet(Candidates)
    // the tables' sums: one first choice per player, one win and N(N-1)/2 Borda points per pair
    ensures r.Success? ==>
      && Total(Candidates, r.value.plurality) == |req.votes|
      && Total(Candidates, r.value.condorcet) == |req.votes| * Pairs(|Candidates|)
      && Total(Candidates, r.value.bordaAsWritten) == |req.votes| * Pairs(|Candidates|)
      && Total(Candidates, r.value.borda) == |req.votes| * Pairs(|Candidates|)
    // each player's points for a candidate become floor(sqrt(points)) votes for it
    ensures r.Success? ==>
      forall i :: 0 <= i < |Candidates| ==>
        r.value.quadratic[Candidates[i]] == Sum(req.votes, (v: Vote) => if |v.allocation| == |Candidates| then ISqrt(v.allocation[i].points) else 0)
  {
    CandidatesDistinct();
    match Validate(req)
    case Failure(e) => Failure(e)
    case Success(valid) =>
      var ixs := ToRankIndices(valid.rankings);
      ValidatedRankingsAreComplete(req, valid, ixs);
      ValidatedAllocations(req, valid);
      var outcome := Outcome(
        CondorcetScores(Candidates, ixs),
        PluralityCounts(Candidates, ixs),
        BordaAsWritten(Candidates, ixs),
        Borda(Candidates, ixs),
        Quadratic(Candidates, valid.allocations));
      TablesAddUp(ixs, outcome);
      QuadraticPerPlayer(req, valid.allocations);
      Success(outcome)
  }

  /** A ranking the gate lets through, filled in on the form, is a complete
      ranking of the candidates. */
  lemma ValidatedRankingIsComplete(req: Request, valid: ValidVotes, i: int)
    requires FormInputs(req)
    requires Validate(req) == Success(valid)
    requires 0 <= i < |valid.rankings|
    ensures CompleteRanking(Candidates, valid.rankings[i])
  {
    var r := valid.rankings[i];
    var filled := req.votes[i].ranking;
    assert FromForm(Candidates, req.maxPoints, req.votes[i]);
    forall x | x in r ensures x in Candidates {
      var j :| 0 <= j < |r| && r[j] == x;
      assert filled[j] == Some(x) && filled[j] in filled;
    }
  }

  lemma ValidatedRankingsAreComplete(req: Request, valid: ValidVotes, ixs: seq<RankIndex>)
    requires FormInputs(req)
    requires Validate(req) == Success(valid)
    requires ixs == ToRankIndices(valid.rankings)
    ensures AllValidOver(Candidates, ixs)
    ensures Indexed(Candidates, ixs)
    ensures KeysAreCandidates(Candidates, ixs)
  {
    CandidatesDistinct();
    forall i | 0 <= i < |ixs| ensures ValidOver(Candidates, ixs[i]) {
      ValidatedRankingIsComplete(req, valid, i);
      ToRankIndexIsValid(Candidates, valid.rankings[i]);
    }
    forall i, c | 0 <= i < |ixs| && c in Candidates ensures c in ixs[i].rank {
      CompleteRankingIsPermutation(Candidates, ixs[i].order);
    }
  }

  /** The allocations the gate lets through are the form's, entry for entry. */
  lemma ValidatedAllocations(req: Request, valid: ValidVotes)
    requires FormInputs(req)
    requires Validate(req) == Success(valid)
    ensures AllocatesCandidates(Candidates, valid.allocations)
    ensures valid.allocations == seq(|req.votes|, i requires 0 <= i < |req.votes| => req.votes[i].allocation)
  {
    forall i, j | 0 <= i < |valid.allocations| && 0 <= j < |valid.allocations[i]|
      ensures valid.allocations[i][j].candidate in Candidates
    {
      assert FromForm(Candidates, req.maxPoints, req.votes[i]);
    }
  }

  lemma TablesAddUp(ixs: seq<RankIndex>, outcome: Outcome)
    requires Distinct(Candidates) && |Candidates| > 0
    requires AllValidOver(Candidates, ixs) && Indexed(Candidates, ixs) && KeysAreCandidates(Candidates, ixs)
    requires outcome.condorcet == CondorcetScores(Candidates, ixs)
    requires outcome.plurality == PluralityCounts(Candidates, ixs)
    requires outcome.bordaAsWritten == BordaAsWritten(Candidates, ixs)
    requires outcome.borda == Borda(Candidates, ixs)
    ensures Total(Candidates, outcome.plurality) == |ixs|
    ensures Total(Candidates, outcome.condorcet) == |ixs| * Pairs(|Candidates|)
    ensures Total(Candidates, outcome.bordaAsWritten) == |ixs| * Pairs(|Candidates|)
    ensures Total(Candidates, outcome.borda) == |ixs| * Pairs(|Candidates|)
  {
    var cs := Candidates;
    PluralityTotal(cs, ixs);
    SumCongruence(cs, c => if c in outcome.plurality then outcome.plurality[c] else 0, c => FirstChoiceVotes(ixs, c));
    WinsTotal(cs, ixs);
    SumCongruence(cs, c => if c in outcome.condorcet then outcome.condorcet[c] else 0, c => Wins(cs, ixs, c));
    BordaAsWrittenTotal(cs, ixs);
    SumCongruence(cs, c => if c in outcome.bordaAsWritten then outcome.bordaAsWritten[c] else 0, c => RankPoints(ixs, c));
    BordaTotal(cs, ixs);
    SumCongruence(cs, c => if c in outcome.borda then outcome.borda[c] else 0, c => BordaPoints(cs, ixs, c));
  }

  lemma QuadraticPerPlayer(req: Request, allocations: seq<seq<Allocation>>)
    requires FormInputs(req)
    requires allocations == seq(|req.votes|, i requires 0 <= i < |req.votes| => req.votes[i].allocation)
    requires AllocatesCandidates(Candidates, allocations)
    ensures forall i :: 0 <= i < |Candidates| ==>
      Quadratic(Candidates, allocations)[Candidates[i]] ==
        Sum(req.votes, (v: Vote) => if |v.allocation| == |Candidates| then ISqrt(v.allocation[i].points) else 0)
  {
    CandidatesDistinct();
    forall i | 0 <= i < |Candidates|
      ensures Quadratic(Candidates, allocations)[Candidates[i]] ==
        Sum(req.votes, (v: Vote) => if |v.allocation| == |Candidates| then ISqrt(v.allocation[i].points) else 0)
    {
      var c := Candidates[i];
      var perVote := (v: Vote) => if |v.allocation| == |Candidates| then ISqrt(v.allocation[i].points) else 0;
      forall k | 0 <= k < |req.votes| ensures AllocationVotes(allocations[k], c) == perVote(req.votes[k]) {
        assert FromForm(Candidates, req.maxPoints, req.votes[k]);
        FormAllocationVotes(Candidates, req.votes[k].allocation, i);
      }
      SumReindex(allocations, al => AllocationVotes(al, c), k => if 0 <= k < |req.votes| then perVote(req.votes[k]) else 0);
      SumReindex(req.votes, perVote, k => if 0 <= k < |req.votes| then perVote(req.votes[k]) else 0);
    }
  }
}
