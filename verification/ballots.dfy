/** The preference model: the fixed candidate list, one vote per player (a
    ranking built from the "Rank i" select boxes, which may still be empty,
    and a point allocation built from the "Points for c" number inputs), and
    the two warnings the preference form shows while a vote is being entered. */
module Ballots {
  import opened Wrappers
  import opened Sequences

  type Candidate = string

  /** The options every player ranks and allocates points to. */
  const Candidates: seq<Candidate> := ["Pepperoni", "Brocolli", "Cheese"]

  /** One `(candidate, points)` pair of a player's allocation; the number
      input has minimum 0, so points are never negative. */
  datatype Allocation = Allocation(candidate: Candidate, points: nat)

  /** One player's entries: `None` stands for a select box left empty. */
  datatype Vote = Vote(player: string, ranking: seq<Option<Candidate>>, allocation: seq<Allocation>)

  /** Everything one evaluation sees: the votes in player order and the
      number of points each player must allocate. */
  datatype Request = Request(votes: seq<Vote>, maxPoints: int)

  function Names(votes: seq<Vote>): (names: seq<string>)
    ensures |names| == |votes|
    ensures forall i :: 0 <= i < |votes| ==> names[i] == votes[i].player
  {
    seq(|votes|, i requires 0 <= i < |votes| => votes[i].player)
  }

  /** The points a player has allocated in total. */
  function PointsTotal(allocation: seq<Allocation>): int
  {
    Sum(allocation, (a: Allocation) => a.points)
  }

  /** A ranking is complete over `cands` when it lists every candidate once. */
  predicate CompleteRanking(cands: seq<Candidate>, r: seq<Candidate>)
  {
    && |r| == |cands|
    && Distinct(r)
    && forall x :: x in r ==> x in cands
  }

  /** A complete ranking is a permutation of the candidate list: with as
      many distinct entries as there are candidates, every candidate is hit. */
  lemma CompleteRankingIsPermutation(cands: seq<Candidate>, r: seq<Candidate>)
    requires Distinct(cands) && CompleteRanking(cands, r)
    ensures ToSet(r) == ToSet(cands)
    ensures multiset(r) == multiset(cands)
    ensures forall c :: c in cands ==> c in r
  {
    DistinctIffSetSize(r);
    DistinctIffSetSize(cands);
    SubsetSameSizeEqual(ToSet(r), ToSet(cands));
    DistinctSameElementsPermutation(r, cands);
    assert forall c :: c in cands ==> c in ToSet(cands);
  }

  /** What the preference form can produce for `cands`: one select box per
      rank, each empty or holding an option, and one number input per option
      in option order, each between 0 and the point budget. */
  predicate FromForm(cands: seq<Candidate>, maxPoints: int, v: Vote)
  {
    && |v.ranking| == |cands|
    && (forall x :: x in v.ranking && x.Some? ==> x.value in cands)
    && |v.allocation| == |cands|
    && (forall i :: 0 <= i < |cands| ==>
          v.allocation[i].candidate == cands[i] && v.allocation[i].points <= maxPoints)
  }

  /** The form's feedback for one player: the duplicate-ranking warning, the
      allocated total it reports, and whether it asks for exactly the budget. */
  datatype FormWarnings = FormWarnings(duplicateRanking: bool, totalAllocated: int, wrongTotal: bool)

  function CheckForm(ranking: seq<Option<Candidate>>, allocation: seq<Allocation>, maxPoints: int): (w: FormWarnings)
    ensures w.duplicateRanking <==> !Distinct(ranking)
    ensures w.totalAllocated == PointsTotal(allocation)
    ensures w.wrongTotal <==> PointsTotal(allocation) != maxPoints
  {
    DistinctIffSetSize(ranking);
    var total := PointsTotal(allocation);
    FormWarnings(|ToSet(ranking)| != |ranking|, total, total != maxPoints)
  }
}
