/** The three scoring tallies: plurality (first choices), Borda as the
    program computes it (raw rank indices) next to the conventional Borda
    count, and quadratic voting (integer square root of allocated points).
    Each is an independent sum over players. */
module Scoring {
  import opened Wrappers
  import opened Sequences
  import opened Ballots
  import opened Rankings

  // ---------------------------------------------------------------- Plurality

  /** 1 when the player's first choice is c. */
  function ChoseFirst(ix: RankIndex, c: Candidate): int
  {
    if TopChoice(ix) == Some(c) then 1 else 0
  }

  /** How many players chose c first. */
  function FirstChoiceVotes(ixs: seq<RankIndex>, c: Candidate): int
  {
    Sum(ixs, ix => ChoseFirst(ix, c))
  }

  /** The per-candidate counts of the players' first choices. */
  function PluralityCounts(cands: seq<Candidate>, ixs: seq<RankIndex>): (res: map<Candidate, int>)
    ensures res.Keys == ToSet(cands)
    ensures forall c :: c in res ==> 0 <= res[c] <= |ixs|
  {
    forall c ensures 0 <= FirstChoiceVotes(ixs, c) <= |ixs| {
      SumNonNegative(ixs, ix => ChoseFirst(ix, c));
      SumMono(ixs, ix => ChoseFirst(ix, c), ix => 1);
      SumConst(ixs, ix => 1, 1);
    }
    map c | c in cands :: FirstChoiceVotes(ixs, c)
  }

  /** A player counts for c exactly when c is at the head of their ranking. */
  lemma ChoseFirstIsHeadOfRanking(cands: seq<Candidate>, ix: RankIndex, c: Candidate)
    requires Distinct(cands) && ValidOver(cands, ix) && |cands| > 0
    ensures ChoseFirst(ix, c) == if ix.order[0] == c then 1 else 0
  {
    TopChoiceOfValid(cands, ix);
  }

  /** Every player has exactly one first choice, so the counts add up to the
      number of players. */
  lemma PluralityTotal(cands: seq<Candidate>, ixs: seq<RankIndex>)
    requires Distinct(cands) && AllValidOver(cands, ixs) && |cands| > 0
    ensures Sum(cands, c => FirstChoiceVotes(ixs, c)) == |ixs|
  {
    var f := (c: Candidate, ix: RankIndex) => ChoseFirst(ix, c);
    forall c | c in cands ensures FirstChoiceVotes(ixs, c) == RowTotals(ixs, f)(c) {
      SumCongruence(ixs, ix => ChoseFirst(ix, c), Row(f, c));
    }
    SumCongruence(cands, c => FirstChoiceVotes(ixs, c), RowTotals(ixs, f));
    SumSwap(cands, ixs, f);
    forall ix | ix in ixs ensures ColumnTotals(cands, f)(ix) == 1 {
      forall c | c in cands ensures Column(f, ix)(c) == if c == ix.order[0] then 1 else 0 {
        ChoseFirstIsHeadOfRanking(cands, ix, c);
      }
      CompleteRankingIsPermutation(cands, ix.order);
      SumPoint(cands, ix.order[0], 1, 0, Column(f, ix));
    }
    SumConst(ixs, ColumnTotals(cands, f), 1);
  }

  // ------------------------------------------------------ Borda, as written

  /** A candidate's as-written Borda score: every player's rank index adds
      the candidate's raw position, so a low (good) position adds little. */
  function RankPoints(ixs: seq<RankIndex>, c: Candidate): int
  {
    Sum(ixs, ix => RankOf(ix, c))
  }

  /** Every key of every rank index is a candidate (otherwise adding to
      the score table under that key raises `KeyError`). */
  predicate KeysAreCandidates(cands: seq<Candidate>, ixs: seq<RankIndex>)
  {
    forall i, k :: 0 <= i < |ixs| && k in ixs[i].rank ==> k in cands
  }

  function BordaAsWritten(cands: seq<Candidate>, ixs: seq<RankIndex>): (res: map<Candidate, int>)
    requires KeysAreCandidates(cands, ixs)
    ensures res.Keys == ToSet(cands)
    ensures forall c :: c in res ==> 0 <= res[c]
  {
    forall c ensures 0 <= RankPoints(ixs, c) {
      SumNonNegative(ixs, ix => RankOf(ix, c));
    }
    map c | c in cands :: RankPoints(ixs, c)
  }

  /** Each player hands out 0 + 1 + ... + (N-1) points, so the table adds up
      to V·N(N-1)/2. */
  lemma BordaAsWrittenTotal(cands: seq<Candidate>, ixs: seq<RankIndex>)
    requires Distinct(cands) && AllValidOver(cands, ixs)
    ensures Sum(cands, c => RankPoints(ixs, c)) == |ixs| * Pairs(|cands|)
  {
    var f := (c: Candidate, ix: RankIndex) => RankOf(ix, c);
    forall c | c in cands ensures RankPoints(ixs, c) == RowTotals(ixs, f)(c) {
      SumCongruence(ixs, ix => RankOf(ix, c), Row(f, c));
    }
    SumCongruence(cands, c => RankPoints(ixs, c), RowTotals(ixs, f));
    SumSwap(cands, ixs, f);
    forall ix | ix in ixs ensures ColumnTotals(cands, f)(ix) == Pairs(|cands|) {
      RanksSum(cands, ix, Column(f, ix));
    }
    SumConst(ixs, ColumnTotals(cands, f), Pairs(|cands|));
  }

  /** No player gives more than N-1 points to anyone. */
  lemma RankPointsRange(cands: seq<Candidate>, ixs: seq<RankIndex>, d: Candidate)
    requires Distinct(cands) && AllValidOver(cands, ixs) && d in cands
    ensures 0 <= RankPoints(ixs, d) <= |ixs| * (|cands| - 1)
  {
    var n := |cands|;
    forall ix | ix in ixs ensures 0 <= RankOf(ix, d) <= n - 1 {
      RanksOfCandidates(cands, ix, d, d);
    }
    SumNonNegative(ixs, ix => RankOf(ix, d));
    SumMono(ixs, ix => RankOf(ix, d), ix => n - 1);
    SumConst(ixs, ix => n - 1, n - 1);
  }

  /** The inversion: a candidate every player ranks first gets 0 points, the
      fewest of all. */
  lemma BordaAsWrittenFavouriteScoresLeast(cands: seq<Candidate>, ixs: seq<RankIndex>, c: Candidate)
    requires Distinct(cands) && AllValidOver(cands, ixs) && c in cands
    requires forall ix :: ix in ixs ==> ix.order[0] == c
    ensures RankPoints(ixs, c) == 0
    ensures forall d :: d in cands ==> RankPoints(ixs, c) <= RankPoints(ixs, d)
  {
    forall ix | ix in ixs ensures RankOf(ix, c) == 0 {
      RanksOfCandidates(cands, ix, c, c);
    }
    SumConst(ixs, ix => RankOf(ix, c), 0);
    forall d | d in cands ensures 0 <= RankPoints(ixs, d) {
      RankPointsRange(cands, ixs, d);
    }
  }

  /** ... and a candidate every player ranks last gets V·(N-1), the most. */
  lemma BordaAsWrittenLastPlaceScoresMost(cands: seq<Candidate>, ixs: seq<RankIndex>, c: Candidate)
    requires Distinct(cands) && AllValidOver(cands, ixs) && c in cands
    requires forall ix :: ix in ixs ==> ix.order[|cands| - 1] == c
    ensures RankPoints(ixs, c) == |ixs| * (|cands| - 1)
    ensures forall d :: d in cands ==> RankPoints(ixs, d) <= RankPoints(ixs, c)
  {
    var n := |cands|;
    forall ix | ix in ixs ensures RankOf(ix, c) == n - 1 {
      RanksOfCandidates(cands, ix, c, c);
    }
    SumConst(ixs, ix => RankOf(ix, c), n - 1);
    forall d | d in cands ensures RankPoints(ixs, d) <= |ixs| * (n - 1) {
      RankPointsRange(cands, ixs, d);
    }
  }

  // ---------------------------------------------- Borda, conventional count

  /** N-1 points for a first place down to 0 for a last place. */
  function BordaPointsOf(n: nat, ix: RankIndex, c: Candidate): int
  {
    if c in ix.rank then n - 1 - ix.rank[c] else 0
  }

  function BordaPoints(cands: seq<Candidate>, ixs: seq<RankIndex>, c: Candidate): int
  {
    Sum(ixs, ix => BordaPointsOf(|cands|, ix, c))
  }

  function Borda(cands: seq<Candidate>, ixs: seq<RankIndex>): (res: map<Candidate, int>)
    ensures res.Keys == ToSet(cands)
  {
    map c | c in cands :: BordaPoints(cands, ixs, c)
  }

  /** The two Borda tables mirror each other: a candidate's points under one
      are V·(N-1) minus its points under the other. */
  lemma BordaMirrorsAsWritten(cands: seq<Candidate>, ixs: seq<RankIndex>, c: Candidate)
    requires Distinct(cands) && AllValidOver(cands, ixs) && c in cands
    ensures BordaPoints(cands, ixs, c) + RankPoints(ixs, c) == |ixs| * (|cands| - 1)
  {
    forall ix | ix in ixs ensures BordaPointsOf(|cands|, ix, c) + RankOf(ix, c) == |cands| - 1 {
      OneBallotMirror(cands, ix, c);
    }
    SumComplement(ixs, ix => BordaPointsOf(|cands|, ix, c), ix => RankOf(ix, c), |cands| - 1);
  }

  /** One player's conventional and as-written points for c add up to N-1. */
  lemma OneBallotMirror(cands: seq<Candidate>, ix: RankIndex, c: Candidate)
    requires Distinct(cands) && ValidOver(cands, ix) && c in cands
    ensures BordaPointsOf(|cands|, ix, c) + RankOf(ix, c) == |cands| - 1
  {
    RanksOfCandidates(cands, ix, c, c);
  }

  /** Corrected, a candidate every player ranks first gets V·(N-1) points,
      the most of all; the table still adds up to V·N(N-1)/2. */
  lemma BordaRewardsFirstPlace(cands: seq<Candidate>, ixs: seq<RankIndex>, c: Candidate)
    requires Distinct(cands) && AllValidOver(cands, ixs) && c in cands
    requires forall ix :: ix in ixs ==> ix.order[0] == c
    ensures BordaPoints(cands, ixs, c) == |ixs| * (|cands| - 1)
    ensures forall d :: d in cands ==> BordaPoints(cands, ixs, d) <= BordaPoints(cands, ixs, c)
  {
    var n, v := |cands|, |ixs|;
    BordaAsWrittenFavouriteScoresLeast(cands, ixs, c);
    forall d | d in cands ensures BordaPoints(cands, ixs, d) == v * (n - 1) - RankPoints(ixs, d) {
      BordaMirrorsAsWritten(cands, ixs, d);
    }
    BordaTotal(cands, ixs);
  }

  /** The conventional table adds up to the same V·N(N-1)/2. */
  lemma BordaTotal(cands: seq<Candidate>, ixs: seq<RankIndex>)
    requires Distinct(cands) && AllValidOver(cands, ixs)
    ensures Sum(cands, d => BordaPoints(cands, ixs, d)) == |ixs| * Pairs(|cands|)
  {
    var n, v := |cands|, |ixs|;
    forall d | d in cands ensures BordaPoints(cands, ixs, d) == v * (n - 1) - RankPoints(ixs, d) {
      BordaMirrorsAsWritten(cands, ixs, d);
    }
    SumAdd(cands, d => RankPoints(ixs, d), d => BordaPoints(cands, ixs, d), d => v * (n - 1));
    SumConst(cands, d => v * (n - 1), v * (n - 1));
    BordaAsWrittenTotal(cands, ixs);
    var total, pairs := Sum(cands, d => BordaPoints(cands, ixs, d)), Pairs(n);
    assert total == n * (v * (n - 1)) - v * pairs;
    ScaledPairs(n, v);
  }

  lemma ScaledPairs(n: nat, v: nat)
    ensures n * (v * (n - 1)) == 2 * (v * Pairs(n))
  {
    PairsIsExact(n);
    var k := n * (n - 1);
    assert n * (v * (n - 1)) == v * k;
    assert v * k == v * (2 * Pairs(n));
  }

  lemma PairsIsExact(n: nat)
    ensures 2 * Pairs(n) == n * (n - 1)
  {
    if n > 0 {
      PairsIsExact(n - 1);
      assert n * (n - 1) == (n - 1) * (n - 2) + 2 * (n - 1);
    }
  }

  // ---------------------------------------------------------- Quadratic

  /** floor(sqrt(p)): the largest r with r·r <= p. */
  function ISqrt(p: nat): (r: nat)
    ensures r * r <= p < (r + 1) * (r + 1)
  {
    if p == 0 then 0
    else
      var s := ISqrt(p - 1);
      if (s + 1) * (s + 1) <= p then s + 1 else s
  }

  /** The bounds pin the square root down: no other r satisfies them. */
  lemma ISqrtUnique(p: nat, r: nat)
    requires r * r <= p < (r + 1) * (r + 1)
    ensures r == ISqrt(p)
  {
    var s := ISqrt(p);
    if s + 1 <= r {
      SquareMono(s + 1, r);
    }
    if r + 1 <= s {
      SquareMono(r + 1, s);
    }
  }

  lemma SquareMono(a: nat, b: nat)
    requires a <= b
    ensures a * a <= b * b
  {
    assert a * a <= a * b <= b * b;
  }

  /** The votes one allocation entry gives to c. */
  function EntryVotes(a: Allocation, c: Candidate): int
  {
    if a.candidate == c then ISqrt(a.points) else 0
  }

  /** The votes one player gives to c. */
  function AllocationVotes(allocation: seq<Allocation>, c: Candidate): int
  {
    Sum(allocation, a => EntryVotes(a, c))
  }

  function QuadraticVotes(allocations: seq<seq<Allocation>>, c: Candidate): int
  {
    Sum(allocations, al => AllocationVotes(al, c))
  }

  /** Every allocated candidate is a candidate (otherwise adding to the
      score table under that candidate raises `KeyError`). */
  predicate AllocatesCandidates(cands: seq<Candidate>, allocations: seq<seq<Allocation>>)
  {
    forall i, j :: 0 <= i < |allocations| && 0 <= j < |allocations[i]| ==> allocations[i][j].candidate in cands
  }

  function Quadratic(cands: seq<Candidate>, allocations: seq<seq<Allocation>>): (res: map<Candidate, int>)
    requires AllocatesCandidates(cands, allocations)
    ensures res.Keys == ToSet(cands)
    ensures forall c :: c in res ==> 0 <= res[c]
  {
    forall c ensures 0 <= QuadraticVotes(allocations, c) {
      forall al ensures 0 <= AllocationVotes(al, c) {
        SumNonNegative(al, a => EntryVotes(a, c));
      }
      SumNonNegative(allocations, al => AllocationVotes(al, c));
    }
    map c | c in cands :: QuadraticVotes(allocations, c)
  }

  /** A form-shaped allocation (one entry per candidate, in candidate order)
      gives c exactly floor(sqrt(points allocated to c)) votes. */
  lemma FormAllocationVotes(cands: seq<Candidate>, allocation: seq<Allocation>, i: nat)
    requires Distinct(cands) && |allocation| == |cands| && i < |cands|
    requires forall j :: 0 <= j < |cands| ==> allocation[j].candidate == cands[j]
    ensures AllocationVotes(allocation, cands[i]) == ISqrt(allocation[i].points)
  {
    var c := cands[i];
    assert Distinct(allocation) by {
      forall j, k | 0 <= j < k < |allocation| ensures allocation[j] != allocation[k] {
        assert allocation[j].candidate == cands[j];
      }
    }
    forall a | a in allocation ensures EntryVotes(a, c) == if a == allocation[i] then ISqrt(allocation[i].points) else 0 {
      var j :| 0 <= j < |allocation| && allocation[j] == a;
      assert a.candidate == cands[j];
    }
    SumPoint(allocation, allocation[i], ISqrt(allocation[i].points), 0, a => EntryVotes(a, c));
  }

  // ------------------------------------------------ Order of the players

  /** Reordering the players changes neither Borda table nor the quadratic
      table. */
  lemma ScoresIgnorePlayerOrder(cands: seq<Candidate>,
                                ixs: seq<RankIndex>, ixs': seq<RankIndex>,
                                allocations: seq<seq<Allocation>>, allocations': seq<seq<Allocation>>)
    requires multiset(ixs) == multiset(ixs') && multiset(allocations) == multiset(allocations')
    requires KeysAreCandidates(cands, ixs) && AllocatesCandidates(cands, allocations)
    ensures KeysAreCandidates(cands, ixs') && AllocatesCandidates(cands, allocations')
    ensures BordaAsWritten(cands, ixs) == BordaAsWritten(cands, ixs')
    ensures Borda(cands, ixs) == Borda(cands, ixs')
    ensures Quadratic(cands, allocations) == Quadratic(cands, allocations')
  {
    forall i | 0 <= i < |ixs'| ensures ixs'[i] in ixs {
      assert ixs'[i] in multiset(ixs');
    }
    forall i | 0 <= i < |allocations'| ensures allocations'[i] in allocations {
      assert allocations'[i] in multiset(allocations');
    }
    forall c ensures RankPoints(ixs, c) == RankPoints(ixs', c) {
      SumPermutation(ixs, ixs', ix => RankOf(ix, c));
    }
    forall c ensures BordaPoints(cands, ixs, c) == BordaPoints(cands, ixs', c) {
      SumPermutation(ixs, ixs', ix => BordaPointsOf(|cands|, ix, c));
    }
    forall c ensures QuadraticVotes(allocations, c) == QuadraticVotes(allocations', c) {
      SumPermutation(allocations, allocations', al => AllocationVotes(al, c));
    }
  }
}
