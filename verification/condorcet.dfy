/** The Condorcet tally: for every focal candidate, the number of
    (comparison candidate, player) pairs in which the player ranks the focal
    candidate strictly ahead. Comparing a candidate with itself never counts,
    because the comparison is strict. */
module Condorcet {
  import opened Sequences
  import opened Ballots
  import opened Rankings

  /** 1 when the player ranks c strictly ahead of d. */
  function Prefers(ix: RankIndex, c: Candidate, d: Candidate): int
  {
    if c in ix.rank && d in ix.rank && ix.rank[c] < ix.rank[d] then 1 else 0
  }

  /** The number of players ranking c strictly ahead of d: the (c, d) entry
      of the pairwise matrix. */
  function PairWins(ixs: seq<RankIndex>, c: Candidate, d: Candidate): int
  {
    Sum(ixs, ix => Prefers(ix, c, d))
  }

  /** The Condorcet score of c: its pairwise wins summed over all candidates. */
  function Wins(cands: seq<Candidate>, ixs: seq<RankIndex>, c: Candidate): int
  {
    Sum(cands, d => PairWins(ixs, c, d))
  }

  /** Every candidate can be looked up in every rank index (otherwise the
      lookup raises `KeyError`). */
  predicate Indexed(cands: seq<Candidate>, ixs: seq<RankIndex>)
  {
    forall i, c :: 0 <= i < |ixs| && c in cands ==> c in ixs[i].rank
  }

  /** The score table `res`: one entry per candidate, none negative. */
  function CondorcetScores(cands: seq<Candidate>, ixs: seq<RankIndex>): (res: map<Candidate, int>)
    requires Indexed(cands, ixs)
    ensures res.Keys == ToSet(cands)
    ensures forall c :: c in res ==> 0 <= res[c]
    ensures forall c :: c in res ==> res[c] <= |cands| * |ixs|
  {
    WinsRange(cands, ixs);
    map c | c in cands :: Wins(cands, ixs, c)
  }

  lemma WinsRange(cands: seq<Candidate>, ixs: seq<RankIndex>)
    ensures forall c :: 0 <= Wins(cands, ixs, c) <= |cands| * |ixs|
  {
    forall c ensures 0 <= Wins(cands, ixs, c) <= |cands| * |ixs| {
      forall d ensures 0 <= PairWins(ixs, c, d) <= |ixs| {
        SumNonNegative(ixs, ix => Prefers(ix, c, d));
        SumMono(ixs, ix => Prefers(ix, c, d), ix => 1);
        SumConst(ixs, ix => 1, 1);
      }
      SumNonNegative(cands, d => PairWins(ixs, c, d));
      SumMono(cands, d => PairWins(ixs, c, d), d => |ixs|);
      SumConst(cands, d => |ixs|, |ixs|);
    }
  }

  /** The three nested loops of the tally, in the program's order: focal
      candidate, comparison candidate, player. */
  method CondorcetTally(cands: seq<Candidate>, ixs: seq<RankIndex>) returns (res: map<Candidate, int>)
    requires Distinct(cands)
    requires Indexed(cands, ixs)
    ensures res == CondorcetScores(cands, ixs)
  {
    res := map[];
    for fi := 0 to |cands|
      invariant res == map c | c in cands[..fi] :: Wins(cands, ixs, c)
    {
      var focal := cands[fi];
      var wins := FocalWins(cands, ixs, focal);
      assert cands[..fi + 1] == cands[..fi] + [focal];
      res := res[focal := wins];
    }
    assert cands[..|cands|] == cands;
  }

  /** The two inner loops for one focal candidate: `wins` runs over every
      comparison candidate and every player. */
  method FocalWins(cands: seq<Candidate>, ixs: seq<RankIndex>, focal: Candidate) returns (wins: int)
    requires Indexed(cands, ixs) && focal in cands
    ensures wins == Wins(cands, ixs, focal)
  {
    wins := 0;
    for ci := 0 to |cands|
      invariant wins == Sum(cands[..ci], d => PairWins(ixs, focal, d))
    {
      var comparison := cands[ci];
      wins := CountPreferring(cands, ixs, focal, comparison, wins);
      SumPrefixStep(cands, ci, d => PairWins(ixs, focal, d));
    }
    assert cands[..|cands|] == cands;
  }

  /** The innermost loop: one more win for every player ranking `focal`
      strictly ahead of `comparison`. */
  method CountPreferring(cands: seq<Candidate>, ixs: seq<RankIndex>, focal: Candidate, comparison: Candidate, before: int)
    returns (wins: int)
    requires Indexed(cands, ixs) && focal in cands && comparison in cands
    ensures wins == before + PairWins(ixs, focal, comparison)
  {
    wins := before;
    for p := 0 to |ixs|
      invariant wins == before + Sum(ixs[..p], ix => Prefers(ix, focal, comparison))
    {
      SumPrefixStep(ixs, p, ix => Prefers(ix, focal, comparison));
      if ixs[p].rank[focal] < ixs[p].rank[comparison] {
        wins := wins + 1;
      }
    }
    assert ixs[..|ixs|] == ixs;
  }

  /** Nobody ranks a candidate strictly ahead of itself. */
  lemma NoSelfWin(ixs: seq<RankIndex>, c: Candidate)
    ensures PairWins(ixs, c, c) == 0
  {
    SumConst(ixs, ix => Prefers(ix, c, c), 0);
  }

  /** Between two different candidates every player prefers exactly one, so
      the two entries of the pairwise matrix add up to the number of players. */
  lemma PairwiseComplement(cands: seq<Candidate>, ixs: seq<RankIndex>, c: Candidate, d: Candidate)
    requires Distinct(cands) && AllValidOver(cands, ixs)
    requires c in cands && d in cands && c != d
    ensures PairWins(ixs, c, d) + PairWins(ixs, d, c) == |ixs|
  {
    forall ix | ix in ixs ensures Prefers(ix, c, d) + Prefers(ix, d, c) == 1 {
      RanksOfCandidates(cands, ix, c, d);
    }
    SumAdd(ixs, ix => Prefers(ix, c, d), ix => Prefers(ix, d, c), ix => 1);
    SumConst(ixs, ix => 1, 1);
  }

  /** No candidate wins more than (N-1)·V comparisons. */
  lemma WinsBound(cands: seq<Candidate>, ixs: seq<RankIndex>, c: Candidate)
    requires Distinct(cands) && c in cands
    ensures Wins(cands, ixs, c) <= (|cands| - 1) * |ixs|
  {
    var v := |ixs|;
    forall d | d in cands ensures PairWins(ixs, c, d) <= if d == c then 0 else v {
      NoSelfWin(ixs, c);
      SumMono(ixs, ix => Prefers(ix, c, d), ix => 1);
      SumConst(ixs, ix => 1, 1);
    }
    SumMono(cands, d => PairWins(ixs, c, d), d => if d == c then 0 else v);
    SumPoint(cands, c, 0, v, d => if d == c then 0 else v);
  }

  /** A candidate every player ranks first beats every other candidate with
      every player: it scores exactly (N-1)·V, the most any candidate can. */
  lemma {:induction false} UnanimousFavouriteWins(cands: seq<Candidate>, ixs: seq<RankIndex>, c: Candidate)
    requires Distinct(cands) && AllValidOver(cands, ixs) && c in cands
    requires forall ix :: ix in ixs ==> ix.order[0] == c
    ensures Wins(cands, ixs, c) == (|cands| - 1) * |ixs|
    ensures forall d :: d in cands ==> Wins(cands, ixs, d) <= Wins(cands, ixs, c)
  {
    var v := |ixs|;
    forall d | d in cands ensures PairWins(ixs, c, d) == if d == c then 0 else v {
      if d == c {
        NoSelfWin(ixs, c);
      } else {
        forall ix | ix in ixs ensures Prefers(ix, c, d) == 1 {
          RanksOfCandidates(cands, ix, c, d);
        }
        SumConst(ixs, ix => Prefers(ix, c, d), 1);
      }
    }
    SumCongruence(cands, d => PairWins(ixs, c, d), d => if d == c then 0 else v);
    SumPoint(cands, c, 0, v, d => if d == c then 0 else v);
    forall d | d in cands ensures Wins(cands, ixs, d) <= Wins(cands, ixs, c) {
      WinsBound(cands, ixs, d);
    }
  }

  /** Exactly rank[d] candidates are ranked strictly ahead of d. */
  lemma AheadCount(cands: seq<Candidate>, ix: RankIndex, d: Candidate)
    requires Distinct(cands) && ValidOver(cands, ix) && d in cands
    ensures Sum(cands, c => Prefers(ix, c, d)) == RankOf(ix, d)
  {
    RanksOfCandidates(cands, ix, d, d);
    RanksBelow(cands, ix, ix.rank[d], c => Prefers(ix, c, d));
  }

  /** One player's comparisons: exactly one win per unordered pair. */
  lemma VoterWinsTotal(cands: seq<Candidate>, ix: RankIndex)
    requires Distinct(cands) && ValidOver(cands, ix)
    ensures Sum(cands, c => Sum(cands, d => Prefers(ix, c, d))) == Pairs(|cands|)
  {
    var f := (c: Candidate, d: Candidate) => Prefers(ix, c, d);
    forall c | c in cands ensures Sum(cands, d => Prefers(ix, c, d)) == RowTotals(cands, f)(c) {
      SumCongruence(cands, d => Prefers(ix, c, d), Row(f, c));
    }
    SumCongruence(cands, c => Sum(cands, d => Prefers(ix, c, d)), RowTotals(cands, f));
    SumSwap(cands, cands, f);
    forall d | d in cands ensures ColumnTotals(cands, f)(d) == RankOf(ix, d) {
      AheadCount(cands, ix, d);
      SumCongruence(cands, Column(f, d), c => Prefers(ix, c, d));
    }
    SumCongruence(cands, ColumnTotals(cands, f), d => RankOf(ix, d));
    RanksSum(cands, ix, d => RankOf(ix, d));
  }

  /** Every player contributes one win per unordered pair of candidates, so
      all Condorcet scores together add up to V·N(N-1)/2. */
  lemma WinsTotal(cands: seq<Candidate>, ixs: seq<RankIndex>)
    requires Distinct(cands) && AllValidOver(cands, ixs)
    ensures Sum(cands, c => Wins(cands, ixs, c)) == |ixs| * Pairs(|cands|)
  {
    // g(c, ix): the comparisons one player lets c win
    var g := (c: Candidate, ix: RankIndex) => Sum(cands, d => Prefers(ix, c, d));
    forall c | c in cands ensures Wins(cands, ixs, c) == RowTotals(ixs, g)(c) {
      var h := (d: Candidate, ix: RankIndex) => Prefers(ix, c, d);
      forall d | d in cands ensures PairWins(ixs, c, d) == RowTotals(ixs, h)(d) {
        SumCongruence(ixs, ix => Prefers(ix, c, d), Row(h, d));
      }
      SumCongruence(cands, d => PairWins(ixs, c, d), RowTotals(ixs, h));
      SumSwap(cands, ixs, h);
      forall ix | ix in ixs ensures ColumnTotals(cands, h)(ix) == Row(g, c)(ix) {
        SumCongruence(cands, Column(h, ix), d => Prefers(ix, c, d));
      }
      SumCongruence(ixs, ColumnTotals(cands, h), Row(g, c));
    }
    SumCongruence(cands, c => Wins(cands, ixs, c), RowTotals(ixs, g));
    SumSwap(cands, ixs, g);
    forall ix | ix in ixs ensures ColumnTotals(cands, g)(ix) == Pairs(|cands|) {
      VoterWinsTotal(cands, ix);
      SumCongruence(cands, Column(g, ix), c => Sum(cands, d => Prefers(ix, c, d)));
    }
    SumConst(ixs, ColumnTotals(cands, g), Pairs(|cands|));
  }

  /** Reordering the players does not change any Condorcet score. */
  lemma VoterOrderIrrelevant(cands: seq<Candidate>, ixs: seq<RankIndex>, ixs': seq<RankIndex>)
    requires multiset(ixs) == multiset(ixs')
    requires Indexed(cands, ixs)
    ensures Indexed(cands, ixs')
    ensures CondorcetScores(cands, ixs) == CondorcetScores(cands, ixs')
  {
    forall i | 0 <= i < |ixs'| ensures ixs'[i] in ixs {
      assert ixs'[i] in multiset(ixs');
    }
    forall c, d {
      SumPermutation(ixs, ixs', ix => Prefers(ix, c, d));
    }
    forall c {
      SumCongruence(cands, d => PairWins(ixs, c, d), d => PairWins(ixs', c, d));
    }
  }
}
