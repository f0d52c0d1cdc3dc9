/** The conversion of a player's ordered ranking into a rank index, the
    dictionary `{candidate: position}` every tally reads. In the program this
    conversion overwrites the shared preference table as a side effect of the
    Condorcet step; here it is an explicit pure step whose result is handed
    to each tally. */
module Rankings {
  import opened Wrappers
  import opened Sequences
  import opened Ballots

  /** A rank index as the program's dictionary holds it: `order` is the list
      it was built from and `rank` the lookup table; position 0 is the
      favourite. For a ranking without repeats, `order` is the dictionary's
      iteration order; a dictionary iterates a repeated key only once, where
      it was first inserted, while `order` keeps the repeats. */
  datatype RankIndex = RankIndex(order: seq<Candidate>, rank: map<Candidate, nat>)

  /** The dictionary from each entry of a ranking to its position. Built
      front to back, a later occurrence of a value overwrites the earlier
      one, so a key maps to its last position. */
  function RankMap(r: seq<Candidate>): (m: map<Candidate, nat>)
    ensures m.Keys == ToSet(r)
    ensures forall k :: k in m ==> m[k] < |r| && r[m[k]] == k
    ensures forall k, j :: k in m && m[k] < j < |r| ==> r[j] != k
    ensures Distinct(r) ==> forall i :: 0 <= i < |r| ==> m[r[i]] == i
  {
    if |r| == 0 then map[]
    else
      var p, x := r[..|r| - 1], r[|r| - 1];
      assert r == p + [x];
      RankMapExtends(p, x, RankMap(p));
      var m := RankMap(p)[x := |p|];
      RankMapOfDistinct(r, m);
      m
  }

  /** Enumerating one more element x: its new position overwrites its entry,
      and every other entry keeps its position. */
  lemma RankMapExtends(p: seq<Candidate>, x: Candidate, m0: map<Candidate, nat>)
    requires m0.Keys == ToSet(p)
    requires forall k :: k in m0 ==> m0[k] < |p| && p[m0[k]] == k
    requires forall k, j :: k in m0 && m0[k] < j < |p| ==> p[j] != k
    ensures var r, m := p + [x], m0[x := |p|];
      && m.Keys == ToSet(r)
      && (forall k :: k in m ==> m[k] < |r| && r[m[k]] == k)
      && (forall k, j :: k in m && m[k] < j < |r| ==> r[j] != k)
  {
    var r, m := p + [x], m0[x := |p|];
    assert ToSet(r) == ToSet(p) + {x};
    forall k | k in m ensures m[k] < |r| && r[m[k]] == k {
      if k != x {
        assert r[m0[k]] == p[m0[k]];
      }
    }
    forall k, j | k in m && m[k] < j < |r| ensures r[j] != k {
      if k != x && j < |p| {
        assert r[j] == p[j];
      }
    }
  }

  /** Over a repeat-free ranking, the entry at position i maps to i. */
  lemma RankMapOfDistinct(r: seq<Candidate>, m: map<Candidate, nat>)
    requires m.Keys == ToSet(r)
    requires forall k :: k in m ==> m[k] < |r| && r[m[k]] == k
    ensures Distinct(r) ==> forall i :: 0 <= i < |r| ==> m[r[i]] == i
  {
    if Distinct(r) {
      forall i | 0 <= i < |r| ensures m[r[i]] == i {
        assert r[i] in ToSet(r);
      }
    }
  }

  /** The rank of c, and 0 for a candidate the index does not hold. */
  function RankOf(ix: RankIndex, c: Candidate): int
  {
    if c in ix.rank then ix.rank[c] else 0
  }

  function ToRankIndex(r: seq<Candidate>): RankIndex
  {
    RankIndex(r, RankMap(r))
  }

  /** A rank index of a complete ranking over `cands`: its keys are the
      ranking's entries and the entry in position i has rank i. */
  predicate ValidOver(cands: seq<Candidate>, ix: RankIndex)
  {
    && CompleteRanking(cands, ix.order)
    && ix.rank.Keys == ToSet(ix.order)
    && forall i :: 0 <= i < |ix.order| ==> ix.order[i] in ix.rank && ix.rank[ix.order[i]] == i
  }

  predicate AllValidOver(cands: seq<Candidate>, ixs: seq<RankIndex>)
  {
    forall ix :: ix in ixs ==> ValidOver(cands, ix)
  }

  /** Converting a complete ranking gives a valid rank index. */
  lemma ToRankIndexIsValid(cands: seq<Candidate>, r: seq<Candidate>)
    requires CompleteRanking(cands, r)
    ensures ValidOver(cands, ToRankIndex(r))
  {
    forall i | 0 <= i < |r| ensures r[i] in RankMap(r) {
      assert r[i] in ToSet(r);
    }
  }

  /** In a valid rank index every candidate has a rank below N, different
      candidates have different ranks, and the candidates in the first and
      last positions have ranks 0 and N-1. */
  lemma RanksOfCandidates(cands: seq<Candidate>, ix: RankIndex, c: Candidate, d: Candidate)
    requires Distinct(cands) && ValidOver(cands, ix)
    requires c in cands && d in cands
    ensures c in ix.rank && d in ix.rank
    ensures ix.rank[c] < |cands| && ix.rank[d] < |cands|
    ensures c != d ==> ix.rank[c] != ix.rank[d]
    ensures |cands| > 0 && ix.order[0] == c ==> ix.rank[c] == 0
    ensures |cands| > 0 && ix.order[|cands| - 1] == c ==> ix.rank[c] == |cands| - 1
  {
    CompleteRankingIsPermutation(cands, ix.order);
    var i :| 0 <= i < |ix.order| && ix.order[i] == c;
    var j :| 0 <= j < |ix.order| && ix.order[j] == d;
  }

  /** For a complete ranking the rank index is a bijection from the
      candidates onto the positions 0..N-1, and the candidate in position i
      has rank i. */
  lemma RankIndexIsBijection(cands: seq<Candidate>, r: seq<Candidate>)
    requires Distinct(cands) && CompleteRanking(cands, r)
    ensures RankMap(r).Keys == ToSet(cands)
    ensures RankMap(r).Values == ToSet(Range(|cands|))
    ensures forall c, d :: c in RankMap(r) && d in RankMap(r) && c != d ==> RankMap(r)[c] != RankMap(r)[d]
    ensures forall i :: 0 <= i < |r| ==> RankMap(r)[r[i]] == i
  {
    var m := RankMap(r);
    CompleteRankingIsPermutation(cands, r);
    forall i | i in ToSet(Range(|cands|)) ensures i in m.Values {
      assert r[i] in m;
    }
    forall i | i in m.Values ensures i in ToSet(Range(|cands|)) {
      assert Range(|cands|)[i] == i;
    }
  }

  /** A sum over the candidates of a term that depends only on a candidate's
      rank is the sum of that term over the positions 0..N-1. */
  lemma SumByRank(cands: seq<Candidate>, ix: RankIndex, h: Candidate -> int, g: int -> int)
    requires Distinct(cands) && ValidOver(cands, ix)
    requires forall c :: c in ix.rank ==> h(c) == g(ix.rank[c])
    ensures Sum(cands, h) == Sum(Range(|cands|), g)
  {
    CompleteRankingIsPermutation(cands, ix.order);
    SumPermutation(cands, ix.order, h);
    var r := ix.order;
    forall i | 0 <= i < |r| ensures h(r[i]) == g(i) {
      assert r[i] in ix.rank && ix.rank[r[i]] == i;
    }
    SumReindex(r, h, g);
  }

  /** One player's ranks add up to 0 + 1 + ... + (N-1). */
  lemma RanksSum(cands: seq<Candidate>, ix: RankIndex, h: Candidate -> int)
    requires Distinct(cands) && ValidOver(cands, ix)
    requires forall c :: c in ix.rank ==> h(c) == ix.rank[c]
    ensures Sum(cands, h) == Pairs(|cands|)
  {
    SumByRank(cands, ix, h, i => i);
    SumRangeIdentity(|cands|);
  }

  /** Exactly k candidates are ranked above position k. */
  lemma RanksBelow(cands: seq<Candidate>, ix: RankIndex, k: nat, h: Candidate -> int)
    requires Distinct(cands) && ValidOver(cands, ix)
    requires k <= |cands|
    requires forall c :: c in ix.rank ==> h(c) == if ix.rank[c] < k then 1 else 0
    ensures Sum(cands, h) == k
  {
    SumByRank(cands, ix, h, i => if i < k then 1 else 0);
    SumRangeBelow(|cands|, k);
  }

  /** The loop that looks for the entry with rank 0: every matching key
      overwrites the previous one, so the last match in `order` wins. */
  function TopChoiceIn(order: seq<Candidate>, rank: map<Candidate, nat>): (c: Option<Candidate>)
    ensures c.Some? ==> c.value in order && c.value in rank && rank[c.value] == 0
    ensures c.None? ==> forall k :: k in order && k in rank ==> rank[k] != 0
  {
    if |order| == 0 then None
    else
      var k := order[|order| - 1];
      if k in rank && rank[k] == 0 then Some(k)
      else
        assert forall x :: x in order[..|order| - 1] ==> x in order;
        assert forall x :: x in order ==> x in order[..|order| - 1] || x == k;
        TopChoiceIn(order[..|order| - 1], rank)
  }

  function TopChoice(ix: RankIndex): Option<Candidate>
  {
    TopChoiceIn(ix.order, ix.rank)
  }

  /** The plurality loop finds exactly the candidate placed first; an empty
      ranking has no first choice. */
  lemma TopChoiceIsFirstRanked(r: seq<Candidate>)
    requires Distinct(r)
    ensures |r| > 0 ==> TopChoice(ToRankIndex(r)) == Some(r[0])
    ensures |r| == 0 ==> TopChoice(ToRankIndex(r)) == None
  {
    if |r| > 0 {
      var m := RankMap(r);
      var c := TopChoiceIn(r, m);
      assert r[0] in r && m[r[0]] == 0;
      assert c.Some?;
      assert r[m[c.value]] == c.value;
    }
  }

  /** In a valid rank index the plurality loop finds the candidate in
      position 0. */
  lemma TopChoiceOfValid(cands: seq<Candidate>, ix: RankIndex)
    requires ValidOver(cands, ix) && |cands| > 0
    ensures TopChoice(ix) == Some(ix.order[0])
  {
    var r, m := ix.order, ix.rank;
    assert r[0] in r && m[r[0]] == 0;
    var c := TopChoiceIn(r, m);
    var j :| 0 <= j < |r| && r[j] == c.value;
    assert m[r[j]] == j;
  }
}
