/** Concrete evaluations over the three pizza toppings. */
module Scenarios {
  import opened Sequences
  import opened Ballots
  import opened Rankings
  import opened Condorcet
  import opened Scoring

  /** A sum over one element is that element's term. */
  lemma SumSingle<T>(x: T, f: T -> int)
    ensures Sum([x], f) == f(x)
  {
    assert [x][..0] == [];
  }

  /** A sum over two elements is the sum of their terms. */
  lemma SumPair<T>(x: T, y: T, f: T -> int)
    ensures Sum([x, y], f) == f(x) + f(y)
  {
    assert [x, y][..1] == [x];
    SumSingle(x, f);
  }

  /** A sum over three elements is the sum of their terms. */
  lemma SumTriple<T>(x: T, y: T, z: T, f: T -> int)
    ensures Sum([x, y, z], f) == f(x) + f(y) + f(z)
  {
    assert [x, y, z][..2] == [x, y];
    SumPair(x, y, f);
  }

  /** The rank index of Pepperoni > Brocolli > Cheese. */
  lemma ListedOrderRanks()
    ensures ToRankIndex(Candidates).rank == map["Pepperoni" := 0, "Brocolli" := 1, "Cheese" := 2]
  {
    ThreeRanks("Pepperoni", "Brocolli", "Cheese");
  }

  lemma ToppingsDiffer()
    ensures "Pepperoni" != "Brocolli" && "Brocolli" != "Cheese" && "Cheese" != "Pepperoni"
  {
    assert "Pepperoni"[0] != "Brocolli"[0] && "Brocolli"[0] != "Cheese"[0] && "Cheese"[0] != "Pepperoni"[0];
  }

  /** One player ranking Pepperoni > Brocolli > Cheese: the table the
      program shows under "Borda" puts the favourite last, the conventional
      count puts it first. */
  lemma BordaInvertedExample()
    ensures var ixs := [ToRankIndex(Candidates)];
      && BordaAsWritten(Candidates, ixs) == map["Pepperoni" := 0, "Brocolli" := 1, "Cheese" := 2]
      && Borda(Candidates, ixs) == map["Pepperoni" := 2, "Brocolli" := 1, "Cheese" := 0]
  {
    ListedOrderRanks();
    OneBallotTables(ToRankIndex(Candidates));
  }

  lemma OneBallotTables(ix: RankIndex)
    requires ix.rank == map["Pepperoni" := 0, "Brocolli" := 1, "Cheese" := 2]
    ensures BordaAsWritten(Candidates, [ix]) == map["Pepperoni" := 0, "Brocolli" := 1, "Cheese" := 2]
    ensures Borda(Candidates, [ix]) == map["Pepperoni" := 2, "Brocolli" := 1, "Cheese" := 0]
  {
    SingleVoterTables(ix, "Pepperoni");
    SingleVoterTables(ix, "Brocolli");
    SingleVoterTables(ix, "Cheese");
    ThreeKeys(BordaAsWritten(Candidates, [ix]), Candidates);
    ThreeKeys(Borda(Candidates, [ix]), Candidates);
  }

  lemma SingleVoterTables(ix: RankIndex, c: Candidate)
    ensures RankPoints([ix], c) == RankOf(ix, c)
    ensures BordaPoints(Candidates, [ix], c) == BordaPointsOf(3, ix, c)
  {
    SumSingle(ix, ix => RankOf(ix, c));
    SumSingle(ix, ix => BordaPointsOf(|Candidates|, ix, c));
  }

  /** Allocations of 9/0/0 and 4/4/1 points become 3/0/0 and 2/2/1 votes,
      5/2/1 in total. */
  lemma QuadraticExample()
    ensures
      var p, b, c := "Pepperoni", "Brocolli", "Cheese";
      var allocations := [[Allocation(p, 9), Allocation(b, 0), Allocation(c, 0)],
                          [Allocation(p, 4), Allocation(b, 4), Allocation(c, 1)]];
      && AllocatesCandidates(Candidates, allocations)
      && Quadratic(Candidates, allocations) == map[p := 5, b := 2, c := 1]
  {
    var p, b, c := "Pepperoni", "Brocolli", "Cheese";
    ISqrtUnique(9, 3);
    ISqrtUnique(4, 2);
    ISqrtUnique(1, 1);
    ISqrtUnique(0, 0);
    TwoPlayerTable([Allocation(p, 9), Allocation(b, 0), Allocation(c, 0)],
                   [Allocation(p, 4), Allocation(b, 4), Allocation(c, 1)]);
  }

  /** Two form-shaped allocations: each topping gets the sum of the two
      players' square roots. */
  lemma TwoPlayerTable(a1: seq<Allocation>, a2: seq<Allocation>)
    requires |a1| == 3 && |a2| == 3
    requires forall j :: 0 <= j < 3 ==> a1[j].candidate == Candidates[j] && a2[j].candidate == Candidates[j]
    ensures AllocatesCandidates(Candidates, [a1, a2])
    ensures Quadratic(Candidates, [a1, a2]) ==
      map[Candidates[0] := ISqrt(a1[0].points) + ISqrt(a2[0].points),
          Candidates[1] := ISqrt(a1[1].points) + ISqrt(a2[1].points),
          Candidates[2] := ISqrt(a1[2].points) + ISqrt(a2[2].points)]
  {
    FormAllocationsAllocate(a1, a2);
    var res := Quadratic(Candidates, [a1, a2]);
    TwoPlayerVotes(a1, a2, 0);
    TwoPlayerVotes(a1, a2, 1);
    TwoPlayerVotes(a1, a2, 2);
    ThreeKeys(res, Candidates);
  }

  lemma FormAllocationsAllocate(a1: seq<Allocation>, a2: seq<Allocation>)
    requires |a1| == 3 && |a2| == 3
    requires forall j :: 0 <= j < 3 ==> a1[j].candidate == Candidates[j] && a2[j].candidate == Candidates[j]
    ensures AllocatesCandidates(Candidates, [a1, a2])
  {
    forall i, j | 0 <= i < 2 && 0 <= j < |[a1, a2][i]| ensures [a1, a2][i][j].candidate in Candidates {
      assert [a1, a2][i][j].candidate == Candidates[j];
    }
  }

  /** A table keyed by the three entries of `keys` is the display of its
      three entries. */
  lemma ThreeKeys(res: map<Candidate, int>, keys: seq<Candidate>)
    requires |keys| == 3 && res.Keys == ToSet(keys)
    ensures res == map[keys[0] := res[keys[0]], keys[1] := res[keys[1]], keys[2] := res[keys[2]]]
  {
    assert ToSet(keys) == {keys[0], keys[1], keys[2]};
  }

  lemma TwoPlayerVotes(a1: seq<Allocation>, a2: seq<Allocation>, i: nat)
    requires i < 3 && |a1| == 3 && |a2| == 3
    requires forall j :: 0 <= j < 3 ==> a1[j].candidate == Candidates[j] && a2[j].candidate == Candidates[j]
    ensures QuadraticVotes([a1, a2], Candidates[i]) == ISqrt(a1[i].points) + ISqrt(a2[i].points)
  {
    FormAllocationVotes(Candidates, a1, i);
    FormAllocationVotes(Candidates, a2, i);
    SumPair(a1, a2, al => AllocationVotes(al, Candidates[i]));
  }

  /** Enumerating one more element overwrites that element's entry. */
  lemma RankMapSnoc(p: seq<Candidate>, x: Candidate)
    ensures RankMap(p + [x]) == RankMap(p)[x := |p|]
  {
    assert (p + [x])[..|p|] == p;
  }

  /** The rank index of a ranking of three candidates. */
  lemma ThreeRanks(x: Candidate, y: Candidate, z: Candidate)
    ensures ToRankIndex([x, y, z]).rank == map[x := 0, y := 1, z := 2]
  {
    RankMapSnoc([], x);
    RankMapSnoc([x], y);
    RankMapSnoc([x, y], z);
    assert [] + [x] == [x] && [x] + [y] == [x, y] && [x, y] + [z] == [x, y, z];
  }

  /** A cyclic profile over any three different candidates p, b, c. */
  predicate IsCycle(ixs: seq<RankIndex>, p: Candidate, b: Candidate, c: Candidate)
  {
    && |ixs| == 3
    && ixs[0].rank == map[p := 0, b := 1, c := 2]
    && ixs[1].rank == map[b := 0, c := 1, p := 2]
    && ixs[2].rank == map[c := 0, p := 1, b := 2]
  }

  /** In a cycle each candidate beats the next with two players out of
      three and loses to it with one. */
  lemma CyclePairs(ixs: seq<RankIndex>, p: Candidate, b: Candidate, c: Candidate)
    requires p != b && b != c && c != p && IsCycle(ixs, p, b, c)
    ensures PairWins(ixs, p, b) == 2 && PairWins(ixs, b, p) == 1
    ensures PairWins(ixs, b, c) == 2 && PairWins(ixs, c, b) == 1
    ensures PairWins(ixs, c, p) == 2 && PairWins(ixs, p, c) == 1
  {
    assert ixs == [ixs[0], ixs[1], ixs[2]];
    SumTriple(ixs[0], ixs[1], ixs[2], ix => Prefers(ix, p, b));
    SumTriple(ixs[0], ixs[1], ixs[2], ix => Prefers(ix, b, p));
    SumTriple(ixs[0], ixs[1], ixs[2], ix => Prefers(ix, b, c));
    SumTriple(ixs[0], ixs[1], ixs[2], ix => Prefers(ix, c, b));
    SumTriple(ixs[0], ixs[1], ixs[2], ix => Prefers(ix, c, p));
    SumTriple(ixs[0], ixs[1], ixs[2], ix => Prefers(ix, p, c));
  }

  /** In a cycle every candidate wins exactly 3 comparisons. */
  lemma CycleWins(ixs: seq<RankIndex>, p: Candidate, b: Candidate, c: Candidate)
    requires p != b && b != c && c != p && IsCycle(ixs, p, b, c)
    ensures Wins([p, b, c], ixs, p) == 3
    ensures Wins([p, b, c], ixs, b) == 3
    ensures Wins([p, b, c], ixs, c) == 3
  {
    CyclePairs(ixs, p, b, c);
    NoSelfWin(ixs, p);
    NoSelfWin(ixs, b);
    NoSelfWin(ixs, c);
    SumTriple(p, b, c, d => PairWins(ixs, p, d));
    SumTriple(p, b, c, d => PairWins(ixs, b, d));
    SumTriple(p, b, c, d => PairWins(ixs, c, d));
  }

  /** A Condorcet cycle: every candidate scores 3, so the table singles out
      no winner. */
  lemma CycleTies(ixs: seq<RankIndex>, p: Candidate, b: Candidate, c: Candidate)
    requires p != b && b != c && c != p && IsCycle(ixs, p, b, c)
    ensures Indexed([p, b, c], ixs)
    ensures CondorcetScores([p, b, c], ixs) == map[p := 3, b := 3, c := 3]
  {
    CycleWins(ixs, p, b, c);
    assert ToSet([p, b, c]) == {p, b, c};
  }

  /** Three candidates ranked in rotation. */
  function Rotation(p: Candidate, b: Candidate, c: Candidate): seq<RankIndex>
  {
    [ToRankIndex([p, b, c]), ToRankIndex([b, c, p]), ToRankIndex([c, p, b])]
  }

  lemma RotationIsCycle(p: Candidate, b: Candidate, c: Candidate)
    ensures IsCycle(Rotation(p, b, c), p, b, c)
  {
    ThreeRanks(p, b, c);
    ThreeRanks(b, c, p);
    ThreeRanks(c, p, b);
  }

  /** Pepperoni > Brocolli > Cheese, Brocolli > Cheese > Pepperoni and
      Cheese > Pepperoni > Brocolli: all three toppings tie at 3. */
  lemma ToppingsCycleTies()
    ensures Indexed(Candidates, Rotation("Pepperoni", "Brocolli", "Cheese"))
    ensures CondorcetScores(Candidates, Rotation("Pepperoni", "Brocolli", "Cheese"))
      == map["Pepperoni" := 3, "Brocolli" := 3, "Cheese" := 3]
  {
    var p, b, c := "Pepperoni", "Brocolli", "Cheese";
    ToppingsDiffer();
    RotationIsCycle(p, b, c);
    CycleTies(Rotation(p, b, c), p, b, c);
  }
}
