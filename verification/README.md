# Social choice tallies — a Dafny model

This project models the vote-counting core of the "Mathematics of Social
Choice" pizza-topping app (`app.py`). Each player does two things:

- ranks the three toppings `Pepperoni`, `Brocolli` and `Cheese` in select boxes, which may be left empty;
- hands out exactly `max_points` points over the toppings in number inputs.

One evaluation (`compute_result`) first runs a validation gate:

- player names must be unique;
- every ranking must be filled and free of repeats;
- every allocation must sum to the budget.

Only then does it compute the tables. First it converts every ranking into a
rank index `{candidate: position}`. It then computes four tables:

- the Condorcet table: for each candidate, the number of (other candidate, player) pairs it wins;
- the plurality counts of first choices;
- the "Borda" table;
- the quadratic-voting table, where each allocation gives `floor(sqrt(points))` votes.

Modules, in the order one evaluation runs through them:

- `Wrappers`: `Option` and `Result`.
- `Sequences`: distinctness, and `Sum` over a sequence with its algebra:
  - congruence;
  - permutation invariance;
  - exchanging a double sum;
  - `0 + 1 + … + (n-1) = n(n-1)/2`.
- `Ballots`:
  - the candidate list and a player's vote;
  - what the preference form can produce;
  - the form's two warnings.
- `Gate`: the validation gate. It returns `Failure(DuplicatePlayerNames)`, `Failure(WaitingForVotes)`, or the unwrapped rankings.
- `Rankings`:
  - the rank index, as an explicit pure step: `RankIndex(order, rank)` keeps the ranking it was built from next to its lookup table (for a ranking without repeats, that is the dictionary's iteration order);
  - the search for the rank-0 entry that the plurality loop performs.
- `Condorcet`:
  - the pairwise-win tally, as a function and as the program's three nested loops;
  - its totals and bounds.
- `Scoring`:
  - plurality;
  - Borda as the program computes it, next to the conventional Borda count;
  - quadratic voting, with an integer square root.
- `Engine`: one evaluation. It runs the gate, builds the rank indices once, and hands them to every tally.
- `Scenarios`: concrete evaluations:
  - a Condorcet cycle;
  - a one-ballot Borda table;
  - two quadratic allocations.

The program converts rankings in place inside the Condorcet step. The
plurality and Borda steps then read the converted dictionaries. They only
work because the Condorcet step comes first: on the raw lists, `.items()`
would fail. The model makes this data flow explicit.
`Engine.ComputeResult` builds the rank indices once and passes them to every
tally, so no tally depends on another tally having run.

A Condorcet score counts every (rival, player) win, not the rivals beaten by
a majority. In the classic cycle each candidate beats one rival with 2
players and the other with 1 (`Scenarios.CyclePairs`), so the table is a
three-way tie at 3 rather than at 2 (`Scenarios.ToppingsCycleTies`). The
model follows the code.

## Model

| member | source | states |
|---|---|---|
| Ballots.CheckForm | app.py:45-52 | The duplicate warning shows exactly when the ranking (empty boxes included) has a repeated entry. The total-points warning shows exactly when the allocated total differs from the budget. The reported total is the points sum. |
| Ballots.CompleteRankingIsPermutation | app.py:124-127 | A ranking with N distinct entries, all of them candidates, is a permutation of the candidate list: same set, same multiset, every candidate present. |
| Gate.Validate | app.py:119-133 | Duplicate player names, and nothing else, give the "unique names" status. The gate lets the votes through if and only if: names are unique, every ranking is repeat-free with no empty box, and every allocation sums to exactly the budget. The unwrapped rankings keep the players' entries in order, without repeats, and the allocations are unchanged. |
| Gate.GateAcceptsVoteIffFormSilent | app.py:46-52 | The gate accepts a player's vote if and only if the form shows neither warning and no select box is empty. |
| Gate.FormSilentButGateWaits | app.py:125-127 | A ranking with one empty box and an exact allocation gives no form warning, yet the gate answers "waiting for votes". |
| Rankings.RankMap | app.py:103-104 | The dictionary built from a ranking has exactly the ranking's entries as keys. Each key maps to a position holding that key, and no later position holds it (last occurrence wins). For a repeat-free ranking, the entry at position i maps to i. |
| Rankings.RankMapExtends | app.py:104 | Enumerating one more element keeps the dictionary's invariants: keys are the entries seen, each maps to a position holding it, and no later position holds it. |
| Rankings.RankMapOfDistinct | app.py:104 | Over a repeat-free ranking, the dictionary maps the entry at position i to i. |
| Rankings.RankIndexIsBijection | app.py:103-104 | For a complete ranking, the rank index is a bijection from the candidates onto the positions 0..N-1, with the candidate in position i having rank i. |
| Rankings.ToRankIndexIsValid | app.py:103-104 | Converting a complete ranking gives a rank index whose keys are the ranking's entries, with position i having rank i. |
| Rankings.RanksOfCandidates | app.py:104 | In such a rank index, every candidate has a rank below N. Different candidates have different ranks. The first and last candidates have ranks 0 and N-1. |
| Rankings.TopChoiceIn | app.py:79-81 | The plurality loop's result, when present, is a key of rank 0. When absent, no key has rank 0. |
| Rankings.TopChoiceIsFirstRanked | app.py:76-81 | For a repeat-free ranking the loop finds exactly the first-ranked candidate. An empty ranking has no first choice. |
| Rankings.TopChoiceOfValid | app.py:78-81 | In a rank index of a complete ranking, the plurality loop picks the candidate in position 0. |
| Condorcet.CondorcetScores | app.py:107-114 | The table has one entry per candidate, each between 0 and N·V. |
| Condorcet.CondorcetTally | app.py:107-114 | The three nested loops (focal candidate, comparison candidate, player) compute the count of strict pairwise wins for every candidate. |
| Condorcet.FocalWins | app.py:108-114 | The two inner loops for one focal candidate end with its Condorcet score. |
| Condorcet.CountPreferring | app.py:110-112 | The innermost loop adds one win for each player who ranks the focal candidate strictly ahead of the comparison candidate. |
| Condorcet.NoSelfWin | app.py:109-112 | Comparing a candidate with itself never adds a win, because the comparison is strict. |
| Condorcet.PairwiseComplement | app.py:110-112 | For two different candidates, the two opposite pairwise counts add up to the number of players. |
| Condorcet.WinsBound | app.py:107-114 | No candidate scores more than (N-1)·V. |
| Condorcet.UnanimousFavouriteWins | app.py:107-114 | A candidate every player ranks first scores exactly (N-1)·V, the highest score in the table. |
| Condorcet.AheadCount | app.py:110-112 | For one player, exactly rank(d) candidates are ranked strictly ahead of d. |
| Condorcet.VoterWinsTotal | app.py:107-114 | One player's comparisons yield exactly one win per unordered pair of candidates: N(N-1)/2. |
| Condorcet.WinsTotal | app.py:107-114 | All Condorcet scores together add up to V·N(N-1)/2. |
| Condorcet.VoterOrderIrrelevant | app.py:110-112 | Reordering the players leaves the Condorcet table unchanged. |
| Scoring.PluralityCounts | app.py:76-81 | The first-choice counts have one entry per candidate, each between 0 and the number of players. |
| Scoring.ChoseFirstIsHeadOfRanking | app.py:79-81 | A player counts towards c exactly when c heads their ranking. |
| Scoring.PluralityTotal | app.py:76-81 | Every player has exactly one first choice, so the counts add up to the number of players. |
| Scoring.BordaAsWritten | app.py:58-62 | The table the program shows under "Borda" has one non-negative entry per candidate. |
| Scoring.BordaAsWrittenTotal | app.py:58-62 | That table adds up to V·N(N-1)/2. |
| Scoring.RankPointsRange | app.py:60-62 | No candidate receives more than V·(N-1) of those points. |
| Scoring.BordaAsWrittenFavouriteScoresLeast | app.py:58-62 | A candidate every player ranks first gets 0 points, the fewest in the table. |
| Scoring.BordaAsWrittenLastPlaceScoresMost | app.py:58-62 | A candidate every player ranks last gets V·(N-1) points, the most in the table. |
| Scoring.Borda | app.py:58-62 | The conventional Borda table (N-1 points for first place down to 0 for last) has one entry per candidate. |
| Scoring.BordaMirrorsAsWritten | app.py:58-62 | Each candidate's conventional points and as-written points add up to V·(N-1), so one table is the mirror image of the other. |
| Scoring.OneBallotMirror | app.py:61-62 | For one player, a candidate's conventional points and as-written points add up to N-1. |
| Scoring.BordaRewardsFirstPlace | app.py:58-62 | With the conventional count, a candidate every player ranks first gets V·(N-1) points, the most in the table. |
| Scoring.BordaTotal | app.py:58-62 | The conventional table also adds up to V·N(N-1)/2. |
| Scoring.ISqrt | app.py:71 | The quadratic vote count of p points is the largest r with r·r ≤ p. |
| Scoring.ISqrtUnique | app.py:71 | Any r with r·r ≤ p < (r+1)·(r+1) is that vote count. |
| Scoring.Quadratic | app.py:67-72 | The quadratic table has one non-negative entry per candidate. |
| Scoring.FormAllocationVotes | app.py:67-72 | An allocation as the form builds it (one entry per candidate, in candidate order) gives candidate i exactly floor(sqrt(points for i)) votes. |
| Scoring.ScoresIgnorePlayerOrder | app.py:58-72 | Reordering the players leaves both Borda tables and the quadratic table unchanged. |
| Engine.ComputeResult | app.py:119-141 | The evaluation fails with the gate's status exactly when the gate rejects the votes. Otherwise the program's four tables, and the conventional Borda count the model adds as a fifth (the program does not compute it), are keyed by exactly the three toppings. Plurality sums to V. The Condorcet, as-written Borda and conventional Borda tables each sum to 3·V. Each topping's quadratic count is the sum over players of floor(sqrt(points given to it)). |
| Engine.ValidatedRankingIsComplete | app.py:124-127 | A ranking the gate lets through from the form is a complete ranking of the toppings. |
| Engine.ValidatedRankingsAreComplete | app.py:102-104 | The rank indices built from the gate's rankings are valid for the toppings. Every topping can be looked up in each, and every key is a topping, so no tally can raise `KeyError`. |
| Engine.ValidatedAllocations | app.py:129-133 | The allocations the gate lets through are the form's own, and every allocated candidate is a topping. |
| Engine.TablesAddUp | app.py:136-140 | The plurality, Condorcet and both Borda tables, summed over the candidates, give V, V·N(N-1)/2, V·N(N-1)/2 and V·N(N-1)/2. |
| Engine.QuadraticPerPlayer | app.py:67-72 | Each topping's quadratic count is the per-player sum of floor(sqrt(points given to it)). |
| Scenarios.BordaInvertedExample | app.py:58-62 | One player ranking Pepperoni > Brocolli > Cheese gets the "Borda" table 0/1/2, while the conventional count is 2/1/0. |
| Scenarios.QuadraticExample | app.py:67-72 | Allocations 9/0/0 and 4/4/1 give 5/2/1 quadratic votes. |
| Scenarios.TwoPlayerTable | app.py:67-72 | For two form-shaped allocations, each topping's quadratic count is the sum of the two players' square roots. |
| Scenarios.ThreeRanks | app.py:104 | Converting a three-entry ranking gives each entry its last position: three distinct entries get ranks 0, 1 and 2 in order, and a repeated entry keeps its last position. |
| Scenarios.CyclePairs | app.py:109-112 | In a rotation profile each candidate beats the next one with 2 players of 3, and loses the reverse comparison with 1. |
| Scenarios.CycleWins | app.py:107-114 | In a rotation profile every candidate wins exactly 3 comparisons. |
| Scenarios.CycleTies | app.py:107-114 | The Condorcet table of a rotation profile is a three-way tie at 3. |
| Scenarios.ToppingsCycleTies | app.py:107-114 | The rotation Pepperoni > Brocolli > Cheese, Brocolli > Cheese > Pepperoni, Cheese > Pepperoni > Brocolli ties all three toppings at 3. |

## Left out

- The Streamlit user interface (`main`, widgets, subheaders) is not modelled. The preference form's two checks are modelled as `Ballots.CheckForm`; the widgets themselves are not.
- `_write_output`, pandas sorting and display are not modelled. The tables are maps; sorting is presentation.
- Scoring.PluralityCounts: holds an entry for every candidate, including a 0 for a candidate nobody ranked first. The program's `value_counts` display lists only the candidates that got at least one first choice.
- Schulze is not modelled.
- Kemeny-Young (`_compute_ky`, app.py:91-92) is not modelled: it is an empty stub in the program.
- The re-check of the rankings inside the Condorcet step (app.py:97-100) is not modelled: the gate has already rejected every input it would reject.
- In-place mutation is not modelled: the rank index is a pure function of the ranking (`Rankings.ToRankIndex`).
- Scoring.ISqrt: models `math.floor(math.sqrt(p))` as the exact integer square root. It does not model floating-point rounding. The float result agrees with the exact root for every p below 2^52. The first p where they differ is 2^52 + 2^27 = 67108865² − 1, where the float root rounds up to 67108865. The budget widget has no upper bound (app.py:154), so such budgets can be entered.
- Engine.ComputeResult: requires every vote to have the shape the preference form produces (`Ballots.FromForm`):
  - three select boxes, each empty or holding a topping;
  - three allocation entries in topping order, with non-negative points.

  `main` (app.py:164-167) only ever passes votes of this shape. The parts of the shape do different work:
  - every filled select box holding a topping, and a ranking of length three, mean a ranking the gate passes holds exactly the three toppings. A ranking missing a topping makes the Condorcet lookup raise `KeyError`; an entry that is not a topping makes the "Borda" update raise it;
  - every allocated candidate being a topping keeps the quadratic update from raising `KeyError`;
  - non-negative points keep `math.sqrt` from raising `ValueError`;
  - one allocation entry per topping, in topping order, is not needed to avoid an error. An allocation in another order or with a topping missing (`[("Pepperoni", 10)]` with a budget of 10) passes the gate and the quadratic loop. This part of the shape only serves the per-topping quadratic postcondition, which reads the i-th entry as the i-th topping's.

  The gate's iff-conditions do not depend on the shape. Every point entry is capped at `max_points` by its widget, not by the gate.
- Condorcet.CondorcetScores: requires every candidate to be in every rank index. Without this, the program's lookup raises `KeyError`.
- Scoring.BordaAsWritten: requires every key of a rank index to be a candidate. Without this, the program's update of the score table under such a key raises `KeyError`.
- Scoring.Quadratic: requires every allocated candidate to be a candidate. Without this, the program raises `KeyError`.
- Votes are a sequence in player order. The program keys two dictionaries by player name, built in the same loop. Duplicate names are rejected by the gate before any tally.

## Findings

| source | as written | input that shows it | evidently intended | confidence | as-written member | corrected member |
|---|---|---|---|---|---|---|
| app.py:58-62 | The "Borda" table adds each player's raw rank index (0 for first place), so a favourite scores least and a last place scores most. | One player ranking Pepperoni > Brocolli > Cheese gets 0/1/2 (`Scenarios.BordaInvertedExample`). | The Borda count: N-1 points for first place down to 0 for last, giving 2/1/0. | high; not executed | Scoring.BordaAsWritten (with Scoring.BordaAsWrittenFavouriteScoresLeast) | Scoring.Borda (with Scoring.BordaRewardsFirstPlace) |
