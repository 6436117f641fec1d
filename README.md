# Buster part optimizer, modelled in Dafny

The optimizer chooses buster parts for Mega Man Legends. Each part in the
player's catalog adds to four stats: attack, energy, range and rapid. A layout
holds up to two parts, or three when the player has the adapter plug. Its stats
start at 1, add each part's contributions in byte-sized counters, and are
capped: attack, energy and range at 7, and rapid at 4 (7 in the sequel). The
layout's score is the weighted sum of the capped stats, under four integer
weights. The optimizer finds the best layout of each size by enumerating every
combination of that many parts in catalog order. It keeps the best over the
sizes 1..k. A candidate replaces the running best only when it scores strictly
more, and every search starts from the empty layout at score 0.

The model has four modules:

- `Buster` (`buster.dfy`) holds the part and layout records and the
  configuration record (`Config`: adapter plug, four weights, sequel flag,
  catalog). It also holds capping, scoring, and the stat tally as a loop over
  byte counters. The tally is specified by `RawStats`, and the order-independence
  and empty-layout lemmas are stated about it.
- `Combinations` (`combinations.dfy`) names a selection of catalog parts by its
  strictly increasing index sequence, together with the lexicographic order in
  which the enumeration visits them.
- `Optimizer` (`optimizer.dfy`) holds the search.
  - `generate_layouts`, `find_best_layout`, `simulate_new` and `simulate` are
    methods with the source's loops and recursion.
  - Each method is proved equal to a specification function: `Generate`,
    `FindBest` or `Simulated`.
  - The search lemmas are stated for any scoring function (`Scorer`). The
    optimizer instantiates them with `Scoring(config)`, the score of a part
    list under `config`.
  - The results about `simulate` are stated with `ScoreOf(config, ...)`.
- `Scenarios` (`scenarios.dfy`) works out three small runs of the optimizer.

Two behaviours follow from the code and are proved here.

- When no combination of 1..k parts scores above 0, the result is the empty
  layout. This includes all-zero weights and an empty catalog. With all-zero weights
  one might expect the first-enumerated combination. The code keeps the empty
  layout, because the comparison is strict and the search starts at score 0.
  The model follows the code.
- `find_best_layout` returns the empty layout when no combination of its size
  scores above 0, for example when the catalog has fewer parts than the size.
  `simulate_new` then scores that empty layout like any other candidate. Its
  score is the sum of the weights, and it can displace a real combination
  (`Scenarios.EmptyKept`). When every size finds some positive combination,
  the empty layout is never scored, even if it would score more
  (`Scenarios.EmptyNotTried`). The optimality lemma is therefore stated over
  combinations that score above 0, which is what the code guarantees.

## Model

| member | source | states |
|---|---|---|
| Buster.ClampStats | src/buster.rs:28-45 | each capped stat is at most its cap (7, 7, 7, and 4 or 7 for rapid in the sequel) and at most its input, and equals one of the two |
| Buster.ClampIdempotent | src/buster.rs:28-45 | capping already capped stats changes nothing |
| Buster.ClampMonotone | src/buster.rs:28-45 | capping is monotone in every stat |
| Buster.ScoreStats | src/buster.rs:48-64 | the score is attack weight times min(attack, 7), plus energy weight times min(energy, 7), plus range weight times min(range, 7), plus rapid weight times min(rapid, 4 or 7 in the sequel) |
| Buster.ScoreStatsIgnoresClamping | src/buster.rs:91-95 | scoring stats that `stats` has already capped gives the same score as scoring the uncapped tally, so the second capping has no effect |
| Buster.RawStats | src/buster.rs:73-85 | the tally starts every stat at 1, so each stat of any part list is at least 1 |
| Buster.StatsOf | src/buster.rs:73-88 | the capped stats of any part list lie between 1 and their caps |
| Buster.BusterLayout.Stats | src/buster.rs:73-88 | the byte-counter loop returns the capped tally of the layout's parts, provided no counter exceeds 255 |
| Buster.BusterLayout.Score | src/buster.rs:91-95 | the score of a layout is the weighted sum of its capped tally |
| Buster.RawStatsAppend | src/buster.rs:80-85 | the tally of two part lists joined is both tallies added, with the base of 1 counted once |
| Buster.RawStatsPrefix | src/buster.rs:80-85 | every partial tally in the loop is at most the final tally, so a tally that fits in a byte never overflows part-way |
| Buster.RawStatsRemove | src/buster.rs:80-85 | moving one part to the end of the list leaves the tally unchanged |
| Buster.RawStatsPermutation | src/buster.rs:80-85 | two part lists with the same parts have the same tally, whatever their order |
| Buster.StatsOrderIndependent | src/buster.rs:73-95 | the capped stats and the score of a layout do not depend on the order of its parts |
| Buster.BusterLayout.Empty | src/buster.rs:23-25 | the empty layout has zero parts |
| Buster.EmptyLayoutStats | src/buster.rs:23-25 | the empty layout has stats (1, 1, 1, 1) in either game and scores the sum of the four weights |
| Optimizer.MaxParts | src/optimizer.rs:14-17 | a layout has 3 slots exactly when the adapter plug is present, and 2 otherwise |
| Optimizer.GenerateLayouts | src/optimizer.rs:49-71 | the recursive enumeration leaves in the best-score and best-layout accumulators exactly what `Generate` computes |
| Optimizer.FindBestLayout | src/optimizer.rs:37-46 | the best layout of one size, searched from the empty layout at score 0, is `FindBest` |
| Optimizer.SimulateNew | src/optimizer.rs:12-34 | the loop over sizes 1..k (k = 2, or 3 with the adapter plug) with strict improvement returns `Simulated(config)` |
| Optimizer.Simulate | src/optimizer.rs:7-9 | `simulate` returns the same layout as `simulate_new` |
| Optimizer.FitFromCombos | src/optimizer.rs:49-71 | if every combination of the requested size fits the byte counters, so does every layout the enumeration scores |
| Optimizer.GenerateMonotone | src/optimizer.rs:52-58 | the running best score never decreases |
| Optimizer.GenerateUpperBound | src/optimizer.rs:49-71 | every combination of exactly `partCount` parts, added to the current layout, scores at most the final best |
| Optimizer.GenerateChoice | src/optimizer.rs:49-71 | the accumulators are either unchanged, or they hold a strictly higher score equal to the stored layout's score. That layout is the current one plus a combination of exactly `partCount` parts, the first in enumeration order to reach that score |
| Optimizer.GenerateTooFewParts | src/optimizer.rs:62-70 | with fewer parts left than slots to fill, nothing is scored and the accumulators are unchanged |
| Optimizer.FirstToReachWithFirst | src/optimizer.rs:63-68 | the first combination to reach a score among those that take the first remaining part is also first among all combinations, since those are enumerated first |
| Optimizer.FirstToReachSkipFirst | src/optimizer.rs:63-68 | a combination that skips the first part and beats everything that takes it is first among all combinations to reach its score |
| Optimizer.FindBestChoice | src/optimizer.rs:37-46 | the best layout of one size is empty, or a combination of exactly that size that scores above 0 and is the first to reach its score. It scores at least as much as every combination of that size that scores above 0, and it is empty only when no combination of that size scores above 0 |
| Optimizer.SizesStep | src/optimizer.rs:23-31 | one pass of the size loop keeps the invariant: the best dominates all positive combinations of the sizes tried, is the first to reach its score, and is empty while nothing positive was found |
| Optimizer.SizesFromInvariant | src/optimizer.rs:23-31 | the invariant of the size loop holds after all sizes up to k |
| Optimizer.SimulatedInvariant | src/optimizer.rs:12-34 | the invariant holds for the layout `simulate_new` returns |
| Optimizer.SimulatedWithinCatalog | src/optimizer.rs:14-24 | the result holds at most 2 parts, or 3 with the adapter plug. They are catalog parts at strictly increasing positions, so no part appears twice and catalog order is kept |
| Optimizer.SimulatedOptimal | src/optimizer.rs:23-31 | every combination of 1..k catalog parts that scores above 0 scores at most as much as the result |
| Optimizer.SimulatedEmptyWhenNothingPositive | src/optimizer.rs:20-31 | when no combination of 1..k parts scores above 0, the result is the empty layout |
| Optimizer.SimulatedTieBreak | src/optimizer.rs:23-31 | a nonempty result scores above 0, and every smaller combination, and every earlier one of its size, scores strictly less: ties go to the smaller size, then to the lexicographically first positions |
| Optimizer.SimulatedZeroWeights | src/optimizer.rs:20-31 | with all four weights 0 the result is the empty layout |
| Optimizer.SimulatedEmptyCatalog | src/optimizer.rs:20-31 | an empty catalog gives the empty layout |
| Scenarios.UnitScores | src/buster.rs:48-95 | with A(3,0,0,0), B(0,3,0,0), C(1,1,1,1) and unit weights, A and B score 7, C scores 8, A+B scores 10, and A+C and B+C score 11 |
| Scenarios.UnitSizeOne | src/optimizer.rs:37-71 | the best single part of that catalog is C |
| Scenarios.UnitSizeTwoWithA | src/optimizer.rs:63-68 | among the pairs starting with A, A+C beats A+B |
| Scenarios.UnitSizeTwo | src/optimizer.rs:37-71 | the best pair is A+C; B+C only ties it and comes later |
| Scenarios.UnitWeights | src/optimizer.rs:12-34 | the optimizer returns A and C, with capped stats (5, 2, 2, 2) and score 11 |
| Scenarios.EmptyKept | src/optimizer.rs:23-31 | with one part P(0,1,0,0), attack weight 20 and energy weight -5, size 2 yields the empty layout, whose score 15 beats P's 10, so the result is empty |
| Scenarios.EmptyNotTried | src/optimizer.rs:23-31 | with two copies of P and the same weights, the result is P (10), though the empty layout would score 15 |

## Left out

- `print_stats` (src/buster.rs:98-109) only writes to standard output.
- `simulate_old` (src/optimizer.rs:73-162) and `score_stats_tup` (src/buster.rs:66-71) are commented out in the source.
- `Config::new` is not modelled: it parses the command line and reads the part catalog file. `main` and the rest of src/config.rs are not part of this model either. Only the `Config` record itself (src/config.rs:10-18) is modelled.
- Buster.BusterLayout.Stats: requires every stat tally to fit in a byte. Overflow of the `u8` counters is not modelled, neither as the panic of a debug build nor as the wrap-around of a release build.
- Optimizer.SimulateNew: requires that no combination of 1..k catalog parts overflows a byte counter, for the same reason.
- Buster.ScoreStats: the weights and the score are unbounded integers, so overflow of the `i32` weighted sum is not modelled.
- Part names are carried but play no role. Parts and layouts are values, so cloning and borrowing have no counterpart.
- `generate_layouts` returns its two `&mut` accumulators as out-parameters instead of updating them through references.
