/**
 * The selector: enumerate every combination of 1..k catalog parts (k = 2, or 3
 * with the adapter plug), score each, and keep the running best. A candidate
 * replaces the best only when it scores strictly more, and both the per-size
 * search and the search over sizes start from the empty layout at score 0.
 */
module Optimizer {
  import opened Buster
  import opened Combinations

  /** The running best: a score and the layout that reached it. */
  datatype Best = Best(score: int, layout: BusterLayout)

  /**
   * A scoring of part lists. The search is stated for any scoring; the
   * optimizer runs it with `Scoring(config)`.
   */
  type Scorer = seq<BusterPart> -> int

  /** The scoring the optimizer uses: `BusterLayout::score` under `config`. */
  function Scoring(config: Config): Scorer
  {
    parts => ScoreOf(config, parts)
  }

  /** How many parts fit on the buster: 2, or 3 with the adapter plug. */
  function MaxParts(config: Config): (k: nat)
    ensures 2 <= k <= 3 && (k == 3 <==> config.adapterPlug)
  {
    if config.adapterPlug then 3 else 2
  }

  /** The strict-improvement update of the running best by one candidate layout. */
  function Consider(score: Scorer, candidate: BusterLayout, acc: Best): Best
  {
    var s := score(candidate.busterParts);
    if s > acc.score then Best(s, candidate) else acc
  }

  /**
   * What `generate_layouts` leaves in the accumulators: with no slot left the
   * current layout is considered; otherwise each remaining part, in order, is
   * tried as the next one, followed by the parts after it.
   */
  function Generate(score: Scorer, current: seq<BusterPart>, partList: seq<BusterPart>, partCount: nat, acc: Best): Best
    decreases |partList|
  {
    if partCount == 0 then Consider(score, BusterLayout(current), acc)
    else if partList == [] then acc
    else
      var withFirst := Generate(score, current + [partList[0]], partList[1..], partCount - 1, acc);
      Generate(score, current, partList[1..], partCount, withFirst)
  }

  /** The layout `find_best_layout` returns for one size. */
  function FindBest(score: Scorer, partList: seq<BusterPart>, partCount: nat): BusterLayout
  {
    Generate(score, [], partList, partCount, Best(0, BusterLayout.Empty())).layout
  }

  /** The running best after the sizes `size..maxParts` have been tried on `catalog`. */
  function SizesFrom(score: Scorer, catalog: seq<BusterPart>, maxParts: nat, size: nat, acc: Best): Best
    decreases maxParts + 1 - size
  {
    if size > maxParts then acc
    else SizesFrom(score, catalog, maxParts, size + 1, Consider(score, FindBest(score, catalog, size), acc))
  }

  /** The layout `simulate_new` returns. */
  function Simulated(config: Config): BusterLayout
  {
    SizesFrom(Scoring(config), config.busterParts, MaxParts(config), 1, Best(0, BusterLayout.Empty())).layout
  }

  // ---------------------------------------------------------------------------
  // Byte overflow: which layouts get tallied
  // ---------------------------------------------------------------------------

  /** Every layout that `generate_layouts` scores fits the byte-sized tally. */
  ghost predicate LayoutsFit(current: seq<BusterPart>, partList: seq<BusterPart>, partCount: nat)
    decreases |partList|
  {
    if partCount == 0 then FitsInU8(current)
    else
      (partList == [] ||
       (LayoutsFit(current + [partList[0]], partList[1..], partCount - 1) &&
        LayoutsFit(current, partList[1..], partCount)))
  }

  /** No combination of 1..k catalog parts overflows a byte-sized stat counter. */
  ghost predicate NoOverflow(config: Config)
  {
    forall c :: IsCombo(c, |config.busterParts|) && 1 <= |c| <= MaxParts(config) ==>
      FitsInU8(Pick(config.busterParts, c))
  }

  /** If every combination of `partCount` parts fits, so does every layout the enumeration scores. */
  lemma {:induction false} FitFromCombos(current: seq<BusterPart>, partList: seq<BusterPart>, partCount: nat)
    requires forall c :: IsCombo(c, |partList|) && |c| == partCount ==> FitsInU8(current + Pick(partList, c))
    ensures LayoutsFit(current, partList, partCount)
    decreases |partList|
  {
    if partCount == 0 {
      assert IsCombo([], |partList|) && current + Pick(partList, []) == current;
    } else if partList != [] {
      forall c1 | IsCombo(c1, |partList| - 1) && |c1| == partCount - 1
        ensures FitsInU8(current + [partList[0]] + Pick(partList[1..], c1))
      {
        TakeFirst(partList, c1);
        assert current + Pick(partList, [0] + Shift(c1, 1)) == current + [partList[0]] + Pick(partList[1..], c1);
      }
      FitFromCombos(current + [partList[0]], partList[1..], partCount - 1);
      forall c2 | IsCombo(c2, |partList| - 1) && |c2| == partCount
        ensures FitsInU8(current + Pick(partList[1..], c2))
      {
        SkipFirst(partList, c2);
      }
      FitFromCombos(current, partList[1..], partCount);
    }
  }

  // ---------------------------------------------------------------------------
  // The search, as the source runs it
  // ---------------------------------------------------------------------------

  /**
   * Tries every way to add `partCount` more parts from `partList` to
   * `currentLayout`, threading the running best through in and out parameters.
   */
  method GenerateLayouts(config: Config, currentLayout: BusterLayout, partList: seq<BusterPart>, partCount: nat,
                         bestScore: int, bestLayout: BusterLayout)
    returns (newBestScore: int, newBestLayout: BusterLayout)
    requires LayoutsFit(currentLayout.busterParts, partList, partCount)
    ensures Best(newBestScore, newBestLayout)
         == Generate(Scoring(config), currentLayout.busterParts, partList, partCount, Best(bestScore, bestLayout))
    decreases |partList|
  {
    var current := currentLayout.busterParts;
    newBestScore, newBestLayout := bestScore, bestLayout;
    if partCount == 0 {
      var score := currentLayout.Score(config);
      if score > newBestScore {
        newBestScore, newBestLayout := score, currentLayout;
      }
    } else {
      for i := 0 to |partList|
        invariant LayoutsFit(current, partList[i..], partCount)
        invariant Generate(Scoring(config), current, partList[i..], partCount, Best(newBestScore, newBestLayout))
               == Generate(Scoring(config), current, partList, partCount, Best(bestScore, bestLayout))
      {
        assert partList[i..][1..] == partList[i + 1..];
        var part := partList[i];
        var includedLayout := BusterLayout(current + [part]);
        newBestScore, newBestLayout :=
          GenerateLayouts(config, includedLayout, partList[i + 1..], partCount - 1, newBestScore, newBestLayout);
      }
    }
  }

  /** The best layout of exactly `partCount` parts, or the empty layout if none scores above 0. */
  method FindBestLayout(config: Config, partList: seq<BusterPart>, partCount: nat) returns (bestLayout: BusterLayout)
    requires LayoutsFit([], partList, partCount)
    ensures bestLayout == FindBest(Scoring(config), partList, partCount)
  {
    var bestScore := 0;
    bestLayout := BusterLayout.Empty();
    var baseLayout := BusterLayout.Empty();
    bestScore, bestLayout := GenerateLayouts(config, baseLayout, partList, partCount, bestScore, bestLayout);
  }

  /** Tries each size from 1 to the number of slots and keeps the best layout found. */
  method SimulateNew(config: Config) returns (bestLayout: BusterLayout)
    requires NoOverflow(config)
    ensures bestLayout == Simulated(config)
  {
    var partCount := if config.adapterPlug then 3 else 2;
    bestLayout := BusterLayout.Empty();
    var bestScore := 0;
    for i := 1 to partCount + 1
      invariant SizesFrom(Scoring(config), config.busterParts, partCount, i, Best(bestScore, bestLayout))
             == SizesFrom(Scoring(config), config.busterParts, partCount, 1, Best(0, BusterLayout.Empty()))
    {
      forall c | IsCombo(c, |config.busterParts|) && |c| == i
        ensures FitsInU8([] + Pick(config.busterParts, c))
      {
        assert [] + Pick(config.busterParts, c) == Pick(config.busterParts, c);
      }
      FitFromCombos([], config.busterParts, i);
      var layout := FindBestLayout(config, config.busterParts, i);
      FindBestChoice(Scoring(config), config.busterParts, i);
      var score := layout.Score(config);
      if score > bestScore {
        bestLayout, bestScore := layout, score;
      }
    }
  }

  /** `simulate` is `simulate_new`. */
  method Simulate(config: Config) returns (layout: BusterLayout)
    requires NoOverflow(config)
    ensures layout == Simulated(config)
  {
    layout := SimulateNew(config);
  }

  // ---------------------------------------------------------------------------
  // What one run of the enumeration computes
  // ---------------------------------------------------------------------------

  /**
   * `c` is a combination of `partCount` entries of `partList` such that every
   * combination of that size enumerated before it, added to `current`, scores
   * strictly less than `s`.
   */
  ghost predicate FirstToReach(score: Scorer, current: seq<BusterPart>, partList: seq<BusterPart>, partCount: nat,
                               c: seq<int>, s: int)
  {
    IsCombo(c, |partList|) && |c| == partCount &&
    forall c' :: IsCombo(c', |partList|) && |c'| == partCount && LexLess(c', c) ==>
      score(current + Pick(partList, c')) < s
  }

  /** The running best never decreases. */
  lemma {:induction false} GenerateMonotone(score: Scorer, current: seq<BusterPart>, partList: seq<BusterPart>,
                                            partCount: nat, acc: Best)
    ensures Generate(score, current, partList, partCount, acc).score >= acc.score
    decreases |partList|
  {
    if partCount != 0 && partList != [] {
      var a := Generate(score, current + [partList[0]], partList[1..], partCount - 1, acc);
      GenerateMonotone(score, current + [partList[0]], partList[1..], partCount - 1, acc);
      GenerateMonotone(score, current, partList[1..], partCount, a);
    }
  }

  /** Every combination of exactly `partCount` entries, added to `current`, scores at most the final best. */
  lemma {:induction false} GenerateUpperBound(score: Scorer, current: seq<BusterPart>, partList: seq<BusterPart>,
                                              partCount: nat, acc: Best, c: seq<int>)
    requires IsCombo(c, |partList|) && |c| == partCount
    ensures score(current + Pick(partList, c)) <= Generate(score, current, partList, partCount, acc).score
    decreases |partList|
  {
    if partCount == 0 {
      assert current + Pick(partList, c) == current;
    } else {
      assert 0 <= c[0] < |partList|;
      var head, rest := partList[0], partList[1..];
      var a := Generate(score, current + [head], rest, partCount - 1, acc);
      GenerateMonotone(score, current, rest, partCount, a);
      if c[0] == 0 {
        var c1 := Shift(c[1..], -1);
        PickWithFirst(current, partList, c);
        GenerateUpperBound(score, current + [head], rest, partCount - 1, acc, c1);
      } else {
        SplitSkip(partList, c);
        GenerateUpperBound(score, current, rest, partCount, a, Shift(c, -1));
      }
    }
  }

  /** A combination starting at index 0, added to `current`, is `current` plus the first entry plus a combination of the rest. */
  lemma {:induction false} PickWithFirst(current: seq<BusterPart>, partList: seq<BusterPart>, c: seq<int>)
    requires IsCombo(c, |partList|) && |c| > 0 && c[0] == 0
    ensures IsCombo(Shift(c[1..], -1), |partList| - 1)
    ensures c == [0] + Shift(Shift(c[1..], -1), 1)
    ensures current + Pick(partList, c) == current + [partList[0]] + Pick(partList[1..], Shift(c[1..], -1))
  {
    SplitFirst(partList, c);
  }

  /** `current` plus the first entry plus a combination of the rest is `current` plus a combination starting at index 0. */
  lemma {:induction false} PickTakingFirst(current: seq<BusterPart>, partList: seq<BusterPart>, c1: seq<int>)
    requires partList != [] && IsCombo(c1, |partList| - 1)
    ensures current + [partList[0]] + Pick(partList[1..], c1) == current + Pick(partList, [0] + Shift(c1, 1))
  {
    TakeFirst(partList, c1);
    assert current + [partList[0]] + Pick(partList[1..], c1) == current + ([partList[0]] + Pick(partList[1..], c1));
  }

  /**
   * `current` plus the first entry, then the first combination of the rest to
   * reach `s`, is the first combination of the whole list to reach `s`.
   */
  lemma {:induction false} FirstToReachWithFirst(score: Scorer, current: seq<BusterPart>, partList: seq<BusterPart>,
                                                 partCount: nat, c1: seq<int>, s: int)
    requires partCount >= 1 && partList != []
    requires FirstToReach(score, current + [partList[0]], partList[1..], partCount - 1, c1, s)
    ensures FirstToReach(score, current, partList, partCount, [0] + Shift(c1, 1), s)
  {
    var c := [0] + Shift(c1, 1);
    TakeFirst(partList, c1);
    forall c' | IsCombo(c', |partList|) && |c'| == partCount && LexLess(c', c)
      ensures score(current + Pick(partList, c')) < s
    {
      EarlierWithFirst(score, current, partList, partCount, c1, s, c');
    }
  }

  /** One step of FirstToReachWithFirst: a combination enumerated before `[0] + Shift(c1, 1)` scores less than `s`. */
  lemma {:induction false} EarlierWithFirst(score: Scorer, current: seq<BusterPart>, partList: seq<BusterPart>,
                                            partCount: nat, c1: seq<int>, s: int, c': seq<int>)
    requires partCount >= 1 && partList != []
    requires FirstToReach(score, current + [partList[0]], partList[1..], partCount - 1, c1, s)
    requires IsCombo(c', |partList|) && |c'| == partCount && LexLess(c', [0] + Shift(c1, 1))
    ensures score(current + Pick(partList, c')) < s
  {
    var c := [0] + Shift(c1, 1);
    assert c[0] == 0 && c[1..] == Shift(c1, 1);
    assert c'[0] == 0 && LexLess(c'[1..], Shift(c1, 1));
    PickWithFirst(current, partList, c');
    var c1' := Shift(c'[1..], -1);
    assert Shift(c1', 1) == c'[1..];
    LexLessShift(c1', c1, 1);
    var head, rest := partList[0], partList[1..];
    assert IsCombo(c1', |rest|) && |c1'| == partCount - 1 && LexLess(c1', c1);
    assert score(current + [head] + Pick(rest, c1')) < s;
  }

  /**
   * A combination of the rest that is the first to reach `s`, where `s` beats
   * everything that includes the first entry, is the first combination of the
   * whole list to reach `s`.
   */
  lemma {:induction false} FirstToReachSkipFirst(score: Scorer, current: seq<BusterPart>, partList: seq<BusterPart>,
                                                 partCount: nat, acc: Best, c2: seq<int>, s: int)
    requires partCount >= 1 && partList != []
    requires FirstToReach(score, current, partList[1..], partCount, c2, s)
    requires s > Generate(score, current + [partList[0]], partList[1..], partCount - 1, acc).score
    ensures FirstToReach(score, current, partList, partCount, Shift(c2, 1), s)
    ensures Pick(partList, Shift(c2, 1)) == Pick(partList[1..], c2)
  {
    var c := Shift(c2, 1);
    SkipFirst(partList, c2);
    forall c' | IsCombo(c', |partList|) && |c'| == partCount && LexLess(c', c)
      ensures score(current + Pick(partList, c')) < s
    {
      EarlierSkipFirst(score, current, partList, partCount, acc, c2, s, c');
    }
  }

  /** One step of FirstToReachSkipFirst: a combination enumerated before `Shift(c2, 1)` scores less than `s`. */
  lemma {:induction false} EarlierSkipFirst(score: Scorer, current: seq<BusterPart>, partList: seq<BusterPart>,
                                            partCount: nat, acc: Best, c2: seq<int>, s: int, c': seq<int>)
    requires partCount >= 1 && partList != []
    requires FirstToReach(score, current, partList[1..], partCount, c2, s)
    requires s > Generate(score, current + [partList[0]], partList[1..], partCount - 1, acc).score
    requires IsCombo(c', |partList|) && |c'| == partCount && LexLess(c', Shift(c2, 1))
    ensures score(current + Pick(partList, c')) < s
  {
    if c'[0] == 0 {
      EarlierTakingFirst(score, current, partList, partCount, acc, s, c');
    } else {
      EarlierSkippingFirst(score, current, partList, partCount, c2, s, c');
    }
  }

  /** A combination that takes the first entry scores at most the best over those, hence less than `s`. */
  lemma {:induction false} EarlierTakingFirst(score: Scorer, current: seq<BusterPart>, partList: seq<BusterPart>,
                                              partCount: nat, acc: Best, s: int, c': seq<int>)
    requires partCount >= 1 && partList != []
    requires s > Generate(score, current + [partList[0]], partList[1..], partCount - 1, acc).score
    requires IsCombo(c', |partList|) && |c'| == partCount && c'[0] == 0
    ensures score(current + Pick(partList, c')) < s
  {
    var c1' := Shift(c'[1..], -1);
    PickWithFirst(current, partList, c');
    GenerateUpperBound(score, current + [partList[0]], partList[1..], partCount - 1, acc, c1');
  }

  /** A combination that skips the first entry and comes before `Shift(c2, 1)` comes before `c2` in the rest. */
  lemma {:induction false} EarlierSkippingFirst(score: Scorer, current: seq<BusterPart>, partList: seq<BusterPart>,
                                                partCount: nat, c2: seq<int>, s: int, c': seq<int>)
    requires partList != []
    requires FirstToReach(score, current, partList[1..], partCount, c2, s)
    requires IsCombo(c', |partList|) && |c'| == partCount && |c'| > 0 && c'[0] != 0 && LexLess(c', Shift(c2, 1))
    ensures score(current + Pick(partList, c')) < s
  {
    SplitSkip(partList, c');
    var c2' := Shift(c', -1);
    LexLessShift(c2', c2, 1);
    assert IsCombo(c2', |partList| - 1) && |c2'| == partCount && LexLess(c2', c2);
  }

  /**
   * The running best either stays as it was, or rises strictly to the score of
   * `current` plus a combination of exactly `partCount` entries, the first such
   * combination in enumeration order to reach that score.
   */
  lemma {:induction false} GenerateChoice(score: Scorer, current: seq<BusterPart>, partList: seq<BusterPart>,
                                          partCount: nat, acc: Best)
    ensures var g := Generate(score, current, partList, partCount, acc);
      g == acc ||
      (g.score > acc.score && g.score == score(g.layout.busterParts) &&
       exists c :: FirstToReach(score, current, partList, partCount, c, g.score) &&
         g.layout.busterParts == current + Pick(partList, c))
    decreases |partList|
  {
    var g := Generate(score, current, partList, partCount, acc);
    if partCount == 0 {
      if g != acc {
        assert current + Pick(partList, []) == current;
        assert FirstToReach(score, current, partList, partCount, [], g.score);
      }
    } else if partList != [] {
      var head, rest := partList[0], partList[1..];
      var a := Generate(score, current + [head], rest, partCount - 1, acc);
      GenerateChoice(score, current + [head], rest, partCount - 1, acc);
      GenerateChoice(score, current, rest, partCount, a);
      if g == a && a != acc {
        var c1 :| FirstToReach(score, current + [head], rest, partCount - 1, c1, a.score) &&
                  a.layout.busterParts == current + [head] + Pick(rest, c1);
        FirstToReachWithFirst(score, current, partList, partCount, c1, g.score);
        PickTakingFirst(current, partList, c1);
      } else if g != a {
        var c2 :| FirstToReach(score, current, rest, partCount, c2, g.score) &&
                  g.layout.busterParts == current + Pick(rest, c2);
        FirstToReachSkipFirst(score, current, partList, partCount, acc, c2, g.score);
        assert g.layout.busterParts == current + Pick(partList, Shift(c2, 1));
      }
    }
  }

  /** With fewer entries left than slots to fill, nothing is scored and the accumulators are unchanged. */
  lemma {:induction false} GenerateTooFewParts(score: Scorer, current: seq<BusterPart>, partList: seq<BusterPart>,
                                               partCount: nat, acc: Best)
    requires |partList| < partCount
    ensures Generate(score, current, partList, partCount, acc) == acc
    decreases |partList|
  {
    if partList != [] {
      GenerateTooFewParts(score, current + [partList[0]], partList[1..], partCount - 1, acc);
      GenerateTooFewParts(score, current, partList[1..], partCount, acc);
    }
  }

  /**
   * For one size: the result is empty, or it is a combination of exactly that
   * many catalog entries that scores above 0 and is the first in enumeration
   * order to reach its score; every combination of that size that scores above
   * 0 scores at most as much as the result.
   */
  lemma FindBestChoice(score: Scorer, partList: seq<BusterPart>, partCount: nat)
    requires partCount >= 1
    ensures var r := FindBest(score, partList, partCount);
      (r.busterParts == [] ||
       (score(r.busterParts) > 0 &&
        exists c :: FirstToReach(score, [], partList, partCount, c, score(r.busterParts)) &&
          r.busterParts == Pick(partList, c))) &&
      (forall c :: IsCombo(c, |partList|) && |c| == partCount && score(Pick(partList, c)) > 0 ==>
        score(Pick(partList, c)) <= score(r.busterParts)) &&
      (r.busterParts == [] ==>
        forall c :: IsCombo(c, |partList|) && |c| == partCount ==> score(Pick(partList, c)) <= 0)
  {
    var acc := Best(0, BusterLayout.Empty());
    var g := Generate(score, [], partList, partCount, acc);
    GenerateChoice(score, [], partList, partCount, acc);
    if g != acc {
      var c :| FirstToReach(score, [], partList, partCount, c, g.score) && g.layout.busterParts == [] + Pick(partList, c);
      assert [] + Pick(partList, c) == Pick(partList, c);
      assert g.layout.busterParts != [] && g.score == score(g.layout.busterParts) > 0;
    }
    forall c | IsCombo(c, |partList|) && |c| == partCount
      ensures score(Pick(partList, c)) <= g.score
    {
      GenerateUpperBound(score, [], partList, partCount, acc, c);
      assert [] + Pick(partList, c) == Pick(partList, c);
    }
  }

  // ---------------------------------------------------------------------------
  // What the search over sizes computes
  // ---------------------------------------------------------------------------

  /** Every combination of `lo..hi` catalog entries that scores above 0 scores at most `s`. */
  ghost predicate Dominates(score: Scorer, catalog: seq<BusterPart>, lo: int, hi: int, s: int)
  {
    forall c :: IsCombo(c, |catalog|) && lo <= |c| <= hi && score(Pick(catalog, c)) > 0 ==>
      score(Pick(catalog, c)) <= s
  }

  /** No combination of 1..hi catalog entries scores above 0. */
  ghost predicate NonePositive(score: Scorer, catalog: seq<BusterPart>, hi: int)
  {
    forall c :: IsCombo(c, |catalog|) && 1 <= |c| <= hi ==> score(Pick(catalog, c)) <= 0
  }

  /**
   * `c` is a combination of catalog entries and every nonempty combination
   * tried before it (a smaller one, or one of its size earlier in
   * lexicographic order) scores strictly less than `s`.
   */
  ghost predicate FirstOverall(score: Scorer, catalog: seq<BusterPart>, c: seq<int>, s: int)
  {
    IsCombo(c, |catalog|) &&
    forall c' :: IsCombo(c', |catalog|) && 1 <= |c'| && (|c'| < |c| || (|c'| == |c| && LexLess(c', c))) ==>
      score(Pick(catalog, c')) < s
  }

  /** What holds of the running best once sizes `1..size - 1` have been tried. */
  ghost predicate SizesInvariant(score: Scorer, catalog: seq<BusterPart>, size: nat, acc: Best)
  {
    var parts := acc.layout.busterParts;
    ((acc.score == 0 && parts == []) || (acc.score > 0 && acc.score == score(parts))) &&
    (parts == [] ||
     exists c :: FirstOverall(score, catalog, c, acc.score) && 1 <= |c| < size && parts == Pick(catalog, c)) &&
    Dominates(score, catalog, 1, size - 1, acc.score) &&
    (NonePositive(score, catalog, size - 1) ==> parts == [])
  }

  /** Trying one more size keeps the invariant. */
  lemma {:induction false} SizesStep(score: Scorer, catalog: seq<BusterPart>, size: nat, acc: Best)
    requires 1 <= size && SizesInvariant(score, catalog, size, acc)
    ensures SizesInvariant(score, catalog, size + 1, Consider(score, FindBest(score, catalog, size), acc))
  {
    var fb := FindBest(score, catalog, size);
    if score(fb.busterParts) > acc.score {
      SizesStepImproved(score, catalog, size, acc);
    } else {
      SizesStepKept(score, catalog, size, acc);
    }
  }

  /** A size whose best does not beat the running best leaves it, and the invariant, in place. */
  lemma {:induction false} SizesStepKept(score: Scorer, catalog: seq<BusterPart>, size: nat, acc: Best)
    requires 1 <= size && SizesInvariant(score, catalog, size, acc)
    requires score(FindBest(score, catalog, size).busterParts) <= acc.score
    ensures SizesInvariant(score, catalog, size + 1, acc)
  {
    FindBestChoice(score, catalog, size);
    forall c | IsCombo(c, |catalog|) && 1 <= |c| <= size && score(Pick(catalog, c)) > 0
      ensures score(Pick(catalog, c)) <= acc.score
    {
    }
    assert Dominates(score, catalog, 1, size, acc.score);
    assert NonePositive(score, catalog, size) ==> acc.layout.busterParts == [];
  }

  /** A size whose best beats the running best replaces it, keeping the invariant. */
  lemma {:induction false} SizesStepImproved(score: Scorer, catalog: seq<BusterPart>, size: nat, acc: Best)
    requires 1 <= size && SizesInvariant(score, catalog, size, acc)
    requires score(FindBest(score, catalog, size).busterParts) > acc.score
    ensures var fb := FindBest(score, catalog, size);
      SizesInvariant(score, catalog, size + 1, Best(score(fb.busterParts), fb))
  {
    var fb := FindBest(score, catalog, size);
    var sf := score(fb.busterParts);
    FindBestChoice(score, catalog, size);
    forall c | IsCombo(c, |catalog|) && 1 <= |c| <= size && score(Pick(catalog, c)) > 0
      ensures score(Pick(catalog, c)) <= sf
    {
    }
    assert Dominates(score, catalog, 1, size, sf);
    if fb.busterParts != [] {
      var c :| FirstToReach(score, [], catalog, size, c, sf) && fb.busterParts == Pick(catalog, c);
      FirstOverallOfSize(score, catalog, size, acc.score, c, sf);
      assert 1 <= |c| < size + 1;
      assert !NonePositive(score, catalog, size);
    }
  }

  /**
   * The first combination of size `size` to reach `s` is the first overall when
   * `s` beats a bound `b >= 0` on every smaller combination that scores above 0.
   */
  lemma {:induction false} FirstOverallOfSize(score: Scorer, catalog: seq<BusterPart>, size: nat, b: int, c: seq<int>, s: int)
    requires 1 <= size && 0 <= b < s && Dominates(score, catalog, 1, size - 1, b)
    requires FirstToReach(score, [], catalog, size, c, s)
    ensures FirstOverall(score, catalog, c, s)
  {
    forall c' | IsCombo(c', |catalog|) && 1 <= |c'| && (|c'| < |c| || (|c'| == |c| && LexLess(c', c)))
      ensures score(Pick(catalog, c')) < s
    {
      if |c'| == |c| {
        assert [] + Pick(catalog, c') == Pick(catalog, c');
      }
    }
  }

  /** The invariant holds once every size has been tried. */
  lemma {:induction false} SizesFromInvariant(score: Scorer, catalog: seq<BusterPart>, maxParts: nat, size: nat, acc: Best)
    requires 1 <= size <= maxParts + 1 && SizesInvariant(score, catalog, size, acc)
    ensures SizesInvariant(score, catalog, maxParts + 1, SizesFrom(score, catalog, maxParts, size, acc))
    decreases maxParts + 1 - size
  {
    if size <= maxParts {
      var next := Consider(score, FindBest(score, catalog, size), acc);
      assert SizesFrom(score, catalog, maxParts, size, acc) == SizesFrom(score, catalog, maxParts, size + 1, next);
      SizesStep(score, catalog, size, acc);
      SizesFromInvariant(score, catalog, maxParts, size + 1, next);
    }
  }

  /** The invariant of the search over sizes, at its end, for the optimizer's scoring. */
  lemma SimulatedInvariant(config: Config)
    ensures SizesInvariant(Scoring(config), config.busterParts, MaxParts(config) + 1,
                           SizesFrom(Scoring(config), config.busterParts, MaxParts(config), 1, Best(0, BusterLayout.Empty())))
  {
    SizesFromInvariant(Scoring(config), config.busterParts, MaxParts(config), 1, Best(0, BusterLayout.Empty()));
  }

  // ---------------------------------------------------------------------------
  // What `simulate` promises
  // ---------------------------------------------------------------------------

  /**
   * The result holds at most 2 parts, or 3 with the adapter plug, taken from
   * the catalog at strictly increasing positions: no entry twice, catalog order kept.
   */
  lemma SimulatedWithinCatalog(config: Config)
    ensures |Simulated(config).busterParts| <= (if config.adapterPlug then 3 else 2)
    ensures exists c ::
      (IsCombo(c, |config.busterParts|) && |c| <= MaxParts(config) &&
       Simulated(config).busterParts == Pick(config.busterParts, c))
  {
    SimulatedInvariant(config);
    if Simulated(config).busterParts == [] {
      assert IsCombo([], |config.busterParts|) && Pick(config.busterParts, []) == [];
    }
  }

  /** Every combination of 1..k catalog entries that scores above 0 scores at most the result. */
  lemma SimulatedOptimal(config: Config)
    ensures forall c ::
      (IsCombo(c, |config.busterParts|) && 1 <= |c| <= MaxParts(config) &&
       ScoreOf(config, Pick(config.busterParts, c)) > 0) ==>
      ScoreOf(config, Pick(config.busterParts, c)) <= ScoreOf(config, Simulated(config).busterParts)
  {
    var score, cat, r := Scoring(config), config.busterParts, Simulated(config).busterParts;
    SimulatedInvariant(config);
    forall c | IsCombo(c, |cat|) && 1 <= |c| <= MaxParts(config) && ScoreOf(config, Pick(cat, c)) > 0
      ensures ScoreOf(config, Pick(cat, c)) <= ScoreOf(config, r)
    {
      assert score(Pick(cat, c)) > 0;
      assert score(Pick(cat, c)) <= score(r);
    }
  }

  /** When no combination of 1..k catalog entries scores above 0, the result is the empty layout. */
  lemma SimulatedEmptyWhenNothingPositive(config: Config)
    requires forall c :: IsCombo(c, |config.busterParts|) && 1 <= |c| <= MaxParts(config) ==>
      ScoreOf(config, Pick(config.busterParts, c)) <= 0
    ensures Simulated(config).busterParts == []
  {
    var score, cat := Scoring(config), config.busterParts;
    SimulatedInvariant(config);
    forall c | IsCombo(c, |cat|) && 1 <= |c| <= MaxParts(config)
      ensures score(Pick(cat, c)) <= 0
    {
      assert ScoreOf(config, Pick(cat, c)) <= 0;
    }
    assert NonePositive(score, cat, MaxParts(config));
  }

  /**
   * A nonempty result scores above 0 and is the first combination to reach its
   * score: every smaller combination, and every one of its size earlier in
   * lexicographic order of positions, scores strictly less.
   */
  lemma SimulatedTieBreak(config: Config)
    requires Simulated(config).busterParts != []
    ensures ScoreOf(config, Simulated(config).busterParts) > 0
    ensures exists c ::
      (IsCombo(c, |config.busterParts|) && 1 <= |c| <= MaxParts(config) &&
       Simulated(config).busterParts == Pick(config.busterParts, c) &&
       forall c' ::
         (IsCombo(c', |config.busterParts|) && 1 <= |c'| && (|c'| < |c| || (|c'| == |c| && LexLess(c', c)))) ==>
         ScoreOf(config, Pick(config.busterParts, c')) < ScoreOf(config, Simulated(config).busterParts))
  {
    var score, cat, r := Scoring(config), config.busterParts, Simulated(config).busterParts;
    SimulatedInvariant(config);
    var c :| FirstOverall(score, cat, c, score(r)) && 1 <= |c| <= MaxParts(config) && r == Pick(cat, c);
    forall c' | IsCombo(c', |cat|) && 1 <= |c'| && (|c'| < |c| || (|c'| == |c| && LexLess(c', c)))
      ensures ScoreOf(config, Pick(cat, c')) < ScoreOf(config, r)
    {
      assert score(Pick(cat, c')) < score(r);
    }
  }

  /** With all four weights zero, nothing scores above 0 and the result is the empty layout. */
  lemma SimulatedZeroWeights(config: Config)
    requires config.attackWeight == config.energyWeight == config.rangeWeight == config.rapidWeight == 0
    ensures Simulated(config).busterParts == []
  {
    SimulatedEmptyWhenNothingPositive(config);
  }

  /** An empty catalog gives the empty layout. */
  lemma SimulatedEmptyCatalog(config: Config)
    requires config.busterParts == []
    ensures Simulated(config).busterParts == []
  {
    SimulatedEmptyWhenNothingPositive(config);
  }
}
