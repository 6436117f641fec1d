/**
 * Worked runs of the optimizer on small catalogs, computed from the model.
 * Parts are parameters fixed by their four stats, so their names are left open.
 */
module Scenarios {
  import opened Buster
  import opened Optimizer

  // ---------------------------------------------------------------------------
  // Three parts, unit weights, two slots
  // ---------------------------------------------------------------------------

  /** A(3,0,0,0), B(0,3,0,0), C(1,1,1,1) with all weights 1, no adapter plug, first game. */
  predicate UnitExample(a: BusterPart, b: BusterPart, c: BusterPart, config: Config)
  {
    a.attack == 3 && a.energy == 0 && a.range == 0 && a.rapid == 0 &&
    b.attack == 0 && b.energy == 3 && b.range == 0 && b.rapid == 0 &&
    c.attack == 1 && c.energy == 1 && c.range == 1 && c.rapid == 1 &&
    config == Config(false, 1, 1, 1, 1, false, [a, b, c])
  }

  /** The scores of every nonempty selection of at most two of A, B, C. */
  lemma UnitScores(a: BusterPart, b: BusterPart, c: BusterPart, config: Config)
    requires UnitExample(a, b, c, config)
    ensures ScoreOf(config, [a]) == 7 && ScoreOf(config, [b]) == 7 && ScoreOf(config, [c]) == 8
    ensures ScoreOf(config, [a, b]) == 10 && ScoreOf(config, [a, c]) == 11 && ScoreOf(config, [b, c]) == 11
    ensures StatsOf(config, [a, c]) == Tally(5, 2, 2, 2)
  {
    assert [a][..0] == [] && [b][..0] == [] && [c][..0] == [];
    assert [a, b][..1] == [a] && [a, c][..1] == [a] && [b, c][..1] == [b];
    assert RawStats([a]) == Tally(4, 1, 1, 1);
    assert RawStats([b]) == Tally(1, 4, 1, 1);
    assert RawStats([c]) == Tally(2, 2, 2, 2);
    assert RawStats([a, b]) == Tally(4, 4, 1, 1);
    assert RawStats([a, c]) == Tally(5, 2, 2, 2);
    assert RawStats([b, c]) == Tally(2, 5, 2, 2);
  }

  /** One part: C (score 8) beats A and B (score 7 each). */
  lemma UnitSizeOne(score: Scorer, a: BusterPart, b: BusterPart, c: BusterPart)
    requires score([a]) == 7 && score([b]) == 7 && score([c]) == 8
    ensures FindBest(score, [a, b, c], 1) == BusterLayout([c])
  {
    assert [a, b, c][1..] == [b, c] && [b, c][1..] == [c] && [c][1..] == [];
    assert [] + [a] == [a] && [] + [b] == [b] && [] + [c] == [c];
    var e := Best(0, BusterLayout.Empty());
    var x1 := Best(7, BusterLayout([a]));
    var x2 := Best(8, BusterLayout([c]));
    assert Generate(score, [], [c], 1, x1) == x2;
    assert Generate(score, [], [b, c], 1, x1) == x2;
    assert Generate(score, [], [a, b, c], 1, e) == x2;
  }

  /** Two parts starting with A: A+C (score 11) beats A+B (score 10). */
  lemma UnitSizeTwoWithA(score: Scorer, a: BusterPart, b: BusterPart, c: BusterPart)
    requires score([a, b]) == 10 && score([a, c]) == 11
    ensures Generate(score, [a], [b, c], 1, Best(0, BusterLayout.Empty())) == Best(11, BusterLayout([a, c]))
  {
    assert [b, c][1..] == [c] && [c][1..] == [];
    assert [a] + [b] == [a, b] && [a] + [c] == [a, c];
    var y1 := Best(10, BusterLayout([a, b]));
    assert Generate(score, [a], [c], 1, y1) == Best(11, BusterLayout([a, c]));
  }

  /** Two parts: A+C is enumerated before B+C, which only ties it at 11. */
  lemma UnitSizeTwo(score: Scorer, a: BusterPart, b: BusterPart, c: BusterPart)
    requires score([a, b]) == 10 && score([a, c]) == 11 && score([b, c]) == 11
    ensures FindBest(score, [a, b, c], 2) == BusterLayout([a, c])
  {
    UnitSizeTwoWithA(score, a, b, c);
    assert [a, b, c][1..] == [b, c] && [b, c][1..] == [c] && [c][1..] == [];
    assert [] + [a] == [a] && [] + [b] == [b] && [] + [c] == [c] && [b] + [c] == [b, c];
    var y2 := Best(11, BusterLayout([a, c]));
    assert Generate(score, [b], [c], 1, y2) == y2;
    assert Generate(score, [], [c], 2, y2) == y2;
    assert Generate(score, [], [b, c], 2, y2) == y2;
  }

  /** The optimizer picks A and C, with capped stats (5, 2, 2, 2) and score 11. */
  lemma UnitWeights(a: BusterPart, b: BusterPart, c: BusterPart, config: Config)
    requires UnitExample(a, b, c, config)
    ensures Simulated(config).busterParts == [a, c]
    ensures StatsOf(config, [a, c]) == Tally(5, 2, 2, 2) && ScoreOf(config, [a, c]) == 11
  {
    var score := Scoring(config);
    UnitScores(a, b, c, config);
    assert score([a]) == 7 && score([b]) == 7 && score([c]) == 8;
    assert score([a, b]) == 10 && score([a, c]) == 11 && score([b, c]) == 11;
    UnitSizeOne(score, a, b, c);
    UnitSizeTwo(score, a, b, c);
    var e := Best(0, BusterLayout.Empty());
    var x2 := Best(8, BusterLayout([c]));
    var y2 := Best(11, BusterLayout([a, c]));
    assert score([c]) == 8 && score([a, c]) == 11;
    assert SizesFrom(score, [a, b, c], 2, 2, x2) == y2;
    assert SizesFrom(score, [a, b, c], 2, 1, e) == y2;
  }

  // ---------------------------------------------------------------------------
  // The empty layout returned for a size with no positive combination
  // ---------------------------------------------------------------------------

  /**
   * One part P(0,1,0,0), attack weight 20, energy weight -5. Size 1 finds P
   * (score 10); size 2 finds nothing and yields the empty layout, whose score 15
   * beats 10, so the optimizer returns no parts at all.
   */
  lemma EmptyKept(p: BusterPart, config: Config)
    requires p.attack == 0 && p.energy == 1 && p.range == 0 && p.rapid == 0
    requires config == Config(false, 20, -5, 0, 0, false, [p])
    ensures ScoreOf(config, [p]) == 10 && ScoreOf(config, []) == 15
    ensures Simulated(config).busterParts == []
  {
    var score := Scoring(config);
    assert [p][..0] == [];
    assert RawStats([p]) == Tally(1, 2, 1, 1);
    assert ClampStats(config, Tally(1, 2, 1, 1)) == Tally(1, 2, 1, 1);
    assert ScoreOf(config, [p]) == 10;
    assert score([p]) == 10;
    assert score([]) == 15;
    var e := Best(0, BusterLayout.Empty());
    var b1 := Best(10, BusterLayout([p]));
    assert [] + [p] == [p];
    assert [p][1..] == [];
    assert Generate(score, [], [p], 1, e) == b1;
    assert Generate(score, [], [p], 2, e) == e;
    assert SizesFrom(score, [p], 2, 1, e) == Best(15, BusterLayout([]));
  }

  /**
   * The same weights with two copies of P. Now size 2 finds P+P (score 5 > 0), so
   * the empty layout is never scored and the optimizer returns P (score 10),
   * although the empty layout would score 15.
   */
  lemma EmptyNotTried(p: BusterPart, config: Config)
    requires p.attack == 0 && p.energy == 1 && p.range == 0 && p.rapid == 0
    requires config == Config(false, 20, -5, 0, 0, false, [p, p])
    ensures ScoreOf(config, [p]) == 10 && ScoreOf(config, [p, p]) == 5 && ScoreOf(config, []) == 15
    ensures Simulated(config).busterParts == [p]
  {
    var score := Scoring(config);
    assert [p][..0] == [] && [p, p][..1] == [p];
    assert RawStats([p]) == Tally(1, 2, 1, 1);
    assert RawStats([p, p]) == Tally(1, 3, 1, 1);
    assert ScoreOf(config, [p]) == 10;
    assert ScoreOf(config, [p, p]) == 5;
    assert score([p]) == 10 && score([p, p]) == 5;
    var e := Best(0, BusterLayout.Empty());
    var b1 := Best(10, BusterLayout([p]));
    var b2 := Best(5, BusterLayout([p, p]));
    assert [] + [p] == [p] && [p] + [p] == [p, p];
    assert [p, p][1..] == [p] && [p][1..] == [];
    assert Generate(score, [], [p], 1, b1) == b1;
    assert Generate(score, [], [p, p], 1, e) == b1;
    assert Generate(score, [p], [p], 1, e) == b2;
    assert Generate(score, [], [p], 2, b2) == b2;
    assert Generate(score, [], [p, p], 2, e) == b2;
    assert SizesFrom(score, [p, p], 2, 1, e) == b1;
  }
}
