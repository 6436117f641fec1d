/**
 * The stat model of the buster optimizer: parts, the configuration they are
 * scored under, capping ("clamping") of the four stats, the weighted score,
 * and the layout whose stats are tallied from its parts.
 *
 * The configuration record lives here rather than in a module of its own
 * because parts and configuration refer to each other.
 */
module Buster {

  /** The values of an unsigned 8-bit integer. */
  type U8 = x: int | 0 <= x < 256

  /** One buster part of the catalog; the name plays no role in scoring. */
  datatype BusterPart = BusterPart(name: string, attack: U8, energy: U8, range: U8, rapid: U8)

  /** The resolved run configuration: two capability flags, four weights and the catalog. */
  datatype Config = Config(
    adapterPlug: bool,
    attackWeight: int,
    energyWeight: int,
    rangeWeight: int,
    rapidWeight: int,
    sequel: bool,
    busterParts: seq<BusterPart>)

  /** Four stat values, in the order attack, energy, range, rapid. */
  datatype Tally = Tally(attack: int, energy: int, range: int, rapid: int)

  const ATTACK_MAX: int := 7
  const ENERGY_MAX: int := 7
  const RANGE_MAX: int := 7

  /** The rapid cap: 4, or 7 when playing the sequel. */
  function RapidMax(config: Config): int
  {
    if config.sequel then 7 else 4
  }

  function Min(a: int, b: int): int
  {
    if a <= b then a else b
  }

  /** Componentwise `t <= u`. */
  predicate AtMost(t: Tally, u: Tally)
  {
    t.attack <= u.attack && t.energy <= u.energy && t.range <= u.range && t.rapid <= u.rapid
  }

  /** Caps every stat: each result is at most its cap and at most its input, and equals one of them. */
  function ClampStats(config: Config, raw: Tally): (c: Tally)
    ensures c.attack <= ATTACK_MAX && c.attack <= raw.attack && (c.attack == ATTACK_MAX || c.attack == raw.attack)
    ensures c.energy <= ENERGY_MAX && c.energy <= raw.energy && (c.energy == ENERGY_MAX || c.energy == raw.energy)
    ensures c.range <= RANGE_MAX && c.range <= raw.range && (c.range == RANGE_MAX || c.range == raw.range)
    ensures c.rapid <= RapidMax(config) && c.rapid <= raw.rapid && (c.rapid == RapidMax(config) || c.rapid == raw.rapid)
  {
    Tally(Min(raw.attack, ATTACK_MAX), Min(raw.energy, ENERGY_MAX),
          Min(raw.range, RANGE_MAX), Min(raw.rapid, RapidMax(config)))
  }

  /** The weighted sum of the capped stats: each weight times its stat capped with `min`. */
  function ScoreStats(config: Config, t: Tally): (r: int)
    ensures r == config.attackWeight * Min(t.attack, 7) + config.energyWeight * Min(t.energy, 7)
               + config.rangeWeight * Min(t.range, 7)
               + config.rapidWeight * Min(t.rapid, if config.sequel then 7 else 4)
  {
    var c := ClampStats(config, t);
    config.attackWeight * c.attack + config.energyWeight * c.energy
      + config.rangeWeight * c.range + config.rapidWeight * c.rapid
  }

  /** Adds one part's contributions to a tally. */
  function AddPart(t: Tally, p: BusterPart): Tally
  {
    Tally(t.attack + p.attack, t.energy + p.energy, t.range + p.range, t.rapid + p.rapid)
  }

  /**
   * The uncapped stats of a list of parts: every stat starts at 1 and each part
   * adds its fields, in list order.
   */
  function RawStats(parts: seq<BusterPart>): (t: Tally)
    ensures t.attack >= 1 && t.energy >= 1 && t.range >= 1 && t.rapid >= 1
    decreases |parts|
  {
    if parts == [] then Tally(1, 1, 1, 1)
    else AddPart(RawStats(parts[..|parts| - 1]), parts[|parts| - 1])
  }

  /** The per-stat accumulators are bytes: the tally of `parts` must not exceed 255. */
  predicate FitsInU8(parts: seq<BusterPart>)
  {
    var t := RawStats(parts);
    t.attack <= 255 && t.energy <= 255 && t.range <= 255 && t.rapid <= 255
  }

  /** The capped stats of a list of parts; every stat lies between 1 and its cap. */
  function StatsOf(config: Config, parts: seq<BusterPart>): (t: Tally)
    ensures 1 <= t.attack <= ATTACK_MAX && 1 <= t.energy <= ENERGY_MAX
    ensures 1 <= t.range <= RANGE_MAX && 1 <= t.rapid <= RapidMax(config)
  {
    ClampStats(config, RawStats(parts))
  }

  /** The score of a list of parts. */
  function ScoreOf(config: Config, parts: seq<BusterPart>): int
  {
    ScoreStats(config, RawStats(parts))
  }

  /** A selection of parts. */
  datatype BusterLayout = BusterLayout(busterParts: seq<BusterPart>) {

    /** The layout with no parts. */
    static function Empty(): (e: BusterLayout)
      ensures |e.busterParts| == 0
    {
      BusterLayout([])
    }

    /** Tallies the stats in byte-sized counters, then caps them. */
    method Stats(config: Config) returns (s: Tally)
      requires FitsInU8(busterParts)
      ensures s == StatsOf(config, busterParts)
    {
      var attackVal: U8, energyVal: U8, rangeVal: U8, rapidVal: U8 := 1, 1, 1, 1;
      for i := 0 to |busterParts|
        invariant Tally(attackVal, energyVal, rangeVal, rapidVal) == RawStats(busterParts[..i])
      {
        var part := busterParts[i];
        assert busterParts[..i + 1][..i] == busterParts[..i];
        RawStatsPrefix(busterParts, i + 1);
        attackVal := attackVal + part.attack;
        energyVal := energyVal + part.energy;
        rangeVal := rangeVal + part.range;
        rapidVal := rapidVal + part.rapid;
      }
      assert busterParts[..|busterParts|] == busterParts;
      s := ClampStats(config, Tally(attackVal, energyVal, rangeVal, rapidVal));
    }

    /** Scores the layout by feeding its (already capped) stats back through ScoreStats. */
    method Score(config: Config) returns (r: int)
      requires FitsInU8(busterParts)
      ensures r == ScoreOf(config, busterParts)
    {
      var s := Stats(config);
      ScoreStatsIgnoresClamping(config, RawStats(busterParts));
      r := ScoreStats(config, s);
    }
  }

  // ---------------------------------------------------------------------------
  // Capping and scoring
  // ---------------------------------------------------------------------------

  /** Capping twice is capping once. */
  lemma ClampIdempotent(config: Config, t: Tally)
    ensures ClampStats(config, ClampStats(config, t)) == ClampStats(config, t)
  {
  }

  /** Capping is monotone in each stat. */
  lemma ClampMonotone(config: Config, t: Tally, u: Tally)
    requires AtMost(t, u)
    ensures AtMost(ClampStats(config, t), ClampStats(config, u))
  {
  }

  /** Scoring already capped stats gives the same score, so the second capping in `score` changes nothing. */
  lemma ScoreStatsIgnoresClamping(config: Config, t: Tally)
    ensures ScoreStats(config, ClampStats(config, t)) == ScoreStats(config, t)
  {
    ClampIdempotent(config, t);
  }

  // ---------------------------------------------------------------------------
  // Tallying parts
  // ---------------------------------------------------------------------------

  /** Tallying a concatenation adds the contributions of both halves to the base of 1. */
  lemma {:induction false} RawStatsAppend(p: seq<BusterPart>, q: seq<BusterPart>)
    ensures RawStats(p + q)
         == Tally(RawStats(p).attack + RawStats(q).attack - 1, RawStats(p).energy + RawStats(q).energy - 1,
                  RawStats(p).range + RawStats(q).range - 1, RawStats(p).rapid + RawStats(q).rapid - 1)
    decreases |q|
  {
    if q == [] {
      assert p + q == p;
    } else {
      var q' := q[..|q| - 1];
      assert (p + q)[..|p + q| - 1] == p + q';
      assert (p + q)[|p + q| - 1] == q[|q| - 1];
      RawStatsAppend(p, q');
    }
  }

  /** The tally of a prefix never exceeds the tally of the whole list. */
  lemma {:induction false} RawStatsPrefix(parts: seq<BusterPart>, i: nat)
    requires i <= |parts|
    ensures AtMost(RawStats(parts[..i]), RawStats(parts))
  {
    assert parts == parts[..i] + parts[i..];
    RawStatsAppend(parts[..i], parts[i..]);
  }

  /** Taking out the part at index `i` and adding it last gives the same tally. */
  lemma {:induction false} RawStatsRemove(parts: seq<BusterPart>, i: nat)
    requires i < |parts|
    ensures RawStats(parts) == AddPart(RawStats(parts[..i] + parts[i + 1..]), parts[i])
  {
    var x, p, r := parts[i], parts[..i], parts[i + 1..];
    assert parts == p + ([x] + r);
    assert [x][..0] == [];
    assert RawStats([x]) == AddPart(Tally(1, 1, 1, 1), x);
    RawStatsAppend([x], r);
    assert RawStats([x] + r) == AddPart(RawStats(r), x);
    RawStatsAppend(p, [x] + r);
    RawStatsAppend(p, r);
  }

  /** The tally does not depend on the order of the parts. */
  lemma {:induction false} RawStatsPermutation(a: seq<BusterPart>, b: seq<BusterPart>)
    requires multiset(a) == multiset(b)
    ensures RawStats(a) == RawStats(b)
    decreases |a|
  {
    if a == [] {
      assert |b| == |multiset(b)| == 0;
    } else {
      var n := |a| - 1;
      var x := a[n];
      assert a == a[..n] + [x];
      assert x in multiset(b);
      var i :| 0 <= i < |b| && b[i] == x;
      var rest := b[..i] + b[i + 1..];
      assert b == b[..i] + [x] + b[i + 1..];
      assert multiset(rest) == multiset(b) - multiset{x};
      assert multiset(a[..n]) == multiset(a) - multiset{x};
      RawStatsPermutation(a[..n], rest);
      RawStatsRemove(b, i);
    }
  }

  /** Capped stats and score of a layout do not depend on the order of its parts. */
  lemma StatsOrderIndependent(config: Config, a: seq<BusterPart>, b: seq<BusterPart>)
    requires multiset(a) == multiset(b)
    ensures StatsOf(config, a) == StatsOf(config, b)
    ensures ScoreOf(config, a) == ScoreOf(config, b)
  {
    RawStatsPermutation(a, b);
  }

  /** The empty layout has stats (1, 1, 1, 1) and scores the sum of the four weights. */
  lemma EmptyLayoutStats(config: Config)
    ensures StatsOf(config, BusterLayout.Empty().busterParts) == Tally(1, 1, 1, 1)
    ensures ScoreOf(config, BusterLayout.Empty().busterParts)
         == config.attackWeight + config.energyWeight + config.rangeWeight + config.rapidWeight
  {
  }
}
