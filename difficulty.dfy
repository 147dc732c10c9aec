/**
 * The difficulty curve (services/DifficultyService.ts): how often meteorites spawn as the run
 * goes on, and how far from the centre they appear.
 *
 * `Math.pow(x, 1.5)` is not definable over Dafny's reals, so it is a parameter `pow`; the lemmas
 * assume only what IsPow15 says about it. The square root of the screen diagonal is likewise
 * passed in as `diagonal`.
 */
module Difficulty {
  import opened Types
  import opened Constants

  /** The smallest spawn interval the curve ever yields, in milliseconds. */
  const MinSpawnInterval: real := 350.0

  /** What the lemmas need of x ↦ x^1.5 on the non-negative reals. */
  ghost predicate IsPow15(pow: real -> real) {
    && pow(0.0) == 0.0
    && (forall x :: 0.0 <= x ==> 0.0 <= pow(x))
    && (forall x, y :: 0.0 <= x <= y ==> pow(x) <= pow(y))
  }

  /** How much faster than the base rate meteorites come after `survivalSecs` seconds. */
  function TimeFactor(survivalSecs: real, pow: real -> real): real {
    1.0 + survivalSecs / 12.0 + pow(survivalSecs / 60.0)
  }

  /** `calculateSpawnInterval`: milliseconds between two normal spawns. */
  function SpawnInterval(survivalSecs: real, spawnBoost: real, perkMult: real, pow: real -> real): (r: real)
    requires 0.0 <= survivalSecs && 0.0 <= spawnBoost && 0.0 < perkMult
    requires 0.0 <= pow(survivalSecs / 60.0)
    ensures r >= MinSpawnInterval
  {
    var baseInterval := MeteoriteSpawnInterval / (1.0 + spawnBoost);
    Max(MinSpawnInterval, baseInterval / (perkMult * TimeFactor(survivalSecs, pow)))
  }

  /** For positive numerator a, a larger positive denominator gives a smaller quotient. */
  lemma DivAntitone(a: real, d1: real, d2: real)
    requires 0.0 <= a && 0.0 < d1 <= d2
    ensures a / d2 <= a / d1
  {
    var q1, q2 := a / d1, a / d2;
    assert q2 * d2 == a == q1 * d1;
    assert q1 * d1 <= q1 * d2;
    MulCancel(q2, q1, d2);
  }

  lemma MulMono(x: real, y1: real, y2: real)
    requires 0.0 < x && y1 <= y2
    ensures x * y1 <= x * y2
  {
  }

  lemma MulCancel(x: real, y: real, d: real)
    requires 0.0 < d && x * d <= y * d
    ensures x <= y
  {
  }

  lemma TimeFactorMonotone(t1: real, t2: real, pow: real -> real)
    requires IsPow15(pow) && 0.0 <= t1 <= t2
    ensures 1.0 <= TimeFactor(t1, pow) <= TimeFactor(t2, pow)
    ensures t1 < t2 ==> TimeFactor(t1, pow) < TimeFactor(t2, pow)
  {
    assert pow(t1 / 60.0) <= pow(t2 / 60.0);
    assert 0.0 <= pow(t1 / 60.0);
  }

  /** The interval never lengthens as survival time grows. */
  lemma SpawnIntervalNonIncreasingInTime(t1: real, t2: real, spawnBoost: real, perkMult: real, pow: real -> real)
    requires IsPow15(pow) && 0.0 <= t1 <= t2 && 0.0 <= spawnBoost && 0.0 < perkMult
    ensures 0.0 <= pow(t1 / 60.0) && 0.0 <= pow(t2 / 60.0)
    ensures SpawnInterval(t2, spawnBoost, perkMult, pow) <= SpawnInterval(t1, spawnBoost, perkMult, pow)
  {
    TimeFactorMonotone(t1, t2, pow);
    var base := MeteoriteSpawnInterval / (1.0 + spawnBoost);
    var f1, f2 := TimeFactor(t1, pow), TimeFactor(t2, pow);
    MulMono(perkMult, f1, f2);
    DivAntitone(base, perkMult * f1, perkMult * f2);
  }

  /** Above the 350 ms floor the interval strictly shrinks with time: the pace never plateaus early. */
  lemma SpawnIntervalDecreasesAboveFloor(t1: real, t2: real, spawnBoost: real, perkMult: real, pow: real -> real)
    requires IsPow15(pow) && 0.0 <= t1 < t2 && 0.0 <= spawnBoost && 0.0 < perkMult
    ensures 0.0 <= pow(t1 / 60.0) && 0.0 <= pow(t2 / 60.0)
    ensures SpawnInterval(t1, spawnBoost, perkMult, pow) > MinSpawnInterval ==>
              SpawnInterval(t2, spawnBoost, perkMult, pow) < SpawnInterval(t1, spawnBoost, perkMult, pow)
  {
    TimeFactorMonotone(t1, t2, pow);
    var base := MeteoriteSpawnInterval / (1.0 + spawnBoost);
    var f1, f2 := TimeFactor(t1, pow), TimeFactor(t2, pow);
    var d1, d2 := perkMult * f1, perkMult * f2;
    MulStrict(perkMult, f1, f2);
    assert base > 0.0;
    DivStrictAntitone(base, d1, d2);
  }

  /** For positive numerator a, a strictly larger positive denominator gives a strictly smaller quotient. */
  lemma DivStrictAntitone(a: real, d1: real, d2: real)
    requires 0.0 < a && 0.0 < d1 < d2
    ensures a / d2 < a / d1
  {
    var q1, q2 := a / d1, a / d2;
    assert q1 * d1 == a && q2 * d2 == a;
    PositiveQuotient(a, d1);
    MulStrict(q1, d1, d2);
    MulCancelStrict(q2, q1, d2);
  }

  lemma PositiveQuotient(a: real, d: real)
    requires 0.0 < a && 0.0 < d
    ensures a / d > 0.0
  {
  }

  lemma MulStrict(x: real, y1: real, y2: real)
    requires 0.0 < x && y1 < y2
    ensures x * y1 < x * y2
  {
  }

  lemma MulCancelStrict(x: real, y: real, d: real)
    requires 0.0 < d && x * d < y * d
    ensures x < y
  {
  }

  /** At the start of a run the time factor is 1, so only the talent and perk multipliers count. */
  lemma SpawnIntervalAtStart(spawnBoost: real, perkMult: real, pow: real -> real)
    requires IsPow15(pow) && 0.0 <= spawnBoost && 0.0 < perkMult
    ensures TimeFactor(0.0, pow) == 1.0
    ensures SpawnInterval(0.0, spawnBoost, perkMult, pow)
            == Max(MinSpawnInterval, MeteoriteSpawnInterval / ((1.0 + spawnBoost) * perkMult))
  {
    var base := MeteoriteSpawnInterval / (1.0 + spawnBoost);
    var q := MeteoriteSpawnInterval / ((1.0 + spawnBoost) * perkMult);
    assert base / perkMult * ((1.0 + spawnBoost) * perkMult) == MeteoriteSpawnInterval;
    assert q * ((1.0 + spawnBoost) * perkMult) == MeteoriteSpawnInterval;
  }

  /** A larger talent spawn boost never lengthens the interval. */
  lemma SpawnIntervalNonIncreasingInBoost(t: real, b1: real, b2: real, perkMult: real, pow: real -> real)
    requires IsPow15(pow) && 0.0 <= t && 0.0 <= b1 <= b2 && 0.0 < perkMult
    ensures 0.0 <= pow(t / 60.0)
    ensures SpawnInterval(t, b2, perkMult, pow) <= SpawnInterval(t, b1, perkMult, pow)
  {
    TimeFactorMonotone(t, t, pow);
    var d := perkMult * TimeFactor(t, pow);
    DivAntitone(MeteoriteSpawnInterval, 1.0 + b1, 1.0 + b2);
    var base1, base2 := MeteoriteSpawnInterval / (1.0 + b1), MeteoriteSpawnInterval / (1.0 + b2);
    assert base2 / d * d == base2 <= base1 == base1 / d * d;
    MulCancel(base2 / d, base1 / d, d);
  }

  /** A larger perk multiplier never lengthens the interval. */
  lemma SpawnIntervalNonIncreasingInPerk(t: real, spawnBoost: real, m1: real, m2: real, pow: real -> real)
    requires IsPow15(pow) && 0.0 <= t && 0.0 <= spawnBoost && 0.0 < m1 <= m2
    ensures 0.0 <= pow(t / 60.0)
    ensures SpawnInterval(t, spawnBoost, m2, pow) <= SpawnInterval(t, spawnBoost, m1, pow)
  {
    TimeFactorMonotone(t, t, pow);
    var f := TimeFactor(t, pow);
    assert m1 * f <= m2 * f;
    DivAntitone(MeteoriteSpawnInterval / (1.0 + spawnBoost), m1 * f, m2 * f);
  }

  /** `getSpawnDistance`, given the length of the screen diagonal. */
  function SpawnDistance(diagonal: real): real {
    diagonal / 2.0 + 150.0
  }

  /**
   * The spawn circle clears the screen by 150 pixels: its radius minus 150 is the centre-to-corner
   * distance, and every on-screen point is at most that far from the centre.
   */
  lemma SpawnCircleOffScreen(width: real, height: real, diagonal: real, px: real, py: real)
    requires 0.0 <= width && 0.0 <= height && 0.0 <= diagonal
    requires diagonal * diagonal == width * width + height * height
    requires 0.0 <= px <= width && 0.0 <= py <= height
    ensures var r := SpawnDistance(diagonal) - 150.0;
            && 0.0 <= r
            && r * r == (width / 2.0) * (width / 2.0) + (height / 2.0) * (height / 2.0)
            && (px - width / 2.0) * (px - width / 2.0) + (py - height / 2.0) * (py - height / 2.0) <= r * r
            && (px - width / 2.0) * (px - width / 2.0) + (py - height / 2.0) * (py - height / 2.0)
               < SpawnDistance(diagonal) * SpawnDistance(diagonal)
  {
    var r := SpawnDistance(diagonal) - 150.0;
    assert r == diagonal / 2.0;
    assert r * r == diagonal * diagonal / 4.0;
    var dx, dy := px - width / 2.0, py - height / 2.0;
    SquareBound(dx, width / 2.0);
    SquareBound(dy, height / 2.0);
    var s := SpawnDistance(diagonal);
    assert s * s == r * r + 300.0 * r + 22500.0;
  }

  lemma SquareBound(d: real, half: real)
    requires 0.0 <= half && -half <= d <= half
    ensures d * d <= half * half
  {
    if d >= 0.0 {
      assert d * d <= d * half;
      assert d * half <= half * half;
    } else {
      assert (-d) * (-d) <= (-d) * half;
      assert (-d) * half <= half * half;
    }
  }
}
