/**
 * The mutable state of one game session in components/GameEngine.tsx, gathered into one value:
 * every `useRef` the simulation reads or writes, plus the `showCardSelection` flag.
 *
 * Trigonometry, square roots and `Math.pow` are not definable over Dafny's reals; they enter as
 * the function-valued fields of a `Physics` value. `ValidPhysics` and `Euclidean` state the
 * little the proofs rely on: `pow15` behaves like x ↦ x^1.5, the norm is the square root, and a
 * polar offset has the requested length.
 */
module EngineState {
  import opened Types
  import opened Constants
  import Cards
  import Difficulty

  /** A draw of `Math.random()`. */
  type Unit = r: real | 0.0 <= r < 1.0

  datatype Physics = Physics(
    /** New turret angle from the old angle and the pointer's offset from the centre (atan2, wrap, ease by 0.18). */
    aim: (real, real, real) -> real,
    /** (cos a · r, sin a · r). */
    polar: (real, real) -> (real, real),
    /** sqrt(x² + y²). */
    norm: (real, real) -> real,
    /** The step of length s from (px, py) towards (qx, qy): s · (q − p) / |q − p|. */
    toward: (real, real, real, real, real) -> (real, real),
    /** A homing bullet's new velocity from its velocity, position and its target's position. */
    steer: (real, real, real, real, real, real) -> (real, real),
    /** x ↦ x^1.5. */
    pow15: real -> real)

  /** What the frame relies on: `pow15` behaves like x ↦ x^1.5, so the spawn interval is defined. */
  ghost predicate ValidPhysics(ph: Physics) {
    Difficulty.IsPow15(ph.pow15)
  }

  /** The geometry of the oracles: the norm is the square root, a polar offset has the requested length. */
  ghost predicate Euclidean(ph: Physics) {
    && (forall x, y :: ph.norm(x, y) >= 0.0 && ph.norm(x, y) * ph.norm(x, y) == x * x + y * y)
    && (forall a, r :: r >= 0.0 ==> ph.polar(a, r).0 * ph.polar(a, r).0 + ph.polar(a, r).1 * ph.polar(a, r).1 == r * r)
  }

  /**
   * The random draws of one frame: the spawn angle and the radius draw of a normal meteorite, the
   * boss's spawn angle, and the scatter velocity of fragment j dropped by meteorite i (each
   * component (Math.random() − 0.5) · 15 in the source).
   */
  datatype Dice = Dice(spawnAngle: real, radiusDraw: Unit, bossAngle: real, scatter: (nat, nat) -> (real, real))

  /** One animation frame: its timestamp, the canvas size and the last pointer position. */
  datatype Frame = Frame(timestamp: real, width: real, height: real, pointerX: real, pointerY: real)

  datatype World = World(
    bullets: seq<Bullet>,
    meteorites: seq<Meteorite>,
    fragments: seq<Fragment>,
    perks: Perks,
    stats: GameStats,
    bonuses: Bonuses,
    gameTime: real,
    survivalTime: real,
    lastTimestamp: real,
    lastSpawnTime: real,
    lastFireTime: real,
    bossSpawned: bool,
    firstBossDefeated: bool,
    initialSpawnDone: bool,
    turretAngle: real,
    upgradeThreshold: int,
    upgradeProgress: int,
    gameActive: bool,
    showCardSelection: bool,
    /** The id the next spawned meteorite receives; it stands for object identity. */
    nextId: nat)

  const BossTime: real := 30000.0

  const NoPerks: Perks := Perks(1, 1.0, 0.0, false, false, false, 1.0, [])

  const NoStats: GameStats := GameStats(0, 0, 0, 0.0, 0)

  /** The state a freshly mounted engine starts from, with the bonuses read once at mount. */
  function Initial(bonuses: Bonuses): World {
    World([], [], [], NoPerks, NoStats, bonuses,
          0.0, 0.0, 0.0, 0.0, 0.0, false, false, false, 0.0,
          InitialUpgradeThreshold, 0, true, false, 0)
  }

  /** Talent bonuses are never negative. */
  predicate BonusesOk(b: Bonuses) {
    && b.cooldownReduction >= 0.0 && b.damageBoost >= 0.0 && b.spawnBoost >= 0.0
    && b.fragmentBonus >= 0.0 && b.bulletSpeedBoost >= 0.0 && b.magnetRangeBoost >= 0.0
  }

  /**
   * The run's perks are what a sequence of card choices can produce: at least one bullet per shot,
   * a cooldown factor in (0, 1], no negative damage, a spawn factor of at least 1, and each
   * one-time perk owned at most once and exactly when its flag is set.
   */
  predicate PerksOk(p: Perks) {
    && p.bulletsPerShot >= 1
    && 0.0 < p.cooldownMult <= 1.0
    && p.damageBoost >= 0.0
    && p.spawnRateMult >= 1.0
    && Cards.Distinct(p.ownedOneTimers)
    && (forall q :: q in p.ownedOneTimers ==> q in Cards.OneTime)
    && (p.isHoming <==> Homing in p.ownedOneTimers)
    && (p.isIce <==> Ice in p.ownedOneTimers)
    && (p.isFire <==> Fire in p.ownedOneTimers)
  }

  /** Between frames every meteorite is alive, not yet paid out, and has its own id below `nextId`. */
  predicate MeteoritesOk(ms: seq<Meteorite>, nextId: nat) {
    && (forall i :: 0 <= i < |ms| ==> ms[i].hp > 0.0 && !ms[i].isUpgraded && ms[i].id < nextId)
    && (forall i, j :: 0 <= i < j < |ms| ==> ms[i].id != ms[j].id)
  }

  /** What holds of the engine's state between two frames. */
  predicate Inv(w: World) {
    && PerksOk(w.perks)
    && BonusesOk(w.bonuses)
    && 0.0 <= w.survivalTime && w.gameTime == w.survivalTime
    && w.lastFireTime <= w.gameTime
    && w.lastSpawnTime <= w.gameTime
    && (w.bossSpawned <==> w.survivalTime >= BossTime)
    && (w.firstBossDefeated ==> w.bossSpawned)
    && (forall i :: 0 <= i < |w.meteorites| && w.meteorites[i].isBoss ==> w.bossSpawned)
    && InitialUpgradeThreshold <= w.upgradeThreshold
    && 0 <= w.upgradeProgress < w.upgradeThreshold
    && MeteoritesOk(w.meteorites, w.nextId)
  }

  lemma InitialOk(bonuses: Bonuses)
    requires BonusesOk(bonuses)
    ensures Inv(Initial(bonuses))
    ensures Initial(bonuses).gameActive && !Initial(bonuses).showCardSelection
  {
  }
}
