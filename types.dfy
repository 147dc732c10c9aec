/** The records of types.ts, stripped of fields that only rendering reads. */
module Types {

  datatype Option<+T> = None | Some(value: T) {
    function GetOr(default: T): T {
      match this
      case Some(v) => v
      case None => default
    }
  }

  /** Counters of one playthrough, reported to the shell at game over. */
  datatype GameStats = GameStats(
    fragmentsCollected: nat,
    coresCollected: nat,
    meteoritesDestroyed: nat,
    totalDamageDealt: real,
    bulletsFired: nat)

  /** The colour a hit paints on a meteorite; it records which element the bullet carried. */
  datatype FlashColor = White | IceBlue | FireRed

  /**
   * A bullet. `target` is the id of the meteorite a homing bullet follows (the source keeps an
   * object reference; see README).
   */
  datatype Bullet = Bullet(
    x: real, y: real, vx: real, vy: real, radius: real,
    distanceTraveled: real, maxDistance: real,
    isIce: bool, isFire: bool, isHoming: bool,
    target: Option<nat>, homingSearchCooldown: real)

  /** A meteorite. A timer at 0 stands for the source's absent (undefined) timer. */
  datatype Meteorite = Meteorite(
    id: nat,
    x: real, y: real, vx: real, vy: real, radius: real,
    hp: real, maxHp: real,
    isBoss: bool, isUpgraded: bool,
    slowTimer: real, burnTimer: real, flashTimer: real, flashColor: FlashColor)

  datatype Fragment = Fragment(
    x: real, y: real, vx: real, vy: real, radius: real,
    isMovingToTurret: bool, isCore: bool)

  datatype PerkId = ExtraBullets | ReduceCooldown | IncreaseDamage | Homing | Ice | Fire | MoreMeteorites

  datatype SkinId = Default | SpringFestival | Lgbt

  datatype TalentId = Cooldown | Damage | SpawnRate | FragmentValue | BulletTrail | MagnetRange

  datatype TalentNode = TalentNode(
    id: TalentId, maxLevel: nat, costPerLevel: nat, prerequisiteId: Option<TalentId>, branch: nat)

  datatype TalentState = TalentState(
    levels: map<TalentId, nat>,
    totalFragments: int,
    totalCores: int,
    currentSkin: SkinId,
    version: Option<int>)

  /** The run-scoped perk record that the engine keeps in `perksRef`. */
  datatype Perks = Perks(
    bulletsPerShot: nat,
    cooldownMult: real,
    damageBoost: real,
    isHoming: bool,
    isIce: bool,
    isFire: bool,
    spawnRateMult: real,
    ownedOneTimers: seq<PerkId>)

  /** The numeric bonuses derived from the talent levels (result of `getBonuses`). */
  datatype Bonuses = Bonuses(
    cooldownReduction: real,
    damageBoost: real,
    spawnBoost: real,
    fragmentBonus: real,
    bulletSpeedBoost: real,
    magnetRangeBoost: real)

  function Max(a: real, b: real): real {
    if a >= b then a else b
  }
}
