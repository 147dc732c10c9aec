/** Tuning constants of the game (constants.ts). Lengths are pixels, times milliseconds. */
module Constants {
  const CircleRadius: real := 300.0
  const BulletFireCooldown: real := 1000.0
  const MeteoriteSpawnInterval: real := 4500.0
  const BulletSpeed: real := 3.5
  const MeteoriteSpeed: real := 0.5
  const MeteoriteInitialHp: real := 10.0
  const BulletDamage: real := 5.0
  const TurretRadius: real := 24.0
  const FragmentRadius: real := 4.0
  const BulletRadius: real := 6.0
  const InitialUpgradeThreshold: int := 5
}
