/**
 * One call of `update(timestamp, width, height)` in components/GameEngine.tsx, as a function of
 * the state before the frame. The frame runs in the source's order: clock and aim, the normal
 * spawn, the boss spawn, the meteorite pass (timers, motion, breach), the bullet pass (homing,
 * motion, first hit), the death pass (payout), the removal of dead meteorites, and the fragment
 * pass (magnet, collection, level-up). Each pass that walks a list is a fold over prefixes, the
 * shape of the loop that implements it in the engine class.
 */
module EngineTick {
  import opened Types
  import opened Constants
  import opened EngineState
  import Difficulty

  /** The breach and collection distance, TURRET_RADIUS + 5. */
  const ReachRadius: real := TurretRadius + 5.0
  const FirstSpawnTime: real := 300.0
  const BossHp: real := 200.0
  const BossRadius: real := 65.0
  const BossSpeed: real := MeteoriteSpeed * 0.4
  const SlowFactor: real := 0.4
  const BurnRate: real := 0.006
  const FlashTime: real := 120.0
  const SlowTime: real := 2000.0
  const BurnTime: real := 3000.0
  const HomingRescan: real := 150.0
  const Drag: real := 0.92
  const MagnetBase: real := 30.0
  const CollectSpeed: real := 12.0
  const NormalDrops: nat := 4
  const BossDrops: nat := 20

  function Sq(x: real): real { x * x }

  /** The squared distance of two points. */
  function Dist2(x1: real, y1: real, x2: real, y2: real): real {
    Sq(x1 - x2) + Sq(y1 - y2)
  }

  predicate Live(m: Meteorite) { m.hp > 0.0 }

  // ---------------------------------------------------------------- clock and spawning

  /** The frame's elapsed time: 0 on the very first frame (no timestamp recorded yet). */
  function Delta(w: World, timestamp: real): real {
    if w.lastTimestamp == 0.0 then 0.0 else timestamp - w.lastTimestamp
  }

  /** Record the timestamp, advance both clocks, and turn the turret towards the pointer. */
  function Clock(w: World, f: Frame, ph: Physics): World {
    var d := Delta(w, f.timestamp);
    w.(lastTimestamp := f.timestamp,
       gameTime := w.gameTime + d,
       survivalTime := w.survivalTime + d,
       turretAngle := ph.aim(w.turretAngle, f.pointerX - f.width / 2.0, f.pointerY - f.height / 2.0))
  }

  /** The preconditions of `calculateSpawnInterval` on the state's own arguments. */
  predicate IntervalReady(w: World, ph: Physics) {
    && 0.0 <= w.survivalTime && 0.0 <= w.bonuses.spawnBoost && 0.0 < w.perks.spawnRateMult
    && 0.0 <= ph.pow15(w.survivalTime / 1000.0 / 60.0)
  }

  function Interval(w: World, ph: Physics): real
    requires IntervalReady(w, ph)
  {
    Difficulty.SpawnInterval(w.survivalTime / 1000.0, w.bonuses.spawnBoost, w.perks.spawnRateMult, ph.pow15)
  }

  /** The first meteorite comes at 300 ms of game time, later ones once the interval has elapsed. */
  predicate SpawnDue(w: World, interval: real) {
    || (!w.initialSpawnDone && w.gameTime >= FirstSpawnTime)
    || (w.initialSpawnDone && w.gameTime - w.lastSpawnTime >= interval)
  }

  /** A meteorite placed on the spawn circle at `angle`, heading for the centre at `speed`. */
  function Incoming(id: nat, cx: real, cy: real, dist: real, angle: real, radius: real, hp: real,
                    speed: real, isBoss: bool, ph: Physics): Meteorite
  {
    var o := ph.polar(angle, dist);
    var v := ph.toward(cx + o.0, cy + o.1, cx, cy, speed);
    Meteorite(id, cx + o.0, cy + o.1, v.0, v.1, radius, hp, hp, isBoss, false, 0.0, 0.0, 0.0, White)
  }

  /** The spawn circle's radius for the frame's canvas. */
  function SpawnDist(f: Frame, ph: Physics): real {
    Difficulty.SpawnDistance(ph.norm(f.width, f.height))
  }

  /** The normal spawn: a meteorite of 10 hp and radius 14 + 24·draw. */
  function SpawnStep(w: World, f: Frame, ph: Physics, dice: Dice): World
    requires IntervalReady(w, ph)
  {
    if SpawnDue(w, Interval(w, ph)) then
      var m := Incoming(w.nextId, f.width / 2.0, f.height / 2.0, SpawnDist(f, ph), dice.spawnAngle,
                        14.0 + dice.radiusDraw * 24.0, MeteoriteInitialHp, MeteoriteSpeed, false, ph);
      w.(initialSpawnDone := true, meteorites := w.meteorites + [m], lastSpawnTime := w.gameTime,
         nextId := w.nextId + 1)
    else
      w
  }

  /** The boss, once survival time reaches 30 s: 200 hp, radius 65, at 0.4 of the normal speed. */
  function BossStep(w: World, f: Frame, ph: Physics, dice: Dice): World {
    if w.survivalTime >= BossTime && !w.bossSpawned then
      var m := Incoming(w.nextId, f.width / 2.0, f.height / 2.0, SpawnDist(f, ph), dice.bossAngle,
                        BossRadius, BossHp, BossSpeed, true, ph);
      w.(meteorites := w.meteorites + [m], bossSpawned := true, nextId := w.nextId + 1)
    else
      w
  }

  // ---------------------------------------------------------------- meteorite pass

  /** One meteorite's frame: slow, burn and flash timers run down, and it moves (at 0.4 speed while slowed). */
  function Advance(m: Meteorite, delta: real): Meteorite {
    var k := if m.slowTimer > 0.0 then SlowFactor else 1.0;
    m.(slowTimer := if m.slowTimer > 0.0 then m.slowTimer - delta else m.slowTimer,
       hp := if m.burnTimer > 0.0 then m.hp - BurnRate * delta else m.hp,
       burnTimer := if m.burnTimer > 0.0 then m.burnTimer - delta else m.burnTimer,
       flashTimer := if m.flashTimer > 0.0 then m.flashTimer - delta else m.flashTimer,
       x := m.x + m.vx * k,
       y := m.y + m.vy * k)
  }

  /** `sqrt((m.x − cX)² + (m.y − cY)²) < TURRET_RADIUS + 5`, stated on the square. */
  predicate Breaches(m: Meteorite, cx: real, cy: real) {
    Dist2(m.x, m.y, cx, cy) < Sq(ReachRadius)
  }

  function AdvanceAll(ms: seq<Meteorite>, delta: real): seq<Meteorite> {
    seq(|ms|, i requires 0 <= i < |ms| => Advance(ms[i], delta))
  }

  /** How many meteorites of the list are inside the turret. */
  function BreachCount(ms: seq<Meteorite>, cx: real, cy: real): (r: nat)
    ensures r <= |ms|
    ensures r == 0 <==> forall i :: 0 <= i < |ms| ==> !Breaches(ms[i], cx, cy)
    decreases |ms|
  {
    if |ms| == 0 then 0
    else BreachCount(ms[..|ms| - 1], cx, cy) + (if Breaches(ms[|ms| - 1], cx, cy) then 1 else 0)
  }

  /** Counting one more meteorite of the list adds one exactly when that one is inside the turret. */
  lemma BreachCountStep(ms: seq<Meteorite>, i: nat, cx: real, cy: real)
    requires i < |ms|
    ensures BreachCount(ms[..i + 1], cx, cy) == BreachCount(ms[..i], cx, cy) + (if Breaches(ms[i], cx, cy) then 1 else 0)
  {
    assert ms[..i + 1][..i] == ms[..i];
  }

  /** Every meteorite runs its frame; each one found inside the turret ends the game. */
  function MeteoritePass(w: World, delta: real, cx: real, cy: real): World {
    var ms := AdvanceAll(w.meteorites, delta);
    w.(meteorites := ms, gameActive := w.gameActive && BreachCount(ms, cx, cy) == 0)
  }

  // ---------------------------------------------------------------- bullet pass

  /** The squared distance of a meteorite from a point. */
  function DistTo(m: Meteorite, x: real, y: real): real {
    Dist2(m.x, m.y, x, y)
  }

  /**
   * The homing scan: the first live meteorite at the least squared distance from (x, y), or none
   * when no meteorite is alive.
   */
  function Nearest(ms: seq<Meteorite>, x: real, y: real): (r: Option<nat>)
    ensures r.Some? ==> r.value < |ms| && Live(ms[r.value])
    ensures r.Some? ==> forall k :: 0 <= k < |ms| && Live(ms[k]) ==> DistTo(ms[r.value], x, y) <= DistTo(ms[k], x, y)
    ensures r.Some? ==> forall k :: 0 <= k < r.value && Live(ms[k]) ==> DistTo(ms[r.value], x, y) < DistTo(ms[k], x, y)
    ensures r.None? <==> forall k :: 0 <= k < |ms| ==> !Live(ms[k])
    decreases |ms|
  {
    if |ms| == 0 then None
    else
      var prev := Nearest(ms[..|ms| - 1], x, y);
      var m := ms[|ms| - 1];
      if Live(m) && (prev.None? || DistTo(m, x, y) < DistTo(ms[prev.value], x, y)) then Some(|ms| - 1)
      else prev
  }

  /** The first meteorite carrying the id, if it is still in the list. */
  function IndexOfId(ms: seq<Meteorite>, id: nat): (r: Option<nat>)
    ensures r.Some? ==> r.value < |ms| && ms[r.value].id == id
    ensures r.Some? ==> forall k :: 0 <= k < r.value ==> ms[k].id != id
    ensures r.None? <==> forall k :: 0 <= k < |ms| ==> ms[k].id != id
    decreases |ms|
  {
    if |ms| == 0 then None
    else
      var prev := IndexOfId(ms[..|ms| - 1], id);
      if prev.Some? then prev
      else if ms[|ms| - 1].id == id then Some(|ms| - 1)
      else None
  }

  /** Where a bullet's target is in the list; none when it has no target or the target was removed. */
  function TargetIndex(b: Bullet, ms: seq<Meteorite>): Option<nat> {
    if b.target.None? then None else IndexOfId(ms, b.target.value)
  }

  /**
   * The homing step: the search cooldown runs down; if there is no target, the target is dead or
   * the cooldown has run out, the nearest live meteorite becomes the target (or none) and the
   * cooldown restarts at 150 ms; a bullet with a target then steers towards it.
   */
  function HomingStep(b: Bullet, ms: seq<Meteorite>, delta: real, ph: Physics): Bullet {
    if !b.isHoming then b
    else
      var cd := b.homingSearchCooldown - delta;
      var cur := TargetIndex(b, ms);
      var stale := cur.None? || ms[cur.value].hp <= 0.0 || cd <= 0.0;
      var t := if stale then Nearest(ms, b.x, b.y) else cur;
      var b1 := b.(homingSearchCooldown := if stale then HomingRescan else cd,
                   target := if t.Some? then Some(ms[t.value].id) else None);
      if t.Some? then
        var v := ph.steer(b.vx, b.vy, b.x, b.y, ms[t.value].x, ms[t.value].y);
        b1.(vx := v.0, vy := v.1)
      else b1
  }

  /** The bullet moves by its velocity and adds the step's length to its distance. */
  function Fly(b: Bullet, ph: Physics): Bullet {
    b.(x := b.x + b.vx, y := b.y + b.vy, distanceTraveled := b.distanceTraveled + ph.norm(b.vx, b.vy))
  }

  /** A live meteorite whose circle strictly overlaps the bullet's. */
  predicate Overlaps(m: Meteorite, b: Bullet) {
    Live(m) && Dist2(b.x, b.y, m.x, m.y) < Sq(m.radius + b.radius)
  }

  /** The meteorite the bullet hits: the first overlapping one in list order. */
  function FirstHit(ms: seq<Meteorite>, b: Bullet): (r: Option<nat>)
    ensures r.Some? ==> r.value < |ms| && Overlaps(ms[r.value], b)
    ensures r.Some? ==> forall k :: 0 <= k < r.value ==> !Overlaps(ms[k], b)
    ensures r.None? <==> forall k :: 0 <= k < |ms| ==> !Overlaps(ms[k], b)
    decreases |ms|
  {
    if |ms| == 0 then None
    else
      var prev := FirstHit(ms[..|ms| - 1], b);
      if prev.Some? then prev
      else if Overlaps(ms[|ms| - 1], b) then Some(|ms| - 1)
      else None
  }

  /** A hit: the damage, a 120 ms flash in the bullet's colour, and its ice (2 s) or fire (3 s) status. */
  function Struck(m: Meteorite, b: Bullet, dmg: real): Meteorite {
    m.(hp := m.hp - dmg,
       flashTimer := FlashTime,
       flashColor := if b.isIce then IceBlue else if b.isFire then FireRed else White,
       slowTimer := if b.isIce then SlowTime else m.slowTimer,
       burnTimer := if b.isFire then BurnTime else m.burnTimer)
  }

  /** The damage of one hit: BULLET_DAMAGE plus the talent and perk boosts. */
  function HitDamage(w: World): real {
    BulletDamage + w.bonuses.damageBoost + w.perks.damageBoost
  }

  /** The bullet filter's running state: the bullets kept, the meteorites as hit so far, the damage total. */
  datatype BulletAcc = BulletAcc(kept: seq<Bullet>, meteorites: seq<Meteorite>, damage: real)

  /** One bullet's frame against the meteorites as earlier bullets of the frame left them. */
  function BulletStep(acc: BulletAcc, b: Bullet, delta: real, dmg: real, ph: Physics): BulletAcc {
    var b2 := Fly(HomingStep(b, acc.meteorites, delta, ph), ph);
    var hit := FirstHit(acc.meteorites, b2);
    if hit.Some? then
      BulletAcc(acc.kept, acc.meteorites[hit.value := Struck(acc.meteorites[hit.value], b2, dmg)], acc.damage + dmg)
    else
      BulletAcc(acc.kept + (if b2.distanceTraveled < b2.maxDistance then [b2] else []), acc.meteorites, acc.damage)
  }

  function BulletFold(bs: seq<Bullet>, acc: BulletAcc, delta: real, dmg: real, ph: Physics): BulletAcc
    decreases |bs|
  {
    if |bs| == 0 then acc
    else BulletStep(BulletFold(bs[..|bs| - 1], acc, delta, dmg, ph), bs[|bs| - 1], delta, dmg, ph)
  }

  /** Folding one more bullet is one more step. */
  lemma BulletFoldStep(bs: seq<Bullet>, i: nat, acc: BulletAcc, delta: real, dmg: real, ph: Physics)
    requires i < |bs|
    ensures BulletFold(bs[..i + 1], acc, delta, dmg, ph) == BulletStep(BulletFold(bs[..i], acc, delta, dmg, ph), bs[i], delta, dmg, ph)
  {
    assert bs[..i + 1][..i] == bs[..i];
  }

  function BulletPass(w: World, delta: real, ph: Physics): World {
    var r := BulletFold(w.bullets, BulletAcc([], w.meteorites, w.stats.totalDamageDealt), delta, HitDamage(w), ph);
    w.(bullets := r.kept, meteorites := r.meteorites, stats := w.stats.(totalDamageDealt := r.damage))
  }

  // ---------------------------------------------------------------- death pass

  /** A meteorite at or below 0 hp that has not been paid out yet. */
  predicate Dies(m: Meteorite) { m.hp <= 0.0 && !m.isUpgraded }

  function DropCount(m: Meteorite): nat { if m.isBoss then BossDrops else NormalDrops }

  /** Fragment j of those meteorite i of the list scatters. */
  function Shard(m: Meteorite, i: nat, j: nat, dice: Dice): Fragment {
    Fragment(m.x, m.y, dice.scatter(i, j).0, dice.scatter(i, j).1, FragmentRadius, false, false)
  }

  /** The boss's core: at rest, 2.5 times a fragment's radius. */
  function CoreOf(m: Meteorite): Fragment {
    Fragment(m.x, m.y, 0.0, 0.0, FragmentRadius * 2.5, false, true)
  }

  /** What meteorite i of the list leaves: 4 fragments (20 for the boss, plus the core). */
  function Drops(m: Meteorite, i: nat, dice: Dice): seq<Fragment> {
    seq(DropCount(m), j requires 0 <= j < DropCount(m) => Shard(m, i, j, dice))
    + (if m.isBoss then [CoreOf(m)] else [])
  }

  /** The death pass's running state: the meteorites as marked, the drops, and the two counters. */
  datatype DeathAcc = DeathAcc(marked: seq<Meteorite>, drops: seq<Fragment>, destroyed: nat, bossDown: bool)

  function DeathFold(ms: seq<Meteorite>, acc: DeathAcc, dice: Dice): DeathAcc
    decreases |ms|
  {
    if |ms| == 0 then acc
    else
      var a := DeathFold(ms[..|ms| - 1], acc, dice);
      var m := ms[|ms| - 1];
      if Dies(m) then
        DeathAcc(a.marked + [m.(isUpgraded := true)], a.drops + Drops(m, |ms| - 1, dice),
                 a.destroyed + 1, a.bossDown || m.isBoss)
      else
        a.(marked := a.marked + [m])
  }

  /** `meteorites.filter(m => m.hp > 0)`. */
  function Alive(ms: seq<Meteorite>): (r: seq<Meteorite>)
    ensures |r| <= |ms|
    ensures forall m :: m in r <==> m in ms && Live(m)
    decreases |ms|
  {
    if |ms| == 0 then []
    else Alive(ms[..|ms| - 1]) + (if Live(ms[|ms| - 1]) then [ms[|ms| - 1]] else [])
  }

  /** Pay out every dying meteorite, then drop the dead ones. */
  function DeathPass(w: World, dice: Dice): World {
    var r := DeathFold(w.meteorites, DeathAcc([], [], w.stats.meteoritesDestroyed, w.firstBossDefeated), dice);
    w.(meteorites := Alive(r.marked),
       fragments := w.fragments + r.drops,
       stats := w.stats.(meteoritesDestroyed := r.destroyed),
       firstBossDefeated := r.bossDown)
  }

  // ---------------------------------------------------------------- fragment pass

  /** `Math.floor(threshold · 1.5) + 3`. */
  function NextThreshold(t: int): int {
    ((t as real) * 1.5).Floor + 3
  }

  /** The fragment filter's running state. */
  datatype FragAcc = FragAcc(kept: seq<Fragment>, fragments: nat, cores: nat, progress: int, threshold: int, show: bool)

  /**
   * One fragment's frame. A drifting fragment moves, slows by 0.92, and is caught when the pointer
   * is strictly within 30 + magnet range. A caught fragment moves 12 px towards the centre and is
   * collected once strictly within TURRET_RADIUS + 5: a core counts as a core; a normal fragment
   * counts, raises the level-up progress and, at the threshold, resets it, raises the threshold and
   * opens the card overlay.
   */
  function FragStep(acc: FragAcc, fr: Fragment, px: real, py: real, cx: real, cy: real, magnet: real,
                    ph: Physics): FragAcc
  {
    if !fr.isMovingToTurret then
      var g := fr.(x := fr.x + fr.vx, y := fr.y + fr.vy, vx := fr.vx * Drag, vy := fr.vy * Drag);
      var caught := Dist2(px, py, g.x, g.y) < Sq(MagnetBase + magnet);
      acc.(kept := acc.kept + [g.(isMovingToTurret := caught)])
    else if Dist2(cx, cy, fr.x, fr.y) < Sq(ReachRadius) then
      if fr.isCore then acc.(cores := acc.cores + 1)
      else if acc.progress + 1 >= acc.threshold then
        acc.(fragments := acc.fragments + 1, progress := 0, threshold := NextThreshold(acc.threshold), show := true)
      else
        acc.(fragments := acc.fragments + 1, progress := acc.progress + 1)
    else
      var s := ph.toward(fr.x, fr.y, cx, cy, CollectSpeed);
      acc.(kept := acc.kept + [fr.(x := fr.x + s.0, y := fr.y + s.1)])
  }

  function FragFold(fs: seq<Fragment>, acc: FragAcc, px: real, py: real, cx: real, cy: real, magnet: real,
                    ph: Physics): FragAcc
    decreases |fs|
  {
    if |fs| == 0 then acc
    else FragStep(FragFold(fs[..|fs| - 1], acc, px, py, cx, cy, magnet, ph), fs[|fs| - 1], px, py, cx, cy, magnet, ph)
  }

  /** Folding one more fragment is one more step. */
  lemma FragFoldStep(fs: seq<Fragment>, i: nat, acc: FragAcc, px: real, py: real, cx: real, cy: real, magnet: real,
                     ph: Physics)
    requires i < |fs|
    ensures FragFold(fs[..i + 1], acc, px, py, cx, cy, magnet, ph)
      == FragStep(FragFold(fs[..i], acc, px, py, cx, cy, magnet, ph), fs[i], px, py, cx, cy, magnet, ph)
  {
    assert fs[..i + 1][..i] == fs[..i];
  }

  function FragmentPass(w: World, f: Frame, ph: Physics): World {
    var r := FragFold(w.fragments,
                      FragAcc([], w.stats.fragmentsCollected, w.stats.coresCollected, w.upgradeProgress,
                              w.upgradeThreshold, w.showCardSelection),
                      f.pointerX, f.pointerY, f.width / 2.0, f.height / 2.0, w.bonuses.magnetRangeBoost, ph);
    w.(fragments := r.kept,
       stats := w.stats.(fragmentsCollected := r.fragments, coresCollected := r.cores),
       upgradeProgress := r.progress, upgradeThreshold := r.threshold, showCardSelection := r.show)
  }

  // ---------------------------------------------------------------- the frame

  /** The state after a frame and the stats passed to `onGameOver`, once per breaching meteorite. */
  datatype TickResult = TickResult(world: World, reports: seq<GameStats>)

  /** n copies of the same stats: what `onGameOver` receives from n breaches in one frame. */
  function Repeat(s: GameStats, n: nat): (r: seq<GameStats>)
    ensures |r| == n && forall k :: 0 <= k < n ==> r[k] == s
  {
    seq(n, _ => s)
  }

  /** The clock runs forward: the animation timestamps never decrease. */
  predicate Monotone(w: World, f: Frame) {
    w.lastTimestamp <= f.timestamp
  }

  /** What a frame needs to be defined: the spawn interval's arguments are in range and time runs forward. */
  ghost predicate FrameReady(w: World, f: Frame, ph: Physics) {
    0.0 <= w.survivalTime && 0.0 <= w.bonuses.spawnBoost && 0.0 < w.perks.spawnRateMult && ValidPhysics(ph) && Monotone(w, f)
  }

  /** The state before the meteorite pass: clock, normal spawn, boss spawn. */
  function Spawned(w: World, f: Frame, ph: Physics, dice: Dice): World
    requires FrameReady(w, f, ph)
  {
    var w1 := Clock(w, f, ph);
    assert IntervalReady(w1, ph) by {
      assert Delta(w, f.timestamp) >= 0.0;
    }
    BossStep(SpawnStep(w1, f, ph, dice), f, ph, dice)
  }

  /** `update`: a paused or ended game only records the timestamp. */
  function Tick(w: World, f: Frame, ph: Physics, dice: Dice): TickResult
    requires FrameReady(w, f, ph)
  {
    if !w.gameActive || w.showCardSelection then
      TickResult(w.(lastTimestamp := f.timestamp), [])
    else
      ActiveFrame(Spawned(w, f, ph, dice), Delta(w, f.timestamp), f.width / 2.0, f.height / 2.0, f, ph, dice)
  }

  /**
   * The passes after the spawns, on the spawned state w3, with the frame's delta d and the
   * turret at (cx, cy): meteorites, bullets, deaths, fragments.
   */
  function ActiveFrame(w3: World, d: real, cx: real, cy: real, f: Frame, ph: Physics, dice: Dice): TickResult {
    var w4 := MeteoritePass(w3, d, cx, cy);
    var reports := Repeat(w3.stats, BreachCount(w4.meteorites, cx, cy));
    TickResult(FragmentPass(DeathPass(BulletPass(w4, d, ph), dice), f, ph), reports)
  }
}
