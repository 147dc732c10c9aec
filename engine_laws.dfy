/**
 * What one frame of the engine guarantees: the pass-by-pass facts, and that the engine invariant
 * survives every frame.
 */
module EngineLaws {
  import opened Types
  import opened Constants
  import opened EngineState
  import opened EngineTick
  import Difficulty

  // ---------------------------------------------------------------- invariant, in parts

  /** The meteorite half of the invariant that holds throughout a frame: ids and payout marks. */
  predicate IdsOk(ms: seq<Meteorite>, nextId: nat) {
    && (forall i :: 0 <= i < |ms| ==> !ms[i].isUpgraded && ms[i].id < nextId)
    && (forall i, j :: 0 <= i < j < |ms| ==> ms[i].id != ms[j].id)
  }

  predicate AllLive(ms: seq<Meteorite>) {
    forall i :: 0 <= i < |ms| ==> Live(ms[i])
  }

  /** The invariant without its meteorite clause. */
  predicate Core(w: World) {
    && PerksOk(w.perks)
    && BonusesOk(w.bonuses)
    && 0.0 <= w.survivalTime && w.gameTime == w.survivalTime
    && w.lastFireTime <= w.gameTime
    && w.lastSpawnTime <= w.gameTime
    && (w.bossSpawned <==> w.survivalTime >= BossTime)
    && (w.firstBossDefeated ==> w.bossSpawned)
    && (forall i :: 0 <= i < |w.meteorites| && w.meteorites[i].isBoss ==> w.bossSpawned)
    && InitialUpgradeThreshold <= w.upgradeThreshold
    && 0 <= w.upgradeProgress < w.upgradeThreshold
  }

  lemma InvParts(w: World)
    ensures Inv(w) <==> Core(w) && IdsOk(w.meteorites, w.nextId) && AllLive(w.meteorites)
  {
  }

  /**
   * b is a itself, meteorite by meteorite, after a frame's wear: the same ids, kinds and payout
   * marks, and no hit point gained.
   */
  predicate SameBodies(a: seq<Meteorite>, b: seq<Meteorite>) {
    && |a| == |b|
    && forall i :: 0 <= i < |a| ==>
         b[i].id == a[i].id && b[i].isBoss == a[i].isBoss && b[i].isUpgraded == a[i].isUpgraded && b[i].hp <= a[i].hp
  }

  lemma SameBodiesTrans(a: seq<Meteorite>, b: seq<Meteorite>, c: seq<Meteorite>)
    requires SameBodies(a, b) && SameBodies(b, c)
    ensures SameBodies(a, c)
  {
  }

  lemma SameBodiesKeepIds(a: seq<Meteorite>, b: seq<Meteorite>, n: nat)
    requires IdsOk(a, n) && SameBodies(a, b)
    ensures IdsOk(b, n)
  {
  }

  // ---------------------------------------------------------------- clock and spawning

  /** A paused or ended game only records the timestamp: nothing moves and nothing is reported. */
  lemma PausedTick(w: World, f: Frame, ph: Physics, dice: Dice)
    requires Inv(w) && ValidPhysics(ph) && Monotone(w, f)
    requires !w.gameActive || w.showCardSelection
    ensures Tick(w, f, ph, dice).world == w.(lastTimestamp := f.timestamp)
    ensures Tick(w, f, ph, dice).reports == []
  {
  }

  /** The very first frame takes no time: without a recorded timestamp the delta is 0. */
  lemma FirstFrameTakesNoTime(w: World, f: Frame, ph: Physics)
    requires w.lastTimestamp == 0.0
    ensures Clock(w, f, ph).gameTime == w.gameTime && Clock(w, f, ph).survivalTime == w.survivalTime
    ensures Clock(w, f, ph).lastTimestamp == f.timestamp
  {
  }

  /**
   * A spawned meteorite starts on the spawn circle, half the canvas diagonal plus 150 px from the
   * centre, which is strictly farther than any point of the canvas.
   */
  lemma IncomingOffScreen(id: nat, f: Frame, angle: real, radius: real, hp: real, speed: real, isBoss: bool,
                          ph: Physics, px: real, py: real)
    requires Euclidean(ph)
    requires 0.0 <= f.width && 0.0 <= f.height && 0.0 <= px <= f.width && 0.0 <= py <= f.height
    ensures var m := Incoming(id, f.width / 2.0, f.height / 2.0, SpawnDist(f, ph), angle, radius, hp, speed, isBoss, ph);
      && Dist2(m.x, m.y, f.width / 2.0, f.height / 2.0) == Sq(SpawnDist(f, ph))
      && Dist2(px, py, f.width / 2.0, f.height / 2.0) < Dist2(m.x, m.y, f.width / 2.0, f.height / 2.0)
  {
    var diag := ph.norm(f.width, f.height);
    assert diag >= 0.0 && diag * diag == f.width * f.width + f.height * f.height;
    var dist := SpawnDist(f, ph);
    assert dist == diag / 2.0 + 150.0;
    var o := ph.polar(angle, dist);
    assert o.0 * o.0 + o.1 * o.1 == dist * dist;
    Difficulty.SpawnCircleOffScreen(f.width, f.height, diag, px, py);
    var cx := f.width / 2.0;
    var cy := f.height / 2.0;
    assert Dist2(px, py, cx, cy) == (px - cx) * (px - cx) + (py - cy) * (py - cy);
  }

  /**
   * The normal spawn adds at most one meteorite, fresh (10 hp, radius in [14, 38), a new id, no
   * boss), and only when due: the first at 300 ms of game time, later ones at least the spawn
   * interval, hence at least 350 ms, after the previous one.
   */
  lemma SpawnStepEffect(w: World, f: Frame, ph: Physics, dice: Dice)
    requires IntervalReady(w, ph)
    ensures var r := SpawnStep(w, f, ph, dice);
      && (SpawnDue(w, Interval(w, ph)) ==>
            && |r.meteorites| == |w.meteorites| + 1 && r.meteorites[..|w.meteorites|] == w.meteorites
            && (var m := r.meteorites[|w.meteorites|];
                m.hp == MeteoriteInitialHp && m.maxHp == MeteoriteInitialHp && 14.0 <= m.radius < 38.0
                && !m.isBoss && !m.isUpgraded && m.id == w.nextId)
            && r.nextId == w.nextId + 1 && r.lastSpawnTime == w.gameTime && r.initialSpawnDone
            && (w.initialSpawnDone ==> w.gameTime - w.lastSpawnTime >= Difficulty.MinSpawnInterval)
            && (!w.initialSpawnDone ==> w.gameTime >= FirstSpawnTime))
      && (!SpawnDue(w, Interval(w, ph)) ==> r == w)
  {
  }

  /** The boss comes exactly when survival time has reached 30 s and it has not come before. */
  lemma BossStepEffect(w: World, f: Frame, ph: Physics, dice: Dice)
    ensures var r := BossStep(w, f, ph, dice);
      && (w.survivalTime >= BossTime && !w.bossSpawned ==>
            && |r.meteorites| == |w.meteorites| + 1 && r.meteorites[..|w.meteorites|] == w.meteorites
            && (var m := r.meteorites[|w.meteorites|];
                m.isBoss && m.hp == BossHp && m.maxHp == BossHp && m.radius == BossRadius && m.id == w.nextId)
            && r.bossSpawned && r.nextId == w.nextId + 1)
      && (w.survivalTime < BossTime || w.bossSpawned ==> r == w)
  {
  }

  /** `Core` while the boss step is still to come: a boss flag implies the time, not yet conversely. */
  predicate PreBoss(w: World) {
    && PerksOk(w.perks)
    && BonusesOk(w.bonuses)
    && 0.0 <= w.survivalTime && w.gameTime == w.survivalTime
    && w.lastFireTime <= w.gameTime
    && w.lastSpawnTime <= w.gameTime
    && (w.bossSpawned ==> w.survivalTime >= BossTime)
    && (w.firstBossDefeated ==> w.bossSpawned)
    && (forall i :: 0 <= i < |w.meteorites| && w.meteorites[i].isBoss ==> w.bossSpawned)
    && InitialUpgradeThreshold <= w.upgradeThreshold
    && 0 <= w.upgradeProgress < w.upgradeThreshold
    && IdsOk(w.meteorites, w.nextId) && AllLive(w.meteorites)
  }

  lemma ClockOk(w: World, f: Frame, ph: Physics)
    requires Inv(w) && ValidPhysics(ph) && Monotone(w, f)
    ensures PreBoss(Clock(w, f, ph)) && IntervalReady(Clock(w, f, ph), ph)
    ensures Clock(w, f, ph).survivalTime >= w.survivalTime
  {
    assert Delta(w, f.timestamp) >= 0.0;
  }

  lemma SpawnStepOk(w: World, f: Frame, ph: Physics, dice: Dice)
    requires PreBoss(w) && IntervalReady(w, ph)
    ensures PreBoss(SpawnStep(w, f, ph, dice))
  {
    SpawnStepEffect(w, f, ph, dice);
    var r := SpawnStep(w, f, ph, dice);
    if SpawnDue(w, Interval(w, ph)) {
      assert forall i :: 0 <= i < |w.meteorites| ==> r.meteorites[i] == w.meteorites[i];
    }
  }

  lemma BossStepOk(w: World, f: Frame, ph: Physics, dice: Dice)
    requires PreBoss(w)
    ensures Core(BossStep(w, f, ph, dice))
    ensures IdsOk(BossStep(w, f, ph, dice).meteorites, BossStep(w, f, ph, dice).nextId)
    ensures AllLive(BossStep(w, f, ph, dice).meteorites)
  {
    BossStepEffect(w, f, ph, dice);
    var r := BossStep(w, f, ph, dice);
    if w.survivalTime >= BossTime && !w.bossSpawned {
      assert forall i :: 0 <= i < |w.meteorites| ==> r.meteorites[i] == w.meteorites[i];
    }
  }

  /** After clock and spawns the state keeps every part of the invariant; only new ids have been issued. */
  lemma SpawnedOk(w: World, f: Frame, ph: Physics, dice: Dice)
    requires Inv(w) && ValidPhysics(ph) && Monotone(w, f)
    ensures var r := Spawned(w, f, ph, dice);
      && Core(r) && IdsOk(r.meteorites, r.nextId) && AllLive(r.meteorites)
      && r.nextId >= w.nextId
      && |r.meteorites| >= |w.meteorites| && r.meteorites[..|w.meteorites|] == w.meteorites
      && (w.bossSpawned ==> forall i :: |w.meteorites| <= i < |r.meteorites| ==> !r.meteorites[i].isBoss)
  {
    var w1 := Clock(w, f, ph);
    ClockOk(w, f, ph);
    var w2 := SpawnStep(w1, f, ph, dice);
    SpawnStepOk(w1, f, ph, dice);
    SpawnStepEffect(w1, f, ph, dice);
    BossStepOk(w2, f, ph, dice);
    BossStepEffect(w2, f, ph, dice);
    var w3 := BossStep(w2, f, ph, dice);
    assert w3.meteorites[..|w.meteorites|] == w.meteorites by {
      assert w2.meteorites[..|w.meteorites|] == w.meteorites;
      assert w3.meteorites[..|w2.meteorites|] == w2.meteorites;
    }
  }

  /** The spawn stages touch nothing but the clock, the aim, the spawn bookkeeping and the meteorite list. */
  lemma SpawnedFrame(w: World, f: Frame, ph: Physics, dice: Dice)
    requires Inv(w) && ValidPhysics(ph) && Monotone(w, f)
    ensures var r := Spawned(w, f, ph, dice);
      && r.stats == w.stats && r.bullets == w.bullets && r.fragments == w.fragments
      && r.gameActive == w.gameActive && r.showCardSelection == w.showCardSelection
      && r.perks == w.perks && r.bonuses == w.bonuses
      && r.upgradeProgress == w.upgradeProgress && r.upgradeThreshold == w.upgradeThreshold
      && r.firstBossDefeated == w.firstBossDefeated && r.lastFireTime == w.lastFireTime
      && r.lastTimestamp == f.timestamp && r.gameTime == w.gameTime + Delta(w, f.timestamp)
  {
  }

  // ---------------------------------------------------------------- meteorite pass

  /** A meteorite's frame loses no hit points (burning costs 0.006 hp per ms) and keeps its identity. */
  lemma AdvanceWears(m: Meteorite, delta: real)
    requires 0.0 <= delta
    ensures Advance(m, delta).hp <= m.hp
    ensures m.burnTimer > 0.0 ==> Advance(m, delta).hp == m.hp - BurnRate * delta
    ensures m.burnTimer <= 0.0 ==> Advance(m, delta).hp == m.hp
    ensures Advance(m, delta).id == m.id && Advance(m, delta).isBoss == m.isBoss
    ensures Advance(m, delta).isUpgraded == m.isUpgraded && Advance(m, delta).radius == m.radius
  {
  }

  lemma MeteoritePassShape(w: World, delta: real, cx: real, cy: real)
    requires 0.0 <= delta
    ensures SameBodies(w.meteorites, MeteoritePass(w, delta, cx, cy).meteorites)
    ensures MeteoritePass(w, delta, cx, cy) == w.(meteorites := MeteoritePass(w, delta, cx, cy).meteorites,
                                                  gameActive := MeteoritePass(w, delta, cx, cy).gameActive)
  {
    var ms := AdvanceAll(w.meteorites, delta);
    forall i | 0 <= i < |w.meteorites| ensures ms[i] == Advance(w.meteorites[i], delta) {
    }
  }

  /** The game goes on after the meteorite pass exactly when no meteorite is inside the turret. */
  lemma BreachEndsGame(w: World, delta: real, cx: real, cy: real)
    requires w.gameActive
    ensures var r := MeteoritePass(w, delta, cx, cy);
      r.gameActive <==> forall i :: 0 <= i < |r.meteorites| ==> !Breaches(r.meteorites[i], cx, cy)
  {
  }

  // ---------------------------------------------------------------- bullet pass

  /** The homing target, if any, is the first meteorite carrying that id; with unique ids, its index. */
  lemma IndexOfOwnId(ms: seq<Meteorite>, k: nat)
    requires k < |ms|
    requires forall i, j :: 0 <= i < j < |ms| ==> ms[i].id != ms[j].id
    ensures IndexOfId(ms, ms[k].id) == Some(k)
  {
    var r := IndexOfId(ms, ms[k].id);
    assert r.Some?;
  }

  /**
   * A homing bullet never holds on to a dead meteorite: after its homing step its target, if any,
   * is a live meteorite of the list. Without a target left it flies straight on.
   */
  lemma HomingTargetsLive(b: Bullet, ms: seq<Meteorite>, delta: real, ph: Physics)
    requires b.isHoming
    requires forall i, j :: 0 <= i < j < |ms| ==> ms[i].id != ms[j].id
    ensures var r := HomingStep(b, ms, delta, ph);
      && (r.target.Some? ==> TargetIndex(r, ms).Some? && Live(ms[TargetIndex(r, ms).value]))
      && (r.target.None? ==> r.vx == b.vx && r.vy == b.vy && (forall k :: 0 <= k < |ms| ==> !Live(ms[k])))
  {
    var cd := b.homingSearchCooldown - delta;
    var cur := TargetIndex(b, ms);
    var stale := cur.None? || ms[cur.value].hp <= 0.0 || cd <= 0.0;
    var t := if stale then Nearest(ms, b.x, b.y) else cur;
    if t.Some? {
      IndexOfOwnId(ms, t.value);
    }
  }

  /**
   * The rescan rule: a homing bullet looks for a new target when it has none, when its target is
   * dead, or when its search cooldown has run out; it then takes the nearest live meteorite and
   * waits 150 ms before the next search. Otherwise it keeps its target.
   */
  lemma HomingRescans(b: Bullet, ms: seq<Meteorite>, delta: real, ph: Physics)
    requires b.isHoming
    ensures var r := HomingStep(b, ms, delta, ph);
      var cur := TargetIndex(b, ms);
      var stale := cur.None? || ms[cur.value].hp <= 0.0 || b.homingSearchCooldown - delta <= 0.0;
      && (stale ==> r.homingSearchCooldown == HomingRescan
                    && r.target == (var n := Nearest(ms, b.x, b.y); if n.Some? then Some(ms[n.value].id) else None))
      && (!stale ==> r.homingSearchCooldown == b.homingSearchCooldown - delta && r.target == b.target)
  {
    var cur := TargetIndex(b, ms);
    if cur.Some? {
      assert ms[cur.value].id == b.target.value;
    }
  }

  /** A bullet without the homing perk ignores the meteorites. */
  lemma PlainBulletsFlyStraight(b: Bullet, ms: seq<Meteorite>, delta: real, ph: Physics)
    requires !b.isHoming
    ensures HomingStep(b, ms, delta, ph) == b
  {
  }

  /**
   * One bullet hits at most one meteorite: the first live one it overlaps. That meteorite alone
   * loses the hit's damage, which is added to the total, and the bullet is spent. A bullet that
   * hits nothing changes no meteorite and stays exactly while it is within range.
   */
  lemma BulletStepHitsOnce(acc: BulletAcc, b: Bullet, delta: real, dmg: real, ph: Physics)
    ensures var b2 := Fly(HomingStep(b, acc.meteorites, delta, ph), ph);
      var r := BulletStep(acc, b, delta, dmg, ph);
      && |r.meteorites| == |acc.meteorites|
      && (FirstHit(acc.meteorites, b2).Some? ==>
            var j := FirstHit(acc.meteorites, b2).value;
            && Overlaps(acc.meteorites[j], b2)
            && (forall k :: 0 <= k < j ==> !Overlaps(acc.meteorites[k], b2))
            && r.meteorites[j].hp == acc.meteorites[j].hp - dmg
            && (forall k :: 0 <= k < |acc.meteorites| && k != j ==> r.meteorites[k] == acc.meteorites[k])
            && r.damage == acc.damage + dmg && r.kept == acc.kept)
      && (FirstHit(acc.meteorites, b2).None? ==>
            && r.meteorites == acc.meteorites && r.damage == acc.damage
            && r.kept == acc.kept + (if b2.distanceTraveled < b2.maxDistance then [b2] else []))
  {
  }

  /** An ice hit slows the meteorite for 2 s, a fire hit sets it burning for 3 s; both flash it for 120 ms. */
  lemma StruckStatus(m: Meteorite, b: Bullet, dmg: real)
    ensures Struck(m, b, dmg).flashTimer == FlashTime
    ensures b.isIce ==> Struck(m, b, dmg).slowTimer == SlowTime && Struck(m, b, dmg).flashColor == IceBlue
    ensures b.isFire ==> Struck(m, b, dmg).burnTimer == BurnTime
    ensures b.isFire && !b.isIce ==> Struck(m, b, dmg).flashColor == FireRed
    ensures !b.isIce && !b.isFire ==> Struck(m, b, dmg).flashColor == White
                                      && Struck(m, b, dmg).slowTimer == m.slowTimer && Struck(m, b, dmg).burnTimer == m.burnTimer
  {
  }

  /** Over the whole bullet pass no meteorite gains hit points or changes identity, and damage only accumulates. */
  lemma {:induction false} BulletFoldShape(bs: seq<Bullet>, acc: BulletAcc, delta: real, dmg: real, ph: Physics)
    requires 0.0 <= dmg
    ensures SameBodies(acc.meteorites, BulletFold(bs, acc, delta, dmg, ph).meteorites)
    ensures acc.damage <= BulletFold(bs, acc, delta, dmg, ph).damage
    ensures |BulletFold(bs, acc, delta, dmg, ph).kept| <= |acc.kept| + |bs|
    decreases |bs|
  {
    if |bs| > 0 {
      var a := BulletFold(bs[..|bs| - 1], acc, delta, dmg, ph);
      BulletFoldShape(bs[..|bs| - 1], acc, delta, dmg, ph);
      BulletStepHitsOnce(a, bs[|bs| - 1], delta, dmg, ph);
      var r := BulletStep(a, bs[|bs| - 1], delta, dmg, ph);
      assert SameBodies(a.meteorites, r.meteorites);
      SameBodiesTrans(acc.meteorites, a.meteorites, r.meteorites);
    }
  }

  lemma BulletPassShape(w: World, delta: real, ph: Physics)
    requires BonusesOk(w.bonuses) && PerksOk(w.perks)
    ensures var r := BulletPass(w, delta, ph);
      && SameBodies(w.meteorites, r.meteorites)
      && r.stats.totalDamageDealt >= w.stats.totalDamageDealt
      && r == w.(bullets := r.bullets, meteorites := r.meteorites,
                 stats := w.stats.(totalDamageDealt := r.stats.totalDamageDealt))
  {
    BulletFoldShape(w.bullets, BulletAcc([], w.meteorites, w.stats.totalDamageDealt), delta, HitDamage(w), ph);
  }

  // ---------------------------------------------------------------- death pass

  /** The death pass's mark: a dying meteorite is flagged as paid out. */
  function Mark(m: Meteorite): Meteorite {
    if Dies(m) then m.(isUpgraded := true) else m
  }

  /** How many meteorites of the list die. */
  function DyingCount(ms: seq<Meteorite>): (r: nat)
    ensures r <= |ms|
    decreases |ms|
  {
    if |ms| == 0 then 0 else DyingCount(ms[..|ms| - 1]) + (if Dies(ms[|ms| - 1]) then 1 else 0)
  }

  /** How many fragments the dying meteorites of the list leave: 4 each, 21 for the boss (20 and the core). */
  function DropTotal(ms: seq<Meteorite>): nat
    decreases |ms|
  {
    if |ms| == 0 then 0
    else DropTotal(ms[..|ms| - 1]) + (if Dies(ms[|ms| - 1]) then (if ms[|ms| - 1].isBoss then BossDrops + 1 else NormalDrops) else 0)
  }

  /**
   * A normal meteorite leaves 4 drifting fragments at its position; the boss leaves 20 and then a
   * core of radius 10 at rest.
   */
  lemma DropsOf(m: Meteorite, i: nat, dice: Dice)
    ensures |Drops(m, i, dice)| == (if m.isBoss then BossDrops + 1 else NormalDrops)
    ensures forall k :: 0 <= k < |Drops(m, i, dice)| ==>
              Drops(m, i, dice)[k].x == m.x && Drops(m, i, dice)[k].y == m.y && !Drops(m, i, dice)[k].isMovingToTurret
    ensures forall k :: 0 <= k < DropCount(m) ==> !Drops(m, i, dice)[k].isCore && Drops(m, i, dice)[k].radius == FragmentRadius
    ensures m.isBoss ==> Drops(m, i, dice)[BossDrops].isCore && Drops(m, i, dice)[BossDrops].radius == 10.0
                         && Drops(m, i, dice)[BossDrops].vx == 0.0 && Drops(m, i, dice)[BossDrops].vy == 0.0
  {
  }

  /**
   * The death pass marks exactly the dying meteorites, counts each of them once, leaves their
   * fragments, and records a boss kill when the boss is among them.
   */
  lemma DeathFoldEffect(ms: seq<Meteorite>, acc: DeathAcc, dice: Dice)
    ensures var r := DeathFold(ms, acc, dice);
      && |r.marked| == |acc.marked| + |ms|
      && r.marked[..|acc.marked|] == acc.marked
      && (forall i :: 0 <= i < |ms| ==> r.marked[|acc.marked| + i] == Mark(ms[i]))
      && r.destroyed == acc.destroyed + DyingCount(ms)
      && |r.drops| == |acc.drops| + DropTotal(ms)
      && (r.bossDown <==> acc.bossDown || exists i :: 0 <= i < |ms| && Dies(ms[i]) && ms[i].isBoss)
  {
    DeathFoldMarks(ms, acc, dice);
    DeathFoldCounts(ms, acc, dice);
    DeathFoldBoss(ms, acc, dice);
  }

  /** The marked list is the old one followed by every meteorite of the pass, marked when it dies. */
  lemma {:induction false} DeathFoldMarks(ms: seq<Meteorite>, acc: DeathAcc, dice: Dice)
    ensures var r := DeathFold(ms, acc, dice);
      && |r.marked| == |acc.marked| + |ms|
      && r.marked[..|acc.marked|] == acc.marked
      && (forall i :: 0 <= i < |ms| ==> r.marked[|acc.marked| + i] == Mark(ms[i]))
    decreases |ms|
  {
    if |ms| > 0 {
      var n := |ms| - 1;
      DeathFoldMarks(ms[..n], acc, dice);
      var a := DeathFold(ms[..n], acc, dice);
      var r := DeathFold(ms, acc, dice);
      assert r.marked == a.marked + [Mark(ms[n])];
      forall i | 0 <= i < |ms| ensures r.marked[|acc.marked| + i] == Mark(ms[i]) {
        if i < n {
          assert r.marked[|acc.marked| + i] == a.marked[|acc.marked| + i];
          assert ms[..n][i] == ms[i];
        }
      }
      assert r.marked[..|acc.marked|] == a.marked[..|acc.marked|];
    }
  }

  /** Each dying meteorite adds one to the destroyed count and its drops to the fragments. */
  lemma {:induction false} DeathFoldCounts(ms: seq<Meteorite>, acc: DeathAcc, dice: Dice)
    ensures var r := DeathFold(ms, acc, dice);
      && r.destroyed == acc.destroyed + DyingCount(ms)
      && |r.drops| == |acc.drops| + DropTotal(ms)
    decreases |ms|
  {
    if |ms| > 0 {
      var n := |ms| - 1;
      DeathFoldCounts(ms[..n], acc, dice);
      DropsOf(ms[n], n, dice);
    }
  }

  /** A boss kill is recorded exactly when a dying boss is in the pass, or one already was. */
  lemma {:induction false} DeathFoldBoss(ms: seq<Meteorite>, acc: DeathAcc, dice: Dice)
    ensures var r := DeathFold(ms, acc, dice);
      r.bossDown <==> acc.bossDown || exists i :: 0 <= i < |ms| && Dies(ms[i]) && ms[i].isBoss
    decreases |ms|
  {
    if |ms| > 0 {
      var n := |ms| - 1;
      DeathFoldBoss(ms[..n], acc, dice);
      var a := DeathFold(ms[..n], acc, dice);
      var r := DeathFold(ms, acc, dice);
      if r.bossDown && !acc.bossDown && !a.bossDown {
        assert Dies(ms[n]) && ms[n].isBoss;
      }
      if a.bossDown && !acc.bossDown {
        var i :| 0 <= i < n && Dies(ms[..n][i]) && ms[..n][i].isBoss;
        assert ms[i] == ms[..n][i];
      }
      if exists i :: 0 <= i < |ms| && Dies(ms[i]) && ms[i].isBoss {
        var i :| 0 <= i < |ms| && Dies(ms[i]) && ms[i].isBoss;
        if i < n {
          assert ms[..n][i] == ms[i];
        }
      }
    }
  }

  /** A meteorite is paid out once: no meteorite the death pass has marked dies again. */
  lemma MarkedNeverDies(m: Meteorite)
    ensures !Dies(Mark(m))
    ensures Live(m) ==> Mark(m) == m
  {
  }

  /** Running the death pass over a list in which nothing dies pays out nothing. */
  lemma {:induction false} NothingDiesTwice(ms: seq<Meteorite>, acc: DeathAcc, dice: Dice)
    requires forall i :: 0 <= i < |ms| ==> !Dies(ms[i])
    ensures DeathFold(ms, acc, dice).destroyed == acc.destroyed
    ensures DeathFold(ms, acc, dice).drops == acc.drops
    ensures DeathFold(ms, acc, dice).bossDown == acc.bossDown
    decreases |ms|
  {
    if |ms| > 0 {
      NothingDiesTwice(ms[..|ms| - 1], acc, dice);
    }
  }

  /** The filter keeps ids unique. */
  lemma {:induction false} AliveKeepsIdsApart(ms: seq<Meteorite>)
    requires forall i, j :: 0 <= i < j < |ms| ==> ms[i].id != ms[j].id
    ensures forall i, j :: 0 <= i < j < |Alive(ms)| ==> Alive(ms)[i].id != Alive(ms)[j].id
    decreases |ms|
  {
    if |ms| > 0 {
      var n := |ms| - 1;
      var p := ms[..n];
      assert forall i, j :: 0 <= i < j < |p| ==> p[i].id != p[j].id;
      AliveKeepsIdsApart(p);
      var a := Alive(p);
      if Live(ms[n]) {
        var r := a + [ms[n]];
        assert Alive(ms) == r;
        forall i, j | 0 <= i < j < |r| ensures r[i].id != r[j].id {
          if j == |a| {
            assert r[i] == a[i] && a[i] in p;
            var k :| 0 <= k < n && p[k] == a[i];
            assert ms[k] == p[k];
          } else {
            assert r[i] == a[i] && r[j] == a[j];
          }
        }
      }
    }
  }

  /** Filtering the marked list leaves only live, unpaid meteorites of the original list. */
  lemma AliveOfMarked(ms: seq<Meteorite>, mk: seq<Meteorite>, n: nat)
    requires IdsOk(ms, n) && |mk| == |ms| && forall i :: 0 <= i < |ms| ==> mk[i] == Mark(ms[i])
    ensures IdsOk(Alive(mk), n) && AllLive(Alive(mk))
    ensures forall m :: m in Alive(mk) ==> m in ms
  {
    assert forall i, j :: 0 <= i < j < |mk| ==> mk[i].id != mk[j].id by {
      assert forall i :: 0 <= i < |ms| ==> mk[i].id == ms[i].id;
    }
    AliveKeepsIdsApart(mk);
    var al := Alive(mk);
    forall m | m in al ensures Live(m) && m in ms {
      var k :| 0 <= k < |mk| && mk[k] == m;
      MarkedNeverDies(ms[k]);
    }
    forall i | 0 <= i < |al| ensures Live(al[i]) && !al[i].isUpgraded && al[i].id < n {
      assert al[i] in al;
    }
  }

  /** After the death pass every meteorite is alive and unpaid, ids staying unique and issued. */
  lemma DeathPassOk(w: World, dice: Dice)
    requires IdsOk(w.meteorites, w.nextId)
    ensures var r := DeathPass(w, dice);
      && IdsOk(r.meteorites, r.nextId) && AllLive(r.meteorites)
      && (forall m :: m in r.meteorites ==> m in w.meteorites)
      && r.stats.meteoritesDestroyed == w.stats.meteoritesDestroyed + DyingCount(w.meteorites)
      && |r.fragments| == |w.fragments| + DropTotal(w.meteorites)
      && (r.firstBossDefeated <==> w.firstBossDefeated || exists i :: 0 <= i < |w.meteorites| && Dies(w.meteorites[i]) && w.meteorites[i].isBoss)
  {
    var acc := DeathAcc([], [], w.stats.meteoritesDestroyed, w.firstBossDefeated);
    DeathFoldEffect(w.meteorites, acc, dice);
    var d := DeathFold(w.meteorites, acc, dice);
    forall i | 0 <= i < |w.meteorites| ensures d.marked[i] == Mark(w.meteorites[i]) {
      assert d.marked[|acc.marked| + i] == Mark(w.meteorites[i]);
    }
    AliveOfMarked(w.meteorites, d.marked, w.nextId);
  }

  /** The death pass touches nothing but the meteorites, the fragments, the kill counter and the boss flag. */
  lemma DeathPassFrame(w: World, dice: Dice)
    ensures var r := DeathPass(w, dice);
      && r.fragments[..|w.fragments|] == w.fragments
      && r == w.(meteorites := r.meteorites, fragments := r.fragments,
                 stats := w.stats.(meteoritesDestroyed := r.stats.meteoritesDestroyed),
                 firstBossDefeated := r.firstBossDefeated)
  {
  }

  // ---------------------------------------------------------------- fragment pass

  /** The next threshold is t + floor(t / 2) + 3, so it is larger by at least 3, for every non-negative t. */
  lemma NextThresholdGrows(t: int)
    requires 0 <= t
    ensures NextThreshold(t) == t + t / 2 + 3
    ensures NextThreshold(t) >= t + 3
  {
    var q, m := t / 2, t % 2;
    assert t == 2 * q + m && (m == 0 || m == 1);
    assert (t as real) * 1.5 == ((t + q) as real) + (m as real) * 0.5;
  }

  /**
   * A fragment's frame. A fragment on its way keeps going until it is collected; a drifting one is
   * set on its way exactly when the pointer is within the magnet range. A core counts only as a
   * core; a normal fragment counts once and advances the level-up progress, which resets at the
   * threshold while the threshold grows and the overlay opens.
   */
  lemma FragStepEffect(acc: FragAcc, fr: Fragment, px: real, py: real, cx: real, cy: real, magnet: real, ph: Physics)
    requires 0 <= acc.threshold
    ensures var r := FragStep(acc, fr, px, py, cx, cy, magnet, ph);
      && (fr.isMovingToTurret ==> forall k :: |acc.kept| <= k < |r.kept| ==> r.kept[k].isMovingToTurret)
      && (!fr.isMovingToTurret ==>
            && |r.kept| == |acc.kept| + 1
            && (r.kept[|acc.kept|].isMovingToTurret <==> Dist2(px, py, fr.x + fr.vx, fr.y + fr.vy) < Sq(MagnetBase + magnet))
            && r.fragments == acc.fragments && r.cores == acc.cores && r.progress == acc.progress
            && r.threshold == acc.threshold)
      && (fr.isCore ==> r.fragments == acc.fragments && r.progress == acc.progress
                        && r.threshold == acc.threshold && r.show == acc.show)
      && (fr.isMovingToTurret && Dist2(cx, cy, fr.x, fr.y) < Sq(ReachRadius) ==>
            && r.kept == acc.kept
            && (fr.isCore ==> r.cores == acc.cores + 1)
            && (!fr.isCore ==>
                  && r.fragments == acc.fragments + 1 && r.cores == acc.cores
                  && (acc.progress + 1 >= acc.threshold ==>
                        r.progress == 0 && r.threshold == NextThreshold(acc.threshold) && r.threshold > acc.threshold && r.show)
                  && (acc.progress + 1 < acc.threshold ==>
                        r.progress == acc.progress + 1 && r.threshold == acc.threshold && r.show == acc.show)))
      && (fr.isMovingToTurret && !(Dist2(cx, cy, fr.x, fr.y) < Sq(ReachRadius)) ==>
            |r.kept| == |acc.kept| + 1 && r.fragments == acc.fragments && r.cores == acc.cores
            && r.progress == acc.progress && r.threshold == acc.threshold)
  {
    NextThresholdGrows(acc.threshold);
  }

  /** The level-up bookkeeping the fragment pass keeps: 0 <= progress < threshold, threshold >= 5, never falling. */
  predicate ProgressOk(a: FragAcc) {
    InitialUpgradeThreshold <= a.threshold && 0 <= a.progress < a.threshold
  }

  lemma {:induction false} FragFoldProgress(fs: seq<Fragment>, acc: FragAcc, px: real, py: real, cx: real, cy: real,
                                            magnet: real, ph: Physics)
    requires ProgressOk(acc)
    ensures var r := FragFold(fs, acc, px, py, cx, cy, magnet, ph);
      && ProgressOk(r) && acc.threshold <= r.threshold
      && acc.fragments <= r.fragments && acc.cores <= r.cores && (acc.show ==> r.show)
      && (r.threshold > acc.threshold ==> r.show)
    decreases |fs|
  {
    if |fs| > 0 {
      var a := FragFold(fs[..|fs| - 1], acc, px, py, cx, cy, magnet, ph);
      FragFoldProgress(fs[..|fs| - 1], acc, px, py, cx, cy, magnet, ph);
      FragStepEffect(a, fs[|fs| - 1], px, py, cx, cy, magnet, ph);
    }
  }

  lemma FragmentPassOk(w: World, f: Frame, ph: Physics)
    requires InitialUpgradeThreshold <= w.upgradeThreshold && 0 <= w.upgradeProgress < w.upgradeThreshold
    ensures var r := FragmentPass(w, f, ph);
      && InitialUpgradeThreshold <= r.upgradeThreshold && 0 <= r.upgradeProgress < r.upgradeThreshold
      && w.upgradeThreshold <= r.upgradeThreshold
      && w.stats.fragmentsCollected <= r.stats.fragmentsCollected && w.stats.coresCollected <= r.stats.coresCollected
      && (r.upgradeThreshold > w.upgradeThreshold ==> r.showCardSelection)
      && r == w.(fragments := r.fragments,
                 stats := w.stats.(fragmentsCollected := r.stats.fragmentsCollected, coresCollected := r.stats.coresCollected),
                 upgradeProgress := r.upgradeProgress, upgradeThreshold := r.upgradeThreshold,
                 showCardSelection := r.showCardSelection)
  {
    FragFoldProgress(w.fragments,
                     FragAcc([], w.stats.fragmentsCollected, w.stats.coresCollected, w.upgradeProgress,
                             w.upgradeThreshold, w.showCardSelection),
                     f.pointerX, f.pointerY, f.width / 2.0, f.height / 2.0, w.bonuses.magnetRangeBoost, ph);
  }
}
