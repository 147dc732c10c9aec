/**
 * The game engine of components/GameEngine.tsx as an object: one field per `useRef` the
 * simulation reads or writes (plus the `showCardSelection` state), and one method per handler.
 * Each method is proved to leave the fields as the corresponding function of EngineActions or
 * EngineTick describes, so every law proved about those functions holds of the object.
 */
module GameEngine {
  import opened Types
  import opened Constants
  import opened EngineState
  import opened EngineTick
  import EngineActions
  import EngineLaws
  import FrameLaws
  import Cards
  import Difficulty
  import Talents

  /** The talent bonuses the service hands out are never negative. */
  lemma ServiceBonusesOk(s: TalentState)
    ensures BonusesOk(Talents.GetBonuses(s))
  {
    Talents.BonusesLinear(s, Cooldown);
    Talents.BonusesLinear(s, Damage);
    Talents.BonusesLinear(s, SpawnRate);
    Talents.BonusesLinear(s, FragmentValue);
    Talents.BonusesLinear(s, BulletTrail);
    Talents.BonusesLinear(s, MagnetRange);
  }

  class Engine {
    var bullets: seq<Bullet>
    var meteorites: seq<Meteorite>
    var fragments: seq<Fragment>
    var perks: Perks
    var stats: GameStats
    /** `bonuses = useRef(talentService.getBonuses())`: read once at mount, never reassigned. */
    const bonuses: Bonuses
    var gameTime: real
    var survivalTime: real
    var lastTimestamp: real
    var lastSpawnTime: real
    var lastFireTime: real
    var bossSpawned: bool
    var firstBossDefeated: bool
    var initialSpawnDone: bool
    var turretAngle: real
    var upgradeThreshold: int
    var upgradeProgress: int
    var gameActive: bool
    var showCardSelection: bool
    var nextId: nat

    /** The fields as one value. */
    function State(): World
      reads this
    {
      World(bullets, meteorites, fragments, perks, stats, bonuses, gameTime, survivalTime,
            lastTimestamp, lastSpawnTime, lastFireTime, bossSpawned, firstBossDefeated,
            initialSpawnDone, turretAngle, upgradeThreshold, upgradeProgress, gameActive,
            showCardSelection, nextId)
    }

    predicate Valid()
      reads this
    {
      Inv(State())
    }

    /** Mounting the engine: every ref at its initial value, the bonuses read from the talent service. */
    constructor (service: Talents.TalentService)
      ensures State() == Initial(Talents.GetBonuses(service.State()))
      ensures Valid() && gameActive && !showCardSelection
    {
      bullets := [];
      meteorites := [];
      fragments := [];
      perks := NoPerks;
      stats := NoStats;
      bonuses := Talents.GetBonuses(service.State());
      gameTime := 0.0;
      survivalTime := 0.0;
      lastTimestamp := 0.0;
      lastSpawnTime := 0.0;
      lastFireTime := 0.0;
      bossSpawned := false;
      firstBossDefeated := false;
      initialSpawnDone := false;
      turretAngle := 0.0;
      upgradeThreshold := InitialUpgradeThreshold;
      upgradeProgress := 0;
      gameActive := true;
      showCardSelection := false;
      nextId := 0;
      new;
      ServiceBonusesOk(service.State());
      InitialOk(bonuses);
    }

    /** `fireBullet` on a canvas of the given size. */
    method FireBullet(width: real, height: real, ph: Physics)
      requires Valid()
      modifies this`bullets, this`stats, this`lastFireTime
      ensures State() == EngineActions.FireBullet(old(State()), width, height, ph)
      ensures Valid()
    {
      ghost var w0 := State();
      EngineActions.FireKeepsInv(w0, width, height, ph);
      if !gameActive || showCardSelection {
        return;
      }
      var now := gameTime;
      var actualCD := Max(EngineActions.MinShotCooldown, (BulletFireCooldown - bonuses.cooldownReduction) * perks.cooldownMult);
      if now - lastFireTime >= actualCD {
        assert EngineActions.CanFire(w0);
        PushVolley(width / 2.0, height / 2.0, ph);
        lastFireTime := now;
      }
    }

    /** The loop of `fireBullet`: one bullet per `bulletsPerShot`, each counted as fired. */
    method PushVolley(cx: real, cy: real, ph: Physics)
      modifies this`bullets, this`stats
      ensures bullets == old(bullets) + EngineActions.Volley(old(State()), cx, cy, ph)
      ensures stats == old(stats).(bulletsFired := old(stats).bulletsFired + perks.bulletsPerShot)
    {
      ghost var w0 := State();
      var speed := BulletSpeed + bonuses.bulletSpeedBoost;
      var num := perks.bulletsPerShot;
      for i := 0 to num
        invariant |bullets| == |w0.bullets| + i
        invariant bullets[..|w0.bullets|] == w0.bullets
        invariant forall k :: 0 <= k < i ==> bullets[|w0.bullets| + k] == EngineActions.Shot(w0, k, cx, cy, ph)
        invariant stats == w0.stats.(bulletsFired := w0.stats.bulletsFired + i)
      {
        var offset := ((i as real) - ((num as real) - 1.0) / 2.0) * EngineActions.Spread;
        var v := ph.polar(turretAngle + offset, speed);
        bullets := bullets + [Bullet(cx, cy, v.0, v.1, BulletRadius, 0.0, CircleRadius,
                                     perks.isIce, perks.isFire, perks.isHoming, None, 0.0)];
        stats := stats.(bulletsFired := stats.bulletsFired + 1);
      }
      assert bullets == w0.bullets + EngineActions.Volley(w0, cx, cy, ph);
    }

    /** The overlay's `onSelect`: apply the chosen perk and close the overlay. */
    method SelectPerk(id: PerkId)
      requires Valid()
      modifies this`perks, this`showCardSelection
      ensures State() == EngineActions.SelectPerk(old(State()), id)
      ensures (id in Cards.OneTime ==> id !in old(perks).ownedOneTimers) ==> Valid()
      ensures !showCardSelection
    {
      ghost var w0 := State();
      ApplyPerk(id);
      showCardSelection := false;
      assert State() == EngineActions.SelectPerk(w0, id);
      if id in Cards.OneTime ==> id !in w0.perks.ownedOneTimers {
        EngineActions.SelectNewPerkKeepsInv(w0, id);
      }
    }

    /** The card's effect on the perk record. */
    method ApplyPerk(id: PerkId)
      modifies this`perks
      ensures perks == EngineActions.WithPerk(old(perks), id)
    {
      match id {
        case ExtraBullets => perks := perks.(bulletsPerShot := perks.bulletsPerShot + 1);
        case ReduceCooldown => perks := perks.(cooldownMult := perks.cooldownMult * 0.8);
        case IncreaseDamage => perks := perks.(damageBoost := perks.damageBoost + 5.0);
        case Homing => perks := perks.(isHoming := true, ownedOneTimers := perks.ownedOneTimers + [id]);
        case Ice => perks := perks.(isIce := true, ownedOneTimers := perks.ownedOneTimers + [id]);
        case Fire => perks := perks.(isFire := true, ownedOneTimers := perks.ownedOneTimers + [id]);
        case MoreMeteorites => perks := perks.(spawnRateMult := perks.spawnRateMult + 0.5);
      }
    }

    /**
     * `update(timestamp, width, height)`. The result is the sequence of stats passed to
     * `onGameOver`, one per meteorite found inside the turret.
     */
    method Update(f: Frame, ph: Physics, dice: Dice) returns (reports: seq<GameStats>)
      requires Valid() && ValidPhysics(ph) && Monotone(State(), f)
      modifies this
      ensures State() == Tick(old(State()), f, ph, dice).world
      ensures reports == Tick(old(State()), f, ph, dice).reports
      ensures Valid()
    {
      ghost var w0 := State();
      if !gameActive || showCardSelection {
        lastTimestamp := f.timestamp;
        FrameLaws.TickKeepsInv(w0, f, ph, dice);
        return [];
      }
      var delta := RunClock(f, ph);
      assert delta == Delta(w0, f.timestamp);
      EngineLaws.ClockOk(w0, f, ph);
      var cx, cy := f.width / 2.0, f.height / 2.0;
      SpawnStage(f, ph, dice);
      ghost var w3 := State();
      assert w3 == Spawned(w0, f, ph, dice);
      reports := MeteoriteStage(delta, cx, cy);
      ghost var w4 := State();
      assert w4 == MeteoritePass(w3, delta, cx, cy);
      assert reports == Repeat(w3.stats, BreachCount(w4.meteorites, cx, cy));
      BulletStage(delta, ph);
      ghost var w5 := State();
      assert w5 == BulletPass(w4, delta, ph);
      DeathStage(dice);
      ghost var w6 := State();
      assert w6 == DeathPass(w5, dice);
      FragmentStage(f, ph);
      assert State() == FragmentPass(w6, f, ph);
      FrameLaws.TickComposes(w0, f, ph, dice, delta, cx, cy, w3, w4, State(), reports);
      FrameLaws.TickKeepsInv(w0, f, ph, dice);
    }

    /** Both spawns, as one step on the whole state. */
    method SpawnStage(f: Frame, ph: Physics, dice: Dice)
      requires IntervalReady(State(), ph)
      modifies this`meteorites, this`initialSpawnDone, this`lastSpawnTime, this`bossSpawned, this`nextId
      ensures State() == BossStep(SpawnStep(old(State()), f, ph, dice), f, ph, dice)
    {
      NormalSpawnStep(f, ph, dice);
      BossSpawnStep(f, ph, dice);
    }

    method NormalSpawnStep(f: Frame, ph: Physics, dice: Dice)
      requires IntervalReady(State(), ph)
      modifies this`meteorites, this`initialSpawnDone, this`lastSpawnTime, this`nextId
      ensures State() == SpawnStep(old(State()), f, ph, dice)
    {
      SpawnNormal(f, ph, dice);
    }

    method BossSpawnStep(f: Frame, ph: Physics, dice: Dice)
      modifies this`meteorites, this`bossSpawned, this`nextId
      ensures State() == BossStep(old(State()), f, ph, dice)
    {
      SpawnBoss(f, ph, dice);
    }

    /** The meteorite pass as one step on the whole state; one report per breaching meteorite. */
    method MeteoriteStage(delta: real, cx: real, cy: real) returns (reports: seq<GameStats>)
      modifies this`meteorites, this`gameActive
      ensures State() == MeteoritePass(old(State()), delta, cx, cy)
      ensures reports == Repeat(old(stats), BreachCount(meteorites, cx, cy))
    {
      reports := AdvanceMeteorites(delta, cx, cy);
      assert reports == Repeat(old(stats), BreachCount(meteorites, cx, cy));
    }

    /** The bullet pass as one step on the whole state. */
    method BulletStage(delta: real, ph: Physics)
      modifies this`bullets, this`meteorites, this`stats
      ensures State() == BulletPass(old(State()), delta, ph)
    {
      FlyBullets(delta, ph);
    }

    /** The payout and the removal of the dead, as one step on the whole state. */
    method DeathStage(dice: Dice)
      modifies this`meteorites, this`fragments, this`stats, this`firstBossDefeated
      ensures State() == DeathPass(old(State()), dice)
    {
      PayOutAll(dice);
      var live := LiveOnes(meteorites);
      meteorites := live;
    }

    /** The payout loop as one step on the whole state. */
    method PayOutAll(dice: Dice)
      modifies this`meteorites, this`fragments, this`stats, this`firstBossDefeated
      ensures var r := DeathFold(old(meteorites), DeathAcc([], [], old(stats).meteoritesDestroyed, old(firstBossDefeated)), dice);
        State() == old(State()).(meteorites := r.marked, fragments := old(fragments) + r.drops,
                                 stats := old(stats).(meteoritesDestroyed := r.destroyed), firstBossDefeated := r.bossDown)
    {
      PayOutDeaths(dice);
    }

    /** The fragment pass as one step on the whole state. */
    method FragmentStage(f: Frame, ph: Physics)
      modifies this`fragments, this`stats, this`upgradeProgress, this`upgradeThreshold, this`showCardSelection
      ensures State() == FragmentPass(old(State()), f, ph)
    {
      CollectFragments(f, ph);
    }

    /** The clock and aim part of `update`. */
    method RunClock(f: Frame, ph: Physics) returns (delta: real)
      modifies this`lastTimestamp, this`gameTime, this`survivalTime, this`turretAngle
      ensures State() == Clock(old(State()), f, ph)
      ensures delta == Delta(old(State()), f.timestamp)
    {
      delta := if lastTimestamp == 0.0 then 0.0 else f.timestamp - lastTimestamp;
      lastTimestamp := f.timestamp;
      gameTime := gameTime + delta;
      survivalTime := survivalTime + delta;
      turretAngle := ph.aim(turretAngle, f.pointerX - f.width / 2.0, f.pointerY - f.height / 2.0);
    }

    /** The normal spawn: the first meteorite at 300 ms, later ones once the spawn interval has elapsed. */
    method SpawnNormal(f: Frame, ph: Physics, dice: Dice)
      requires IntervalReady(State(), ph)
      modifies this`meteorites, this`initialSpawnDone, this`lastSpawnTime, this`nextId
      ensures var r := SpawnStep(old(State()), f, ph, dice);
        && meteorites == r.meteorites && initialSpawnDone == r.initialSpawnDone
        && lastSpawnTime == r.lastSpawnTime && nextId == r.nextId
    {
      var now := gameTime;
      var spawnDist := Difficulty.SpawnDistance(ph.norm(f.width, f.height));
      var spawnInterval := Interval(State(), ph);
      if (!initialSpawnDone && now >= FirstSpawnTime) || (initialSpawnDone && now - lastSpawnTime >= spawnInterval) {
        initialSpawnDone := true;
        var radius := 14.0 + dice.radiusDraw * 24.0;
        meteorites := meteorites + [Incoming(nextId, f.width / 2.0, f.height / 2.0, spawnDist, dice.spawnAngle, radius,
                                             MeteoriteInitialHp, MeteoriteSpeed, false, ph)];
        nextId := nextId + 1;
        lastSpawnTime := now;
      }
    }

    /** The boss spawn, once survival time has reached 30 s. */
    method SpawnBoss(f: Frame, ph: Physics, dice: Dice)
      modifies this`meteorites, this`bossSpawned, this`nextId
      ensures var r := BossStep(old(State()), f, ph, dice);
        meteorites == r.meteorites && bossSpawned == r.bossSpawned && nextId == r.nextId
    {
      if survivalTime >= BossTime && !bossSpawned {
        var spawnDist := Difficulty.SpawnDistance(ph.norm(f.width, f.height));
        meteorites := meteorites + [Incoming(nextId, f.width / 2.0, f.height / 2.0, spawnDist, dice.bossAngle, BossRadius,
                                             BossHp, BossSpeed, true, ph)];
        nextId := nextId + 1;
        bossSpawned := true;
      }
    }

    /** `meteoritesRef.current.forEach(...)`: timers, motion, and the breach test. */
    method AdvanceMeteorites(delta: real, cx: real, cy: real) returns (reports: seq<GameStats>)
      modifies this`meteorites, this`gameActive
      ensures meteorites == AdvanceAll(old(meteorites), delta)
      ensures gameActive == (old(gameActive) && BreachCount(meteorites, cx, cy) == 0)
      ensures |reports| == BreachCount(meteorites, cx, cy)
      ensures forall k :: 0 <= k < |reports| ==> reports[k] == stats
    {
      ghost var ms0 := meteorites;
      ghost var moved := AdvanceAll(ms0, delta);
      reports := [];
      var i := 0;
      while i < |meteorites|
        invariant 0 <= i <= |meteorites| == |ms0|
        invariant forall k :: 0 <= k < i ==> meteorites[k] == moved[k]
        invariant forall k :: i <= k < |ms0| ==> meteorites[k] == ms0[k]
        invariant |reports| == BreachCount(moved[..i], cx, cy)
        invariant forall k :: 0 <= k < |reports| ==> reports[k] == stats
        invariant gameActive == (old(gameActive) && BreachCount(moved[..i], cx, cy) == 0)
      {
        var m := Advance(meteorites[i], delta);
        BreachCountStep(moved, i, cx, cy);
        meteorites := meteorites[i := m];
        if Dist2(m.x, m.y, cx, cy) < Sq(ReachRadius) {
          gameActive := false;
          reports := reports + [stats];
        }
        i := i + 1;
      }
      assert meteorites == moved;
      assert moved[..i] == moved;
    }

    /** The homing scan: the nearest live meteorite, the first such in list order. */
    method NearestLive(x: real, y: real) returns (best: Option<nat>)
      ensures best == Nearest(meteorites, x, y)
    {
      best := None;
      var bestDist := 0.0;
      var k := 0;
      while k < |meteorites|
        invariant 0 <= k <= |meteorites|
        invariant best == Nearest(meteorites[..k], x, y)
        invariant best.Some? ==> best.value < k && bestDist == DistTo(meteorites[best.value], x, y)
      {
        assert meteorites[..k + 1][..k] == meteorites[..k];
        var m := meteorites[k];
        if m.hp > 0.0 {
          var d := Sq(m.x - x) + Sq(m.y - y);
          if best.None? || d < bestDist {
            best := Some(k);
            bestDist := d;
          }
        }
        k := k + 1;
      }
      assert meteorites[..k] == meteorites;
    }

    /** The homing part of the bullet filter, against the meteorites as they stand. */
    method Home(b: Bullet, delta: real, ph: Physics) returns (r: Bullet)
      requires b.isHoming
      ensures r == HomingStep(b, meteorites, delta, ph)
    {
      r := b.(homingSearchCooldown := b.homingSearchCooldown - delta);
      var cur := TargetIndex(b, meteorites);
      if cur.None? || meteorites[cur.value].hp <= 0.0 || r.homingSearchCooldown <= 0.0 {
        cur := NearestLive(r.x, r.y);
        r := r.(target := if cur.Some? then Some(meteorites[cur.value].id) else None,
                homingSearchCooldown := HomingRescan);
      } else {
        assert meteorites[cur.value].id == b.target.value;
      }
      if cur.Some? {
        var t := meteorites[cur.value];
        var v := ph.steer(r.vx, r.vy, r.x, r.y, t.x, t.y);
        r := r.(vx := v.0, vy := v.1);
      }
    }

    /** The hit loop: the first live meteorite the bullet overlaps, stopping there. */
    method FindHit(b: Bullet) returns (hit: Option<nat>)
      ensures hit == FirstHit(meteorites, b)
    {
      hit := None;
      var k := 0;
      while k < |meteorites|
        invariant 0 <= k <= |meteorites|
        invariant forall j :: 0 <= j < k ==> !Overlaps(meteorites[j], b)
      {
        var m := meteorites[k];
        if m.hp > 0.0 && Sq(b.x - m.x) + Sq(b.y - m.y) < Sq(m.radius + b.radius) {
          hit := Some(k);
          break;
        }
        k := k + 1;
      }
    }

    /** One bullet of the filter: homing, motion, and at most one hit; the result is the bullets kept so far. */
    method StepBullet(b: Bullet, delta: real, dmg: real, ph: Physics, kept: seq<Bullet>) returns (kept': seq<Bullet>)
      modifies this`meteorites, this`stats
      ensures BulletStep(BulletAcc(kept, old(meteorites), old(stats).totalDamageDealt), b, delta, dmg, ph)
        == BulletAcc(kept', meteorites, stats.totalDamageDealt)
      ensures stats == old(stats).(totalDamageDealt := stats.totalDamageDealt)
    {
      var b2 := b;
      if b2.isHoming {
        b2 := Home(b2, delta, ph);
      }
      b2 := b2.(x := b2.x + b2.vx, y := b2.y + b2.vy, distanceTraveled := b2.distanceTraveled + ph.norm(b2.vx, b2.vy));
      assert b2 == Fly(HomingStep(b, meteorites, delta, ph), ph);
      var hit := FindHit(b2);
      kept' := kept;
      if hit.Some? {
        meteorites := meteorites[hit.value := Struck(meteorites[hit.value], b2, dmg)];
        stats := stats.(totalDamageDealt := stats.totalDamageDealt + dmg);
      } else if b2.distanceTraveled < b2.maxDistance {
        kept' := kept + [b2];
      }
    }

    /** `bulletsRef.current = bulletsRef.current.filter(...)`: every bullet in order, against the meteorites as hit so far. */
    method FlyBullets(delta: real, ph: Physics)
      modifies this`bullets, this`meteorites, this`stats
      ensures var r := BulletFold(old(bullets), BulletAcc([], old(meteorites), old(stats).totalDamageDealt), delta,
                                  BulletDamage + bonuses.damageBoost + perks.damageBoost, ph);
        bullets == r.kept && meteorites == r.meteorites && stats == old(stats).(totalDamageDealt := r.damage)
    {
      ghost var acc0 := BulletAcc([], meteorites, stats.totalDamageDealt);
      var dmg := BulletDamage + bonuses.damageBoost + perks.damageBoost;
      var kept: seq<Bullet> := [];
      var i := 0;
      while i < |bullets|
        invariant 0 <= i <= |bullets| && bullets == old(bullets)
        invariant BulletFold(bullets[..i], acc0, delta, dmg, ph) == BulletAcc(kept, meteorites, stats.totalDamageDealt)
        invariant stats == old(stats).(totalDamageDealt := stats.totalDamageDealt)
      {
        BulletFoldStep(bullets, i, acc0, delta, dmg, ph);
        kept := StepBullet(bullets[i], delta, dmg, ph, kept);
        i := i + 1;
      }
      assert bullets[..i] == bullets;
      assert BulletFold(old(bullets), acc0, delta, dmg, ph) == BulletAcc(kept, meteorites, stats.totalDamageDealt);
      bullets := kept;
    }

    /** The inner loop of the payout: meteorite i's scattered fragments. */
    method ScatterShards(m: Meteorite, i: nat, dice: Dice)
      modifies this`fragments
      ensures fragments == old(fragments) + seq(DropCount(m), j requires 0 <= j < DropCount(m) => Shard(m, i, j, dice))
    {
      var fragCount := if m.isBoss then BossDrops else NormalDrops;
      for j := 0 to fragCount
        invariant |fragments| == |old(fragments)| + j
        invariant fragments[..|old(fragments)|] == old(fragments)
        invariant forall k :: 0 <= k < j ==> fragments[|old(fragments)| + k] == Shard(m, i, k, dice)
      {
        fragments := fragments + [Shard(m, i, j, dice)];
      }
    }

    /** One meteorite of the payout: if it is dying, mark it, count it, and drop its fragments (and the core). */
    method PayOut(i: nat, dice: Dice)
      requires i < |meteorites|
      modifies this`meteorites, this`fragments, this`stats, this`firstBossDefeated
      ensures var m := old(meteorites)[i];
        if Dies(m) then
          && meteorites == old(meteorites)[i := m.(isUpgraded := true)]
          && fragments == old(fragments) + Drops(m, i, dice)
          && stats == old(stats).(meteoritesDestroyed := old(stats).meteoritesDestroyed + 1)
          && firstBossDefeated == (old(firstBossDefeated) || m.isBoss)
        else
          meteorites == old(meteorites) && fragments == old(fragments) && stats == old(stats)
          && firstBossDefeated == old(firstBossDefeated)
    {
      var m := meteorites[i];
      if m.hp <= 0.0 && !m.isUpgraded {
        meteorites := meteorites[i := m.(isUpgraded := true)];
        stats := stats.(meteoritesDestroyed := stats.meteoritesDestroyed + 1);
        ScatterShards(m, i, dice);
        if m.isBoss {
          firstBossDefeated := true;
          fragments := fragments + [CoreOf(m)];
        }
      }
    }

    /** The second `forEach`: every dying meteorite is marked, counted, and drops its fragments. */
    method PayOutDeaths(dice: Dice)
      modifies this`meteorites, this`fragments, this`stats, this`firstBossDefeated
      ensures var r := DeathFold(old(meteorites), DeathAcc([], [], old(stats).meteoritesDestroyed, old(firstBossDefeated)), dice);
        && meteorites == r.marked && fragments == old(fragments) + r.drops
        && stats == old(stats).(meteoritesDestroyed := r.destroyed) && firstBossDefeated == r.bossDown
    {
      ghost var ms0 := meteorites;
      ghost var acc0 := DeathAcc([], [], stats.meteoritesDestroyed, firstBossDefeated);
      var i := 0;
      while i < |meteorites|
        invariant 0 <= i <= |meteorites| == |ms0|
        invariant meteorites[i..] == ms0[i..]
        invariant var a := DeathFold(ms0[..i], acc0, dice);
          && meteorites[..i] == a.marked
          && fragments == old(fragments) + a.drops
          && stats == old(stats).(meteoritesDestroyed := a.destroyed)
          && firstBossDefeated == a.bossDown
      {
        assert ms0[..i + 1][..i] == ms0[..i];
        assert meteorites[i] == ms0[i] by {
          assert meteorites[i..][0] == ms0[i..][0];
        }
        ghost var before := meteorites;
        PayOut(i, dice);
        assert meteorites[..i] == before[..i];
        assert meteorites[..i + 1] == meteorites[..i] + [meteorites[i]];
        assert meteorites[i + 1..] == ms0[i + 1..] by {
          assert meteorites[i + 1..] == before[i + 1..];
          assert before[i + 1..] == before[i..][1..];
        }
        i := i + 1;
      }
      assert ms0[..i] == ms0;
      assert meteorites[..i] == meteorites;
    }

    /** `meteoritesRef.current.filter(m => m.hp > 0)`: the meteorites still alive, in order. */
    method LiveOnes(ms: seq<Meteorite>) returns (live: seq<Meteorite>)
      ensures live == Alive(ms)
    {
      live := [];
      var i := 0;
      while i < |ms|
        invariant 0 <= i <= |ms|
        invariant live == Alive(ms[..i])
      {
        assert ms[..i + 1][..i] == ms[..i];
        if ms[i].hp > 0.0 {
          live := live + [ms[i]];
        }
        i := i + 1;
      }
      assert ms[..i] == ms;
    }

    /** One fragment of the filter: drift and magnet, or the pull to the turret and collection. */
    method StepFragment(fr: Fragment, px: real, py: real, cx: real, cy: real, magnet: real, ph: Physics,
                        kept: seq<Fragment>) returns (kept': seq<Fragment>)
      modifies this`stats, this`upgradeProgress, this`upgradeThreshold, this`showCardSelection
      ensures FragStep(FragAcc(kept, old(stats).fragmentsCollected, old(stats).coresCollected, old(upgradeProgress),
                               old(upgradeThreshold), old(showCardSelection)), fr, px, py, cx, cy, magnet, ph)
        == FragAcc(kept', stats.fragmentsCollected, stats.coresCollected, upgradeProgress, upgradeThreshold, showCardSelection)
      ensures stats == old(stats).(fragmentsCollected := stats.fragmentsCollected, coresCollected := stats.coresCollected)
    {
      kept' := kept;
      if !fr.isMovingToTurret {
        var g := fr.(x := fr.x + fr.vx, y := fr.y + fr.vy, vx := fr.vx * Drag, vy := fr.vy * Drag);
        if Sq(px - g.x) + Sq(py - g.y) < Sq(MagnetBase + magnet) {
          g := g.(isMovingToTurret := true);
        }
        kept' := kept + [g];
      } else if Sq(cx - fr.x) + Sq(cy - fr.y) < Sq(ReachRadius) {
        if fr.isCore {
          stats := stats.(coresCollected := stats.coresCollected + 1);
        } else {
          stats := stats.(fragmentsCollected := stats.fragmentsCollected + 1);
          upgradeProgress := upgradeProgress + 1;
          if upgradeProgress >= upgradeThreshold {
            upgradeProgress := 0;
            upgradeThreshold := NextThreshold(upgradeThreshold);
            showCardSelection := true;
          }
        }
      } else {
        var s := ph.toward(fr.x, fr.y, cx, cy, CollectSpeed);
        kept' := kept + [fr.(x := fr.x + s.0, y := fr.y + s.1)];
      }
    }

    /** `fragmentsRef.current = fragmentsRef.current.filter(...)`: magnet, collection and level-up. */
    method CollectFragments(f: Frame, ph: Physics)
      modifies this`fragments, this`stats, this`upgradeProgress, this`upgradeThreshold, this`showCardSelection
      ensures var r := FragFold(old(fragments),
                                FragAcc([], old(stats).fragmentsCollected, old(stats).coresCollected, old(upgradeProgress),
                                        old(upgradeThreshold), old(showCardSelection)),
                                f.pointerX, f.pointerY, f.width / 2.0, f.height / 2.0, bonuses.magnetRangeBoost, ph);
        && fragments == r.kept && stats == old(stats).(fragmentsCollected := r.fragments, coresCollected := r.cores)
        && upgradeProgress == r.progress && upgradeThreshold == r.threshold && showCardSelection == r.show
    {
      var cx, cy := f.width / 2.0, f.height / 2.0;
      var magnet := bonuses.magnetRangeBoost;
      ghost var acc0 := FragAcc([], stats.fragmentsCollected, stats.coresCollected, upgradeProgress,
                                upgradeThreshold, showCardSelection);
      var kept: seq<Fragment> := [];
      var i := 0;
      while i < |fragments|
        invariant 0 <= i <= |fragments| && fragments == old(fragments)
        invariant FragFold(fragments[..i], acc0, f.pointerX, f.pointerY, cx, cy, magnet, ph)
          == FragAcc(kept, stats.fragmentsCollected, stats.coresCollected, upgradeProgress,
                     upgradeThreshold, showCardSelection)
        invariant stats == old(stats).(fragmentsCollected := stats.fragmentsCollected, coresCollected := stats.coresCollected)
      {
        FragFoldStep(fragments, i, acc0, f.pointerX, f.pointerY, cx, cy, magnet, ph);
        kept := StepFragment(fragments[i], f.pointerX, f.pointerY, cx, cy, magnet, ph, kept);
        i := i + 1;
      }
      assert fragments[..i] == fragments;
      fragments := kept;
    }
  }
}
