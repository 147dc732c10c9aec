/** What a whole frame of `update` guarantees, composed from the pass lemmas. */
module FrameLaws {
  import opened Types
  import opened EngineState
  import opened EngineTick
  import opened EngineLaws

  /** Every boss in the list was issued an id below n. */
  predicate BossesBelow(ms: seq<Meteorite>, n: nat) {
    forall i :: 0 <= i < |ms| && ms[i].isBoss ==> ms[i].id < n
  }

  /** The state after the meteorite pass of an active frame. */
  function AfterMeteorites(w: World, f: Frame, ph: Physics, dice: Dice): World
    requires Inv(w) && ValidPhysics(ph) && Monotone(w, f)
  {
    MeteoritePass(Spawned(w, f, ph, dice), Delta(w, f.timestamp), f.width / 2.0, f.height / 2.0)
  }

  lemma MeteoriteStage(w: World, d: real, cx: real, cy: real)
    requires Core(w) && IdsOk(w.meteorites, w.nextId) && 0.0 <= d
    ensures var r := MeteoritePass(w, d, cx, cy);
      && Core(r) && IdsOk(r.meteorites, r.nextId) && SameBodies(w.meteorites, r.meteorites) && r.nextId == w.nextId
  {
    MeteoritePassShape(w, d, cx, cy);
    SameBodiesKeepIds(w.meteorites, MeteoritePass(w, d, cx, cy).meteorites, w.nextId);
  }

  lemma BulletStage(w: World, d: real, ph: Physics)
    requires Core(w) && IdsOk(w.meteorites, w.nextId)
    ensures var r := BulletPass(w, d, ph);
      && Core(r) && IdsOk(r.meteorites, r.nextId) && SameBodies(w.meteorites, r.meteorites)
      && r.nextId == w.nextId && r.gameActive == w.gameActive
  {
    BulletPassShape(w, d, ph);
    SameBodiesKeepIds(w.meteorites, BulletPass(w, d, ph).meteorites, w.nextId);
  }

  lemma DeathStage(w: World, dice: Dice)
    requires Core(w) && IdsOk(w.meteorites, w.nextId)
    ensures var r := DeathPass(w, dice);
      && Core(r) && IdsOk(r.meteorites, r.nextId) && AllLive(r.meteorites)
      && (forall m :: m in r.meteorites ==> m in w.meteorites)
      && r.nextId == w.nextId && r.gameActive == w.gameActive
  {
    DeathPassOk(w, dice);
    DeathPassFrame(w, dice);
    var r := DeathPass(w, dice);
    forall i | 0 <= i < |r.meteorites| && r.meteorites[i].isBoss ensures r.bossSpawned {
      assert r.meteorites[i] in w.meteorites;
    }
    if r.firstBossDefeated && !w.firstBossDefeated {
      var i :| 0 <= i < |w.meteorites| && Dies(w.meteorites[i]) && w.meteorites[i].isBoss;
    }
  }

  lemma FragmentStage(w: World, f: Frame, ph: Physics)
    requires Core(w) && IdsOk(w.meteorites, w.nextId) && AllLive(w.meteorites)
    ensures Inv(FragmentPass(w, f, ph))
    ensures FragmentPass(w, f, ph).meteorites == w.meteorites
    ensures FragmentPass(w, f, ph).gameActive == w.gameActive
  {
    FragmentPassOk(w, f, ph);
  }

  /** The later passes keep the invariant and leave the game-over flag as the meteorite pass set it. */
  lemma LaterStages(w4: World, d: real, f: Frame, ph: Physics, dice: Dice)
    requires Core(w4) && IdsOk(w4.meteorites, w4.nextId)
    ensures var r := FragmentPass(DeathPass(BulletPass(w4, d, ph), dice), f, ph);
      Inv(r) && r.gameActive == w4.gameActive
  {
    BulletStage(w4, d, ph);
    var w5 := BulletPass(w4, d, ph);
    DeathStage(w5, dice);
    FragmentStage(DeathPass(w5, dice), f, ph);
  }

  /** The facts the meteorite pass hands on. */
  lemma EarlyStages(w: World, f: Frame, ph: Physics, dice: Dice)
    requires Inv(w) && ValidPhysics(ph) && Monotone(w, f)
    ensures var w4 := AfterMeteorites(w, f, ph, dice);
      Core(w4) && IdsOk(w4.meteorites, w4.nextId)
  {
    SpawnedOk(w, f, ph, dice);
    assert Delta(w, f.timestamp) >= 0.0;
    MeteoriteStage(Spawned(w, f, ph, dice), Delta(w, f.timestamp), f.width / 2.0, f.height / 2.0);
  }

  /** The active branch of `Tick`, split at the meteorite pass. */
  lemma TickActive(w: World, f: Frame, ph: Physics, dice: Dice)
    requires Inv(w) && ValidPhysics(ph) && Monotone(w, f)
    requires w.gameActive && !w.showCardSelection
    ensures var w4 := AfterMeteorites(w, f, ph, dice);
      var breaches := BreachCount(w4.meteorites, f.width / 2.0, f.height / 2.0);
      && Tick(w, f, ph, dice).world == FragmentPass(DeathPass(BulletPass(w4, Delta(w, f.timestamp), ph), dice), f, ph)
      && |Tick(w, f, ph, dice).reports| == breaches
      && (forall k :: 0 <= k < breaches ==> Tick(w, f, ph, dice).reports[k] == Spawned(w, f, ph, dice).stats)
  {
  }

  /** The engine's active frame, run pass by pass, is `Tick`. */
  lemma TickComposes(w: World, f: Frame, ph: Physics, dice: Dice, d: real, cx: real, cy: real,
                     w3: World, w4: World, w7: World, reports: seq<GameStats>)
    requires FrameReady(w, f, ph)
    requires w.gameActive && !w.showCardSelection
    requires d == Delta(w, f.timestamp) && cx == f.width / 2.0 && cy == f.height / 2.0
    requires w3 == Spawned(w, f, ph, dice)
    requires w4 == MeteoritePass(w3, d, cx, cy)
    requires reports == Repeat(w3.stats, BreachCount(w4.meteorites, cx, cy))
    requires w7 == FragmentPass(DeathPass(BulletPass(w4, d, ph), dice), f, ph)
    ensures Tick(w, f, ph, dice) == TickResult(w7, reports)
  {
  }

  /** Every frame keeps the engine invariant: in particular no meteorite at or below 0 hp survives a frame. */
  lemma TickKeepsInv(w: World, f: Frame, ph: Physics, dice: Dice)
    requires Inv(w) && ValidPhysics(ph) && Monotone(w, f)
    ensures Inv(Tick(w, f, ph, dice).world)
    ensures forall i :: 0 <= i < |Tick(w, f, ph, dice).world.meteorites| ==> Tick(w, f, ph, dice).world.meteorites[i].hp > 0.0
  {
    if w.gameActive && !w.showCardSelection {
      EarlyStages(w, f, ph, dice);
      TickActive(w, f, ph, dice);
      LaterStages(AfterMeteorites(w, f, ph, dice), Delta(w, f.timestamp), f, ph, dice);
    }
  }

  /**
   * `onGameOver` is called once per meteorite inside the turret after the meteorite pass, each
   * time with the counters as they stood then; the game goes on exactly when it is not called.
   */
  lemma TickReports(w: World, f: Frame, ph: Physics, dice: Dice)
    requires Inv(w) && ValidPhysics(ph) && Monotone(w, f)
    requires w.gameActive && !w.showCardSelection
    ensures var r := Tick(w, f, ph, dice);
      && |r.reports| == BreachCount(AfterMeteorites(w, f, ph, dice).meteorites, f.width / 2.0, f.height / 2.0)
      && (forall k :: 0 <= k < |r.reports| ==> r.reports[k] == w.stats)
      && (r.world.gameActive <==> |r.reports| == 0)
  {
    EarlyStages(w, f, ph, dice);
    TickActive(w, f, ph, dice);
    SpawnedFrame(w, f, ph, dice);
    var w4 := AfterMeteorites(w, f, ph, dice);
    LaterStages(w4, Delta(w, f.timestamp), f, ph, dice);
    BreachEndsGame(Spawned(w, f, ph, dice), Delta(w, f.timestamp), f.width / 2.0, f.height / 2.0);
  }

  /**
   * The stats `onGameOver` receives are the engine's own object, and the passes after the breach
   * go on writing into it. At the end of the frame every counter is at least what each call
   * credited, and the shot count is the same; collected fragments and cores, kills and damage
   * of the same frame are added on top.
   */
  lemma SummaryCoversReports(w: World, f: Frame, ph: Physics, dice: Dice)
    requires Inv(w) && ValidPhysics(ph) && Monotone(w, f)
    requires w.gameActive && !w.showCardSelection
    ensures var r := Tick(w, f, ph, dice);
      forall k :: 0 <= k < |r.reports| ==> StatsBelow(r.reports[k], r.world.stats)
  {
    TickActive(w, f, ph, dice);
    EarlyStages(w, f, ph, dice);
    MeteoritePassShape(Spawned(w, f, ph, dice), Delta(w, f.timestamp), f.width / 2.0, f.height / 2.0);
    LaterStagesCount(AfterMeteorites(w, f, ph, dice), Delta(w, f.timestamp), f, ph, dice);
  }

  /** Counters that can only have grown from `a` to `b`, with the same shot count. */
  predicate StatsBelow(a: GameStats, b: GameStats) {
    && a.fragmentsCollected <= b.fragmentsCollected
    && a.coresCollected <= b.coresCollected
    && a.meteoritesDestroyed <= b.meteoritesDestroyed
    && a.totalDamageDealt <= b.totalDamageDealt
    && a.bulletsFired == b.bulletsFired
  }

  /** The passes after the meteorite pass only add to the counters. */
  lemma LaterStagesCount(w4: World, d: real, f: Frame, ph: Physics, dice: Dice)
    requires Core(w4) && IdsOk(w4.meteorites, w4.nextId)
    ensures StatsBelow(w4.stats, FragmentPass(DeathPass(BulletPass(w4, d, ph), dice), f, ph).stats)
  {
    BulletPassShape(w4, d, ph);
    var w5 := BulletPass(w4, d, ph);
    DeathPassFrame(w5, dice);
    BulletStage(w4, d, ph);
    DeathPassOk(w5, dice);
    DeathStage(w5, dice);
    FragmentPassOk(DeathPass(w5, dice), f, ph);
  }

  /** Once the game has ended no later frame reports again: game over is final. */
  lemma GameOverIsFinal(w: World, f: Frame, ph: Physics, dice: Dice, f2: Frame, dice2: Dice)
    requires Inv(w) && ValidPhysics(ph) && Monotone(w, f)
    requires !Tick(w, f, ph, dice).world.gameActive
    requires Monotone(Tick(w, f, ph, dice).world, f2)
    ensures Inv(Tick(w, f, ph, dice).world)
    ensures Tick(Tick(w, f, ph, dice).world, f2, ph, dice2).reports == []
  {
    TickKeepsInv(w, f, ph, dice);
  }

  /** The boss flag is never cleared, and after every frame it is set exactly when survival time has reached 30 s. */
  lemma BossFlagSticks(w: World, f: Frame, ph: Physics, dice: Dice)
    requires Inv(w) && ValidPhysics(ph) && Monotone(w, f)
    ensures w.bossSpawned ==> Tick(w, f, ph, dice).world.bossSpawned
    ensures Tick(w, f, ph, dice).world.bossSpawned <==> Tick(w, f, ph, dice).world.survivalTime >= BossTime
  {
    TickKeepsInv(w, f, ph, dice);
    if w.gameActive && !w.showCardSelection {
      SpawnedOk(w, f, ph, dice);
      TickActive(w, f, ph, dice);
    }
  }

  /** The passes after the spawns only wear, hit and remove meteorites: they create no boss. */
  lemma LaterStagesAddNoBoss(w4: World, d: real, f: Frame, ph: Physics, dice: Dice, n: nat)
    requires Core(w4) && IdsOk(w4.meteorites, w4.nextId) && BossesBelow(w4.meteorites, n)
    ensures BossesBelow(FragmentPass(DeathPass(BulletPass(w4, d, ph), dice), f, ph).meteorites, n)
  {
    BulletStage(w4, d, ph);
    var w5 := BulletPass(w4, d, ph);
    assert BossesBelow(w5.meteorites, n);
    DeathStage(w5, dice);
    var w6 := DeathPass(w5, dice);
    FragmentStage(w6, f, ph);
    forall i | 0 <= i < |w6.meteorites| && w6.meteorites[i].isBoss ensures w6.meteorites[i].id < n {
      assert w6.meteorites[i] in w5.meteorites;
    }
  }

  /** With the boss flag already set, the spawns and the meteorite pass bring no new boss. */
  lemma EarlyStagesAddNoBoss(w: World, f: Frame, ph: Physics, dice: Dice)
    requires Inv(w) && ValidPhysics(ph) && Monotone(w, f) && w.bossSpawned
    ensures BossesBelow(AfterMeteorites(w, f, ph, dice).meteorites, w.nextId)
  {
    var d := Delta(w, f.timestamp);
    assert d >= 0.0;
    var w3 := Spawned(w, f, ph, dice);
    SpawnedOk(w, f, ph, dice);
    forall i | 0 <= i < |w3.meteorites| && w3.meteorites[i].isBoss ensures w3.meteorites[i].id < w.nextId {
      if i < |w.meteorites| {
        assert w3.meteorites[i] == w3.meteorites[..|w.meteorites|][i];
      }
    }
    MeteoriteStage(w3, d, f.width / 2.0, f.height / 2.0);
  }

  /** The boss comes at most once: after its flag is set, every boss in play is one that already existed. */
  lemma BossOnlyOnce(w: World, f: Frame, ph: Physics, dice: Dice)
    requires Inv(w) && ValidPhysics(ph) && Monotone(w, f)
    requires w.bossSpawned
    ensures BossesBelow(Tick(w, f, ph, dice).world.meteorites, w.nextId)
  {
    if w.gameActive && !w.showCardSelection {
      EarlyStages(w, f, ph, dice);
      EarlyStagesAddNoBoss(w, f, ph, dice);
      TickActive(w, f, ph, dice);
      LaterStagesAddNoBoss(AfterMeteorites(w, f, ph, dice), Delta(w, f.timestamp), f, ph, dice, w.nextId);
    }
  }
}
