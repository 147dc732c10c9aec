/**
 * The two player actions of components/GameEngine.tsx: `fireBullet` on a left click, and the
 * perk handler passed to the card overlay as `onSelect`.
 */
module EngineActions {
  import opened Types
  import opened Constants
  import opened EngineState
  import Cards

  /** The hard floor of the fire cooldown, in milliseconds. */
  const MinShotCooldown: real := 200.0

  /** The angle between neighbouring bullets of one volley, in radians. */
  const Spread: real := 0.15

  /** `actualCD`: max(200, (1000 − cooldownReduction) · cooldownMult). */
  function ShotCooldown(w: World): (r: real)
    ensures r >= MinShotCooldown
  {
    Max(MinShotCooldown, (BulletFireCooldown - w.bonuses.cooldownReduction) * w.perks.cooldownMult)
  }

  /** Whether a click now fires: the game runs, no overlay is open, and the cooldown has elapsed. */
  predicate CanFire(w: World) {
    w.gameActive && !w.showCardSelection && w.gameTime - w.lastFireTime >= ShotCooldown(w)
  }

  /** The angle offset of bullet i of n, centred on the turret's heading. */
  function SpreadOffset(i: nat, n: nat): real {
    ((i as real) - ((n as real) - 1.0) / 2.0) * Spread
  }

  /** Bullet i of a volley from the centre (cx, cy). */
  function Shot(w: World, i: nat, cx: real, cy: real, ph: Physics): Bullet {
    var v := ph.polar(w.turretAngle + SpreadOffset(i, w.perks.bulletsPerShot), BulletSpeed + w.bonuses.bulletSpeedBoost);
    Bullet(cx, cy, v.0, v.1, BulletRadius, 0.0, CircleRadius,
           w.perks.isIce, w.perks.isFire, w.perks.isHoming, None, 0.0)
  }

  /** The bullets one admitted click creates, in push order. */
  function Volley(w: World, cx: real, cy: real, ph: Physics): seq<Bullet> {
    seq(w.perks.bulletsPerShot, i requires 0 <= i < w.perks.bulletsPerShot => Shot(w, i, cx, cy, ph))
  }

  /** `fireBullet` on a canvas of the given size. */
  function FireBullet(w: World, width: real, height: real, ph: Physics): World {
    if CanFire(w) then
      w.(bullets := w.bullets + Volley(w, width / 2.0, height / 2.0, ph),
         stats := w.stats.(bulletsFired := w.stats.bulletsFired + w.perks.bulletsPerShot),
         lastFireTime := w.gameTime)
    else
      w
  }

  /** A click that does not fire changes nothing; in particular a paused or ended game ignores clicks. */
  lemma FireRefused(w: World, width: real, height: real, ph: Physics)
    requires !w.gameActive || w.showCardSelection || w.gameTime - w.lastFireTime < ShotCooldown(w)
    ensures FireBullet(w, width, height, ph) == w
  {
  }

  /**
   * An admitted click appends `bulletsPerShot` fresh bullets at the centre (no distance travelled,
   * range CIRCLE_RADIUS, the perk flags, no target), counts them, and stamps the fire time; nothing
   * else changes.
   */
  lemma FireAdmitted(w: World, width: real, height: real, ph: Physics)
    requires CanFire(w)
    ensures var r := FireBullet(w, width, height, ph);
      && |r.bullets| == |w.bullets| + w.perks.bulletsPerShot
      && r.bullets[..|w.bullets|] == w.bullets
      && (forall i :: |w.bullets| <= i < |r.bullets| ==>
            && r.bullets[i].x == width / 2.0 && r.bullets[i].y == height / 2.0
            && r.bullets[i].distanceTraveled == 0.0 && r.bullets[i].maxDistance == CircleRadius
            && r.bullets[i].radius == BulletRadius && r.bullets[i].target.None?
            && r.bullets[i].isIce == w.perks.isIce && r.bullets[i].isFire == w.perks.isFire
            && r.bullets[i].isHoming == w.perks.isHoming)
      && r.stats == w.stats.(bulletsFired := w.stats.bulletsFired + w.perks.bulletsPerShot)
      && r.lastFireTime == w.gameTime
      && r.meteorites == w.meteorites && r.fragments == w.fragments && r.perks == w.perks
      && r.gameTime == w.gameTime && r.gameActive == w.gameActive
  {
    var r := FireBullet(w, width, height, ph);
    var vol := Volley(w, width / 2.0, height / 2.0, ph);
    assert r.bullets == w.bullets + vol;
    forall i | |w.bullets| <= i < |r.bullets|
      ensures r.bullets[i] == Shot(w, i - |w.bullets|, width / 2.0, height / 2.0, ph)
    {
      assert r.bullets[i] == vol[i - |w.bullets|];
    }
  }

  /** Two clicks in the same frame fire at most once: the cooldown is never below 200 ms. */
  lemma NoDoubleShot(w: World, width: real, height: real, ph: Physics)
    requires CanFire(w)
    ensures !CanFire(FireBullet(w, width, height, ph))
  {
  }

  /** Any admitted shot comes at least 200 ms of game time after the previous one. */
  lemma ShotsSpaced(w: World)
    requires CanFire(w)
    ensures w.gameTime >= w.lastFireTime + MinShotCooldown
  {
  }

  /**
   * A worked example of `ShotCooldown`: with no talents, REDUCE_COOLDOWN taken twice makes the
   * cooldown 1000 · 0.8 · 0.8 = 640 ms.
   */
  lemma TwoCooldownCards(w: World)
    requires w.bonuses.cooldownReduction == 0.0 && w.perks == NoPerks
    ensures ShotCooldown(w.(perks := WithPerk(WithPerk(w.perks, ReduceCooldown), ReduceCooldown))) == 640.0
    ensures ShotCooldown(w) == BulletFireCooldown
  {
  }

  /** The effect of picking one card on the run's perks (the `onSelect` branches). */
  function WithPerk(p: Perks, id: PerkId): Perks {
    match id
    case ExtraBullets => p.(bulletsPerShot := p.bulletsPerShot + 1)
    case ReduceCooldown => p.(cooldownMult := p.cooldownMult * 0.8)
    case IncreaseDamage => p.(damageBoost := p.damageBoost + 5.0)
    case Homing => p.(isHoming := true, ownedOneTimers := p.ownedOneTimers + [Homing])
    case Ice => p.(isIce := true, ownedOneTimers := p.ownedOneTimers + [Ice])
    case Fire => p.(isFire := true, ownedOneTimers := p.ownedOneTimers + [Fire])
    case MoreMeteorites => p.(spawnRateMult := p.spawnRateMult + 0.5)
  }

  /** `onSelect`: apply the perk and close the overlay. */
  function SelectPerk(w: World, id: PerkId): World {
    w.(perks := WithPerk(w.perks, id), showCardSelection := false)
  }

  /**
   * Each card does exactly its own thing: stacking cards change one number by their step, a
   * one-time card raises its flag and is recorded; every other field of the perk record stays.
   */
  lemma WithPerkEffect(p: Perks, id: PerkId)
    ensures var q := WithPerk(p, id);
      && q.bulletsPerShot == p.bulletsPerShot + (if id == ExtraBullets then 1 else 0)
      && q.cooldownMult == (if id == ReduceCooldown then p.cooldownMult * 0.8 else p.cooldownMult)
      && q.damageBoost == (if id == IncreaseDamage then p.damageBoost + 5.0 else p.damageBoost)
      && q.spawnRateMult == (if id == MoreMeteorites then p.spawnRateMult + 0.5 else p.spawnRateMult)
      && q.isHoming == (p.isHoming || id == Homing)
      && q.isIce == (p.isIce || id == Ice)
      && q.isFire == (p.isFire || id == Fire)
      && q.ownedOneTimers == p.ownedOneTimers + (if id in Cards.OneTime then [id] else [])
  {
    assert Homing in Cards.OneTime && Ice in Cards.OneTime && Fire in Cards.OneTime;
  }

  /** Appending a perk not yet in a list without repeats leaves it without repeats. */
  lemma AppendFresh(o: seq<PerkId>, id: PerkId)
    requires Cards.Distinct(o) && id !in o
    ensures Cards.Distinct(o + [id])
  {
    forall i, j | 0 <= i < j < |o + [id]| ensures (o + [id])[i] != (o + [id])[j] {
      assert (o + [id])[i] == o[i];
      if j == |o| {
        assert o[i] in o;
      } else {
        assert (o + [id])[j] == o[j];
      }
    }
  }

  /** Any perk but an owned one-time perk keeps the perk record consistent. */
  lemma WithPerkKeepsOkWhenNew(p: Perks, id: PerkId)
    requires PerksOk(p) && (id in Cards.OneTime ==> id !in p.ownedOneTimers)
    ensures PerksOk(WithPerk(p, id))
  {
    var o := p.ownedOneTimers;
    if id in Cards.OneTime {
      AppendFresh(o, id);
      assert forall q :: q in o + [id] ==> q in o || q == id;
    } else {
      assert id != Homing && id != Ice && id != Fire;
    }
  }

  /** A card the overlay can offer keeps the perk record consistent: one-time perks stay unique. */
  lemma WithPerkKeepsOk(p: Perks, id: PerkId)
    requires PerksOk(p) && id in Cards.Eligible(p.ownedOneTimers)
    ensures PerksOk(WithPerk(p, id))
  {
    Cards.EligiblePool(p.ownedOneTimers);
    WithPerkKeepsOkWhenNew(p, id);
  }

  /** A one-time card on offer is one the player does not have yet, so its flag was still down. */
  lemma OfferedOneTimerIsNew(p: Perks, id: PerkId)
    requires PerksOk(p) && id in Cards.Eligible(p.ownedOneTimers)
    ensures id == Homing ==> !p.isHoming
    ensures id == Ice ==> !p.isIce
    ensures id == Fire ==> !p.isFire
  {
    Cards.EligiblePool(p.ownedOneTimers);
    assert Homing in Cards.OneTime && Ice in Cards.OneTime && Fire in Cards.OneTime;
  }

  /** Picking a stacking card, or a one-time card not yet owned, keeps the engine invariant. */
  lemma SelectNewPerkKeepsInv(w: World, id: PerkId)
    requires Inv(w) && (id in Cards.OneTime ==> id !in w.perks.ownedOneTimers)
    ensures Inv(SelectPerk(w, id)) && !SelectPerk(w, id).showCardSelection
  {
    WithPerkKeepsOkWhenNew(w.perks, id);
  }

  /** Picking a card offered by the overlay keeps the engine invariant and closes the overlay. */
  lemma SelectPerkKeepsInv(w: World, id: PerkId)
    requires Inv(w) && id in Cards.Eligible(w.perks.ownedOneTimers)
    ensures Inv(SelectPerk(w, id)) && !SelectPerk(w, id).showCardSelection
  {
    WithPerkKeepsOk(w.perks, id);
  }

  /** Firing keeps the engine invariant. */
  lemma FireKeepsInv(w: World, width: real, height: real, ph: Physics)
    requires Inv(w)
    ensures Inv(FireBullet(w, width, height, ph))
  {
  }
}
