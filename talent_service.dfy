/**
 * The persistent talent economy (services/talentService.ts): talent levels and currency that
 * outlive a playthrough, the rules for buying a level, and the numeric bonuses the levels give.
 *
 * The browser's localStorage entry is the field `stored` of a TalentService object, holding an
 * abstract `Stored` value: absent, present but unparsable, or the record JSON.parse would yield.
 */
module Talents {
  import opened Types

  const CurrentVersion: int := 1

  /** TALENT_NODES, in the source's order. */
  const TalentNodes: seq<TalentNode> := [
    TalentNode(Cooldown, 5, 5, None, 1),
    TalentNode(BulletTrail, 3, 25, Some(Cooldown), 1),
    TalentNode(Damage, 5, 10, None, 2),
    TalentNode(SpawnRate, 5, 5, None, 3),
    TalentNode(FragmentValue, 3, 30, Some(SpawnRate), 3),
    TalentNode(MagnetRange, 3, 25, Some(SpawnRate), 3)
  ]

  const InitialLevels: map<TalentId, nat> := map[
    Cooldown := 0, Damage := 0, SpawnRate := 0, FragmentValue := 0, BulletTrail := 0, MagnetRange := 0]

  const InitialState: TalentState := TalentState(InitialLevels, 0, 0, Default, None)

  /**
   * The fields of a parsed save. `None` is a field that is missing, or (for the totals) not a
   * number, or (for skin and version) falsy.
   */
  datatype SavedRecord = SavedRecord(
    levels: Option<map<TalentId, nat>>,
    totalFragments: Option<int>,
    totalCores: Option<int>,
    currentSkin: Option<SkinId>,
    version: Option<int>)

  /** What localStorage holds under the save key. */
  datatype Stored = Absent | Unparsable | Saved(record: SavedRecord)

  /** `TALENT_NODES.find(n => n.id === id)`. */
  function FindNode(id: TalentId): (r: Option<TalentNode>)
    ensures r.Some? ==> r.value in TalentNodes && r.value.id == id
    ensures r.None? ==> forall n :: n in TalentNodes ==> n.id != id
  {
    FindIn(TalentNodes, id)
  }

  function FindIn(nodes: seq<TalentNode>, id: TalentId): (r: Option<TalentNode>)
    ensures r.Some? ==> r.value in nodes && r.value.id == id
    ensures r.None? ==> forall n :: n in nodes ==> n.id != id
  {
    if |nodes| == 0 then None
    else if nodes[0].id == id then Some(nodes[0])
    else FindIn(nodes[1..], id)
  }

  /** `state.levels[id] || 0`. */
  function Level(s: TalentState, id: TalentId): nat {
    if id in s.levels then s.levels[id] else 0
  }

  /** `getState`: read the save, falling back field by field to the initial state. */
  function GetState(stored: Stored): (r: TalentState)
    ensures InitialLevels.Keys <= r.levels.Keys
    ensures !stored.Saved? ==> r == InitialState
    ensures stored.Saved? ==>
              && r.totalFragments == stored.record.totalFragments.GetOr(0)
              && r.totalCores == stored.record.totalCores.GetOr(0)
              && r.currentSkin == stored.record.currentSkin.GetOr(Default)
              && r.version == Some(if stored.record.version.GetOr(0) == 0 then CurrentVersion else stored.record.version.value)
    ensures forall id :: Level(r, id) == (if stored.Saved? && stored.record.levels.Some? && id in stored.record.levels.value
                                           then stored.record.levels.value[id] else 0)
  {
    match stored
    case Absent => InitialState
    case Unparsable => InitialState
    case Saved(p) =>
      TalentState(
        InitialLevels + p.levels.GetOr(map[]),
        p.totalFragments.GetOr(0),
        p.totalCores.GetOr(0),
        p.currentSkin.GetOr(Default),
        Some(if p.version.Some? && p.version.value != 0 then p.version.value else CurrentVersion))
  }

  /** `saveState`: the record written back (the `lastUpdated` clock reading is left out). */
  function Save(s: TalentState): Stored {
    Saved(SavedRecord(Some(s.levels), Some(s.totalFragments), Some(s.totalCores), Some(s.currentSkin), Some(CurrentVersion)))
  }

  /** Saving then loading gives back the state, stamped with the current version. */
  lemma SaveThenLoad(s: TalentState)
    requires InitialLevels.Keys <= s.levels.Keys
    ensures GetState(Save(s)) == s.(version := Some(CurrentVersion))
  {
    var merged := InitialLevels + s.levels;
    assert merged.Keys == s.levels.Keys;
    assert forall id :: id in merged ==> merged[id] == s.levels[id];
    assert merged == s.levels;
  }

  /** The price of the next level of `node` for a talent now at `level`. */
  function Cost(node: TalentNode, level: nat): nat {
    node.costPerLevel * (level + 1)
  }

  /** Why an upgrade may be refused, in the order the source tests. */
  predicate CanUpgrade(s: TalentState, id: TalentId) {
    && FindNode(id).Some?
    && Level(s, id) < FindNode(id).value.maxLevel
    && (FindNode(id).value.prerequisiteId.Some? ==> Level(s, FindNode(id).value.prerequisiteId.value) != 0)
    && s.totalFragments >= Cost(FindNode(id).value, Level(s, id))
  }

  /**
   * The pure rule behind `upgradeTalent`: None when refused, otherwise the state after paying the
   * cost and raising the level.
   */
  function Upgrade(s: TalentState, id: TalentId): (r: Option<TalentState>)
    ensures r.Some? <==> CanUpgrade(s, id)
    ensures r.Some? ==>
              && r.value.totalFragments == s.totalFragments - Cost(FindNode(id).value, Level(s, id)) >= 0
              && Level(r.value, id) == Level(s, id) + 1
              && (forall other :: other != id ==> Level(r.value, other) == Level(s, other))
              && r.value.totalCores == s.totalCores && r.value.currentSkin == s.currentSkin
              && r.value.levels.Keys == s.levels.Keys + {id}
  {
    var node := FindNode(id);
    if node.None? || Level(s, id) >= node.value.maxLevel then None
    else if node.value.prerequisiteId.Some? && Level(s, node.value.prerequisiteId.value) == 0 then None
    else
      var cost := Cost(node.value, Level(s, id));
      if s.totalFragments < cost then None
      else Some(s.(totalFragments := s.totalFragments - cost, levels := s.levels[id := Level(s, id) + 1]))
  }

  /** Every talent id of the game has a node, so the unknown-id refusal never fires for a TalentId. */
  lemma EveryTalentHasNode(id: TalentId)
    ensures FindNode(id).Some?
  {
    assert TalentNodes[0].id == Cooldown && TalentNodes[1].id == BulletTrail && TalentNodes[2].id == Damage;
    assert TalentNodes[3].id == SpawnRate && TalentNodes[4].id == FragmentValue && TalentNodes[5].id == MagnetRange;
  }

  /** Every level is within its node's maximum. */
  ghost predicate WithinMax(s: TalentState) {
    forall n :: n in TalentNodes ==> Level(s, n.id) <= n.maxLevel
  }

  /** Apply a sequence of upgrade attempts, a refused attempt leaving the state as it was. */
  function UpgradeAll(s: TalentState, ids: seq<TalentId>): TalentState
    decreases |ids|
  {
    if |ids| == 0 then s
    else
      var next := Upgrade(s, ids[0]);
      UpgradeAll(if next.Some? then next.value else s, ids[1..])
  }

  lemma UpgradeKeepsWithinMax(s: TalentState, id: TalentId)
    requires WithinMax(s)
    ensures Upgrade(s, id).Some? ==> WithinMax(Upgrade(s, id).value)
  {
    if Upgrade(s, id).Some? {
      var t := Upgrade(s, id).value;
      forall n | n in TalentNodes ensures Level(t, n.id) <= n.maxLevel {
        if n.id == id {
          assert FindNode(id).value == n by { NodeIdsUnique(n, FindNode(id).value); }
        }
      }
    }
  }

  lemma NodeIdsUnique(a: TalentNode, b: TalentNode)
    requires a in TalentNodes && b in TalentNodes && a.id == b.id
    ensures a == b
  {
  }

  /**
   * No sequence of purchases takes a level above its node's maximum, and the fragment balance
   * never goes negative.
   */
  lemma {:induction false} UpgradesStayWithinBounds(s: TalentState, ids: seq<TalentId>)
    requires WithinMax(s) && s.totalFragments >= 0
    ensures WithinMax(UpgradeAll(s, ids)) && UpgradeAll(s, ids).totalFragments >= 0
    decreases |ids|
  {
    if |ids| > 0 {
      UpgradeKeepsWithinMax(s, ids[0]);
      var next := Upgrade(s, ids[0]);
      UpgradesStayWithinBounds(if next.Some? then next.value else s, ids[1..]);
    }
  }

  /** Purchases only ever spend: the balance after any sequence of attempts is at most the start. */
  lemma {:induction false} UpgradesOnlySpend(s: TalentState, ids: seq<TalentId>)
    ensures UpgradeAll(s, ids).totalFragments <= s.totalFragments
    ensures UpgradeAll(s, ids).totalCores == s.totalCores
    ensures UpgradeAll(s, ids).currentSkin == s.currentSkin
    ensures forall id :: Level(s, id) <= Level(UpgradeAll(s, ids), id)
    decreases |ids|
  {
    if |ids| > 0 {
      var next := Upgrade(s, ids[0]);
      UpgradesOnlySpend(if next.Some? then next.value else s, ids[1..]);
    }
  }

  /** `getBonuses`. */
  function GetBonuses(s: TalentState): Bonuses {
    Bonuses(
      Level(s, Cooldown) as real * 150.0,
      Level(s, Damage) as real * 2.0,
      Level(s, SpawnRate) as real * 0.2,
      Level(s, FragmentValue) as real,
      Level(s, BulletTrail) as real * 1.5,
      Level(s, MagnetRange) as real * 20.0)
  }

  /** The bonus a talent feeds, and what one level of it is worth. */
  function BonusOf(b: Bonuses, id: TalentId): real {
    match id
    case Cooldown => b.cooldownReduction
    case Damage => b.damageBoost
    case SpawnRate => b.spawnBoost
    case FragmentValue => b.fragmentBonus
    case BulletTrail => b.bulletSpeedBoost
    case MagnetRange => b.magnetRangeBoost
  }

  function PerLevel(id: TalentId): real {
    match id
    case Cooldown => 150.0
    case Damage => 2.0
    case SpawnRate => 0.2
    case FragmentValue => 1.0
    case BulletTrail => 1.5
    case MagnetRange => 20.0
  }

  /** Each bonus is its talent's level times a fixed step, and so never negative. */
  lemma BonusesLinear(s: TalentState, id: TalentId)
    ensures BonusOf(GetBonuses(s), id) == PerLevel(id) * Level(s, id) as real
    ensures BonusOf(GetBonuses(s), id) >= 0.0
  {
  }

  /** A successful purchase raises exactly its own bonus, by one step, and leaves the others. */
  lemma PurchaseRaisesOneBonus(s: TalentState, id: TalentId, other: TalentId)
    requires Upgrade(s, id).Some?
    ensures BonusOf(GetBonuses(Upgrade(s, id).value), id) == BonusOf(GetBonuses(s), id) + PerLevel(id)
    ensures other != id ==> BonusOf(GetBonuses(Upgrade(s, id).value), other) == BonusOf(GetBonuses(s), other)
  {
    BonusesLinear(s, id);
    BonusesLinear(Upgrade(s, id).value, id);
    BonusesLinear(s, other);
    BonusesLinear(Upgrade(s, id).value, other);
  }

  /** The save-backed talent service; every public operation reads the save afresh. */
  class TalentService {
    var stored: Stored

    constructor (initial: Stored)
      ensures stored == initial
    {
      stored := initial;
    }

    /** `getState`. */
    function State(): TalentState
      reads this
    {
      GetState(stored)
    }

    /** `setSkin`: only the skin of the saved state changes. */
    method SetSkin(skin: SkinId)
      modifies this
      ensures stored == Save(old(State()).(currentSkin := skin))
      ensures State().currentSkin == skin
      ensures State().levels == old(State()).levels
      ensures State().totalFragments == old(State()).totalFragments && State().totalCores == old(State()).totalCores
    {
      var state := GetState(stored);
      state := state.(currentSkin := skin);
      stored := Save(state);
      SaveThenLoad(state);
    }

    /** `resetState`: forget the save and hand back the initial state. */
    method ResetState() returns (s: TalentState)
      modifies this
      ensures stored == Absent && s == InitialState && State() == InitialState
    {
      stored := Absent;
      s := InitialState;
    }

    /** `addCurrency`: credit exactly the given fragments and cores. */
    method AddCurrency(fragments: int, cores: int)
      modifies this
      ensures stored == Save(old(State()).(totalFragments := old(State()).totalFragments + fragments,
                                           totalCores := old(State()).totalCores + cores))
      ensures State().totalFragments == old(State()).totalFragments + fragments
      ensures State().totalCores == old(State()).totalCores + cores
      ensures State().levels == old(State()).levels && State().currentSkin == old(State()).currentSkin
    {
      var state := GetState(stored);
      state := state.(totalFragments := state.totalFragments + fragments);
      state := state.(totalCores := state.totalCores + cores);
      stored := Save(state);
      SaveThenLoad(state);
    }

    /** `upgradeTalent`: refuse (saving nothing) or pay and raise the level, then save. */
    method UpgradeTalent(id: TalentId) returns (ok: bool)
      modifies this
      ensures ok == CanUpgrade(old(State()), id)
      ensures ok ==> stored == Save(Upgrade(old(State()), id).value)
      ensures ok ==> State() == Upgrade(old(State()), id).value.(version := Some(CurrentVersion))
      ensures !ok ==> stored == old(stored)
    {
      var state := GetState(stored);
      var next := Upgrade(state, id);
      if next.None? {
        return false;
      }
      stored := Save(next.value);
      SaveThenLoad(next.value);
      ok := true;
    }
  }
}
