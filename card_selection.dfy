/**
 * The level-up card overlay (components/CardSelectionOverlay.tsx): which three perks are offered,
 * and the pick-then-confirm click rule.
 *
 * The source shuffles with `sort(() => 0.5 - Math.random())`; whatever the random comparator does,
 * a sort returns a permutation of its input, so the shuffle is a parameter `shuffled` required to
 * be a permutation of the eligible perks.
 */
module Cards {
  import opened Types

  /** PERKS, in the source's order. */
  const AllPerks: seq<PerkId> := [ExtraBullets, ReduceCooldown, IncreaseDamage, Homing, Ice, Fire, MoreMeteorites]

  /** The perks that can be owned only once. */
  const OneTime: seq<PerkId> := [Homing, Ice, Fire]

  /** The number of cards an overlay shows. */
  const OfferSize: nat := 3

  predicate Distinct(s: seq<PerkId>) {
    forall i, j :: 0 <= i < j < |s| ==> s[i] != s[j]
  }

  /** PERKS.filter(p => !oneTime.includes(p.id) || !ownedPerks.includes(p.id)), on any list. */
  function Keep(ps: seq<PerkId>, owned: seq<PerkId>): seq<PerkId>
    decreases |ps|
  {
    if |ps| == 0 then []
    else (if ps[0] !in OneTime || ps[0] !in owned then [ps[0]] else []) + Keep(ps[1..], owned)
  }

  /** The filter keeps exactly the perks of the list that are not owned one-time perks, without adding repeats. */
  lemma {:induction false} KeepMembers(ps: seq<PerkId>, owned: seq<PerkId>)
    ensures forall p :: p in Keep(ps, owned) <==> p in ps && (p in OneTime ==> p !in owned)
    ensures Distinct(ps) ==> Distinct(Keep(ps, owned))
    decreases |ps|
  {
    if |ps| > 0 {
      KeepMembers(ps[1..], owned);
      assert ps == [ps[0]] + ps[1..];
      if Distinct(ps) {
        assert Distinct(ps[1..]);
        assert ps[0] !in ps[1..];
      }
    }
  }

  /** The pool an offer is drawn from, given the one-time perks already owned. */
  function Eligible(owned: seq<PerkId>): seq<PerkId> {
    Keep(AllPerks, owned)
  }

  /** Just one of a one-time perk when not owned. */
  function Unless(p: PerkId, owned: seq<PerkId>): seq<PerkId> {
    if p in owned then [] else [p]
  }

  lemma KeepStep(p: PerkId, rest: seq<PerkId>, owned: seq<PerkId>)
    ensures Keep([p] + rest, owned) == (if p !in OneTime || p !in owned then [p] else []) + Keep(rest, owned)
  {
    assert ([p] + rest)[1..] == rest;
  }

  lemma KeepTail1(owned: seq<PerkId>)
    ensures Keep([MoreMeteorites], owned) == [MoreMeteorites]
  {
    KeepStep(MoreMeteorites, [], owned);
    assert [MoreMeteorites] + [] == [MoreMeteorites];
  }

  lemma KeepTail2(owned: seq<PerkId>)
    ensures Keep([Fire, MoreMeteorites], owned) == Unless(Fire, owned) + [MoreMeteorites]
  {
    KeepTail1(owned);
    KeepStep(Fire, [MoreMeteorites], owned);
    assert [Fire] + [MoreMeteorites] == [Fire, MoreMeteorites];
    assert Fire in OneTime;
  }

  lemma KeepTail3(owned: seq<PerkId>)
    ensures Keep([Ice, Fire, MoreMeteorites], owned) == Unless(Ice, owned) + Unless(Fire, owned) + [MoreMeteorites]
  {
    KeepTail2(owned);
    KeepStep(Ice, [Fire, MoreMeteorites], owned);
    assert [Ice] + [Fire, MoreMeteorites] == [Ice, Fire, MoreMeteorites];
    assert Ice in OneTime;
  }

  lemma KeepTail4(owned: seq<PerkId>)
    ensures Keep([Homing, Ice, Fire, MoreMeteorites], owned)
            == Unless(Homing, owned) + Unless(Ice, owned) + Unless(Fire, owned) + [MoreMeteorites]
  {
    KeepTail3(owned);
    KeepStep(Homing, [Ice, Fire, MoreMeteorites], owned);
    assert [Homing] + [Ice, Fire, MoreMeteorites] == [Homing, Ice, Fire, MoreMeteorites];
    assert Homing in OneTime;
  }

  /** The filter unrolled: the four stacking perks always stay, each one-time perk stays unless owned. */
  lemma EligibleExplicit(owned: seq<PerkId>)
    ensures Eligible(owned)
            == [ExtraBullets] + ([ReduceCooldown] + ([IncreaseDamage] + (Unless(Homing, owned) + Unless(Ice, owned)
               + Unless(Fire, owned) + [MoreMeteorites])))
  {
    var t4 := [Homing, Ice, Fire, MoreMeteorites];
    KeepTail4(owned);
    KeepStep(IncreaseDamage, t4, owned);
    KeepStep(ReduceCooldown, [IncreaseDamage] + t4, owned);
    KeepStep(ExtraBullets, [ReduceCooldown] + ([IncreaseDamage] + t4), owned);
    assert AllPerks == [ExtraBullets] + ([ReduceCooldown] + ([IncreaseDamage] + t4));
  }

  lemma AllPerksDistinct()
    ensures Distinct(AllPerks)
  {
    forall i, j | 0 <= i < j < |AllPerks| ensures AllPerks[i] != AllPerks[j] {
      assert i < 7 && j < 7;
    }
  }

  /** At least the four stacking perks survive the filter. */
  lemma EligibleLength(owned: seq<PerkId>)
    ensures |Eligible(owned)| >= 4
  {
    EligibleExplicit(owned);
    var tail := Unless(Homing, owned) + Unless(Ice, owned) + Unless(Fire, owned) + [MoreMeteorites];
    assert |tail| >= 1;
    assert |Eligible(owned)| == 3 + |tail|;
  }

  /** The pool: distinct perks of PERKS, never an owned one-time perk, and at least four of them. */
  lemma EligiblePool(owned: seq<PerkId>)
    ensures Distinct(Eligible(owned))
    ensures |Eligible(owned)| >= 4
    ensures forall p :: p in Eligible(owned) <==> p in AllPerks && (p in OneTime ==> p !in owned)
    ensures ExtraBullets in Eligible(owned) && ReduceCooldown in Eligible(owned)
    ensures IncreaseDamage in Eligible(owned) && MoreMeteorites in Eligible(owned)
  {
    EligibleExplicit(owned);
    assert |Eligible(owned)| >= 4;
    AllPerksDistinct();
    KeepMembers(AllPerks, owned);
  }

  /** A shuffle of the pool is as long as the pool, has no repeats, and holds only pool perks. */
  lemma ShuffledPool(owned: seq<PerkId>, shuffled: seq<PerkId>)
    requires multiset(shuffled) == multiset(Eligible(owned))
    ensures |shuffled| >= 4
    ensures Distinct(shuffled)
    ensures forall p :: p in shuffled ==> p in Eligible(owned)
  {
    EligiblePool(owned);
    assert |multiset(shuffled)| == |multiset(Eligible(owned))|;
    DistinctByMultiset(Eligible(owned), shuffled);
    forall p | p in shuffled ensures p in Eligible(owned) {
      assert p in multiset(shuffled);
    }
  }

  /** `selectedPerks`: the first three cards of the shuffled pool. */
  function Offer(owned: seq<PerkId>, shuffled: seq<PerkId>): (r: seq<PerkId>)
    requires multiset(shuffled) == multiset(Eligible(owned))
    ensures |r| == OfferSize
    ensures Distinct(r)
    ensures forall p :: p in r ==> p in AllPerks && (p in OneTime ==> p !in owned)
    ensures forall p :: p in r ==> p in Eligible(owned)
  {
    PoolPrefix(owned, shuffled);
    shuffled[..OfferSize]
  }

  /** The first three cards of a shuffled pool are three distinct pool perks. */
  lemma PoolPrefix(owned: seq<PerkId>, shuffled: seq<PerkId>)
    requires multiset(shuffled) == multiset(Eligible(owned))
    ensures |shuffled| >= OfferSize
    ensures Distinct(shuffled[..OfferSize])
    ensures forall p :: p in shuffled[..OfferSize] ==> p in Eligible(owned) && p in AllPerks && (p in OneTime ==> p !in owned)
  {
    ShuffledPool(owned, shuffled);
    var drawn := shuffled[..OfferSize];
    forall p | p in drawn ensures p in Eligible(owned) {
      assert p in shuffled;
    }
    PoolMembers(owned, drawn);
  }

  /** Whatever is drawn from the pool is a perk of PERKS, and never an owned one-time perk. */
  lemma PoolMembers(owned: seq<PerkId>, drawn: seq<PerkId>)
    requires forall p :: p in drawn ==> p in Eligible(owned)
    ensures forall p :: p in drawn ==> p in AllPerks && (p in OneTime ==> p !in owned)
  {
    KeepMembers(AllPerks, owned);
  }

  /** A permutation of a list without repeats has no repeats either. */
  lemma DistinctByMultiset(a: seq<PerkId>, b: seq<PerkId>)
    requires Distinct(a) && multiset(a) == multiset(b)
    ensures Distinct(b)
  {
    DistinctCountsOnce(a);
    forall i, j | 0 <= i < j < |b| ensures b[i] != b[j] {
      if b[i] == b[j] {
        TwiceCountsTwice(b, i, j);
        assert false;
      }
    }
  }

  lemma {:induction false} DistinctCountsOnce(s: seq<PerkId>)
    requires Distinct(s)
    ensures forall p :: multiset(s)[p] <= 1
    decreases |s|
  {
    if |s| > 0 {
      assert s == [s[0]] + s[1..];
      assert Distinct(s[1..]);
      DistinctCountsOnce(s[1..]);
      assert s[0] !in s[1..];
      assert multiset(s) == multiset([s[0]]) + multiset(s[1..]);
    }
  }

  lemma TwiceCountsTwice(s: seq<PerkId>, i: nat, j: nat)
    requires i < j < |s| && s[i] == s[j]
    ensures multiset(s)[s[i]] >= 2
  {
    assert s == s[..i] + [s[i]] + s[i + 1..j] + [s[j]] + s[j + 1..];
    assert multiset(s) == multiset(s[..i]) + multiset([s[i]]) + multiset(s[i + 1..j]) + multiset([s[j]]) + multiset(s[j + 1..]);
  }

  /** One mounted overlay: its offer, fixed at mount, and the card awaiting confirmation. */
  class CardSelection {
    const offer: seq<PerkId>
    var pendingId: Option<PerkId>

    /** Only a shown card can be pending. */
    predicate Valid()
      reads this
    {
      pendingId.Some? ==> pendingId.value in offer
    }

    constructor (owned: seq<PerkId>, shuffled: seq<PerkId>)
      requires multiset(shuffled) == multiset(Eligible(owned))
      ensures offer == Offer(owned, shuffled) && pendingId == None
      ensures Valid()
    {
      offer := Offer(owned, shuffled);
      pendingId := None;
    }

    /**
     * `handleCardClick` on a shown card: a first click only marks it pending; a second click on
     * the pending card selects it. `selected` is the id passed to `onSelect`, if it was called.
     */
    method HandleCardClick(id: PerkId) returns (selected: Option<PerkId>)
      requires Valid() && id in offer
      modifies this`pendingId
      ensures Valid()
      ensures old(pendingId) == Some(id) ==> selected == Some(id) && pendingId == old(pendingId)
      ensures old(pendingId) != Some(id) ==> selected == None && pendingId == Some(id)
    {
      if pendingId == Some(id) {
        selected := Some(id);
      } else {
        pendingId := Some(id);
        selected := None;
      }
    }

    /**
     * The confirm button under a card: it takes pointer events only while its card is pending,
     * and then selects that card; otherwise the click does nothing.
     */
    method ConfirmClick(id: PerkId) returns (selected: Option<PerkId>)
      requires Valid()
      ensures selected.Some? <==> pendingId == Some(id)
      ensures selected.Some? ==> selected.value == id && selected.value in offer
    {
      if pendingId == Some(id) {
        selected := Some(id);
      } else {
        selected := None;
      }
    }
  }
}
