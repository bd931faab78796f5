/**
 * The shop of FocusForge (app.js): the catalog, buying and equipping
 * items, and the rule that enables a shop button. These functions give
 * the effect of `buyItem` and `equipItem` on a progress record; the
 * client's methods in module Client are proved against them.
 */
module Economy {
  import opened Snapshot

  /** A catalog entry; its icon and display name only matter to the page. */
  datatype Item = Item(id: ItemId, slot: Slot, cost: int)

  /** `shopCatalog` */
  const Catalog: seq<Item> := [
    Item("hat-crown", Hat, 40),
    Item("hat-beanie", Hat, 25),
    Item("outfit-hoodie", Outfit, 35),
    Item("outfit-robe", Outfit, 50),
    Item("acc-star", Accessory, 20),
    Item("acc-headphones", Accessory, 30)
  ]

  /** `ownItem(id)`: `owned.includes(id)`. */
  predicate OwnItem(p: Progress, id: ItemId) {
    id in p.owned
  }

  /** The guard of `buyItem`: the purchase goes ahead. */
  predicate CanBuy(p: Progress, item: Item) {
    !OwnItem(p, item.id) && !(p.points < item.cost as real)
  }

  /** The effect of `buyItem(item)` on the progress record. */
  function Purchase(p: Progress, item: Item): (r: Progress)
    // a failed guard is a silent no-op
    ensures !CanBuy(p, item) ==> r == p
    // a purchase pays the cost, records the item and wears it, and touches nothing else
    ensures CanBuy(p, item) ==>
      && r.points == p.points - item.cost as real
      && r.owned == p.owned + [item.id]
      && r.equipped.Get(item.slot) == item.id
      && (forall other: Slot :: other != item.slot ==> r.equipped.Get(other) == p.equipped.Get(other))
      && r.totalSeconds == p.totalSeconds
      && r.focusSeconds == p.focusSeconds
      && r.distractionCount == p.distractionCount
    // `owned` only grows, and a bought item is owned afterwards
    ensures p.owned <= r.owned
    ensures OwnItem(r, item.id) <==> OwnItem(p, item.id) || CanBuy(p, item)
    ensures Consistent(p) ==> Consistent(r)
  {
    if !CanBuy(p, item) then p
    else p.(points := p.points - item.cost as real,
            owned := p.owned + [item.id],
            equipped := p.equipped.Set(item.slot, item.id))
  }

  /** The effect of `equipItem(item)` on the progress record. */
  function Equip(p: Progress, item: Item): (r: Progress)
    ensures !OwnItem(p, item.id) ==> r == p
    ensures OwnItem(p, item.id) ==>
      && r.equipped.Get(item.slot) == item.id
      && (forall other: Slot :: other != item.slot ==> r.equipped.Get(other) == p.equipped.Get(other))
      && r.(equipped := p.equipped) == p
    ensures Consistent(p) ==> Consistent(r)
  {
    if !OwnItem(p, item.id) then p
    else p.(equipped := p.equipped.Set(item.slot, item.id))
  }

  /** Equipping the same item again changes nothing further. */
  lemma EquipIdempotent(p: Progress, item: Item)
    ensures Equip(Equip(p, item), item) == Equip(p, item)
  {
    var once := Equip(p, item);
    if OwnItem(p, item.id) {
      assert once.equipped.Set(item.slot, item.id) == once.equipped by {
        var e := once.equipped.Set(item.slot, item.id);
        assert e.Get(Hat) == once.equipped.Get(Hat);
        assert e.Get(Outfit) == once.equipped.Get(Outfit);
        assert e.Get(Accessory) == once.equipped.Get(Accessory);
      }
    }
  }

  /** A second purchase of the same item is a no-op: an item is bought at most once. */
  lemma PurchaseOnce(p: Progress, item: Item)
    ensures Purchase(Purchase(p, item), item) == Purchase(p, item)
  {
  }

  /** The guard of `buyItem` lets a purchase through exactly when it changes the record. */
  lemma CanBuyIffPurchaseChanges(p: Progress, item: Item)
    ensures CanBuy(p, item) <==> Purchase(p, item) != p
  {
    if CanBuy(p, item) {
      assert |Purchase(p, item).owned| == |p.owned| + 1;
    }
  }

  /**
   * The shop button of an item (app.js renderShop): "Buy" is enabled when
   * the points cover the cost, "Equip" when the item is not already worn.
   */
  predicate ButtonEnabled(p: Progress, item: Item) {
    if !OwnItem(p, item.id) then p.points >= item.cost as real
    else p.equipped.Get(item.slot) != item.id
  }

  /** What a click on that button does: buy when not owned, equip otherwise. */
  function Click(p: Progress, item: Item): Progress {
    if !OwnItem(p, item.id) then Purchase(p, item) else Equip(p, item)
  }

  /** A button is enabled exactly when clicking it changes the progress. */
  lemma ButtonEnabledIffEffective(p: Progress, item: Item)
    ensures ButtonEnabled(p, item) <==> Click(p, item) != p
  {
    if OwnItem(p, item.id) && !ButtonEnabled(p, item) {
      EquipIdempotentOnWorn(p, item);
    }
    if !OwnItem(p, item.id) && ButtonEnabled(p, item) {
      assert |Click(p, item).owned| == |p.owned| + 1;
    }
  }

  lemma EquipIdempotentOnWorn(p: Progress, item: Item)
    requires p.equipped.Get(item.slot) == item.id
    ensures Equip(p, item) == p
  {
    var e := p.equipped.Set(item.slot, item.id);
    assert e.Get(Hat) == p.equipped.Get(Hat);
    assert e.Get(Outfit) == p.equipped.Get(Outfit);
    assert e.Get(Accessory) == p.equipped.Get(Accessory);
  }

  /** Buying the Focus Crown with 45 points leaves 5 points, the crown owned and worn. */
  lemma CrownPurchaseScenario()
    ensures var p := DefaultProgress().(points := 45.0);
            var r := Purchase(p, Catalog[0]);
            r.points == 5.0 && r.owned == ["hat-crown"] && r.equipped.hat == "hat-crown"
  {
  }

  /** Equipping an item that was never bought is a no-op. */
  lemma EquipUnownedScenario()
    ensures Equip(DefaultProgress(), Catalog[1]) == DefaultProgress()
  {
  }
}
