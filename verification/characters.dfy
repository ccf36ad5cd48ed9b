/**
 The demo game's characters: what they carry, wear and own, and how every operation on
 them keeps what is worn among what is carried.
 */
module Characters {
  import opened Sequences

  datatype Slot = Weapon | Armor | Charm

  /** An item definition; `slot` is None when the item cannot be equipped. */
  datatype Item = Item(slot: Option<Slot>, powerBonus: int, defenseBonus: int, hpBonus: int, healing: int,
      flags: set<string>)

  /** The world's item table. */
  type ItemTable = string -> Item

  datatype Stats = Stats(maxHp: int, attackMin: int, attackMax: int, defense: int)

  /** A character's state; a slot with nothing in it is absent from `equipment`. */
  datatype Sheet = Sheet(stats: Stats, health: int, gold: int, inventory: seq<string>, equipment: map<Slot, string>)

  // ---------------------------------------------------------------------
  // What a character wears
  // ---------------------------------------------------------------------

  const BARE := Item(None, 0, 0, 0, 0, {})

  function Gear(items: ItemTable, equipment: map<Slot, string>, slot: Slot): Item {
    if slot in equipment then items(equipment[slot]) else BARE
  }

  function TotalMaxHp(items: ItemTable, s: Sheet): int {
    s.stats.maxHp + Gear(items, s.equipment, Weapon).hpBonus + Gear(items, s.equipment, Armor).hpBonus
    + Gear(items, s.equipment, Charm).hpBonus
  }

  function TotalDefense(items: ItemTable, s: Sheet): int {
    s.stats.defense + Gear(items, s.equipment, Weapon).defenseBonus + Gear(items, s.equipment, Armor).defenseBonus
    + Gear(items, s.equipment, Charm).defenseBonus
  }

  /** Nothing is worn that is not carried. */
  predicate WearsOwn(s: Sheet) {
    forall slot :: slot in s.equipment ==> s.equipment[slot] in s.inventory
  }

  // ---------------------------------------------------------------------
  // The operations, on states
  // ---------------------------------------------------------------------

  function RemoveFirst(inventory: seq<string>, id: string): seq<string> {
    if inventory == [] then []
    else if inventory[0] == id then inventory[1..]
    else [inventory[0]] + RemoveFirst(inventory[1..], id)
  }

  /** Removing one copy takes the item off, even when another copy stays. */
  function Removed(s: Sheet, id: string): Sheet {
    if id in s.inventory
    then s.(inventory := RemoveFirst(s.inventory, id),
            equipment := map slot | slot in s.equipment && s.equipment[slot] != id :: s.equipment[slot])
    else s
  }

  function RemovedAll(s: Sheet, ids: seq<string>): Sheet {
    if ids == [] then s else Removed(RemovedAll(s, Init(ids)), Last(ids))
  }

  predicate HasItems(s: Sheet, ids: seq<string>) {
    forall id :: id in ids ==> multiset(ids)[id] <= multiset(s.inventory)[id]
  }

  function Max(a: int, b: int): int {
    if a < b then b else a
  }

  function Min(a: int, b: int): int {
    if a < b then a else b
  }

  function Damage(items: ItemTable, s: Sheet, raw: int): int {
    Max(1, raw - TotalDefense(items, s))
  }

  function Hurt(items: ItemTable, s: Sheet, raw: int): Sheet {
    s.(health := Max(0, s.health - Damage(items, s, raw)))
  }

  function Healed(items: ItemTable, s: Sheet, amount: int): Sheet {
    s.(health := Min(TotalMaxHp(items, s), s.health + amount))
  }

  function Clamped(items: ItemTable, s: Sheet): Sheet {
    s.(health := Min(s.health, TotalMaxHp(items, s)))
  }

  predicate CanUse(items: ItemTable, s: Sheet, id: string) {
    id in s.inventory && items(id).healing > 0
  }

  function Used(items: ItemTable, s: Sheet, id: string): Sheet {
    if CanUse(items, s, id) then Healed(items, Removed(s, id), items(id).healing) else s
  }

  predicate CanEquip(items: ItemTable, s: Sheet, id: string) {
    id in s.inventory && items(id).slot.Some?
  }

  function Equipped(items: ItemTable, s: Sheet, id: string): Sheet {
    if CanEquip(items, s, id)
    then Clamped(items, s.(equipment := s.equipment[items(id).slot.value := id]))
    else s
  }

  function Unequipped(items: ItemTable, s: Sheet, slot: Slot): Sheet {
    if slot in s.equipment then Clamped(items, s.(equipment := s.equipment - {slot})) else s
  }

  // ---------------------------------------------------------------------
  // What they mean
  // ---------------------------------------------------------------------

  lemma {:induction false} RemoveFirstTakesOne(inventory: seq<string>, id: string)
    requires id in inventory
    ensures multiset(RemoveFirst(inventory, id)) == multiset(inventory) - multiset{id}
    ensures forall other :: other != id && other in inventory ==> other in RemoveFirst(inventory, id)
    ensures Subsequence(RemoveFirst(inventory, id), inventory)
  {
    assert inventory == [inventory[0]] + inventory[1..];
    if inventory[0] == id {
      SubsequenceRefl(inventory[1..]);
      SubsequenceSkip(inventory[1..], inventory[0], inventory[1..]);
    } else {
      RemoveFirstTakesOne(inventory[1..], id);
      assert RemoveFirst(inventory, id)[1..] == RemoveFirst(inventory[1..], id);
    }
  }

  lemma RemovedKeeps(s: Sheet, id: string)
    ensures multiset(Removed(s, id).inventory)
            == if id in s.inventory then multiset(s.inventory) - multiset{id} else multiset(s.inventory)
    ensures WearsOwn(s) ==> WearsOwn(Removed(s, id))
    ensures Removed(s, id).gold == s.gold && Removed(s, id).health == s.health && Removed(s, id).stats == s.stats
    ensures Removed(s, id).equipment.Keys <= s.equipment.Keys
  {
    if id in s.inventory {
      RemoveFirstTakesOne(s.inventory, id);
    }
  }

  lemma HasItemsIsContainment(s: Sheet, ids: seq<string>)
    ensures HasItems(s, ids) <==> multiset(ids) <= multiset(s.inventory)
  {
    if HasItems(s, ids) {
      forall id ensures multiset(ids)[id] <= multiset(s.inventory)[id] {
        if id !in ids {
          assert multiset(ids)[id] == 0;
        }
      }
    }
  }

  /** Removing owned items one by one removes exactly them. */
  lemma {:induction false} RemovedAllTakesThem(s: Sheet, ids: seq<string>)
    requires multiset(ids) <= multiset(s.inventory)
    ensures multiset(RemovedAll(s, ids).inventory) == multiset(s.inventory) - multiset(ids)
    ensures WearsOwn(s) ==> WearsOwn(RemovedAll(s, ids))
    ensures RemovedAll(s, ids).gold == s.gold && RemovedAll(s, ids).health == s.health
  {
    if ids != [] {
      assert ids == Init(ids) + [Last(ids)];
      RemovedAllTakesThem(s, Init(ids));
      RemovedKeeps(RemovedAll(s, Init(ids)), Last(ids));
      assert multiset(RemovedAll(s, Init(ids)).inventory)[Last(ids)] >= 1;
    }
  }

  /** No operation leaves a character wearing what it no longer carries. */
  lemma OperationsKeepWearsOwn(items: ItemTable, s: Sheet, id: string, slot: Slot, amount: int)
    requires WearsOwn(s)
    ensures WearsOwn(Removed(s, id)) && WearsOwn(Used(items, s, id))
    ensures WearsOwn(Equipped(items, s, id)) && WearsOwn(Unequipped(items, s, slot))
    ensures WearsOwn(Hurt(items, s, amount)) && WearsOwn(Healed(items, s, amount))
  {
    RemovedKeeps(s, id);
  }

  // ---------------------------------------------------------------------
  // The operations on the fields of sheets and items
  // ---------------------------------------------------------------------

  /** A bonus summed over what is worn. */
  ghost function Worn(items: ItemTable, s: Sheet, bonus: Item -> int): int {
    (if Weapon in s.equipment then bonus(items(s.equipment[Weapon])) else 0)
    + (if Armor in s.equipment then bonus(items(s.equipment[Armor])) else 0)
    + (if Charm in s.equipment then bonus(items(s.equipment[Charm])) else 0)
  }

  ghost function MostHealth(items: ItemTable, s: Sheet): int {
    s.stats.maxHp + Worn(items, s, (i: Item) => i.hpBonus)
  }

  /**
   Main result: a hit costs what is left of it after the wearer's own defence and that of
   everything worn, one at least, and health stops at zero.
   */
  lemma HitsExactly(items: ItemTable, s: Sheet, raw: int)
    ensures var through := raw - s.stats.defense - Worn(items, s, (i: Item) => i.defenseBonus);
      var hit := if through > 1 then through else 1;
      && Damage(items, s, raw) == hit
      && Hurt(items, s, raw) == s.(health := if s.health > hit then s.health - hit else 0)
  {}

  /** Putting an item into a free slot takes its defence off every hit, down to one. */
  lemma DefenceLowersHits(items: ItemTable, s: Sheet, id: string, raw: int)
    requires id in s.inventory && items(id).slot.Some? && items(id).slot.value !in s.equipment
    requires items(id).defenseBonus >= 0
    ensures var before, after := Damage(items, s, raw), Damage(items, Equipped(items, s, id), raw);
      after == if before - items(id).defenseBonus > 1 then before - items(id).defenseBonus else 1
  {
    var t := Equipped(items, s, id);
    var slot := items(id).slot.value;
    assert slot == Weapon || slot == Armor || slot == Charm;
    assert forall k :: k != slot ==> (k in t.equipment <==> k in s.equipment);
    assert TotalDefense(items, t) == TotalDefense(items, s) + items(id).defenseBonus;
  }

  /** Equipping puts the item into its slot, whatever was there, and brings health down to what can be had. */
  lemma EquipExactly(items: ItemTable, s: Sheet, id: string)
    ensures var t := Equipped(items, s, id);
      if id in s.inventory && items(id).slot.Some? then
        && t.equipment.Keys == s.equipment.Keys + {items(id).slot.value}
        && (forall k <- t.equipment :: t.equipment[k] == if items(id).slot == Some(k) then id else s.equipment[k])
        && t.inventory == s.inventory && t.gold == s.gold && t.stats == s.stats
        && t.health == if s.health < MostHealth(items, t) then s.health else MostHealth(items, t)
      else t == s
  {}

  lemma UnequipExactly(items: ItemTable, s: Sheet, slot: Slot)
    ensures var t := Unequipped(items, s, slot);
      if slot in s.equipment then
        && t.equipment.Keys == s.equipment.Keys - {slot}
        && (forall k <- t.equipment :: t.equipment[k] == s.equipment[k])
        && t.inventory == s.inventory && t.gold == s.gold && t.stats == s.stats
        && t.health == if s.health < MostHealth(items, t) then s.health else MostHealth(items, t)
      else t == s
  {}

  /** The first copy goes, and what is worn of that name, in every slot. */
  lemma {:induction false} RemoveExactly(s: Sheet, before: seq<string>, id: string, after: seq<string>)
    requires s.inventory == before + [id] + after && id !in before
    ensures var t := Removed(s, id);
      && t.inventory == before + after
      && (forall k :: k in t.equipment <==> k in s.equipment && s.equipment[k] != id)
      && forall k <- t.equipment :: t.equipment[k] == s.equipment[k]
    decreases |before|
  {
    if before == [] {
      assert s.inventory[1..] == after && before + after == after;
    } else {
      var rest := before[1..] + [id] + after;
      assert s.inventory[1..] == rest && s.inventory[0] == before[0];
      RemoveExactly(s.(inventory := rest), before[1..], id, after);
      assert [before[0]] + (before[1..] + after) == before + after;
    }
  }

  /** A carried item that heals is used up, and heals by what it says up to the most that can be had. */
  lemma UseExactly(items: ItemTable, s: Sheet, id: string)
    ensures var t, gone := Used(items, s, id), Removed(s, id);
      if id in s.inventory && items(id).healing > 0 then
        var healed := s.health + items(id).healing;
        t == gone.(health := if healed < MostHealth(items, gone) then healed else MostHealth(items, gone))
      else t == s
  {
    RemovedKeeps(s, id);
  }

  // ---------------------------------------------------------------------
  // The character object
  // ---------------------------------------------------------------------

  class Character {
    const stats: Stats
    var health: int
    var gold: int
    var inventory: seq<string>
    var equipment: map<Slot, string>

    constructor (stats: Stats, gold: int)
      ensures State() == Sheet(stats, stats.maxHp, gold, [], map[])
    {
      this.stats, this.gold := stats, gold;
      health, inventory, equipment := stats.maxHp, [], map[];
    }

    function State(): Sheet
      reads this
    {
      Sheet(stats, health, gold, inventory, equipment)
    }

    method AddItem(id: string)
      modifies this
      ensures State() == old(State()).(inventory := old(inventory) + [id])
    {
      inventory := inventory + [id];
    }

    method AddItems(ids: seq<string>)
      modifies this
      ensures State() == old(State()).(inventory := old(inventory) + ids)
    {
      for i := 0 to |ids|
        invariant State() == old(State()).(inventory := old(inventory) + ids[..i])
      {
        AddItem(ids[i]);
        Assoc(old(inventory), ids[..i], [ids[i]]);
        assert ids[..i + 1] == ids[..i] + [ids[i]];
      }
      assert ids[..|ids|] == ids;
    }

    method RemoveItem(id: string) returns (ok: bool)
      modifies this
      ensures ok == (id in old(inventory))
      ensures State() == Removed(old(State()), id)
    {
      if id !in inventory {
        return false;
      }
      inventory := RemoveFirst(inventory, id);
      equipment := map slot | slot in equipment && equipment[slot] != id :: equipment[slot];
      ok := true;
    }

    method RemoveItems(ids: seq<string>) returns (ok: bool)
      modifies this
      ensures ok == HasItems(old(State()), ids)
      ensures State() == if ok then RemovedAll(old(State()), ids) else old(State())
    {
      if !HasItems(State(), ids) {
        return false;
      }
      for i := 0 to |ids|
        invariant State() == RemovedAll(old(State()), ids[..i])
      {
        assert Init(ids[..i + 1]) == ids[..i];
        var removed := RemoveItem(ids[i]);
      }
      assert ids[..|ids|] == ids;
      ok := true;
    }

    method TakeDamage(raw: int, items: ItemTable) returns (actual: int)
      modifies this
      ensures actual == Damage(items, old(State()), raw) && actual >= 1
      ensures State() == Hurt(items, old(State()), raw)
    {
      actual := Max(1, raw - TotalDefense(items, State()));
      health := Max(0, health - actual);
    }

    method Heal(amount: int, items: ItemTable) returns (healed: int)
      modifies this
      ensures State() == Healed(items, old(State()), amount)
      ensures healed == health - old(health)
    {
      var before := health;
      health := Min(TotalMaxHp(items, State()), health + amount);
      healed := health - before;
    }

    method ClampHealth(items: ItemTable)
      modifies this
      ensures State() == Clamped(items, old(State()))
    {
      health := Min(health, TotalMaxHp(items, State()));
    }

    method Equip(id: string, items: ItemTable) returns (ok: bool)
      modifies this
      ensures ok == CanEquip(items, old(State()), id)
      ensures State() == Equipped(items, old(State()), id)
    {
      if id !in inventory || items(id).slot.None? {
        return false;
      }
      equipment := equipment[items(id).slot.value := id];
      ClampHealth(items);
      ok := true;
    }

    method Unequip(slot: Slot, items: ItemTable) returns (ok: bool)
      modifies this
      ensures ok == (slot in old(equipment))
      ensures State() == Unequipped(items, old(State()), slot)
    {
      if slot !in equipment {
        return false;
      }
      equipment := equipment - {slot};
      ClampHealth(items);
      ok := true;
    }

    method UseConsumable(id: string, items: ItemTable) returns (ok: bool, healed: int)
      modifies this
      ensures ok == CanUse(items, old(State()), id)
      ensures State() == Used(items, old(State()), id)
      ensures healed == health - old(health)
    {
      if id !in inventory || items(id).healing <= 0 {
        return false, 0;
      }
      var removed := RemoveItem(id);
      healed := Heal(items(id).healing, items);
      ok := true;
    }
  }
}
