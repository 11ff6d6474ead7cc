/** The inventory of an entity: `findEquipment` goes through the items once and equips an item if one
    of its slots is still free. */
module Equipment {

  /** An item as far as equipping is concerned. */
  datatype Kit = Kit(apparel: bool, slots: seq<string>, equipped: bool)

  // ---------------------------------------------------------------- slot names

  /** What every script object inherits. Looked up in a table of slots, such a name is never false. */
  const INHERITED: set<string> := {
    "constructor", "toString", "toLocaleString", "valueOf", "hasOwnProperty", "isPrototypeOf", "propertyIsEnumerable",
    "__defineGetter__", "__defineSetter__", "__lookupGetter__", "__lookupSetter__", "__proto__"}

  /** A slot of the appearance: a key of the table. Assigning to `__proto__` makes no key. */
  predicate Known(known: seq<string>, slot: string) {
    slot in known && slot != "__proto__"
  }

  /** Neither a key of the table nor inherited. */
  predicate Absent(known: seq<string>, slot: string) {
    !Known(known, slot) && slot !in INHERITED
  }

  // ---------------------------------------------------------------- what a pass does

  /** An equipped item names the slot. */
  ghost predicate Taken(kits: seq<Kit>, slot: string) {
    exists i :: 0 <= i < |kits| && kits[i].equipped && slot in kits[i].slots
  }

  /** A slot that `equipped()` does not give as true: free, or absent from the table. */
  ghost predicate Open(kits: seq<Kit>, known: seq<string>, slot: string) {
    Absent(known, slot) || (Known(known, slot) && !Taken(kits, slot))
  }

  ghost predicate HasOpen(kits: seq<Kit>, known: seq<string>, slots: seq<string>) {
    exists slot :: slot in slots && Open(kits, known, slot)
  }

  /** `equip` */
  ghost function Equip(kits: seq<Kit>, known: seq<string>, i: nat): seq<Kit>
    requires i < |kits|
  {
    if HasOpen(kits, known, kits[i].slots) then kits[i := kits[i].(equipped := true)] else kits
  }

  /** `findEquipment`, up to an item. */
  ghost function Found(kits: seq<Kit>, known: seq<string>, n: nat): (r: seq<Kit>)
    requires n <= |kits|
    ensures |r| == |kits|
  {
    if n == 0 then kits
    else
      var before := Found(kits, known, n - 1);
      if before[n - 1].apparel then Equip(before, known, n - 1) else before
  }

  // ---------------------------------------------------------------- who is equipped

  /** An apparel item before `i` names the slot. */
  ghost predicate Claimed(kits: seq<Kit>, i: nat, slot: string) {
    exists j :: 0 <= j < i && j < |kits| && kits[j].apparel && slot in kits[j].slots
  }

  ghost predicate Unclaimed(kits: seq<Kit>, known: seq<string>, i: nat, slot: string) {
    Absent(known, slot) || (Known(known, slot) && !Claimed(kits, i, slot) && !Taken(kits, slot))
  }

  /** The item names a slot that is absent, or a known one that neither an earlier apparel item names nor
      an item that was equipped before the pass. */
  ghost predicate Claims(kits: seq<Kit>, known: seq<string>, i: nat)
    requires i < |kits|
  {
    exists slot :: slot in kits[i].slots && Unclaimed(kits, known, i, slot)
  }

  ghost predicate Wears(kits: seq<Kit>, known: seq<string>, i: nat)
    requires i < |kits|
  {
    kits[i].equipped || (kits[i].apparel && Claims(kits, known, i))
  }

  /** Half-way through the pass. */
  ghost predicate Halfway(kits: seq<Kit>, known: seq<string>, n: nat, now: seq<Kit>) {
    && |now| == |kits|
    && (forall i | 0 <= i < |kits| :: now[i].apparel == kits[i].apparel && now[i].slots == kits[i].slots)
    && (forall i | 0 <= i < |kits| :: now[i].equipped <==> if i < n then Wears(kits, known, i) else kits[i].equipped)
  }

  /** A known slot is taken half-way through exactly if it was taken before or has been claimed. */
  lemma TakenHalfway(kits: seq<Kit>, known: seq<string>, n: nat, now: seq<Kit>, slot: string)
    requires Halfway(kits, known, n, now) && n <= |kits| && Known(known, slot)
    ensures Taken(now, slot) <==> Taken(kits, slot) || Claimed(kits, n, slot)
  {
    if Taken(kits, slot) {
      var i :| 0 <= i < |kits| && kits[i].equipped && slot in kits[i].slots;
      assert now[i].equipped && slot in now[i].slots;
    }
    if Claimed(kits, n, slot) && !Taken(kits, slot) {
      var j := FirstClaim(kits, n, slot);
      assert Unclaimed(kits, known, j, slot);
      assert Wears(kits, known, j);
      assert now[j].equipped && slot in now[j].slots;
    }
    if Taken(now, slot) {
      var i :| 0 <= i < |now| && now[i].equipped && slot in now[i].slots;
      assert kits[i].equipped || (i < n && kits[i].apparel);
    }
  }

  lemma {:induction false} FirstClaim(kits: seq<Kit>, n: nat, slot: string) returns (j: nat)
    requires Claimed(kits, n, slot)
    ensures j < n && j < |kits| && kits[j].apparel && slot in kits[j].slots && !Claimed(kits, j, slot)
    decreases n
  {
    var i :| 0 <= i < n && i < |kits| && kits[i].apparel && slot in kits[i].slots;
    if Claimed(kits, i, slot) {
      j := FirstClaim(kits, i, slot);
    } else {
      j := i;
    }
  }

  lemma {:induction false} FoundIs(kits: seq<Kit>, known: seq<string>, n: nat)
    requires n <= |kits|
    ensures Halfway(kits, known, n, Found(kits, known, n))
    decreases n
  {
    if n > 0 {
      var i := n - 1;
      FoundIs(kits, known, i);
      var now := Found(kits, known, i);
      forall slot | slot in kits[i].slots
        ensures Open(now, known, slot) <==> Unclaimed(kits, known, i, slot)
      {
        if Known(known, slot) {
          TakenHalfway(kits, known, i, now, slot);
        }
      }
      assert HasOpen(now, known, now[i].slots) <==> Claims(kits, known, i);
    }
  }

  ghost predicate NoneEquipped(kits: seq<Kit>) {
    forall i | 0 <= i < |kits| :: !kits[i].equipped
  }

  /** The item is the first apparel item to name the slot, or the slot is absent. */
  ghost predicate First(kits: seq<Kit>, known: seq<string>, i: nat, slot: string) {
    Absent(known, slot) || (Known(known, slot) && !Claimed(kits, i, slot))
  }

  /** After a pass over items of which none is equipped, an item is equipped exactly if it is apparel and
      is the first apparel item to name one of its slots, or names a slot that is absent; and a known slot
      is filled exactly if an apparel item names it. */
  lemma EquippedIff(kits: seq<Kit>, known: seq<string>)
    requires NoneEquipped(kits)
    ensures var after := Found(kits, known, |kits|);
            && (forall i | 0 <= i < |kits| ::
                  after[i].equipped
                  <==> kits[i].apparel && exists slot :: slot in kits[i].slots && First(kits, known, i, slot))
            && (forall slot | Known(known, slot) :: Taken(after, slot) <==> Claimed(kits, |kits|, slot))
  {
    FoundIs(kits, known, |kits|);
    var after := Found(kits, known, |kits|);
    assert forall slot :: !Taken(kits, slot);
    forall i | 0 <= i < |kits|
      ensures after[i].equipped
              <==> kits[i].apparel && exists slot :: slot in kits[i].slots && First(kits, known, i, slot)
    {
      assert after[i].equipped <==> Wears(kits, known, i);
      assert forall slot :: First(kits, known, i, slot) <==> Unclaimed(kits, known, i, slot);
    }
    forall slot | Known(known, slot) ensures Taken(after, slot) <==> Claimed(kits, |kits|, slot) {
      TakenHalfway(kits, known, |kits|, after, slot);
    }
  }

  /** An item with one name, alone: it is equipped if the name is a key of the table, and also if the name
      is neither a key nor inherited; but never under `__proto__`, which makes no key. */
  lemma OneNameEquips(known: seq<string>, name: string)
    ensures Found([Kit(true, [name], false)], known, 1)[0].equipped
            <==> name != "__proto__"
                 && (name in known
                     || !(|| name == "constructor" || name == "toString" || name == "toLocaleString"
                          || name == "valueOf" || name == "hasOwnProperty" || name == "isPrototypeOf"
                          || name == "propertyIsEnumerable" || name == "__defineGetter__"
                          || name == "__defineSetter__" || name == "__lookupGetter__"
                          || name == "__lookupSetter__"))
  {
    var kits := [Kit(true, [name], false)];
    EquippedIff(kits, known);
    assert Found(kits, known, 1)[0].equipped <==> First(kits, known, 0, name) by {
      if First(kits, known, 0, name) {
        assert name in kits[0].slots;
      }
    }
  }

  // ---------------------------------------------------------------- conflicts

  ghost predicate Clash(kits: seq<Kit>, known: seq<string>, i: nat, j: nat, slot: string) {
    && i < j < |kits| && kits[i].equipped && kits[j].equipped
    && Known(known, slot) && slot in kits[i].slots && slot in kits[j].slots
  }

  /** Two equipped items name one known slot. */
  ghost predicate Conflict(kits: seq<Kit>, known: seq<string>) {
    exists i: nat, j: nat, slot :: Clash(kits, known, i, j, slot)
  }

  /** An item that gets one of its slots although another of them, a known one, is claimed already. */
  ghost predicate Overlaps(kits: seq<Kit>, known: seq<string>, j: nat)
    requires j < |kits|
  {
    && kits[j].apparel
    && (exists slot :: slot in kits[j].slots && First(kits, known, j, slot))
    && (exists slot :: slot in kits[j].slots && Known(known, slot) && Claimed(kits, j, slot))
  }

  /** The comment promises that conflicting items do not equip. An item equips as soon as one slot is
      free, so that holds exactly if no item has both a slot that it gets and a known one that an earlier
      item has claimed. */
  lemma ConflictIff(kits: seq<Kit>, known: seq<string>)
    requires NoneEquipped(kits)
    ensures Conflict(Found(kits, known, |kits|), known) <==> exists j :: 0 <= j < |kits| && Overlaps(kits, known, j)
  {
    if Conflict(Found(kits, known, |kits|), known) {
      var i: nat, j: nat, slot :| Clash(Found(kits, known, |kits|), known, i, j, slot);
      ClashOverlaps(kits, known, i, j, slot);
    }
    if j :| 0 <= j < |kits| && Overlaps(kits, known, j) {
      OverlapClashes(kits, known, j);
    }
  }

  /** That does happen: of two items, the second gets a slot of its own and shares the other. */
  lemma ConflictHappens()
    ensures var kits := [Kit(true, ["head"], false), Kit(true, ["head", "feet"], false)];
            var known := ["head", "feet"];
            NoneEquipped(kits) && Conflict(Found(kits, known, |kits|), known)
  {
    var kits := [Kit(true, ["head"], false), Kit(true, ["head", "feet"], false)];
    var known := ["head", "feet"];
    assert "head" in kits[0].slots && "head" in kits[1].slots && "feet" in kits[1].slots;
    assert Known(known, "head") && Known(known, "feet") by {
      assert "head" in known && "feet" in known && |"head"| != |"__proto__"| && |"feet"| != |"__proto__"|;
    }
    assert Claimed(kits, 1, "head");
    assert "head"[0] != "feet"[0];
    assert First(kits, known, 1, "feet");
    assert Overlaps(kits, known, 1);
    ConflictIff(kits, known);
  }

  lemma ClashOverlaps(kits: seq<Kit>, known: seq<string>, i: nat, j: nat, slot: string)
    requires NoneEquipped(kits) && Clash(Found(kits, known, |kits|), known, i, j, slot)
    ensures Overlaps(kits, known, j)
  {
    EquippedIff(kits, known);
    FoundIs(kits, known, |kits|);
    assert kits[i].apparel && slot in kits[i].slots;
    assert Claimed(kits, j, slot);
  }

  lemma OverlapClashes(kits: seq<Kit>, known: seq<string>, j: nat)
    requires NoneEquipped(kits) && j < |kits| && Overlaps(kits, known, j)
    ensures Conflict(Found(kits, known, |kits|), known)
  {
    EquippedIff(kits, known);
    FoundIs(kits, known, |kits|);
    var slot :| slot in kits[j].slots && Known(known, slot) && Claimed(kits, j, slot);
    var i := FirstClaim(kits, j, slot);
    assert Clash(Found(kits, known, |kits|), known, i, j, slot);
  }

  // ---------------------------------------------------------------- the inventory

  class Item {
    const apparel: bool
    const slots: seq<string>
    var equipped: bool

    constructor (apparel: bool, slots: seq<string>)
      ensures this.apparel == apparel && this.slots == slots && !equipped
    {
      this.apparel, this.slots, equipped := apparel, slots, false;
    }
  }

  class Inventory {
    const items: seq<Item>
    const defaults: seq<string>  // the slots of the appearance

    /** Every item is an object of its own. */
    ghost predicate Valid() {
      forall i, j | 0 <= i < j < |items| :: items[i] != items[j]
    }

    constructor (items: seq<Item>, defaults: seq<string>)
      requires forall i, j | 0 <= i < j < |items| :: items[i] != items[j]
      ensures Valid() && this.items == items && this.defaults == defaults
    {
      this.items, this.defaults := items, defaults;
    }

    ghost function Kits(): (kits: seq<Kit>)
      reads items
      ensures |kits| == |items|
      ensures forall i | 0 <= i < |items| :: kits[i] == Kit(items[i].apparel, items[i].slots, items[i].equipped)
    {
      seq(|items|, i requires 0 <= i < |items| reads items => Kit(items[i].apparel, items[i].slots, items[i].equipped))
    }

    /** `equipped`: for each known slot, whether it is taken. */
    method Equipped() returns (states: map<string, bool>)
      ensures forall slot :: slot in states <==> Known(defaults, slot)
      ensures forall slot | Known(defaults, slot) :: states[slot] <==> Taken(Kits(), slot)
    {
      states := map[];
      for i := 0 to |defaults|
        invariant forall slot :: slot in states <==> Known(defaults[..i], slot)
        invariant forall slot | slot in states :: !states[slot]
      {
        if defaults[i] != "__proto__" {
          states := states[defaults[i] := false];
        }
      }
      assert defaults[..|defaults|] == defaults;
      for i := 0 to |items|
        invariant forall slot :: slot in states <==> Known(defaults, slot)
        invariant forall slot | Known(defaults, slot) :: states[slot] <==> TakenBefore(i, slot)
      {
        states := CollectItem(i, states);
      }
      assert forall slot :: TakenBefore(|items|, slot) <==> Taken(Kits(), slot) by {
        forall slot ensures TakenBefore(|items|, slot) <==> Taken(Kits(), slot) {
          if Taken(Kits(), slot) {
            var i :| 0 <= i < |items| && Kits()[i].equipped && slot in Kits()[i].slots;
            assert items[i].equipped && slot in items[i].slots;
          }
          if TakenBefore(|items|, slot) {
            var i :| 0 <= i < |items| && items[i].equipped && slot in items[i].slots;
            assert Kits()[i].equipped && slot in Kits()[i].slots;
          }
        }
      }
    }

    ghost predicate TakenBefore(n: nat, slot: string)
      reads items
    {
      exists i :: 0 <= i < n && i < |items| && items[i].equipped && slot in items[i].slots
    }

    /** The loop over the slots of one item. */
    method CollectItem(i: nat, before: map<string, bool>) returns (states: map<string, bool>)
      requires i < |items|
      requires forall slot :: slot in before <==> Known(defaults, slot)
      requires forall slot | Known(defaults, slot) :: before[slot] <==> TakenBefore(i, slot)
      ensures forall slot :: slot in states <==> Known(defaults, slot)
      ensures forall slot | Known(defaults, slot) :: states[slot] <==> TakenBefore(i + 1, slot)
    {
      states := before;
      var item := items[i];
      for k := 0 to |item.slots|
        invariant forall slot :: slot in states <==> Known(defaults, slot)
        invariant forall slot | Known(defaults, slot) ::
                    states[slot] <==> before[slot] || (item.equipped && slot in item.slots[..k])
      {
        var slotName := item.slots[k];
        if slotName in states && !states[slotName] {
          if item.equipped {
            states := states[slotName := true];
          }
        }
      }
      assert item.slots[..|item.slots|] == item.slots;
      forall slot ensures TakenBefore(i + 1, slot) <==> TakenBefore(i, slot) || (item.equipped && slot in item.slots) {
        if item.equipped && slot in item.slots {
          assert items[i].equipped && slot in items[i].slots;
        }
      }
    }

    /** `equip`; `equipped` is asked anew for each slot. */
    method EquipItem(i: nat)
      requires Valid() && i < |items|
      modifies items[i]
      ensures Kits() == Equip(old(Kits()), defaults, i)
    {
      var item := items[i];
      ghost var before := Kits();
      for k := 0 to |item.slots|
        invariant forall j | 0 <= j < |items| && j != i :: items[j].equipped == before[j].equipped
        invariant item.equipped <==> before[i].equipped || HasOpen(before, defaults, item.slots[..k])
        invariant Kits() == before || (item.equipped && HasOpen(before, defaults, item.slots[..k]))
      {
        ghost var slotName := item.slots[k];
        var states := Equipped();
        if (if item.slots[k] in states then !states[item.slots[k]] else item.slots[k] !in INHERITED) {
          if Kits() == before {
            assert Open(before, defaults, slotName);
          }
          assert HasOpen(before, defaults, item.slots[..k + 1]) by {
            if Kits() == before {
              assert slotName in item.slots[..k + 1] && Open(before, defaults, slotName);
            } else {
              var s :| s in item.slots[..k] && Open(before, defaults, s);
              assert s in item.slots[..k + 1];
            }
          }
          item.equipped := true;
        } else {
          assert Known(defaults, slotName) ==> Taken(Kits(), slotName);
        }
      }
    }

    /** `findEquipment`: of the items, none equipped before, those that are the first to claim a slot. */
    method FindEquipment()
      requires Valid()
      modifies items
      ensures Kits() == Found(old(Kits()), defaults, |items|)
    {
      ghost var kits := Kits();
      for i := 0 to |items|
        invariant Kits() == Found(kits, defaults, i)
      {
        FoundIs(kits, defaults, i);
        if items[i].apparel {
          EquipItem(i);
        }
      }
    }
  }
}
