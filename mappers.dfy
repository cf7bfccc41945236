/**
 * The loadout optimizer's data-mapping layer (src/app/loadout-builder/process/mappers.ts):
 * locked mods and inventory items are turned into the compact "process" records the
 * optimizer works on, the locked mods' stat bonuses are totalled per stat type, and a
 * processed armor set is hydrated back into full items.
 *
 * The game-data lookups the mappers call are not part of this model; they are passed in:
 * the raid and known plug-category hash lists, the plug-category-to-tag lookup, the
 * stat-hash-to-stat-type table, and the result of the item's specialty-socket metadata lookup.
 */
module Mappers {
  import opened Wrappers
  import opened Sums

  // ---------------------------------------------------------------------------
  // Mods

  /** `plug.energyCost` of a mod definition. `energyType` is a DestinyEnergyType value. */
  datatype EnergyCost = EnergyCost(energyType: int, energyCost: int)

  /** One entry of `investmentStats`: a stat hash and the amount the mod adds to it. */
  datatype InvestmentStat = InvestmentStat(statTypeHash: int, value: int)

  datatype Plug = Plug(plugCategoryHash: int, energyCost: Option<EnergyCost>)

  datatype ModDef = ModDef(hash: int, plug: Plug, investmentStats: seq<InvestmentStat>)

  /** A mod the player has locked to a slot. */
  datatype LockedMod = LockedMod(modDef: ModDef)

  /**
   * A `LockedModMap`, as the sequence `Object.values` yields: one entry per slot key,
   * each either a list of mods or `undefined`.
   */
  type LockedModMap = seq<Option<seq<LockedMod>>>

  datatype ModEnergy = ModEnergy(energyType: int, val: int)

  /** The optimizer's view of a mod. `tag` is a mod-type tag such as a raid or season name. */
  datatype ProcessMod = ProcessMod(
    hash: int,
    plugCategoryHash: int,
    energy: Option<ModEnergy>,
    investmentStats: seq<InvestmentStat>,
    tag: Option<string>)

  /**
   * `mapArmor2ModToProcessMod`: copy the mod's fields, and look up a tag only for mods
   * whose plug category is a raid category or is not one of the known categories.
   */
  function MapArmor2ModToProcessMod(
    mod: LockedMod,
    raidPlugCategoryHashes: seq<int>,
    knownModPlugCategoryHashes: seq<int>,
    modTypeTagOf: int -> Option<string>): (r: ProcessMod)
    ensures r.hash == mod.modDef.hash
    ensures r.plugCategoryHash == mod.modDef.plug.plugCategoryHash
    ensures r.investmentStats == mod.modDef.investmentStats
    ensures r.energy.Some? <==> mod.modDef.plug.energyCost.Some?
    ensures mod.modDef.plug.energyCost.Some? ==>
      r.energy.value == ModEnergy(mod.modDef.plug.energyCost.value.energyType,
                                  mod.modDef.plug.energyCost.value.energyCost)
    ensures (r.plugCategoryHash in raidPlugCategoryHashes || r.plugCategoryHash !in knownModPlugCategoryHashes)
      ==> r.tag == modTypeTagOf(r.plugCategoryHash)
    ensures (r.plugCategoryHash !in raidPlugCategoryHashes && r.plugCategoryHash in knownModPlugCategoryHashes)
      ==> r.tag == None
  {
    var plug := mod.modDef.plug;
    var energy := match plug.energyCost
      case Some(cost) => Some(ModEnergy(cost.energyType, cost.energyCost))
      case None => None;
    var processMod := ProcessMod(mod.modDef.hash, plug.plugCategoryHash, energy, mod.modDef.investmentStats, None);
    if processMod.plugCategoryHash in raidPlugCategoryHashes || processMod.plugCategoryHash !in knownModPlugCategoryHashes
    then processMod.(tag := modTypeTagOf(plug.plugCategoryHash))
    else processMod
  }

  // ---------------------------------------------------------------------------
  // Stat totals of the locked mods

  datatype StatType = Mobility | Recovery | Resilience | Intellect | Discipline | Strength

  /** A table with one number per stat type, as the `{ [stat in StatTypes]: number }` records of the source. */
  datatype StatTotals = StatTotals(
    mobility: int, recovery: int, resilience: int, intellect: int, discipline: int, strength: int)
  {
    function Get(t: StatType): int
    {
      match t
      case Mobility => mobility
      case Recovery => recovery
      case Resilience => resilience
      case Intellect => intellect
      case Discipline => discipline
      case Strength => strength
    }

    /** `totals[t] += v`. */
    function Add(t: StatType, v: int): (r: StatTotals)
      ensures r.Get(t) == Get(t) + v
      ensures forall u :: u != t ==> r.Get(u) == Get(u)
    {
      match t
      case Mobility => this.(mobility := mobility + v)
      case Recovery => this.(recovery := recovery + v)
      case Resilience => this.(resilience := resilience + v)
      case Intellect => this.(intellect := intellect + v)
      case Discipline => this.(discipline := discipline + v)
      case Strength => this.(strength := strength + v)
    }
  }

  /** What one investment stat adds to the total of `t`: its value if its hash maps to `t`, else nothing. */
  function StatContribution(statHashToType: map<int, StatType>, t: StatType): InvestmentStat -> int
  {
    (stat: InvestmentStat) => if stat.statTypeHash in statHashToType && statHashToType[stat.statTypeHash] == t then stat.value else 0
  }

  /** What one locked mod adds to the total of `t`. */
  function ModStat(statHashToType: map<int, StatType>, t: StatType): LockedMod -> int
  {
    (mod: LockedMod) => SumBy(mod.modDef.investmentStats, StatContribution(statHashToType, t))
  }

  /** The mods of one slot entry, an absent list read as empty (`mods || []`). */
  function SlotMods(slot: Option<seq<LockedMod>>): seq<LockedMod>
  {
    slot.GetOr([])
  }

  /** What the mods of one slot add to the total of `t`. */
  function SlotStat(statHashToType: map<int, StatType>, t: StatType): Option<seq<LockedMod>> -> int
  {
    (slot: Option<seq<LockedMod>>) => SumBy(SlotMods(slot), ModStat(statHashToType, t))
  }

  /** Every locked mod of every slot, slot after slot. */
  function AllMods(lockedMods: LockedModMap): (r: seq<LockedMod>)
  {
    if |lockedMods| == 0 then []
    else AllMods(lockedMods[..|lockedMods| - 1]) + SlotMods(lockedMods[|lockedMods| - 1])
  }

  /** Summing slot by slot is summing over all the mods of all the slots. */
  lemma {:induction false} SlotTotalsFlatten(lockedMods: LockedModMap, statHashToType: map<int, StatType>, t: StatType)
    ensures SumBy(lockedMods, SlotStat(statHashToType, t)) == SumBy(AllMods(lockedMods), ModStat(statHashToType, t))
  {
    if |lockedMods| > 0 {
      var rest := lockedMods[..|lockedMods| - 1];
      SlotTotalsFlatten(rest, statHashToType, t);
      SumByAppend(AllMods(rest), SlotMods(lockedMods[|lockedMods| - 1]), ModStat(statHashToType, t));
    }
  }

  /** `totals` is `base` plus, for each stat type, what the investment stats `stats` add to it. */
  ghost predicate StatsAdded(
    totals: StatTotals, base: StatTotals, stats: seq<InvestmentStat>, statHashToType: map<int, StatType>)
  {
    forall t :: totals.Get(t) == base.Get(t) + SumBy(stats, StatContribution(statHashToType, t))
  }

  /** `totals` is `base` plus, for each stat type, what the mods `mods` add to it. */
  ghost predicate ModsAdded(
    totals: StatTotals, base: StatTotals, mods: seq<LockedMod>, statHashToType: map<int, StatType>)
  {
    forall t :: totals.Get(t) == base.Get(t) + SumBy(mods, ModStat(statHashToType, t))
  }

  /** `totals` holds, for each stat type, what the mods of the slots `slots` add to it. */
  ghost predicate SlotsAdded(totals: StatTotals, slots: LockedModMap, statHashToType: map<int, StatType>)
  {
    forall t :: totals.Get(t) == SumBy(slots, SlotStat(statHashToType, t))
  }

  /** Adding the next investment stat to the total of its type, if it has one, extends StatsAdded by that stat. */
  lemma StatStep(
    totals: StatTotals, next: StatTotals, base: StatTotals,
    stats: seq<InvestmentStat>, k: int, statHashToType: map<int, StatType>)
    requires 0 <= k < |stats| && StatsAdded(totals, base, stats[..k], statHashToType)
    requires stats[k].statTypeHash in statHashToType ==>
      next == totals.Add(statHashToType[stats[k].statTypeHash], stats[k].value)
    requires stats[k].statTypeHash !in statHashToType ==> next == totals
    ensures StatsAdded(next, base, stats[..k + 1], statHashToType)
  {
    forall t: StatType ensures next.Get(t) == base.Get(t) + SumBy(stats[..k + 1], StatContribution(statHashToType, t)) {
      SumByStep(stats, k, StatContribution(statHashToType, t));
    }
  }

  /** Having added all stats of the next mod extends ModsAdded by that mod. */
  lemma ModStep(
    totals: StatTotals, beforeMod: StatTotals, base: StatTotals,
    mods: seq<LockedMod>, j: int, statHashToType: map<int, StatType>)
    requires 0 <= j < |mods| && ModsAdded(beforeMod, base, mods[..j], statHashToType)
    requires StatsAdded(totals, beforeMod, mods[j].modDef.investmentStats, statHashToType)
    ensures ModsAdded(totals, base, mods[..j + 1], statHashToType)
  {
    forall t: StatType ensures totals.Get(t) == base.Get(t) + SumBy(mods[..j + 1], ModStat(statHashToType, t)) {
      SumByStep(mods, j, ModStat(statHashToType, t));
    }
  }

  /** Having added all mods of the next slot extends SlotsAdded by that slot. */
  lemma SlotStep(
    totals: StatTotals, beforeSlot: StatTotals, slots: LockedModMap, i: int, statHashToType: map<int, StatType>)
    requires 0 <= i < |slots| && SlotsAdded(beforeSlot, slots[..i], statHashToType)
    requires ModsAdded(totals, beforeSlot, SlotMods(slots[i]), statHashToType)
    ensures SlotsAdded(totals, slots[..i + 1], statHashToType)
  {
    forall t: StatType ensures totals.Get(t) == SumBy(slots[..i + 1], SlotStat(statHashToType, t)) {
      SumByStep(slots, i, SlotStat(statHashToType, t));
    }
  }

  /**
   * `getTotalModStatChanges`: the six stat totals; each is the sum, over every investment
   * stat of every mod in every slot, of the values whose stat hash maps to that type.
   */
  method GetTotalModStatChanges(lockedMods: LockedModMap, statHashToType: map<int, StatType>)
    returns (totals: StatTotals)
    ensures forall t :: totals.Get(t) == SumBy(AllMods(lockedMods), ModStat(statHashToType, t))
    ensures AllMods(lockedMods) == [] ==> totals == StatTotals(0, 0, 0, 0, 0, 0)
  {
    totals := StatTotals(0, 0, 0, 0, 0, 0);
    for i := 0 to |lockedMods|
      invariant SlotsAdded(totals, lockedMods[..i], statHashToType)
    {
      var mods := SlotMods(lockedMods[i]);
      ghost var beforeSlot := totals;
      for j := 0 to |mods|
        invariant ModsAdded(totals, beforeSlot, mods[..j], statHashToType)
      {
        var stats := mods[j].modDef.investmentStats;
        ghost var beforeMod := totals;
        for k := 0 to |stats|
          invariant StatsAdded(totals, beforeMod, stats[..k], statHashToType)
        {
          var stat := stats[k];
          ghost var beforeStat := totals;
          if stat.statTypeHash in statHashToType {
            var statType := statHashToType[stat.statTypeHash];
            totals := totals.Add(statType, stat.value);
          }
          StatStep(beforeStat, totals, beforeMod, stats, k, statHashToType);
        }
        assert stats[..|stats|] == stats;
        ModStep(totals, beforeMod, beforeSlot, mods, j, statHashToType);
      }
      assert mods[..|mods|] == mods;
      SlotStep(totals, beforeSlot, lockedMods, i, statHashToType);
    }
    assert lockedMods[..|lockedMods|] == lockedMods;
    forall t: StatType ensures totals.Get(t) == SumBy(AllMods(lockedMods), ModStat(statHashToType, t)) {
      SlotTotalsFlatten(lockedMods, statHashToType, t);
    }
    if AllMods(lockedMods) == [] {
      assert totals.Get(Mobility) == totals.Get(Recovery) == totals.Get(Resilience) == 0;
      assert totals.Get(Intellect) == totals.Get(Discipline) == totals.Get(Strength) == 0;
    }
  }

  /** The totals depend only on which mods are locked, not on their order or on the slots holding them. */
  lemma ModStatTotalsOrderIndependent(a: LockedModMap, b: LockedModMap, statHashToType: map<int, StatType>)
    requires multiset(AllMods(a)) == multiset(AllMods(b))
    ensures forall t :: SumBy(AllMods(a), ModStat(statHashToType, t)) == SumBy(AllMods(b), ModStat(statHashToType, t))
  {
    forall t: StatType {
      SumByPermutation(AllMods(a), AllMods(b), ModStat(statHashToType, t));
    }
  }

  /** An investment stat whose hash has a stat type. */
  function Recognised(statHashToType: map<int, StatType>): InvestmentStat -> bool
  {
    (stat: InvestmentStat) => stat.statTypeHash in statHashToType
  }

  /** Investment stats with an unrecognised stat hash add nothing to any total. */
  lemma UnrecognisedStatsIgnored(stats: seq<InvestmentStat>, statHashToType: map<int, StatType>, t: StatType)
    ensures SumBy(stats, StatContribution(statHashToType, t))
         == SumBy(Filter(stats, Recognised(statHashToType)), StatContribution(statHashToType, t))
  {
    SumByFilter(stats, Recognised(statHashToType), StatContribution(statHashToType, t));
  }

  // ---------------------------------------------------------------------------
  // Items

  datatype InventoryBucket = InventoryBucket(hash: int)

  /** One entry of an item's `stats`: the stat hash and its value before mods. */
  datatype DimStat = DimStat(statHash: int, base: int)

  /** An item's `energy`: its DestinyEnergyType and its capacity. */
  datatype DimEnergy = DimEnergy(energyType: int, energyCapacity: int)

  /** The fields of an inventory item that the mapper reads. */
  datatype DimItem = DimItem(
    bucket: InventoryBucket,
    id: string,
    itemType: string,
    name: string,
    equippingLabel: Option<string>,
    basePower: int,
    stats: Option<seq<DimStat>>,
    energy: Option<DimEnergy>)

  /** Specialty-socket metadata of an item: the socket's tag and the mod tags it accepts. */
  datatype ModSocketMetadata = ModSocketMetadata(slotTag: string, compatibleModTags: seq<string>)

  datatype ItemEnergy = ItemEnergy(energyType: int, capacity: int, val: int)

  /** The optimizer's view of an item. */
  datatype ProcessItem = ProcessItem(
    bucketHash: int,
    id: string,
    itemType: string,
    name: string,
    equippingLabel: Option<string>,
    basePower: int,
    baseStats: map<int, int>,
    energy: Option<ItemEnergy>,
    compatibleModSeasons: Option<seq<string>>,
    hasLegacyModSocket: bool)

  /** `mod.modDef.plug.energyCost?.energyCost || 0`: a mod without an energy cost counts 0. */
  function ModEnergyCost(mod: LockedMod): (r: int)
    ensures mod.modDef.plug.energyCost.None? ==> r == 0
    ensures mod.modDef.plug.energyCost.Some? ==> r == mod.modDef.plug.energyCost.value.energyCost
  {
    match mod.modDef.plug.energyCost
    case Some(cost) => cost.energyCost
    case None => 0
  }

  /** The energy the slot's mods take: `_.sumBy` of their costs, 0 when there is no mod list. */
  function ModsCost(modsForSlot: Option<seq<LockedMod>>): (r: int)
    ensures modsForSlot.None? ==> r == 0
    ensures modsForSlot.Some? && |modsForSlot.value| == 0 ==> r == 0
  {
    match modsForSlot
    case Some(mods) => SumBy(mods, ModEnergyCost)
    case None => 0
  }

  function HasEnergyCost(mod: LockedMod): bool
  {
    mod.modDef.plug.energyCost.Some?
  }

  /** Mods without an energy cost do not change the slot's cost. */
  lemma ModsCostIgnoresCostlessMods(mods: seq<LockedMod>)
    ensures ModsCost(Some(mods)) == ModsCost(Some(Filter(mods, HasEnergyCost)))
  {
    SumByFilter(mods, HasEnergyCost, ModEnergyCost);
  }

  /** The slot's cost does not depend on the order of its mods. */
  lemma ModsCostOrderIndependent(a: seq<LockedMod>, b: seq<LockedMod>)
    requires multiset(a) == multiset(b)
    ensures ModsCost(Some(a)) == ModsCost(Some(b))
  {
    SumByPermutation(a, b, ModEnergyCost);
  }

  /** The cost of two groups of mods together is the sum of their costs. */
  lemma ModsCostAppend(a: seq<LockedMod>, b: seq<LockedMod>)
    ensures ModsCost(Some(a + b)) == ModsCost(Some(a)) + ModsCost(Some(b))
  {
    SumByAppend(a, b, ModEnergyCost);
  }

  /** `metadatas.flatMap((m) => m.compatibleModTags)`: every entry's tags, entry after entry. */
  function CompatibleModTags(metadatas: seq<ModSocketMetadata>): (r: seq<string>)
    ensures forall tag :: tag in r <==> exists i :: 0 <= i < |metadatas| && tag in metadatas[i].compatibleModTags
  {
    if |metadatas| == 0 then []
    else
      var rest := CompatibleModTags(metadatas[..|metadatas| - 1]);
      assert forall i :: 0 <= i < |metadatas| - 1 ==> metadatas[..|metadatas| - 1][i] == metadatas[i];
      rest + metadatas[|metadatas| - 1].compatibleModTags
  }

  /** Flattening keeps the entries' order: the tags of `a + b` are those of `a`, then those of `b`. */
  lemma {:induction false} CompatibleModTagsAppend(a: seq<ModSocketMetadata>, b: seq<ModSocketMetadata>)
    ensures CompatibleModTags(a + b) == CompatibleModTags(a) + CompatibleModTags(b)
    decreases |b|
  {
    if |b| == 0 {
      assert a + b == a;
    } else {
      var b' := b[..|b| - 1];
      assert (a + b)[..|a + b| - 1] == a + b';
      CompatibleModTagsAppend(a, b');
    }
  }

  /** `metadatas.some((m) => m.slotTag === 'legacy')`, scanning from the first entry. */
  function HasLegacySlot(metadatas: seq<ModSocketMetadata>): (b: bool)
    ensures b <==> exists i :: 0 <= i < |metadatas| && metadatas[i].slotTag == "legacy"
  {
    if |metadatas| == 0 then false
    else if metadatas[0].slotTag == "legacy" then true
    else
      var b := HasLegacySlot(metadatas[1..]);
      assert forall i :: 1 <= i < |metadatas| ==> metadatas[1..][i - 1] == metadatas[i];
      b
  }

  /** The stat at index `i` is the last one with its hash. */
  predicate LastWithHash(stats: seq<DimStat>, i: int)
    requires 0 <= i < |stats|
  {
    forall j :: i < j < |stats| ==> stats[j].statHash != stats[i].statHash
  }

  /**
   * `mapDimItemToProcessItem`: copy the item's identity, build the base-stat map (the
   * last entry for a hash wins), attach the energy with the slot's mod cost, and derive
   * the season tags and the legacy-socket flag from the item's specialty-socket metadata.
   * `modMetadatas` is what `getSpecialtySocketMetadatas(dimItem)` returns for the item.
   */
  method MapDimItemToProcessItem(
    item: DimItem,
    modsForSlot: Option<seq<LockedMod>>,
    modMetadatas: Option<seq<ModSocketMetadata>>)
    returns (p: ProcessItem)
    ensures p.bucketHash == item.bucket.hash && p.id == item.id && p.itemType == item.itemType
    ensures p.name == item.name && p.equippingLabel == item.equippingLabel && p.basePower == item.basePower
    ensures item.stats.None? ==> p.baseStats == map[]
    ensures item.stats.Some? ==>
      var stats := item.stats.value;
      && p.baseStats.Keys == (set i | 0 <= i < |stats| :: stats[i].statHash)
      && forall i :: 0 <= i < |stats| && LastWithHash(stats, i) ==> p.baseStats[stats[i].statHash] == stats[i].base
    ensures p.energy.Some? <==> item.energy.Some?
    ensures item.energy.Some? ==>
      p.energy.value == ItemEnergy(item.energy.value.energyType, item.energy.value.energyCapacity, ModsCost(modsForSlot))
    ensures p.compatibleModSeasons.Some? <==> modMetadatas.Some?
    ensures modMetadatas.Some? ==> p.compatibleModSeasons.value == CompatibleModTags(modMetadatas.value)
    ensures p.hasLegacyModSocket <==>
      modMetadatas.Some? && exists i :: 0 <= i < |modMetadatas.value| && modMetadatas.value[i].slotTag == "legacy"
  {
    var baseStatMap: map<int, int> := map[];
    if item.stats.Some? {
      var stats := item.stats.value;
      for i := 0 to |stats|
        invariant baseStatMap.Keys == (set j | 0 <= j < i :: stats[j].statHash)
        invariant forall j :: 0 <= j < i && LastWithHash(stats[..i], j) ==> baseStatMap[stats[j].statHash] == stats[j].base
      {
        baseStatMap := baseStatMap[stats[i].statHash := stats[i].base];
        forall j | 0 <= j < i + 1 && LastWithHash(stats[..i + 1], j)
          ensures baseStatMap[stats[j].statHash] == stats[j].base
        {
          if j < i {
            assert LastWithHash(stats[..i], j);
          }
        }
      }
      assert stats[..|stats|] == stats;
    }

    var modsCost := ModsCost(modsForSlot);

    var energy := match item.energy
      case Some(e) => Some(ItemEnergy(e.energyType, e.energyCapacity, modsCost))
      case None => None;
    var seasons := match modMetadatas
      case Some(m) => Some(CompatibleModTags(m))
      case None => None;
    var legacy := match modMetadatas
      case Some(m) => HasLegacySlot(m)
      case None => false;
    p := ProcessItem(item.bucket.hash, item.id, item.itemType, item.name, item.equippingLabel, item.basePower,
                     baseStatMap, energy, seasons, legacy);
  }

  // ---------------------------------------------------------------------------
  // Hydration

  /** A processed armor set: one item id per slot and the set's stat totals. */
  datatype ProcessArmorSet = ProcessArmorSet(armor: seq<string>, stats: StatTotals)

  /** A hydrated armor set: for each slot, the items that share the slot's id. */
  datatype ArmorSet = ArmorSet(armor: seq<seq<DimItem>>, stats: StatTotals)

  /**
   * `hydrateArmorSet`: look each id up in order and pass the stats through. The source
   * asserts (`!`) that every id is a key of `itemsById`; that is this method's precondition.
   */
  method HydrateArmorSet(processed: ProcessArmorSet, itemsById: map<string, seq<DimItem>>) returns (r: ArmorSet)
    requires forall i :: 0 <= i < |processed.armor| ==> processed.armor[i] in itemsById
    ensures |r.armor| == |processed.armor|
    ensures forall i :: 0 <= i < |r.armor| ==> r.armor[i] == itemsById[processed.armor[i]]
    ensures r.stats == processed.stats
  {
    var armor: seq<seq<DimItem>> := [];
    for i := 0 to |processed.armor|
      invariant |armor| == i
      invariant forall j :: 0 <= j < i ==> armor[j] == itemsById[processed.armor[j]]
    {
      armor := armor + [itemsById[processed.armor[i]]];
    }
    r := ArmorSet(armor, processed.stats);
  }

  /** The id of each slot's first item. */
  function FirstIds(armor: seq<seq<DimItem>>): (ids: seq<string>)
    requires forall i :: 0 <= i < |armor| ==> |armor[i]| > 0
    ensures |ids| == |armor|
  {
    if |armor| == 0 then [] else [armor[0][0].id] + FirstIds(armor[1..])
  }

  /**
   * Hydration round trip: when each id's item list starts with an item of that id, reading
   * the first item's id back out of every slot gives the processed ids again, in order.
   */
  lemma {:induction false} HydrationRoundTrip(
    ids: seq<string>,
    itemsById: map<string, seq<DimItem>>,
    armor: seq<seq<DimItem>>)
    requires forall i :: 0 <= i < |ids| ==> ids[i] in itemsById && |itemsById[ids[i]]| > 0 && itemsById[ids[i]][0].id == ids[i]
    requires |armor| == |ids| && forall i :: 0 <= i < |armor| ==> armor[i] == itemsById[ids[i]]
    ensures FirstIds(armor) == ids
  {
    if |ids| > 0 {
      HydrationRoundTrip(ids[1..], itemsById, armor[1..]);
    }
  }
}
