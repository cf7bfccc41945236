# DIM loadout optimizer mappers and phone store header, in Dafny

This project models two small parts of DIM, a browser companion app for managing an inventory in a multiplayer game.

**The loadout optimizer's data-mapping layer** (`src/app/loadout-builder/process/mappers.ts`, module `Mappers`):
- `mapArmor2ModToProcessMod` turns a locked mod into the optimizer's compact "process mod". It copies the hash, plug category, energy cost and investment stats. It asks the tag lookup for a tag only when the plug category is a raid category or is not a known category.
- `getTotalModStatChanges` totals, for each of the six stat types (Mobility, Recovery, Resilience, Intellect, Discipline, Strength), what every locked mod in every slot adds. Stat hashes with no stat type are skipped.
- `mapDimItemToProcessItem` turns an inventory item into a "process item". It builds the base-stat map (the last entry for a hash wins), attaches the energy with the cost of the slot's mods (a mod with no cost counts 0), and reads the season tags and the legacy-socket flag from the item's specialty-socket metadata.
- `hydrateArmorSet` turns a processed set of item ids back into the full item lists, in order, and passes the stats through.

lodash's `_.sumBy` is modelled as an ordinary sequence sum, `Sums.SumBy`. The proofs use its append, permutation and filter lemmas.

**The swipeable store header of the phone inventory view** (`src/app/inventory/PhoneStoresHeader.tsx`, module `PhoneStoresHeader`):
- `wrap` brings an index into `[0, length)` with two loops.
- The header shows five stores: two before the selected one, the selected one, and two after, wrapping around the ends.
- `onIndexChanged` picks the store reached by a swipe.
- The animation effect corrects the step direction when the selection wraps from the first store to the last, or from the last to the first.

The game-data lookups that the mappers call are defined in files that are not part of this model, so they are parameters here:
- `raidPlugCategoryHashes` and `knownModPlugCategoryHashes`: sequences, tested with `in` (the source uses `includes`);
- `getModTypeTagByPlugCategoryHash`: a function `int -> Option<string>`;
- `statHashToType`: a map from stat hash to `StatType`;
- `getSpecialtySocketMetadatas(dimItem)`: its result, an optional list of metadata entries, is a parameter of `MapDimItemToProcessItem`.

The six-entry stat tables of the source (`{ [stat in StatTypes]: number }`) are a record with one field per stat type, `Mappers.StatTotals`. A `LockedModMap` is modelled as the sequence that `Object.values` yields for it. Each entry is a list of mods or `undefined`. `Mappers.ModStatTotalsOrderIndependent` shows that the totals do not depend on that order.

Points where the code's behaviour is easy to misread, and what the model does:

- `compatibleModSeasons` is `undefined?.flatMap(...)` when the item has no specialty-socket metadata. That is `undefined`, not an empty list, so the model's field is an `Option` that is `None` in that case.
- `itemsById.get(itemId)!` is only a TypeScript assertion and has no runtime check, so a missing id would push `undefined`. The model takes the assertion as `HydrateArmorSet`'s precondition: every id is a key of `itemsById`.
- The tag is whatever `getModTypeTagByPlugCategoryHash` returns, so the model does not promise that it is non-empty.

## Model

| member | source | states |
|---|---|---|
| `Mappers.MapArmor2ModToProcessMod` | src/app/loadout-builder/process/mappers.ts:18-37 | hash, plug category and investment stats are copied unchanged; `energy` is present iff the mod declares an energy cost, and then is `{type: energyType, val: energyCost}`; `tag` is the lookup's result iff the category is a raid category or not a known one, and is absent otherwise |
| `Mappers.StatTotals.Add` | src/app/loadout-builder/process/mappers.ts:59 | `totals[statType] += value` raises the total of that one stat type by `value` and leaves the other five unchanged |
| `Mappers.GetTotalModStatChanges` | src/app/loadout-builder/process/mappers.ts:44-66 | the result is a table with exactly one total for each of the six stat types; each total is the sum, over every mod of every slot, of the investment-stat values whose hash maps to that type; with no mods the table is all zeros |
| `Mappers.SlotTotalsFlatten` | src/app/loadout-builder/process/mappers.ts:54-63 | summing slot by slot (an `undefined` slot counts as empty) equals summing over the concatenation of all slots' mods |
| `Mappers.ModStatTotalsOrderIndependent` | src/app/loadout-builder/process/mappers.ts:54-63 | two locked-mod maps holding the same multiset of mods, in any order and any slots, give the same six totals |
| `Mappers.UnrecognisedStatsIgnored` | src/app/loadout-builder/process/mappers.ts:56-60 | a mod's contribution to a stat equals its contribution with every investment stat whose hash has no stat type removed |
| `Mappers.MapDimItemToProcessItem` | src/app/loadout-builder/process/mappers.ts:68-102 | bucket hash, id, type, name, equipping label and base power are copied; `baseStats` has exactly the reported stat hashes as keys, maps each to the `base` of the last entry with that hash, and is empty when `stats` is absent; `energy` is present iff the item has energy, with its type, its capacity and the slot's mod cost; `compatibleModSeasons` is present iff there is metadata and is then the in-order concatenation of the entries' tags; `hasLegacyModSocket` is true iff some metadata entry has slot tag `"legacy"` |
| `Mappers.ModEnergyCost` | src/app/loadout-builder/process/mappers.ts:81 | a mod's energy cost is its declared `energyCost`, and 0 when it declares none |
| `Mappers.ModsCost` | src/app/loadout-builder/process/mappers.ts:80-82 | 0 when there is no mod list (`modsForSlot ? ... : 0`) and when the list is empty; how the sum over a list behaves is stated by the three `ModsCost` lemmas below |
| `Sums.SumByAppend` | src/app/loadout-builder/process/mappers.ts:81 | `_.sumBy` of a concatenation is the sum of the two parts' sums |
| `Sums.SumByFilter` | src/app/loadout-builder/process/mappers.ts:81 | dropping the elements whose iteratee is 0 does not change `_.sumBy` |
| `Mappers.ModsCostIgnoresCostlessMods` | src/app/loadout-builder/process/mappers.ts:80-82 | the slot's mod cost is unchanged when the mods without an energy cost are dropped: they count 0 |
| `Mappers.ModsCostOrderIndependent` | src/app/loadout-builder/process/mappers.ts:80-82 | the slot's mod cost does not depend on the order of its mods |
| `Mappers.ModsCostAppend` | src/app/loadout-builder/process/mappers.ts:80-82 | the cost of two groups of mods together is the sum of their costs |
| `Mappers.CompatibleModTags` | src/app/loadout-builder/process/mappers.ts:99 | a tag is in the flattened list iff it is among some metadata entry's compatible mod tags |
| `Mappers.CompatibleModTagsAppend` | src/app/loadout-builder/process/mappers.ts:99 | flattening keeps entry order: the tags of `a + b` are the tags of `a` followed by those of `b` |
| `Mappers.HasLegacySlot` | src/app/loadout-builder/process/mappers.ts:100 | true iff some metadata entry has slot tag `"legacy"` |
| `Mappers.HydrateArmorSet` | src/app/loadout-builder/process/mappers.ts:104-118 | the hydrated armor has one entry per processed id, entry `i` is `itemsById[processed.armor[i]]`, and the stats are passed through unchanged |
| `Mappers.HydrationRoundTrip` | src/app/loadout-builder/process/mappers.ts:108-117 | when each id's item list starts with an item of that id, reading the first item's id from every hydrated slot gives back the processed ids, in order |
| `Sums.SumByPermutation` | src/app/loadout-builder/process/mappers.ts:81 | `_.sumBy` of a list depends only on the multiset of its elements |
| `PhoneStoresHeader.IndexOf` | src/app/inventory/PhoneStoresHeader.tsx:51 | `indexOf` gives -1 exactly when the store is absent, and otherwise the first position that holds it |
| `PhoneStoresHeader.Wrap` | src/app/inventory/PhoneStoresHeader.tsx:17-25 | for a positive length the result lies in `[0, length)`, equals `index mod length`, and is `index` itself when that is already in range |
| `PhoneStoresHeader.WrapNeverExits` | src/app/inventory/PhoneStoresHeader.tsx:18-23 | when `length <= 0`, the condition of whichever loop is running still holds after any number of iterations, so `wrap` never returns |
| `PhoneStoresHeader.Segments` | src/app/inventory/PhoneStoresHeader.tsx:121-125 | the window has exactly 5 entries; entry `k` is `stores[wrap(index - 2 + k, n)]`; the middle entry is the selected store when it is in the list, and the last store when it is not (`indexOf` gives -1) |
| `PhoneStoresHeader.OnIndexChanged` | src/app/inventory/PhoneStoresHeader.tsx:41-45 | the chosen id is that of the store at `wrap(originalIndex + index, n)`, that is `(originalIndex + index) mod n`; a swipe of 0 keeps the selected store |
| `PhoneStoresHeader.DirectionDiff` | src/app/inventory/PhoneStoresHeader.tsx:66-71 | the step is -1 after a jump of more than one forward from index 0, 1 after a jump of more than one backward from the last index, and `index - lastIndex` otherwise; with at least three stores, a move to either neighbour around the ring is a step of exactly +1 or -1 in the direction of the move |

## Left out

- I/O, timing and concurrency: none occur in the modelled code.
- The combination search, Pareto filtering, tiering and the process worker are not part of this model. Their code is in files the model does not cover.
- `src/app/loadout-builder/generated-sets/GeneratedSet.tsx` is a React rendering component. Its logic depends on helpers and services that are not part of this model.
- The bodies of `getSpecialtySocketMetadatas`, `getModTypeTagByPlugCategoryHash`, `statHashToType`, `raidPlugCategoryHashes` and `knownModPlugCategoryHashes`: they are defined in files outside this model, so they are parameters here.
- The parts of `PhoneStoresHeader.tsx` other than the index arithmetic: the framer-motion spring, the motion values and `animate`; the floating-point pan handlers (`clientWidth`, `Math.round`, `Math.sign`, the 0.05 swipe threshold); the pixel offset transform; the JSX.
- The side effects around the modelled pieces are left out: `hideItemPopup()` in `onIndexChanged`, and the `lastIndex.current = index` ref update in the effect. `setSelectedStoreId` is modelled as the returned id.
- JavaScript numbers are modelled as unbounded integers. Floating-point rounding, `NaN` and non-integer indices are not modelled.
- `indexOf` compares stores by reference in the source. The model compares `Store` values, so two distinct stores with equal ids would be the same store in the model.
- `Mappers.LockedMod` has only `modDef`, the one field the mappers read. A `DimItem` carries only the fields `mapDimItemToProcessItem` destructures.
- `Mappers.HydrateArmorSet` does not model what happens at runtime when an id is missing (an `undefined` entry), because the source asserts with `!` that this cannot happen.
- `PhoneStoresHeader.Wrap`, `Segments` and `OnIndexChanged` require at least one store, because `wrap` never terminates with length 0 (`WrapNeverExits`).
