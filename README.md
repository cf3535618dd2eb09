# Compute-and-cache kernel of the Dash long-running-operations demo

This project models, in Dafny, the core of a small Dash demo that computes
results for user-selected item addresses in the background and caches them:

- the **data model** (`datatypes.py`, `app_types.py`): item addresses, compute
  plans tagged with a batch id (or a data version), completion records,
  presentation configurations and polling snapshots, with their defaults;
- the **result cache** and **result store** (`result_cache.py`,
  `result_store.py`): a key-value map from the encoded key
  `C_{category}--I_{item_name}` to a result string, with get, set, has and
  clear; the cache empties itself when opened, the store does not;
- the **sequence counter** (`sequence_numbers.py`): a per-key counter that
  goes up by one on every call;
- the **callbacks** (`callbacks.py`), lifted out of Dash: the category
  dropdown, the item checklist, the resolver that splits a selection into
  what to present and what to compute, the runner that computes and stores
  each planned address while reporting cumulative progress, the view that
  renders one row per presented address, and the clear button.

The two process-wide singletons (the result cache and the sequence counter)
are objects passed to the callbacks. `dash.no_update` is `None` of an
`Option`, and each `set_progress` call appends a snapshot to a ghost sequence
returned by the runner.

The store is keyed by the encoded string, not by the (category, item) pair,
because the encoding is not injective: `("a--I_b", "c")` and `("a", "b--I_c")`
share the key `C_a--I_b--I_c`. The model proves this collision and also proves
that keys are injective when categories do not contain `--I_`, which holds
for every category of the demo inventory, and that within one category keys
are always injective, so a plan (whose addresses share one category) never
collides with itself. Both store classes use one
`MakeKey`, since `result_cache.py:26-27` and `result_store.py:23-24` encode
identically.

The resolver does not de-duplicate: a repeated selected item is planned
twice. The simulated computation cannot fail, so there is no batch-failure
path.

Files: `wrappers.dfy` (Option), `datatypes.dfy`, `app_types.dfy`,
`result_keys.dfy` (the shared key encoding and the map-level meaning of the
store operations), `result_cache.dfy`, `result_store.dfy`,
`sequence_numbers.dfy`, `inventory.dfy` (the inventory table and the
selection helpers), `callbacks.dfy`.

## Model

| member | source | states |
|---|---|---|
| DataTypes.ItemsToComputeDefaults | datatypes.py:10-13 | a plan built from a batch id alone has that id and an empty address list |
| DataTypes.ItemsComputedDefaults | datatypes.py:15-18 | a completion record built from a batch id alone has that id and an empty address list |
| DataTypes.PresentationConfigDefaults | datatypes.py:20-23 | the default configuration has text colour "black" and no addresses |
| DataTypes.ItemAddressValueEquality | datatypes.py:5-8 | two addresses are equal exactly when category and item name both are |
| DataTypes.DefaultListsAreNotShared | datatypes.py:10-23 | appending to one default-built plan's list leaves another default-built plan's list empty |
| AppTypes.ItemAddressValueEquality | app_types.py:4-7 | two addresses are equal exactly when category and item name both are |
| AppTypes.ItemsToComputeDefaults | app_types.py:9-12 | the default plan has data version -1 and no addresses |
| AppTypes.ItemsComputedDefaults | app_types.py:14-16 | the default completion record has no addresses and no tag |
| AppTypes.PresentationConfigDefaults | app_types.py:18-21 | the default configuration has text colour "black" and no addresses |
| AppTypes.ResultPollingStateDefaults | app_types.py:23-26 | a snapshot built from a timestamp alone keeps it and has no missing addresses |
| AppTypes.ResultPollingStateEquality | app_types.py:23-26 | two snapshots are equal exactly when both timestamp and missing list are |
| ResultKeys.MakeKey | result_cache.py:26-27 | the key is "C_", the category, "--I_", the item name, each at its fixed offset |
| ResultKeys.KeyCollision | result_cache.py:26-27 | two different addresses encode to the same key: the encoding is not injective |
| ResultKeys.CollidingAddressesShareEntry | result_cache.py:15-21 | a result set for one address is read back through the colliding address |
| ResultKeys.SameCategoryKeyInjective | result_cache.py:26-27 | two addresses of the same category with equal keys have equal item names |
| ResultKeys.KeyInjectiveWithoutSeparator | result_cache.py:26-27 | when neither category contains "--I_", equal keys imply equal categories and equal item names |
| ResultKeys.LookupAfterStore | result_cache.py:11-21 | after a set, get returns the value set and has is true |
| ResultKeys.StoreOverwrites | result_cache.py:15-17 | a later set on the same address replaces the earlier value; repeating a set changes nothing |
| ResultKeys.StoreLeavesOtherKeys | result_cache.py:15-17 | a set leaves get and has unchanged for every address with a different key |
| ResultKeys.NothingAfterClear | result_cache.py:23-24 | an emptied cache has no result for any address and get returns None |
| ResultCache.ResultCache.constructor | result_cache.py:7-9 | opening the cache empties it: no address has a result |
| ResultCache.ResultCache.GetResult | result_cache.py:11-13 | returns the value under the address's key, None when absent, and changes nothing |
| ResultCache.ResultCache.SetResult | result_cache.py:15-17 | upserts the value under the encoded key; every other key keeps its value |
| ResultCache.ResultCache.HasResult | result_cache.py:19-21 | true exactly when the encoded key is present; changes nothing |
| ResultCache.ResultCache.ClearAllResults | result_cache.py:23-24 | afterwards no address has a result |
| ResultStore.ResultStore.constructor | result_store.py:5-6 | opening the store keeps every entry that was already there |
| ResultStore.ResultStore.GetResult | result_store.py:8-10 | returns the value under the address's key, None when absent, and changes nothing |
| ResultStore.ResultStore.SetResult | result_store.py:12-14 | upserts the value under the encoded key; every other key keeps its value |
| ResultStore.ResultStore.HasResult | result_store.py:16-18 | true exactly when the encoded key is present; changes nothing |
| ResultStore.ResultStore.ClearAllResults | result_store.py:20-21 | afterwards no address has a result |
| SequenceNumbers.SequenceNumbers.constructor | sequence_numbers.py:7-9 | opening the counters clears them all |
| SequenceNumbers.SequenceNumbers.Generate | sequence_numbers.py:11-12 | returns the key's previous value plus one (or the first value), moves only that key's counter, and exceeds every value handed out for the key before |
| Inventory.UniqueMembers | callbacks.py:52 | the distinct categories are exactly the categories of the table |
| Inventory.UniqueNoDuplicates | callbacks.py:52 | no category is listed twice |
| Inventory.UniqueHead | callbacks.py:52-58 | the first distinct category is the table's first category |
| Inventory.UniqueFirstAppearanceOrder | callbacks.py:52 | categories are listed in the order of their first appearance in the table |
| Inventory.ItemsOfMembers | callbacks.py:70 | an item is listed for a category exactly when the table has that (category, item) row |
| Inventory.ItemsOfAppend | callbacks.py:70 | the items of a category keep table order |
| Inventory.CategoryHasItems | callbacks.py:70-82 | every category that occurs in the table has at least one item |
| Inventory.KeptItemsMembers | callbacks.py:75-79 | an item survives the filter exactly when it was selected and is available |
| Inventory.KeptItemsAppend | callbacks.py:75-79 | the filter keeps selection order |
| Inventory.KeptItemsAllAvailable | callbacks.py:75-79 | a selection made only of available items passes unchanged |
| Inventory.InventoryCategories | callbacks.py:21-33 | the demo inventory's distinct categories are "cat_a" then "cat_b" |
| Callbacks.PopulateCategoryDropdown | callbacks.py:50-58 | one option per distinct category with label equal to value, in first-appearance order, covering every category once, and the first category selected |
| Callbacks.UpdateItemsChecklist | callbacks.py:68-84 | options are the category's items in table order with label equal to value; the selection is the old one filtered to available items in order, or the first available item when that is empty or there was none; it is never empty and lists only items of the category |
| Callbacks.ClearResultCacheButtonClicked | callbacks.py:92-95 | empties the result cache and returns "" |
| Callbacks.DetermineItemsToComputeAndPresent | callbacks.py:107-124 | the configuration holds the chosen colour and every selected address in order; the plan holds exactly the uncached ones in order; only when the plan is non-empty is a batch id drawn: the "batchid" counter's next value, recorded in the counter's history and larger than every id drawn before; otherwise no_update with clear_data true and the counter untouched; the cache is not written |
| Callbacks.FakeCalculateAndStoreResult | callbacks.py:227-236 | stores "COMPUTED#" + category + "_" + item name under the address's key |
| Callbacks.ComputeResults | callbacks.py:137-158 | without plan data nothing is written and no_update is returned; otherwise each plan address is stored in order, the k-th progress snapshot has the plan's batch id and its first k addresses, and the result has the plan's batch id and all its addresses; when the k-th snapshot is emitted the cache already holds the first k results |
| Callbacks.RenderMainPresentation | callbacks.py:173-192 | one row "category, item: result" per presented address in order, with the current cached value or None, in the configured colour; the cache is not written |
| Callbacks.ToComputeMembers | callbacks.py:113-118 | an address is planned exactly when it is selected and not cached |
| Callbacks.ToComputeAppend | callbacks.py:113-118 | the plan keeps selection order |
| Callbacks.ToComputeOnEmptyCache | callbacks.py:113-118 | with nothing cached the plan is every selected address in order, duplicates included |
| Callbacks.ToComputeEmptyIffAllCached | callbacks.py:117-124 | the plan is empty exactly when every selected address is cached |
| Callbacks.ToComputeCategory | callbacks.py:113-118 | every planned address is in the selected category |
| Callbacks.StoreAllCachesEvery | callbacks.py:149-150 | after the run every planned address has a result |
| Callbacks.ReportedIsStored | callbacks.py:149-156 | every address reported by the k-th progress snapshot is cached in the cache as it stands at that emission |
| Callbacks.StoreAllKeepsCached | callbacks.py:149-150 | the run never removes a result |
| Callbacks.StoreAllLeavesOthers | callbacks.py:149-150 | an address whose key no planned address shares reads the same before and after the run |
| Callbacks.StoreAllOwnResult | callbacks.py:227-236 | a planned address that shares its key with no other planned address reads back its own computed string |
| Callbacks.ResolveThenRunCoversSelection | callbacks.py:107-158 | running the resolver's plan caches every selected address, so resolving again plans nothing |
| Callbacks.RunStoresOwnResult | callbacks.py:113-150 | for any category, each planned address reads back its own computed string after the run |
| Callbacks.ViewAfterRun | callbacks.py:140-183 | for any category, after the run each selected address reads its earlier result if it had one, else its computed string; none renders as None |
| Callbacks.InventoryCategoriesSeparatorFree | callbacks.py:21-33 | no category of the demo inventory contains "--I_" |
| Callbacks.InventoryKeysInjective | result_cache.py:26-27 | two addresses in the demo inventory's categories with equal keys are the same address |
| Callbacks.ScenarioEmptyCache | callbacks.py:107-158 | selecting item_1 and item_2 of cat_a on an empty cache plans both in order, and the run stores their computed strings |
| Callbacks.ScenarioAlreadyCached | callbacks.py:107-183 | a selection whose address is already cached as "X" plans nothing and renders "cat_a, item_1: X" |

## Left out

- Dash wiring: decorators, Inputs and Outputs, component trees and styling, `update_debug_info` (callbacks.py:201-222), `register_callbacks`, and `layout.py`, `view.py`, `app.py`.
- Background execution through the long-callback manager, the `running` and `interval` options and concurrent delivery of progress: the runner is a sequential loop and progress is a ghost sequence.
- `sleep(2.1)` and every `print`: timing and console output only.
- diskcache persistence, durability and visibility across processes: stores and counters are in-memory maps. Cache directory arguments of the constructors are not modelled; the result store's directory is represented by the entries it already holds.
- SequenceNumbers.SequenceNumbers.constructor: the value handed out for a key with no counter yet is the parameter `first`; the code calls diskcache's `incr(key, delta=1, default=1)`, and how `incr` combines `default` and `delta` for a missing key is diskcache's internals, which are not modelled.
- pandas: the inventory is a sequence of rows, `unique()` is order-preserving de-duplication and the category mask is a filter.
- `asdict` and dacite `from_dict`: treated as the identity on the datatypes, so malformed store payloads are not modelled.
- Callbacks.PopulateCategoryDropdown: requires a non-empty inventory, because the code indexes `categories[0]` and raises otherwise.
- Callbacks.UpdateItemsChecklist: requires the category to be one the dropdown offers, because the code indexes `available_items[0]` and raises for a category with no items (such as an initial empty value).
- Callbacks.DetermineItemsToComputeAndPresent: the selected items are a sequence; a `None` selection makes the code raise on iteration and is not modelled.
- Callbacks.ComputeResults: empty-dict plan data behaves like `None` in the code and is folded into `None`; computation failures are not modelled because the simulated computation cannot fail.
- The polling reconciler: only its snapshot type exists in these files, and no polling logic is present to model.
