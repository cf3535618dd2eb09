/** The bodies of the Dash callbacks in `callbacks.py`, lifted out of the
    framework. The two process-wide singletons RESULT_CACHE and
    SEQUENCE_NUMBERS are passed in as objects; the inventory table is passed
    in as rows; `dash.no_update` is `None`; each `set_progress` call appends
    a snapshot to a ghost sequence. */
module Callbacks {
  import opened Wrappers
  import opened DataTypes
  import opened ResultKeys
  import opened Inventory
  import ResultCache
  import SequenceNumbers

  /** A dropdown or checklist option, `{"label": …, "value": …}`. */
  datatype LabeledOption = LabeledOption(labelText: string, value: string)

  /** The counter key the resolver draws batch ids from. */
  const BatchIdKey: string := "batchid"

  // ---------------------------------------------------------------------
  // Specification functions

  predicate Cached(entries: map<string, string>, a: ItemAddress) {
    Has(entries, a.category, a.itemName)
  }

  function LookupAddress(entries: map<string, string>, a: ItemAddress): Option<string> {
    Lookup(entries, a.category, a.itemName)
  }

  /** One address per selected item, all in `category`, in selection order. */
  function Addresses(category: string, items: seq<string>): (addrs: seq<ItemAddress>)
    ensures |addrs| == |items|
    ensures forall i :: 0 <= i < |items| ==> addrs[i] == ItemAddress(category, items[i])
  {
    seq(|items|, i requires 0 <= i < |items| => ItemAddress(category, items[i]))
  }

  /** The selected addresses whose result is not cached, in selection order. */
  function ToCompute(entries: map<string, string>, category: string, items: seq<string>): seq<ItemAddress>
  {
    if items == [] then []
    else
      var a := ItemAddress(category, items[|items| - 1]);
      ToCompute(entries, category, items[..|items| - 1]) + (if Cached(entries, a) then [] else [a])
  }

  /** The result string the simulated computation produces for an address. */
  function FakeResult(category: string, itemName: string): string {
    "COMPUTED#" + category + "_" + itemName
  }

  /** The cache after the runner has stored the result of each address, in order. */
  function StoreAll(entries: map<string, string>, addrs: seq<ItemAddress>): map<string, string>
  {
    if addrs == [] then entries
    else
      var a := addrs[|addrs| - 1];
      Stored(StoreAll(entries, addrs[..|addrs| - 1]), a.category, a.itemName, FakeResult(a.category, a.itemName))
  }

  /** Python's rendering of an optional result: an absent one prints as "None". */
  function ShowResult(r: Option<string>): string {
    match r
    case None => "None"
    case Some(v) => v
  }

  /** The text of one row of the main presentation. */
  function Row(a: ItemAddress, r: Option<string>): string {
    a.category + ", " + a.itemName + ": " + ShowResult(r)
  }

  // ---------------------------------------------------------------------
  // Callbacks

  /** `populate_category_dropdown`: one self-labelled option per distinct
      category, in order of first appearance, and the first category
      selected. An empty table makes the source fail on `categories[0]`. */
  method PopulateCategoryDropdown(rows: seq<InventoryRow>) returns (options: seq<LabeledOption>, value: string)
    requires rows != []
    ensures |options| == |Unique(CategoryColumn(rows))|
    ensures forall i :: 0 <= i < |options| ==>
      options[i].labelText == options[i].value == Unique(CategoryColumn(rows))[i]
    ensures forall c :: c in CategoryColumn(rows) <==> exists i :: 0 <= i < |options| && options[i].value == c
    ensures forall i, j :: 0 <= i < j < |options| ==> options[i].value != options[j].value
    ensures value == rows[0].category
  {
    var categories := Unique(CategoryColumn(rows));
    UniqueMembers(CategoryColumn(rows));
    UniqueNoDuplicates(CategoryColumn(rows));
    UniqueHead(CategoryColumn(rows));
    options := [];
    for i := 0 to |categories|
      invariant |options| == i
      invariant forall j :: 0 <= j < i ==> options[j] == LabeledOption(categories[j], categories[j])
    {
      options := options + [LabeledOption(categories[i], categories[i])];
    }
    value := categories[0];
    forall c | c in CategoryColumn(rows)
      ensures exists i :: 0 <= i < |options| && options[i].value == c
    {
      var i :| 0 <= i < |categories| && categories[i] == c;
      assert options[i].value == c;
    }
  }

  /** `update_items_checklist`: the options are the items of the selected
      category in table order; the selection keeps the previously selected
      items that are still available, in their order, and falls back to the
      first available item when none is left (or none was selected). The
      category is one the dropdown offered, so it has at least one item. */
  method UpdateItemsChecklist(rows: seq<InventoryRow>, selectedCategory: string, oldSelectedItems: Option<seq<string>>)
    returns (options: seq<LabeledOption>, newSelection: seq<string>)
    requires selectedCategory in CategoryColumn(rows)
    ensures var available := ItemsOf(rows, selectedCategory);
      && |options| == |available|
      && forall i :: 0 <= i < |options| ==> options[i] == LabeledOption(available[i], available[i])
    ensures var available := ItemsOf(rows, selectedCategory);
      var kept := if oldSelectedItems.Some? then KeptItems(oldSelectedItems.value, available) else [];
      && (kept == [] ==> available != [] && newSelection == [available[0]])
      && (kept != [] ==> newSelection == kept)
    ensures newSelection != []
    ensures forall x :: x in newSelection ==> InventoryRow(selectedCategory, x) in rows
  {
    var available := ItemsOf(rows, selectedCategory);
    CategoryHasItems(rows, selectedCategory);
    options := [];
    for i := 0 to |available|
      invariant |options| == i
      invariant forall j :: 0 <= j < i ==> options[j] == LabeledOption(available[j], available[j])
    {
      options := options + [LabeledOption(available[i], available[i])];
    }

    newSelection := [];
    // Both None and an empty list are falsy.
    if oldSelectedItems.Some? && oldSelectedItems.value != [] {
      var previous := oldSelectedItems.value;
      for i := 0 to |previous|
        invariant newSelection == KeptItems(previous[..i], available)
      {
        assert previous[..i + 1][..i] == previous[..i];
        if previous[i] in available {
          newSelection := newSelection + [previous[i]];
        }
      }
      assert previous[..|previous|] == previous;
      KeptItemsMembers(previous, available);
    }
    if newSelection == [] {
      newSelection := [available[0]];
    }
    ItemsOfMembers(rows, selectedCategory);
  }

  /** `clear_result_cache_button_clicked`: empties the result cache. */
  method ClearResultCacheButtonClicked(cache: ResultCache.ResultCache) returns (children: string)
    modifies cache
    ensures cache.entries == map[]
    ensures children == ""
  {
    cache.ClearAllResults();
    children := "";
  }

  /** `determine_items_to_compute_and_present`: the presentation lists every
      selected address; the plan lists the uncached ones in selection order
      (duplicates included) and carries a batch id drawn from the counter
      only when it is non-empty. The cache is only read. */
  method DetermineItemsToComputeAndPresent(
    cache: ResultCache.ResultCache, sequenceNumbers: SequenceNumbers.SequenceNumbers,
    category: string, selectedItems: seq<string>, textColor: string)
    returns (presentationConfig: PresentationConfig, itemsToCompute: Option<ItemsToCompute>, clearData: bool)
    requires sequenceNumbers.Valid()
    modifies sequenceNumbers
    ensures sequenceNumbers.Valid()
    ensures presentationConfig == PresentationConfig(textColor, Addresses(category, selectedItems))
    ensures var missing := ToCompute(cache.entries, category, selectedItems);
      missing == [] ==>
        && itemsToCompute == None && clearData
        && sequenceNumbers.counters == old(sequenceNumbers.counters)
        && sequenceNumbers.Issued == old(sequenceNumbers.Issued)
    ensures var missing := ToCompute(cache.entries, category, selectedItems);
      missing != [] ==>
        && !clearData && itemsToCompute.Some?
        && itemsToCompute.value.addrList == missing
        && itemsToCompute.value.batchId ==
             (if BatchIdKey in old(sequenceNumbers.counters) then old(sequenceNumbers.counters)[BatchIdKey] + 1
              else sequenceNumbers.first)
        && sequenceNumbers.counters == old(sequenceNumbers.counters)[BatchIdKey := itemsToCompute.value.batchId]
        && sequenceNumbers.Issued == old(sequenceNumbers.Issued)[BatchIdKey :=
             (if BatchIdKey in old(sequenceNumbers.Issued) then old(sequenceNumbers.Issued)[BatchIdKey] else [])
             + [itemsToCompute.value.batchId]]
        && (BatchIdKey in old(sequenceNumbers.Issued) ==>
              forall b :: b in old(sequenceNumbers.Issued)[BatchIdKey] ==> b < itemsToCompute.value.batchId)
  {
    presentationConfig := PresentationConfig(textColor := textColor);
    var addressesToCompute: seq<ItemAddress> := [];
    for i := 0 to |selectedItems|
      invariant presentationConfig == PresentationConfig(textColor, Addresses(category, selectedItems[..i]))
      invariant addressesToCompute == ToCompute(cache.entries, category, selectedItems[..i])
      invariant unchanged(sequenceNumbers)
    {
      var item := selectedItems[i];
      var address := ItemAddress(category, item);
      assert selectedItems[..i + 1][..i] == selectedItems[..i];
      assert Addresses(category, selectedItems[..i + 1]) == Addresses(category, selectedItems[..i]) + [address];
      presentationConfig := presentationConfig.(addrList := presentationConfig.addrList + [address]);

      var cached := cache.HasResult(category, item);
      if !cached {
        addressesToCompute := addressesToCompute + [address];
      }
    }
    assert selectedItems[..|selectedItems|] == selectedItems;

    if |addressesToCompute| > 0 {
      var batchId := sequenceNumbers.Generate(BatchIdKey);
      itemsToCompute := Some(ItemsToCompute(batchId, addressesToCompute));
      clearData := false;
    } else {
      itemsToCompute := None;
      clearData := true;
    }
  }

  /** `_fake_calculate_and_store_result`: stores the address's result string
      under its key. */
  method FakeCalculateAndStoreResult(cache: ResultCache.ResultCache, category: string, itemName: string)
    modifies cache
    ensures cache.entries == Stored(old(cache.entries), category, itemName, FakeResult(category, itemName))
  {
    var result := "COMPUTED#" + category + "_" + itemName;
    cache.SetResult(category, itemName, result);
  }

  /** `compute_results`: with no plan, nothing is written and the output is
      left alone. Otherwise each planned address is computed and stored in
      plan order; after the k-th one the progress snapshot lists the first k
      addresses of the batch, and the final result lists them all. `seen[k]`
      is the cache as it stands when the k-th snapshot is emitted: it already
      holds the first k results, so every reported address is cached. */
  method ComputeResults(cache: ResultCache.ResultCache, itemsToComputeData: Option<ItemsToCompute>)
    returns (itemsComputedData: Option<ItemsComputed>, ghost progress: seq<ItemsComputed>,
             ghost seen: seq<map<string, string>>)
    modifies cache
    ensures itemsToComputeData.None? ==>
      itemsComputedData == None && progress == [] && seen == [] && cache.entries == old(cache.entries)
    ensures itemsToComputeData.Some? ==>
      var plan := itemsToComputeData.value;
      && itemsComputedData == Some(ItemsComputed(plan.batchId, plan.addrList))
      && cache.entries == StoreAll(old(cache.entries), plan.addrList)
      && |progress| == |plan.addrList|
      && (forall k :: 0 <= k < |progress| ==> progress[k] == ItemsComputed(plan.batchId, plan.addrList[..k + 1]))
      && |seen| == |plan.addrList|
      && forall k :: 0 <= k < |seen| ==> seen[k] == StoreAll(old(cache.entries), plan.addrList[..k + 1])
  {
    progress, seen := [], [];
    if itemsToComputeData.None? {
      return None, progress, seen;
    }
    var plan := itemsToComputeData.value;
    var itemsComputed := ItemsComputed(batchId := plan.batchId);
    for i := 0 to |plan.addrList|
      invariant itemsComputed == ItemsComputed(plan.batchId, plan.addrList[..i])
      invariant cache.entries == StoreAll(old(cache.entries), plan.addrList[..i])
      invariant |progress| == i
      invariant forall k :: 0 <= k < i ==> progress[k] == ItemsComputed(plan.batchId, plan.addrList[..k + 1])
      invariant |seen| == i
      invariant forall k :: 0 <= k < i ==> seen[k] == StoreAll(old(cache.entries), plan.addrList[..k + 1])
    {
      var addr := plan.addrList[i];
      assert plan.addrList[..i + 1][..i] == plan.addrList[..i];
      FakeCalculateAndStoreResult(cache, addr.category, addr.itemName);
      itemsComputed := itemsComputed.(addrList := itemsComputed.addrList + [addr]);
      progress := progress + [itemsComputed];
      seen := seen + [cache.entries];
    }
    assert plan.addrList[..|plan.addrList|] == plan.addrList;
    itemsComputedData := Some(itemsComputed);
  }

  /** `render_main_presentation`: one row per presented address, in order,
      showing what the cache holds for it now, in the configured colour. The
      cache is only read. */
  method RenderMainPresentation(cache: ResultCache.ResultCache, presentationConfig: PresentationConfig)
    returns (color: string, items: seq<string>)
    ensures color == presentationConfig.textColor
    ensures |items| == |presentationConfig.addrList|
    ensures forall i :: 0 <= i < |items| ==>
      items[i] == Row(presentationConfig.addrList[i], LookupAddress(cache.entries, presentationConfig.addrList[i]))
  {
    items := [];
    for i := 0 to |presentationConfig.addrList|
      invariant |items| == i
      invariant forall j :: 0 <= j < i ==>
        items[j] == Row(presentationConfig.addrList[j], LookupAddress(cache.entries, presentationConfig.addrList[j]))
    {
      var addr := presentationConfig.addrList[i];
      var result := cache.GetResult(addr.category, addr.itemName);
      items := items + [addr.category + ", " + addr.itemName + ": " + ShowResult(result)];
    }
    color := presentationConfig.textColor;
  }

  // ---------------------------------------------------------------------
  // Resolver

  /** An address is planned exactly when it is selected and not cached. */
  lemma {:induction false} ToComputeMembers(entries: map<string, string>, category: string, items: seq<string>)
    ensures forall a :: a in ToCompute(entries, category, items) <==>
      a in Addresses(category, items) && !Cached(entries, a)
  {
    if items != [] {
      var init := items[..|items| - 1];
      ToComputeMembers(entries, category, init);
      assert Addresses(category, items) == Addresses(category, init) + [ItemAddress(category, items[|items| - 1])];
    }
  }

  /** The plan keeps selection order: planning a selection split in two gives
      the plan of the first part followed by the plan of the second. */
  lemma {:induction false} ToComputeAppend(entries: map<string, string>, category: string, items: seq<string>, more: seq<string>)
    ensures ToCompute(entries, category, items + more) == ToCompute(entries, category, items) + ToCompute(entries, category, more)
  {
    if more != [] {
      var all := items + more;
      assert all[..|all| - 1] == items + more[..|more| - 1];
      ToComputeAppend(entries, category, items, more[..|more| - 1]);
    } else {
      assert items + more == items;
    }
  }

  /** With nothing cached, the plan is the whole selection, in order and
      with any repeated item repeated: the resolver does not de-duplicate. */
  lemma {:induction false} ToComputeOnEmptyCache(category: string, items: seq<string>)
    ensures ToCompute(map[], category, items) == Addresses(category, items)
  {
    if items != [] {
      var init := items[..|items| - 1];
      ToComputeOnEmptyCache(category, init);
      assert Addresses(category, items) == Addresses(category, init) + [ItemAddress(category, items[|items| - 1])];
    }
  }

  /** The plan is empty (no batch id is drawn) exactly when every selected
      address is cached. */
  lemma ToComputeEmptyIffAllCached(entries: map<string, string>, category: string, items: seq<string>)
    ensures ToCompute(entries, category, items) == [] <==>
      forall a :: a in Addresses(category, items) ==> Cached(entries, a)
  {
    ToComputeMembers(entries, category, items);
    if ToCompute(entries, category, items) != [] {
      var a := ToCompute(entries, category, items)[0];
      assert a in ToCompute(entries, category, items);
    }
  }

  // ---------------------------------------------------------------------
  // Runner

  /** After the run every planned address has a result. */
  lemma {:induction false} StoreAllCachesEvery(entries: map<string, string>, addrs: seq<ItemAddress>)
    ensures forall a :: a in addrs ==> Cached(StoreAll(entries, addrs), a)
  {
    if addrs != [] {
      var init, last := addrs[..|addrs| - 1], addrs[|addrs| - 1];
      StoreAllCachesEvery(entries, init);
      assert addrs == init + [last];
    }
  }

  /** Every address a progress snapshot reports is cached in the cache as it
      stands when that snapshot is emitted. */
  lemma ReportedIsStored(entries: map<string, string>, plan: seq<ItemAddress>, k: nat)
    requires k < |plan|
    ensures forall j :: 0 <= j <= k ==> Cached(StoreAll(entries, plan[..k + 1]), plan[j])
  {
    StoreAllCachesEvery(entries, plan[..k + 1]);
    forall j | 0 <= j <= k
      ensures Cached(StoreAll(entries, plan[..k + 1]), plan[j])
    {
      assert plan[..k + 1][j] == plan[j];
    }
  }

  /** The run never removes a result. */
  lemma {:induction false} StoreAllKeepsCached(entries: map<string, string>, addrs: seq<ItemAddress>, a: ItemAddress)
    requires Cached(entries, a)
    ensures Cached(StoreAll(entries, addrs), a)
  {
    if addrs != [] {
      StoreAllKeepsCached(entries, addrs[..|addrs| - 1], a);
    }
  }

  /** An address whose key no planned address shares reads the same before
      and after the run. */
  lemma {:induction false} StoreAllLeavesOthers(entries: map<string, string>, addrs: seq<ItemAddress>, a: ItemAddress)
    requires forall b :: b in addrs ==> MakeKey(b.category, b.itemName) != MakeKey(a.category, a.itemName)
    ensures LookupAddress(StoreAll(entries, addrs), a) == LookupAddress(entries, a)
  {
    if addrs != [] {
      var init := addrs[..|addrs| - 1];
      assert forall b :: b in init ==> b in addrs;
      StoreAllLeavesOthers(entries, init, a);
    }
  }

  /** A planned address that shares its key with no other planned address
      reads back its own result after the run. */
  lemma {:induction false} StoreAllOwnResult(entries: map<string, string>, addrs: seq<ItemAddress>, a: ItemAddress)
    requires a in addrs
    requires forall b :: b in addrs && MakeKey(b.category, b.itemName) == MakeKey(a.category, a.itemName) ==> b == a
    ensures LookupAddress(StoreAll(entries, addrs), a) == Some(FakeResult(a.category, a.itemName))
  {
    var init, last := addrs[..|addrs| - 1], addrs[|addrs| - 1];
    assert addrs == init + [last];
    if last != a {
      assert forall b :: b in init ==> b in addrs;
      StoreAllOwnResult(entries, init, a);
    }
  }

  // ---------------------------------------------------------------------
  // Resolver, runner and view together

  /** Running the plan the resolver made leaves every selected address
      cached, so resolving the same selection again plans nothing. */
  lemma ResolveThenRunCoversSelection(entries: map<string, string>, category: string, items: seq<string>)
    ensures var after := StoreAll(entries, ToCompute(entries, category, items));
      && (forall a :: a in Addresses(category, items) ==> Cached(after, a))
      && ToCompute(after, category, items) == []
  {
    var plan := ToCompute(entries, category, items);
    var after := StoreAll(entries, plan);
    ToComputeMembers(entries, category, items);
    StoreAllCachesEvery(entries, plan);
    forall a | a in Addresses(category, items)
      ensures Cached(after, a)
    {
      if Cached(entries, a) {
        StoreAllKeepsCached(entries, plan, a);
      }
    }
    ToComputeEmptyIffAllCached(after, category, items);
  }

  /** Every planned address is in the selected category. */
  lemma {:induction false} ToComputeCategory(entries: map<string, string>, category: string, items: seq<string>)
    ensures forall b :: b in ToCompute(entries, category, items) ==> b.category == category
  {
    if items != [] {
      ToComputeCategory(entries, category, items[..|items| - 1]);
    }
  }

  /** Each planned address reads back its own computed result after the run:
      all planned addresses share one category, within which keys do not
      collide. */
  lemma RunStoresOwnResult(entries: map<string, string>, category: string, items: seq<string>, a: ItemAddress)
    requires a in ToCompute(entries, category, items)
    ensures LookupAddress(StoreAll(entries, ToCompute(entries, category, items)), a) == Some(FakeResult(a.category, a.itemName))
  {
    var plan := ToCompute(entries, category, items);
    ToComputeCategory(entries, category, items);
    forall b | b in plan && MakeKey(b.category, b.itemName) == MakeKey(a.category, a.itemName)
      ensures b == a
    {
      SameCategoryKeyInjective(category, b.itemName, a.itemName);
    }
    StoreAllOwnResult(entries, plan, a);
  }

  /** After the run, every selected address reads either the result it
      already had or its freshly computed one; none renders as "None". */
  lemma ViewAfterRun(entries: map<string, string>, category: string, items: seq<string>, i: nat)
    requires i < |items|
    ensures var a := ItemAddress(category, items[i]);
      var after := StoreAll(entries, ToCompute(entries, category, items));
      && LookupAddress(after, a) == (if Cached(entries, a) then LookupAddress(entries, a) else Some(FakeResult(category, items[i])))
      && LookupAddress(after, a).Some?
  {
    var a := ItemAddress(category, items[i]);
    var plan := ToCompute(entries, category, items);
    ToComputeMembers(entries, category, items);
    assert a == Addresses(category, items)[i];
    if Cached(entries, a) {
      ToComputeCategory(entries, category, items);
      forall b | b in plan
        ensures MakeKey(b.category, b.itemName) != MakeKey(a.category, a.itemName)
      {
        if MakeKey(b.category, b.itemName) == MakeKey(a.category, a.itemName) {
          SameCategoryKeyInjective(category, b.itemName, a.itemName);
        }
      }
      StoreAllLeavesOthers(entries, plan, a);
    } else {
      RunStoresOwnResult(entries, category, items, a);
    }
  }

  /** A string without '-' cannot contain "--I_". */
  lemma NoDashNoSeparator(s: string)
    requires forall i :: 0 <= i < |s| ==> s[i] != '-'
    ensures !ContainsSeparator(s)
  {
    forall p | 0 <= p <= |s| - 4
      ensures !SeparatorAt(s, p)
    {
      assert s[p..p + 4][0] == s[p];
    }
  }

  /** The categories of the demo inventory contain no "--I_". */
  lemma InventoryCategoriesSeparatorFree(category: string)
    requires category in CategoryColumn(InventoryRows)
    ensures !ContainsSeparator(category)
  {
    InventoryCategories();
    UniqueMembers(CategoryColumn(InventoryRows));
    assert category == "cat_a" || category == "cat_b";
    NoDashNoSeparator(category);
  }
  /** Keys of addresses in the demo inventory's categories never collide. */
  lemma InventoryKeysInjective(a: ItemAddress, b: ItemAddress)
    requires a.category in CategoryColumn(InventoryRows) && b.category in CategoryColumn(InventoryRows)
    requires MakeKey(a.category, a.itemName) == MakeKey(b.category, b.itemName)
    ensures a == b
  {
    InventoryCategoriesSeparatorFree(a.category);
    InventoryCategoriesSeparatorFree(b.category);
    KeyInjectiveWithoutSeparator(a.category, a.itemName, b.category, b.itemName);
  }


  /** Two uncached selected items: both are planned, in order, and after the
      run both read back their computed strings. */
  lemma ScenarioEmptyCache()
    ensures var plan := ToCompute(map[], "cat_a", ["item_1", "item_2"]);
      && plan == [ItemAddress("cat_a", "item_1"), ItemAddress("cat_a", "item_2")]
      && LookupAddress(StoreAll(map[], plan), plan[0]) == Some("COMPUTED#cat_a_item_1")
      && LookupAddress(StoreAll(map[], plan), plan[1]) == Some("COMPUTED#cat_a_item_2")
  {
    var items := ["item_1", "item_2"];
    ToComputeOnEmptyCache("cat_a", items);
    var plan := ToCompute(map[], "cat_a", items);
    assert plan == [ItemAddress("cat_a", "item_1"), ItemAddress("cat_a", "item_2")];
    RunStoresOwnResult(map[], "cat_a", items, plan[0]);
    RunStoresOwnResult(map[], "cat_a", items, plan[1]);
    assert FakeResult("cat_a", "item_1") == "COMPUTED#cat_a_item_1";
    assert FakeResult("cat_a", "item_2") == "COMPUTED#cat_a_item_2";
  }

  /** A selection whose only address is already cached plans nothing, and
      the view shows the cached value. */
  lemma ScenarioAlreadyCached()
    ensures var entries := map[MakeKey("cat_a", "item_1") := "X"];
      && ToCompute(entries, "cat_a", ["item_1"]) == []
      && Row(ItemAddress("cat_a", "item_1"), LookupAddress(entries, ItemAddress("cat_a", "item_1"))) == "cat_a, item_1: X"
  {
    assert ["item_1"][..0] == [];
  }
}
