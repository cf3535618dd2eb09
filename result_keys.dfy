/** The key encoding shared by `ResultCache` and `ResultStore`, and the
    effect of their operations on the underlying key-value map, stated as
    functions on `map<string, string>`.

    Both classes key their disk cache by the ENCODED string, not by the
    (category, item name) pair, so two addresses whose encodings coincide
    share one entry. */
module ResultKeys {
  import opened Wrappers

  const Separator: string := "--I_"

  /** `C_{cat}--I_{item_name}`: the category sits at offset 2, the separator
      right after it, and the item name fills the rest. */
  function MakeKey(cat: string, itemName: string): (k: string)
    ensures |k| == |cat| + |itemName| + 6
    ensures k[..2] == "C_"
    ensures k[2..2 + |cat|] == cat
    ensures k[2 + |cat|..6 + |cat|] == Separator
    ensures k[6 + |cat|..] == itemName
  {
    "C_" + cat + Separator + itemName
  }

  predicate SeparatorAt(s: string, p: int) {
    0 <= p <= |s| - 4 && s[p..p + 4] == Separator
  }

  predicate ContainsSeparator(s: string) {
    exists p :: 0 <= p <= |s| - 4 && SeparatorAt(s, p)
  }

  /** `get_result`: the stored value, or `None` for an absent key. */
  function Lookup(entries: map<string, string>, cat: string, itemName: string): Option<string> {
    var key := MakeKey(cat, itemName);
    if key in entries then Some(entries[key]) else None
  }

  /** `has_result`: whether the encoded key is present. */
  predicate Has(entries: map<string, string>, cat: string, itemName: string) {
    MakeKey(cat, itemName) in entries
  }

  /** The map after `set_result(cat, item_name, res)`: an upsert on the encoded key. */
  function Stored(entries: map<string, string>, cat: string, itemName: string, res: string): map<string, string> {
    entries[MakeKey(cat, itemName) := res]
  }

  /** The two addresses ("a--I_b", "c") and ("a", "b--I_c") encode to the same
      key: the encoding is not injective. */
  lemma KeyCollision()
    ensures ("a--I_b", "c") != ("a", "b--I_c")
    ensures MakeKey("a--I_b", "c") == MakeKey("a", "b--I_c")
  {
    assert MakeKey("a--I_b", "c") == "C_a--I_b--I_c";
    assert MakeKey("a", "b--I_c") == "C_a--I_b--I_c";
  }

  /** Because the store is keyed by the encoded string, a result stored for one
      address is what the colliding address reads back. */
  lemma CollidingAddressesShareEntry(entries: map<string, string>, res: string)
    ensures Has(Stored(entries, "a--I_b", "c", res), "a", "b--I_c")
    ensures Lookup(Stored(entries, "a--I_b", "c", res), "a", "b--I_c") == Some(res)
  {
    KeyCollision();
  }

  /** Within one category the encoding is injective: the item name is
      everything after the separator that follows the category. */
  lemma SameCategoryKeyInjective(cat: string, i1: string, i2: string)
    requires MakeKey(cat, i1) == MakeKey(cat, i2)
    ensures i1 == i2
  {
    var k := MakeKey(cat, i1);
    assert i1 == k[6 + |cat|..] == i2;
  }

  /** When neither category contains the separator "--I_", equal keys mean
      equal addresses: the separator found right after the shorter category
      would otherwise lie inside the longer one, or overlap its separator,
      which "--I_" cannot do with itself. */
  lemma {:induction false} KeyInjectiveWithoutSeparator(c1: string, i1: string, c2: string, i2: string)
    requires !ContainsSeparator(c1) && !ContainsSeparator(c2)
    requires MakeKey(c1, i1) == MakeKey(c2, i2)
    ensures c1 == c2 && i1 == i2
  {
    if |c1| < |c2| {
      ShorterCategoryContainsSeparator(c1, i1, c2, i2);
    } else if |c2| < |c1| {
      ShorterCategoryContainsSeparator(c2, i2, c1, i1);
    } else {
      var k := MakeKey(c1, i1);
      assert c1 == k[2..2 + |c1|] == c2;
      assert i1 == k[6 + |c1|..] == i2;
    }
  }

  lemma {:induction false} ShorterCategoryContainsSeparator(c1: string, i1: string, c2: string, i2: string)
    requires |c1| < |c2|
    requires MakeKey(c1, i1) == MakeKey(c2, i2)
    ensures ContainsSeparator(c2)
  {
    var k := MakeKey(c1, i1);
    var p := |c1|;
    // "--I_" does not overlap itself, so the second separator starts at
    // least four characters after the first.
    assert p + 4 <= |c2| by {
      var first, second := k[2 + p..6 + p], k[2 + |c2|..6 + |c2|];
      assert first == Separator && second == Separator;
      assert k[4 + p] == first[2] == 'I' && k[5 + p] == first[3] == '_';
      assert k[2 + |c2|] == second[0] == '-' && k[3 + |c2|] == second[1] == '-';
    }
    assert c2 == k[2..2 + |c2|];
    assert c2[p..p + 4] == k[2 + p..6 + p];
    assert SeparatorAt(c2, p);
  }

  /** `set_result` followed by `get_result`/`has_result` on the same address. */
  lemma LookupAfterStore(entries: map<string, string>, cat: string, itemName: string, res: string)
    ensures Lookup(Stored(entries, cat, itemName, res), cat, itemName) == Some(res)
    ensures Has(Stored(entries, cat, itemName, res), cat, itemName)
  {
  }

  /** A later `set_result` on the same address replaces the earlier one, and
      repeating a `set_result` changes nothing. */
  lemma StoreOverwrites(entries: map<string, string>, cat: string, itemName: string, first: string, second: string)
    ensures Stored(Stored(entries, cat, itemName, first), cat, itemName, second) == Stored(entries, cat, itemName, second)
    ensures Stored(Stored(entries, cat, itemName, first), cat, itemName, first) == Stored(entries, cat, itemName, first)
  {
  }

  /** `set_result` leaves every address whose encoded key differs as it was. */
  lemma StoreLeavesOtherKeys(entries: map<string, string>, cat: string, itemName: string, res: string, otherCat: string, otherItem: string)
    requires MakeKey(otherCat, otherItem) != MakeKey(cat, itemName)
    ensures Lookup(Stored(entries, cat, itemName, res), otherCat, otherItem) == Lookup(entries, otherCat, otherItem)
    ensures Has(Stored(entries, cat, itemName, res), otherCat, otherItem) == Has(entries, otherCat, otherItem)
  {
  }

  /** After `clear_all_results`, no address has a result. */
  lemma NothingAfterClear(cat: string, itemName: string)
    ensures !Has(map[], cat, itemName)
    ensures Lookup(map[], cat, itemName) == None
  {
  }
}
