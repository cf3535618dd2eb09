/** `result_cache.py`: the result cache used by the callbacks. Its disk
    cache is modelled as the map `entries` from encoded key to result; the
    directory it lives in is not modelled. */
module ResultCache {
  import opened Wrappers
  import opened ResultKeys

  class ResultCache {
    /** The disk cache's contents, keyed by the encoded address. */
    var entries: map<string, string>

    /** Opens the cache directory and clears it: a fresh cache holds no results. */
    constructor ()
      ensures entries == map[]
      ensures forall cat, itemName :: !Has(entries, cat, itemName)
    {
      entries := map[];
    }

    /** The stored result, or `None` when the address has none; reading
        changes nothing. */
    method GetResult(cat: string, itemName: string) returns (r: Option<string>)
      ensures r == Lookup(entries, cat, itemName)
    {
      var key := MakeKey(cat, itemName);
      if key in entries {
        r := Some(entries[key]);
      } else {
        r := None;
      }
    }

    /** Upsert under the encoded key; every other key keeps its value. */
    method SetResult(cat: string, itemName: string, res: string)
      modifies this
      ensures entries == Stored(old(entries), cat, itemName, res)
      ensures Lookup(entries, cat, itemName) == Some(res) && Has(entries, cat, itemName)
      ensures forall key :: key != MakeKey(cat, itemName) && key in old(entries) ==> key in entries && entries[key] == old(entries)[key]
    {
      var key := MakeKey(cat, itemName);
      entries := entries[key := res];
    }

    method HasResult(cat: string, itemName: string) returns (b: bool)
      ensures b == Has(entries, cat, itemName)
    {
      var key := MakeKey(cat, itemName);
      b := key in entries;
    }

    method ClearAllResults()
      modifies this
      ensures entries == map[]
      ensures forall cat, itemName :: !Has(entries, cat, itemName)
    {
      entries := map[];
    }
  }
}
