/** `result_store.py`: the same API as `ResultCache`, except that opening
    the store keeps what an earlier process left in it. The directory is
    represented by its contents, `existing`. */
module ResultStore {
  import opened Wrappers
  import opened ResultKeys

  class ResultStore {
    /** The disk cache's contents, keyed by the encoded address. */
    var entries: map<string, string>

    /** Opens the store over whatever the directory already holds; unlike
        `ResultCache`, nothing is cleared. */
    constructor (existing: map<string, string>)
      ensures entries == existing
    {
      entries := existing;
    }

    /** The stored result, or `None` when the address has none; reading
        changes nothing. */
    method GetResult(cat: string, itemName: string) returns (r: Option<string>)
      ensures r == Lookup(entries, cat, itemName)
    {
      var key := MakeKey(cat, itemName);
      if key in entries {
        r := Some(entries[key]);
      } else {
        r := None;
      }
    }

    /** Upsert under the encoded key; every other key keeps its value. */
    method SetResult(cat: string, itemName: string, res: string)
      modifies this
      ensures entries == Stored(old(entries), cat, itemName, res)
      ensures Lookup(entries, cat, itemName) == Some(res) && Has(entries, cat, itemName)
      ensures forall key :: key != MakeKey(cat, itemName) && key in old(entries) ==> key in entries && entries[key] == old(entries)[key]
    {
      var key := MakeKey(cat, itemName);
      entries := entries[key := res];
    }

    method HasResult(cat: string, itemName: string) returns (b: bool)
      ensures b == Has(entries, cat, itemName)
    {
      var key := MakeKey(cat, itemName);
      b := key in entries;
    }

    method ClearAllResults()
      modifies this
      ensures entries == map[]
      ensures forall cat, itemName :: !Has(entries, cat, itemName)
    {
      entries := map[];
    }
  }
}
