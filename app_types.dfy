/** The dataclasses of `app_types.py`, the variant of the data model used by
    the polling design: plans are tagged with a data version instead of a
    batch id, and completions carry no tag at all. */
module AppTypes {

  datatype ItemAddress = ItemAddress(category: string, itemName: string)

  /** `data_version` defaults to -1, the address list to empty. */
  datatype ItemsToCompute = ItemsToCompute(dataVersion: int := -1, addrList: seq<ItemAddress> := [])

  datatype ItemsComputed = ItemsComputed(addrList: seq<ItemAddress> := [])

  datatype PresentationConfig = PresentationConfig(textColor: string := "black", addrList: seq<ItemAddress> := [])

  /** A polling snapshot: the timestamp is required, the missing list defaults to empty. */
  datatype ResultPollingState = ResultPollingState(computeTimestamp: int, missingAddrList: seq<ItemAddress> := [])

  /** Two addresses are equal exactly when both of their fields are. */
  lemma ItemAddressValueEquality(a: ItemAddress, b: ItemAddress)
    ensures a == b <==> a.category == b.category && a.itemName == b.itemName
  {
  }

  lemma ItemsToComputeDefaults()
    ensures ItemsToCompute().dataVersion == -1
    ensures ItemsToCompute().addrList == []
  {
  }

  lemma ItemsComputedDefaults()
    ensures ItemsComputed().addrList == []
  {
  }

  lemma PresentationConfigDefaults()
    ensures PresentationConfig().textColor == "black"
    ensures PresentationConfig().addrList == []
  {
  }

  lemma ResultPollingStateDefaults(timestamp: int)
    ensures ResultPollingState(timestamp).computeTimestamp == timestamp
    ensures ResultPollingState(timestamp).missingAddrList == []
  {
  }

  /** Dataclass equality compares both fields of a snapshot. */
  lemma ResultPollingStateEquality(s: ResultPollingState, t: ResultPollingState)
    ensures s == t <==> s.computeTimestamp == t.computeTimestamp && s.missingAddrList == t.missingAddrList
  {
  }
}
