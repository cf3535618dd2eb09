/** The dataclasses of `datatypes.py`: the values that the callbacks pass
    between each other through Dash's client-side stores.

    Python dataclasses with `default_factory=list` give every instance its own
    list; Dafny datatypes are immutable values, so one instance's `addrList`
    can never be changed through another. */
module DataTypes {

  /** One unit of work: a category and an item name, compared by value. */
  datatype ItemAddress = ItemAddress(category: string, itemName: string)

  /** The compute plan: the addresses still missing from the result cache,
      tagged with the batch id drawn from the sequence counter. */
  datatype ItemsToCompute = ItemsToCompute(batchId: int, addrList: seq<ItemAddress> := [])

  /** What the runner has finished so far for one batch. */
  datatype ItemsComputed = ItemsComputed(batchId: int, addrList: seq<ItemAddress> := [])

  /** What to show: the text colour and every selected address. */
  datatype PresentationConfig = PresentationConfig(textColor: string := "black", addrList: seq<ItemAddress> := [])

  /** The batch id is the one field without a default; the address list starts empty. */
  lemma ItemsToComputeDefaults(batchId: int)
    ensures ItemsToCompute(batchId).batchId == batchId
    ensures ItemsToCompute(batchId).addrList == []
  {
  }

  lemma ItemsComputedDefaults(batchId: int)
    ensures ItemsComputed(batchId).batchId == batchId
    ensures ItemsComputed(batchId).addrList == []
  {
  }

  lemma PresentationConfigDefaults()
    ensures PresentationConfig().textColor == "black"
    ensures PresentationConfig().addrList == []
  {
  }

  /** Two addresses are equal exactly when both of their fields are. */
  lemma ItemAddressValueEquality(a: ItemAddress, b: ItemAddress)
    ensures a == b <==> a.category == b.category && a.itemName == b.itemName
  {
  }

  /** Growing one plan's list leaves every other plan as it was, even one that
      was built from the same defaults. */
  lemma DefaultListsAreNotShared(batchId: int, addr: ItemAddress)
    ensures var fresh1, fresh2 := ItemsToCompute(batchId), ItemsToCompute(batchId);
            var grown := fresh1.(addrList := fresh1.addrList + [addr]);
            grown.addrList == [addr] && fresh2.addrList == []
  {
  }
}
