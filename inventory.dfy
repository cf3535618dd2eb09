/** The item inventory of `callbacks.py` and the selection helpers the two
    dropdown callbacks are built from. The inventory table is a sequence of
    (category, item) rows; pandas' `unique()` is order-preserving
    de-duplication and a boolean row mask is a filter. */
module Inventory {

  datatype InventoryRow = InventoryRow(category: string, item: string)

  /** The rows of `INVENTORY_DF`, in table order. */
  const InventoryRows: seq<InventoryRow> := [
    InventoryRow("cat_a", "item_1"),
    InventoryRow("cat_a", "item_2"),
    InventoryRow("cat_a", "item_3"),
    InventoryRow("cat_a", "item_4"),
    InventoryRow("cat_b", "item_1"),
    InventoryRow("cat_b", "item_2"),
    InventoryRow("cat_b", "item_101"),
    InventoryRow("cat_b", "item_102"),
    InventoryRow("cat_b", "item_103")
  ]

  /** The `CAT` column. */
  function CategoryColumn(rows: seq<InventoryRow>): (col: seq<string>)
    ensures |col| == |rows|
    ensures forall i :: 0 <= i < |rows| ==> col[i] == rows[i].category
  {
    seq(|rows|, i requires 0 <= i < |rows| => rows[i].category)
  }

  /** `unique()`: each value once, at its first appearance. */
  function Unique(s: seq<string>): seq<string>
  {
    if s == [] then []
    else
      var before := Unique(s[..|s| - 1]);
      if s[|s| - 1] in before then before else before + [s[|s| - 1]]
  }

  /** The position of the first occurrence of `x` in `s`. */
  function FirstIndex(s: seq<string>, x: string): (k: nat)
    requires x in s
    ensures k < |s| && s[k] == x && x !in s[..k]
  {
    if s[0] == x then 0 else 1 + FirstIndex(s[1..], x)
  }

  /** The `ITEM` column of the rows in `category`, in table order. */
  function ItemsOf(rows: seq<InventoryRow>, category: string): seq<string>
  {
    if rows == [] then []
    else
      var last := rows[|rows| - 1];
      ItemsOf(rows[..|rows| - 1], category) + (if last.category == category then [last.item] else [])
  }

  /** The entries of `selection` that are also in `available`, in selection order. */
  function KeptItems(selection: seq<string>, available: seq<string>): seq<string>
  {
    if selection == [] then []
    else
      var last := selection[|selection| - 1];
      KeptItems(selection[..|selection| - 1], available) + (if last in available then [last] else [])
  }

  // ---------------------------------------------------------------------
  // Unique

  /** Unique keeps exactly the values of its input. */
  lemma {:induction false} UniqueMembers(s: seq<string>)
    ensures forall x :: x in Unique(s) <==> x in s
  {
    if s != [] {
      UniqueMembers(s[..|s| - 1]);
      assert s == s[..|s| - 1] + [s[|s| - 1]];
    }
  }

  /** Unique lists no value twice. */
  lemma {:induction false} UniqueNoDuplicates(s: seq<string>)
    ensures forall i, j :: 0 <= i < j < |Unique(s)| ==> Unique(s)[i] != Unique(s)[j]
  {
    if s != [] {
      UniqueNoDuplicates(s[..|s| - 1]);
    }
  }

  /** Unique starts with the first value of a non-empty input. */
  lemma {:induction false} UniqueHead(s: seq<string>)
    requires s != []
    ensures Unique(s) != [] && Unique(s)[0] == s[0]
  {
    if |s| > 1 {
      var init := s[..|s| - 1];
      UniqueHead(init);
      assert init[0] == s[0];
    }
  }

  /** Appending a value does not move the first occurrence of an earlier one. */
  lemma {:induction false} FirstIndexOfPrefix(s: seq<string>, y: string, x: string)
    requires x in s
    ensures x in s + [y] && FirstIndex(s + [y], x) == FirstIndex(s, x)
  {
    if s[0] != x {
      assert (s + [y])[1..] == s[1..] + [y];
      FirstIndexOfPrefix(s[1..], y, x);
    }
  }

  /** Unique lists values in the order of their first appearance. */
  lemma {:induction false} UniqueFirstAppearanceOrder(s: seq<string>)
    ensures forall i, j :: 0 <= i < j < |Unique(s)| ==>
      Unique(s)[i] in s && Unique(s)[j] in s && FirstIndex(s, Unique(s)[i]) < FirstIndex(s, Unique(s)[j])
  {
    UniqueMembers(s);
    if s != [] {
      var init, y := s[..|s| - 1], s[|s| - 1];
      assert s == init + [y];
      UniqueFirstAppearanceOrder(init);
      UniqueMembers(init);
      var u, r := Unique(init), Unique(s);
      forall i, j | 0 <= i < j < |r|
        ensures r[i] in s && r[j] in s && FirstIndex(s, r[i]) < FirstIndex(s, r[j])
      {
        FirstIndexOfPrefix(init, y, u[i]);
        if j < |u| {
          FirstIndexOfPrefix(init, y, u[j]);
        } else {
          // r[j] is y, new in s: its first occurrence is the last position.
          assert r[j] == y && y !in init;
          assert FirstIndex(s, y) == |init|;
        }
      }
    }
  }

  // ---------------------------------------------------------------------
  // ItemsOf

  /** An item is listed for a category exactly when the inventory has that row. */
  lemma {:induction false} ItemsOfMembers(rows: seq<InventoryRow>, category: string)
    ensures forall x :: x in ItemsOf(rows, category) <==> InventoryRow(category, x) in rows
  {
    if rows != [] {
      ItemsOfMembers(rows[..|rows| - 1], category);
      assert rows == rows[..|rows| - 1] + [rows[|rows| - 1]];
    }
  }

  /** Filtering keeps table order: the items of a table split in two are the
      items of the first part followed by those of the second. */
  lemma {:induction false} ItemsOfAppend(rows: seq<InventoryRow>, more: seq<InventoryRow>, category: string)
    ensures ItemsOf(rows + more, category) == ItemsOf(rows, category) + ItemsOf(more, category)
  {
    if more != [] {
      var all := rows + more;
      assert all[..|all| - 1] == rows + more[..|more| - 1];
      ItemsOfAppend(rows, more[..|more| - 1], category);
    } else {
      assert rows + more == rows;
    }
  }

  /** Every category in the table has at least one item. */
  lemma CategoryHasItems(rows: seq<InventoryRow>, category: string)
    requires category in CategoryColumn(rows)
    ensures ItemsOf(rows, category) != []
  {
    var i :| 0 <= i < |rows| && rows[i].category == category;
    ItemsOfMembers(rows, category);
    assert rows[i] == InventoryRow(category, rows[i].item);
    assert rows[i].item in ItemsOf(rows, category);
  }

  // ---------------------------------------------------------------------
  // KeptItems

  /** A value survives the filter exactly when it was selected and is available. */
  lemma {:induction false} KeptItemsMembers(selection: seq<string>, available: seq<string>)
    ensures forall x :: x in KeptItems(selection, available) <==> x in selection && x in available
  {
    if selection != [] {
      KeptItemsMembers(selection[..|selection| - 1], available);
      assert selection == selection[..|selection| - 1] + [selection[|selection| - 1]];
    }
  }

  /** The filter keeps selection order. */
  lemma {:induction false} KeptItemsAppend(selection: seq<string>, more: seq<string>, available: seq<string>)
    ensures KeptItems(selection + more, available) == KeptItems(selection, available) + KeptItems(more, available)
  {
    if more != [] {
      var all := selection + more;
      assert all[..|all| - 1] == selection + more[..|more| - 1];
      KeptItemsAppend(selection, more[..|more| - 1], available);
    } else {
      assert selection + more == selection;
    }
  }

  /** A selection made wholly of available items passes unchanged. */
  lemma {:induction false} KeptItemsAllAvailable(selection: seq<string>, available: seq<string>)
    requires forall x :: x in selection ==> x in available
    ensures KeptItems(selection, available) == selection
  {
    if selection != [] {
      var init := selection[..|selection| - 1];
      KeptItemsAllAvailable(init, available);
      assert selection == init + [selection[|selection| - 1]];
    }
  }

  // ---------------------------------------------------------------------
  // The concrete inventory

  /** The category dropdown of the demo offers "cat_a" then "cat_b". */
  lemma InventoryCategories()
    ensures Unique(CategoryColumn(InventoryRows)) == ["cat_a", "cat_b"]
  {
    var col := CategoryColumn(InventoryRows);
    assert col == ["cat_a", "cat_a", "cat_a", "cat_a", "cat_b", "cat_b", "cat_b", "cat_b", "cat_b"];
    assert Unique(col[..1]) == ["cat_a"];
    assert Unique(col[..2]) == ["cat_a"] by {
      assert col[..2][..1] == col[..1];
    }
    assert Unique(col[..3]) == ["cat_a"] by {
      assert col[..3][..2] == col[..2];
    }
    assert Unique(col[..4]) == ["cat_a"] by {
      assert col[..4][..3] == col[..3];
    }
    assert Unique(col[..5]) == ["cat_a", "cat_b"] by {
      assert col[..5][..4] == col[..4];
    }
    assert Unique(col[..6]) == ["cat_a", "cat_b"] by {
      assert col[..6][..5] == col[..5];
    }
    assert Unique(col[..7]) == ["cat_a", "cat_b"] by {
      assert col[..7][..6] == col[..6];
    }
    assert Unique(col[..8]) == ["cat_a", "cat_b"] by {
      assert col[..8][..7] == col[..7];
    }
    assert col[..|col| - 1] == col[..8];
    assert Unique(col) == ["cat_a", "cat_b"];
  }
}
