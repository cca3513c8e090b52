/**
 * The two loops of the product service that fold joined query rows into a
 * map: GetVariantOptions groups variant options by attribute (variantMap) and
 * GetCartItems collects one cart item per SKU with its attributes (cartMap),
 * summing the line totals of the SKUs as it meets them.
 * Each loop is a method proved against reference definitions on the rows.
 */
module ProductGrouping {
  import opened Wrappers
  import opened GoRuntime

  // ---------------------------------------------------------------------------
  // GetVariantOptions

  /** One row of the variant-option query; linkedSkuIds is a GROUP_CONCAT of SKU ids. */
  datatype VariantRow = VariantRow(
    attributeId: int, attributeName: string, attributeCode: string,
    optionId: int, optionValue: string, optionCode: string, linkedSkuIds: string)

  datatype VariantOption = VariantOption(
    optionId: int, optionValue: string, optionCode: string, linkedSkuIds: seq<string>)

  datatype VariantGroup = VariantGroup(
    attributeId: int, attributeName: string, attributeCode: string, options: seq<VariantOption>)

  /** The option a row contributes; its linked SKU ids are split at the commas. */
  function OptionOf(row: VariantRow): (o: VariantOption)
    ensures o.optionId == row.optionId && o.optionValue == row.optionValue && o.optionCode == row.optionCode
    ensures |o.linkedSkuIds| >= 1 && JoinComma(o.linkedSkuIds) == row.linkedSkuIds
  {
    JoinSplit(row.linkedSkuIds);
    VariantOption(row.optionId, row.optionValue, row.optionCode, SplitComma(row.linkedSkuIds))
  }

  /** The attribute ids that occur in the rows. */
  function AttributeIds(rows: seq<VariantRow>): set<int>
  {
    set i | 0 <= i < |rows| :: rows[i].attributeId
  }

  /** The first row of attribute a, which names its group. */
  function FirstRowOf(rows: seq<VariantRow>, a: int): (r: Option<VariantRow>)
    ensures r.None? <==> a !in AttributeIds(rows)
    ensures r.Some? ==>
      exists i :: 0 <= i < |rows| && rows[i] == r.value && forall j :: 0 <= j < i ==> rows[j].attributeId != a
    ensures r.Some? ==> r.value.attributeId == a
  {
    if rows == [] then None
    else
      var init := rows[..|rows| - 1];
      var last := rows[|rows| - 1];
      assert AttributeIds(rows) == AttributeIds(init) + {last.attributeId};
      match FirstRowOf(init, a)
      case Some(row) => Some(row)
      case None => if last.attributeId == a then Some(last) else None
  }

  /** The options of attribute a, in row order. */
  function OptionsFor(rows: seq<VariantRow>, a: int): (opts: seq<VariantOption>)
    ensures |opts| <= |rows|
    ensures a !in AttributeIds(rows) ==> opts == []
  {
    if rows == [] then []
    else
      var init := rows[..|rows| - 1];
      var last := rows[|rows| - 1];
      assert AttributeIds(rows) == AttributeIds(init) + {last.attributeId};
      OptionsFor(init, a) + (if last.attributeId == a then [OptionOf(last)] else [])
  }

  /** The group of attribute a as the rows determine it. */
  predicate IsGroupOf(g: VariantGroup, rows: seq<VariantRow>, a: int)
  {
    && FirstRowOf(rows, a).Some?
    && g.attributeId == a
    && g.attributeName == FirstRowOf(rows, a).value.attributeName
    && g.attributeCode == FirstRowOf(rows, a).value.attributeCode
    && g.options == OptionsFor(rows, a)
  }

  /**
   * The variantMap loop: one group per attribute id, named after the first row
   * of that attribute, holding that attribute's options in row order.
   */
  method GroupVariantOptions(rows: seq<VariantRow>) returns (groups: map<int, VariantGroup>)
    ensures groups.Keys == AttributeIds(rows)
    ensures forall a :: a in groups ==> IsGroupOf(groups[a], rows, a)
  {
    groups := map[];
    for i := 0 to |rows|
      invariant groups.Keys == AttributeIds(rows[..i])
      invariant forall a :: a in groups ==> IsGroupOf(groups[a], rows[..i], a)
    {
      var v := rows[i];
      ghost var before := groups;
      assert rows[..i + 1] == rows[..i] + [v];
      AddVariantRowGroups(rows[..i], v, groups);
      var group;
      if v.attributeId in groups {
        group := groups[v.attributeId];
      } else {
        group := VariantGroup(v.attributeId, v.attributeName, v.attributeCode, []);
      }
      group := group.(options := group.options + [OptionOf(v)]);
      groups := groups[v.attributeId := group];
      assert groups == AddVariantRow(before, v);
    }
    assert rows[..|rows|] == rows;
  }

  /** One pass of the variantMap loop: open the row's attribute if it is new, then append the row's option. */
  function AddVariantRow(groups: map<int, VariantGroup>, v: VariantRow): map<int, VariantGroup>
  {
    var group := if v.attributeId in groups then groups[v.attributeId]
      else VariantGroup(v.attributeId, v.attributeName, v.attributeCode, []);
    groups[v.attributeId := group.(options := group.options + [OptionOf(v)])]
  }

  /** A pass keeps the map equal to the grouping of the rows seen so far. */
  lemma AddVariantRowGroups(done: seq<VariantRow>, v: VariantRow, groups: map<int, VariantGroup>)
    requires groups.Keys == AttributeIds(done)
    requires forall a :: a in groups ==> IsGroupOf(groups[a], done, a)
    ensures AddVariantRow(groups, v).Keys == AttributeIds(done + [v])
    ensures forall a :: a in AddVariantRow(groups, v) ==> IsGroupOf(AddVariantRow(groups, v)[a], done + [v], a)
  {
    var rows := done + [v];
    assert AttributeIds(rows) == AttributeIds(done) + {v.attributeId} by {
      assert rows[|done|] == v;
      assert forall i :: 0 <= i < |done| ==> rows[i] == done[i];
    }
    forall a | a in AddVariantRow(groups, v) ensures IsGroupOf(AddVariantRow(groups, v)[a], rows, a) {
      AddVariantRowGroup(done, v, groups, a);
    }
  }

  /** The group of one attribute after a pass. */
  lemma AddVariantRowGroup(done: seq<VariantRow>, v: VariantRow, groups: map<int, VariantGroup>, a: int)
    requires groups.Keys == AttributeIds(done)
    requires a in groups ==> IsGroupOf(groups[a], done, a)
    requires a in AddVariantRow(groups, v)
    ensures IsGroupOf(AddVariantRow(groups, v)[a], done + [v], a)
  {
    AppendVariantRow(done, v, a);
    if a != v.attributeId {
      assert AddVariantRow(groups, v)[a] == groups[a];
    } else if a in groups {
      assert AddVariantRow(groups, v)[a] == groups[a].(options := groups[a].options + [OptionOf(v)]);
    } else {
      assert OptionsFor(done, a) == [];
      assert AddVariantRow(groups, v)[a] == VariantGroup(a, v.attributeName, v.attributeCode, [OptionOf(v)]);
    }
  }

  /** Appending a row changes only its own attribute: it opens the attribute if new and adds the row's option. */
  lemma AppendVariantRow(done: seq<VariantRow>, v: VariantRow, a: int)
    ensures FirstRowOf(done + [v], a)
      == if FirstRowOf(done, a).Some? then FirstRowOf(done, a) else if v.attributeId == a then Some(v) else None
    ensures OptionsFor(done + [v], a) == OptionsFor(done, a) + (if v.attributeId == a then [OptionOf(v)] else [])
  {
    var rows := done + [v];
    assert rows[..|rows| - 1] == done;
    assert rows[|rows| - 1] == v;
  }

  /** Every option lands in its own attribute's group: the options of a concatenation are those of each part. */
  lemma {:induction false} OptionsForAppend(rows: seq<VariantRow>, more: seq<VariantRow>, a: int)
    ensures OptionsFor(rows + more, a) == OptionsFor(rows, a) + OptionsFor(more, a)
    decreases |more|
  {
    if more == [] {
      assert rows + more == rows;
    } else {
      var init := more[..|more| - 1];
      assert (rows + more)[..|rows + more| - 1] == rows + init;
      OptionsForAppend(rows, init, a);
    }
  }

  /** The number of options over the groups of the given attribute ids. */
  function OptionCount(rows: seq<VariantRow>, ids: seq<int>): nat
  {
    if ids == [] then 0 else |OptionsFor(rows, ids[0])| + OptionCount(rows, ids[1..])
  }

  predicate Distinct(ids: seq<int>)
  {
    forall i, j :: 0 <= i < j < |ids| ==> ids[i] != ids[j]
  }

  /**
   * No option is lost or duplicated: over the distinct attribute ids of the
   * rows, the group sizes add up to the number of rows.
   */
  lemma {:induction false} OptionCountsAddUp(rows: seq<VariantRow>, ids: seq<int>)
    requires Distinct(ids) && AttributeIds(rows) <= set a | a in ids
    ensures OptionCount(rows, ids) == |rows|
    decreases |rows|
  {
    if rows == [] {
      OptionCountEmpty(ids);
    } else {
      var init := rows[..|rows| - 1];
      var last := rows[|rows| - 1];
      assert AttributeIds(rows) == AttributeIds(init) + {last.attributeId};
      assert rows == init + [last];
      OptionCountsAddUp(init, ids);
      OptionCountStep(init, last, ids);
    }
  }

  lemma {:induction false} OptionCountEmpty(ids: seq<int>)
    ensures OptionCount([], ids) == 0
  {
    if ids != [] {
      OptionCountEmpty(ids[1..]);
    }
  }

  lemma {:induction false} OptionCountStep(rows: seq<VariantRow>, last: VariantRow, ids: seq<int>)
    requires Distinct(ids)
    ensures OptionCount(rows + [last], ids) ==
      OptionCount(rows, ids) + (if last.attributeId in ids then 1 else 0)
  {
    if ids != [] {
      assert (rows + [last])[..|rows + [last]| - 1] == rows;
      OptionCountStep(rows, last, ids[1..]);
      if last.attributeId == ids[0] {
        assert last.attributeId !in ids[1..];
      } else {
        assert last.attributeId in ids <==> last.attributeId in ids[1..];
      }
    }
  }

  // ---------------------------------------------------------------------------
  // GetCartItems

  /**
   * One row of the cart query: a SKU in the user's cart joined with one of its
   * attributes (attributeId 0 when the join found none). Amounts are whole yen.
   */
  datatype CartScanRow = CartScanRow(
    sku: string, productId: string, productName: string, productCode: string,
    quantity: int, amount: int, attributeId: int, attributeName: string,
    optionId: Option<int>, optionValue: Option<string>, valueString: Option<string>,
    stockStatus: string)

  datatype AttributeInfo = AttributeInfo(
    attributeId: int, attributeName: string, optionId: Option<int>,
    optionValue: Option<string>, valueString: Option<string>)

  datatype CartItem = CartItem(
    sku: string, productId: string, productName: string, productCode: string,
    quantity: int, amount: int, attributes: seq<AttributeInfo>, stockStatus: string)

  function SkuIds(rows: seq<CartScanRow>): set<string>
  {
    set i | 0 <= i < |rows| :: rows[i].sku
  }

  /** The first row of a SKU, which supplies its item's fields. */
  function FirstCartRow(rows: seq<CartScanRow>, sku: string): (r: Option<CartScanRow>)
    ensures r.None? <==> sku !in SkuIds(rows)
    ensures r.Some? ==>
      exists i :: 0 <= i < |rows| && rows[i] == r.value && forall j :: 0 <= j < i ==> rows[j].sku != sku
    ensures r.Some? ==> r.value.sku == sku
  {
    if rows == [] then None
    else
      var init := rows[..|rows| - 1];
      var last := rows[|rows| - 1];
      assert SkuIds(rows) == SkuIds(init) + {last.sku};
      match FirstCartRow(init, sku)
      case Some(row) => Some(row)
      case None => if last.sku == sku then Some(last) else None
  }

  function AttributeOf(row: CartScanRow): AttributeInfo
  {
    AttributeInfo(row.attributeId, row.attributeName, row.optionId, row.optionValue, row.valueString)
  }

  /** The attributes of a SKU: those of its rows that carry one (a non-zero id), in row order. */
  function AttributesFor(rows: seq<CartScanRow>, sku: string): (attrs: seq<AttributeInfo>)
    ensures forall k :: 0 <= k < |attrs| ==> attrs[k].attributeId != 0
    ensures |attrs| <= |rows|
    ensures sku !in SkuIds(rows) ==> attrs == []
  {
    if rows == [] then []
    else
      var init := rows[..|rows| - 1];
      var last := rows[|rows| - 1];
      assert SkuIds(rows) == SkuIds(init) + {last.sku};
      AttributesFor(init, sku)
        + (if last.sku == sku && last.attributeId != 0 then [AttributeOf(last)] else [])
  }

  /** The cart item of a SKU as the rows determine it. */
  predicate IsItemOf(item: CartItem, rows: seq<CartScanRow>, sku: string)
  {
    && FirstCartRow(rows, sku).Some?
    && item == ItemFrom(FirstCartRow(rows, sku).value, AttributesFor(rows, sku))
  }

  /** The item a row opens, with the given attributes. */
  function ItemFrom(r: CartScanRow, attributes: seq<AttributeInfo>): CartItem
  {
    CartItem(r.sku, r.productId, r.productName, r.productCode, r.quantity, r.amount, attributes, r.stockStatus)
  }

  /** The line total of a row: price times quantity. */
  function LineTotal(row: CartScanRow): int
  {
    row.amount * row.quantity
  }

  /** The cart total: the line total of each SKU's first row, the later rows of a SKU adding nothing. */
  function CartTotal(rows: seq<CartScanRow>): int
  {
    if rows == [] then 0
    else
      var init := rows[..|rows| - 1];
      var last := rows[|rows| - 1];
      CartTotal(init) + (if last.sku in SkuIds(init) then 0 else LineTotal(last))
  }

  /** The sum of the line totals of all rows. */
  function SumLines(rows: seq<CartScanRow>): int
  {
    if rows == [] then 0 else SumLines(rows[..|rows| - 1]) + LineTotal(rows[|rows| - 1])
  }

  /** One pass of the cartMap loop: open the row's SKU if it is new, then append the row's attribute if it has one. */
  function AddCartRow(items: map<string, CartItem>, p: CartScanRow): map<string, CartItem>
  {
    var withSku := if p.sku in items then items else items[p.sku := ItemFrom(p, [])];
    if p.attributeId != 0 then
      withSku[p.sku := withSku[p.sku].(attributes := withSku[p.sku].attributes + [AttributeOf(p)])]
    else withSku
  }

  /** A pass keeps the map equal to the grouping of the rows seen so far. */
  lemma AddCartRowGroups(done: seq<CartScanRow>, p: CartScanRow, items: map<string, CartItem>)
    requires items.Keys == SkuIds(done)
    requires forall s :: s in items ==> IsItemOf(items[s], done, s)
    ensures AddCartRow(items, p).Keys == SkuIds(done + [p])
    ensures forall s :: s in AddCartRow(items, p) ==> IsItemOf(AddCartRow(items, p)[s], done + [p], s)
  {
    var rows := done + [p];
    assert SkuIds(rows) == SkuIds(done) + {p.sku} by {
      assert rows[|done|] == p;
      assert forall i :: 0 <= i < |done| ==> rows[i] == done[i];
    }
    forall s | s in AddCartRow(items, p) ensures IsItemOf(AddCartRow(items, p)[s], rows, s) {
      AddCartRowItem(done, p, items, s);
    }
  }

  /** The item of one SKU after a pass. */
  lemma AddCartRowItem(done: seq<CartScanRow>, p: CartScanRow, items: map<string, CartItem>, s: string)
    requires items.Keys == SkuIds(done)
    requires s in items ==> IsItemOf(items[s], done, s)
    requires s in AddCartRow(items, p)
    ensures IsItemOf(AddCartRow(items, p)[s], done + [p], s)
  {
    AppendCartRow(done, p, s);
    var extra := if p.attributeId != 0 then [AttributeOf(p)] else [];
    if s != p.sku {
      assert AddCartRow(items, p)[s] == items[s];
    } else if s in items {
      assert AddCartRow(items, p)[s] == items[s].(attributes := items[s].attributes + extra);
    } else {
      assert AttributesFor(done, s) == [];
      assert AddCartRow(items, p)[s] == ItemFrom(p, extra);
    }
  }

  /** Appending a row changes only its own SKU: it opens the SKU if new and adds the row's attribute. */
  lemma AppendCartRow(done: seq<CartScanRow>, p: CartScanRow, s: string)
    ensures FirstCartRow(done + [p], s)
      == if FirstCartRow(done, s).Some? then FirstCartRow(done, s) else if p.sku == s then Some(p) else None
    ensures AttributesFor(done + [p], s)
      == AttributesFor(done, s) + (if p.sku == s && p.attributeId != 0 then [AttributeOf(p)] else [])
  {
    var rows := done + [p];
    assert rows[..|rows| - 1] == done;
    assert rows[|rows| - 1] == p;
  }

  /**
   * The cartMap loop: one item per SKU, built from its first row, collecting
   * the attributes of all its rows; the total counts each SKU once.
   */
  method GroupCartItems(rows: seq<CartScanRow>) returns (items: map<string, CartItem>, total: int)
    ensures items.Keys == SkuIds(rows)
    ensures forall s :: s in items ==> IsItemOf(items[s], rows, s)
    ensures total == CartTotal(rows)
  {
    items := map[];
    total := 0;
    for i := 0 to |rows|
      invariant items.Keys == SkuIds(rows[..i])
      invariant forall s :: s in items ==> IsItemOf(items[s], rows[..i], s)
      invariant total == CartTotal(rows[..i])
    {
      var p := rows[i];
      ghost var before := items;
      assert rows[..i + 1] == rows[..i] + [p];
      AddCartRowGroups(rows[..i], p, items);
      if p.sku !in items {
        total := total + p.amount * p.quantity;
        items := items[p.sku := ItemFrom(p, [])];
      }
      if p.attributeId != 0 {
        var item := items[p.sku];
        items := items[p.sku := item.(attributes := item.attributes + [AttributeOf(p)])];
      }
      assert items == AddCartRow(before, p);
    }
    assert rows[..|rows|] == rows;
  }

  /** When every row is a different SKU, the total is the plain sum of the line totals. */
  lemma {:induction false} DistinctSkusTotal(rows: seq<CartScanRow>)
    requires forall i, j :: 0 <= i < j < |rows| ==> rows[i].sku != rows[j].sku
    ensures CartTotal(rows) == SumLines(rows)
  {
    if rows != [] {
      var init := rows[..|rows| - 1];
      DistinctSkusTotal(init);
      assert rows[|rows| - 1].sku !in SkuIds(init);
    }
  }

  /** Rows that repeat SKUs already seen (one per attribute of a SKU) do not change the total. */
  lemma {:induction false} RepeatedSkusAddNothing(rows: seq<CartScanRow>, more: seq<CartScanRow>)
    requires SkuIds(more) <= SkuIds(rows)
    ensures CartTotal(rows + more) == CartTotal(rows)
    decreases |more|
  {
    if more == [] {
      assert rows + more == rows;
    } else {
      var init := more[..|more| - 1];
      var last := more[|more| - 1];
      assert (rows + more)[..|rows + more| - 1] == rows + init;
      assert SkuIds(more) == SkuIds(init) + {last.sku};
      RepeatedSkusAddNothing(rows, init);
      assert last.sku in SkuIds(rows + init) by {
        var k :| 0 <= k < |rows| && rows[k].sku == last.sku;
        assert (rows + init)[k] == rows[k];
      }
    }
  }
}
