/** The derived cart values: `itemCount` and `total`, the two `reduce`
    expressions that store/hooks.ts (for the Redux cart) and
    contexts/CartContext.tsx (for the context cart) both compute from `items`
    alone. */
module CartTotals {
  import opened Types
  import opened CartLines

  /** `items.reduce((sum, item) => sum + item.quantity, sum)`. */
  function SumQuantities(items: seq<CartItem>, sum: int): int {
    if items == [] then sum else SumQuantities(items[1..], sum + items[0].quantity)
  }

  /** `items.reduce((sum, item) => sum + item.product.price * item.quantity, sum)`. */
  function SumAmounts(items: seq<CartItem>, sum: int): int {
    if items == [] then sum
    else SumAmounts(items[1..], sum + items[0].product.price * items[0].quantity)
  }

  function ItemCount(items: seq<CartItem>): int {
    SumQuantities(items, 0)
  }

  function Total(items: seq<CartItem>): int {
    SumAmounts(items, 0)
  }

  lemma {:induction false} SumQuantitiesFrom(items: seq<CartItem>, sum: int)
    ensures SumQuantities(items, sum) == sum + ItemCount(items)
  {
    if items != [] {
      SumQuantitiesFrom(items[1..], sum + items[0].quantity);
      SumQuantitiesFrom(items[1..], items[0].quantity);
    }
  }

  lemma {:induction false} SumAmountsFrom(items: seq<CartItem>, sum: int)
    ensures SumAmounts(items, sum) == sum + Total(items)
  {
    if items != [] {
      var first := items[0].product.price * items[0].quantity;
      SumAmountsFrom(items[1..], sum + first);
      SumAmountsFrom(items[1..], first);
    }
  }

  /** The item count of two line lists put together is the sum of their counts;
      with `ItemCount([line]) == line.quantity` this makes it the sum of all
      quantities. */
  lemma {:induction false} ItemCountConcat(a: seq<CartItem>, b: seq<CartItem>)
    ensures ItemCount(a + b) == ItemCount(a) + ItemCount(b)
  {
    if a == [] {
      assert a + b == b;
    } else {
      assert (a + b)[0] == a[0] && (a + b)[1..] == a[1..] + b;
      SumQuantitiesFrom(a + b, 0);
      SumQuantitiesFrom((a + b)[1..], a[0].quantity);
      SumQuantitiesFrom(a[1..], a[0].quantity);
      ItemCountConcat(a[1..], b);
    }
  }

  /** The total of two line lists put together is the sum of their totals. */
  lemma {:induction false} TotalConcat(a: seq<CartItem>, b: seq<CartItem>)
    ensures Total(a + b) == Total(a) + Total(b)
  {
    if a == [] {
      assert a + b == b;
    } else {
      var first := a[0].product.price * a[0].quantity;
      assert (a + b)[0] == a[0] && (a + b)[1..] == a[1..] + b;
      SumAmountsFrom((a + b)[1..], first);
      SumAmountsFrom(a[1..], first);
      TotalConcat(a[1..], b);
    }
  }

  lemma SingleLine(line: CartItem)
    ensures ItemCount([line]) == line.quantity
    ensures Total([line]) == line.product.price * line.quantity
  {
    assert [line][1..] == [];
    assert SumQuantities([line], 0) == SumQuantities([], line.quantity);
    assert SumAmounts([line], 0) == SumAmounts([], line.product.price * line.quantity);
  }

  /** Appending a line adds exactly its quantity to the item count and its
      price times quantity to the total; the empty cart has both at 0. */
  lemma AppendLine(items: seq<CartItem>, line: CartItem)
    ensures ItemCount(items + [line]) == ItemCount(items) + line.quantity
    ensures Total(items + [line]) == Total(items) + line.product.price * line.quantity
    ensures ItemCount([]) == 0 && Total([]) == 0
  {
    ItemCountConcat(items, [line]);
    TotalConcat(items, [line]);
    SingleLine(line);
  }

  /** Changing the quantity of line `k` moves the item count by the change in
      quantity and the total by the price times that change. */
  lemma SetQuantityTotals(items: seq<CartItem>, k: nat, q: int)
    requires k < |items|
    ensures ItemCount(items[k := items[k].(quantity := q)]) == ItemCount(items) - items[k].quantity + q
    ensures Total(items[k := items[k].(quantity := q)])
         == Total(items) - items[k].product.price * items[k].quantity + items[k].product.price * q
  {
    var after := items[k := items[k].(quantity := q)];
    assert items == items[..k] + [items[k]] + items[k + 1..];
    assert after == items[..k] + [after[k]] + items[k + 1..];
    ItemCountConcat(items[..k] + [items[k]], items[k + 1..]);
    ItemCountConcat(items[..k], [items[k]]);
    ItemCountConcat(items[..k] + [after[k]], items[k + 1..]);
    ItemCountConcat(items[..k], [after[k]]);
    TotalConcat(items[..k] + [items[k]], items[k + 1..]);
    TotalConcat(items[..k], [items[k]]);
    TotalConcat(items[..k] + [after[k]], items[k + 1..]);
    TotalConcat(items[..k], [after[k]]);
    SingleLine(items[k]);
    SingleLine(after[k]);
  }

  /** With unique ids, removing the line for `id` takes exactly that line's
      quantity off the item count and its amount off the total; removing an id
      with no line changes neither. */
  lemma RemoveTotals(items: seq<CartItem>, id: string)
    requires UniqueIds(items)
    ensures IndexOf(items, id).None? ==>
      ItemCount(WithoutId(items, id)) == ItemCount(items) && Total(WithoutId(items, id)) == Total(items)
    ensures IndexOf(items, id).Some? ==>
      var line := items[IndexOf(items, id).value];
      ItemCount(WithoutId(items, id)) == ItemCount(items) - line.quantity
      && Total(WithoutId(items, id)) == Total(items) - line.product.price * line.quantity
  {
    match IndexOf(items, id)
    case None => WithoutAbsentId(items, id);
    case Some(k) =>
      WithoutIdAt(items, id, k);
      assert items == items[..k] + [items[k]] + items[k + 1..];
      ItemCountConcat(items[..k] + [items[k]], items[k + 1..]);
      ItemCountConcat(items[..k], [items[k]]);
      ItemCountConcat(items[..k], items[k + 1..]);
      TotalConcat(items[..k] + [items[k]], items[k + 1..]);
      TotalConcat(items[..k], [items[k]]);
      TotalConcat(items[..k], items[k + 1..]);
      SingleLine(items[k]);
  }
}
