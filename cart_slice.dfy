/** The Redux cart slice (store/cartSlice.ts): a cart whose reducers change the
    line list and the panel flag in place. */
module CartSlice {
  import opened Types
  import opened CartLines
  import opened CartTotals

  /** The lines after `addItem` of an in-stock product: an existing line (the
      first with that id) gets the clamped sum, otherwise a new line goes at
      the end with the requested quantity, unclamped. */
  function Added(items: seq<CartItem>, p: Product, q: int): seq<CartItem> {
    match IndexOf(items, p.id)
    case Some(i) => items[i := items[i].(quantity := Clamped(items[i].quantity, q, StockCap(p)))]
    case None => items + [CartItem(p, q)]
  }

  /** The lines after `updateQuantity`: below 1 the product's lines are
      filtered out, otherwise the first line with that id gets exactly `q`. */
  function Updated(items: seq<CartItem>, id: string, q: int): seq<CartItem> {
    if q < 1 then WithoutId(items, id)
    else match IndexOf(items, id)
      case Some(i) => items[i := items[i].(quantity := q)]
      case None => items
  }

  /** `addItem` on a product already in the cart leaves every other line alone
      and sets that line, still holding the product it was first added with,
      to min(old + q, cap), which never exceeds the cap; on a product not in
      the cart it appends one line of quantity `q` at the end. Either way ids
      stay unique. */
  lemma AddedLines(items: seq<CartItem>, p: Product, q: int)
    requires UniqueIds(items)
    ensures var r := Added(items, p, q);
      UniqueIds(r)
      && (IndexOf(items, p.id).Some? ==>
            var i := IndexOf(items, p.id).value;
            |r| == |items|
            && r[i].product == items[i].product
            && r[i].quantity == (if items[i].quantity + q <= StockCap(p) then items[i].quantity + q else StockCap(p))
            && r[i].quantity <= StockCap(p)
            && forall j :: 0 <= j < |items| && j != i ==> r[j] == items[j])
      && (IndexOf(items, p.id).None? ==> r == items + [CartItem(p, q)])
  {
    match IndexOf(items, p.id)
    case Some(i) => SetQuantityUnique(items, i, Clamped(items[i].quantity, q, StockCap(p)));
    case None => AppendUnique(items, CartItem(p, q));
  }

  /** `addItem` moves the item count by exactly the change in the product's
      quantity and the total by its price times that change; for a new line
      that is the requested quantity. */
  lemma AddedTotals(items: seq<CartItem>, p: Product, q: int)
    ensures IndexOf(items, p.id).None? ==>
      ItemCount(Added(items, p, q)) == ItemCount(items) + q
      && Total(Added(items, p, q)) == Total(items) + p.price * q
    ensures IndexOf(items, p.id).Some? ==>
      var line := items[IndexOf(items, p.id).value];
      var after := Clamped(line.quantity, q, StockCap(p));
      ItemCount(Added(items, p, q)) == ItemCount(items) - line.quantity + after
      && Total(Added(items, p, q)) == Total(items) - line.product.price * line.quantity + line.product.price * after
  {
    match IndexOf(items, p.id)
    case Some(i) => SetQuantityTotals(items, i, Clamped(items[i].quantity, q, StockCap(p)));
    case None => AppendLine(items, CartItem(p, q));
  }

  /** `updateQuantity` below 1 removes the product's line, so no line of
      quantity 0 or less is left behind for it; from 1 up it sets the line to
      exactly `q`, with no stock-cap check; an unknown id changes nothing. Ids
      stay unique. */
  lemma UpdatedLines(items: seq<CartItem>, id: string, q: int)
    requires UniqueIds(items)
    ensures var r := Updated(items, id, q);
      UniqueIds(r)
      && (q < 1 ==> IndexOf(r, id).None? && (IndexOf(items, id).Some? ==>
            r == items[..IndexOf(items, id).value] + items[IndexOf(items, id).value + 1..]))
      && (q >= 1 && IndexOf(items, id).Some? ==>
            var i := IndexOf(items, id).value;
            |r| == |items| && r[i].quantity == q && r[i].product == items[i].product
            && forall j :: 0 <= j < |items| && j != i ==> r[j] == items[j])
      && (IndexOf(items, id).None? ==> r == items)
  {
    if q < 1 {
      WithoutIdUnique(items, id);
      match IndexOf(items, id)
      case Some(i) => WithoutIdAt(items, id, i);
      case None => WithoutAbsentId(items, id);
    } else {
      match IndexOf(items, id)
      case Some(i) => SetQuantityUnique(items, i, q);
      case None =>
    }
  }

  /** The scenario of a sofa with 2 in stock added three times, one at a time:
      the third add is clamped to 2 and warns. */
  lemma ClampScenario(sofa: Product)
    requires sofa.inStock && sofa.stockCount == Some(2)
    ensures Added(Added([], sofa, 1), sofa, 1) == [CartItem(sofa, 2)]
    ensures Added(Added(Added([], sofa, 1), sofa, 1), sofa, 1) == [CartItem(sofa, 2)]
    ensures AddNotice(Added(Added([], sofa, 1), sofa, 1), sofa, 1) == OnlyAvailable(2)
  {
    assert Added([], sofa, 1) == [CartItem(sofa, 1)];
    assert IndexOf([CartItem(sofa, 1)], sofa.id) == Some(0);
    assert IndexOf([CartItem(sofa, 2)], sofa.id) == Some(0);
  }

  /** The cart state of the Redux store: `items` and `isOpen`. */
  class CartState {
    var items: seq<CartItem>
    var isOpen: bool

    /** At most one line per product id. */
    ghost predicate Valid()
      reads this
    {
      UniqueIds(items)
    }

    /** `initialState`: no lines, panel closed. */
    constructor ()
      ensures Valid() && items == [] && !isOpen
    {
      items := [];
      isOpen := false;
    }

    /** `addItem`: out of stock changes nothing; otherwise the line is clamped or
        appended. The panel flag is never touched. */
    method AddItem(product: Product, quantity: Option<int>) returns (notice: Notice)
      requires Valid()
      modifies this
      ensures Valid()
      ensures isOpen == old(isOpen)
      ensures items == if product.inStock then Added(old(items), product, Requested(quantity)) else old(items)
      ensures notice == AddNotice(old(items), product, Requested(quantity))
    {
      var q := Requested(quantity);
      if !product.inStock {
        notice := OutOfStock;
        return;
      }
      AddedLines(items, product, q);
      match IndexOf(items, product.id)
      case Some(i) =>
        var newQuantity := items[i].quantity + q;
        var maxQuantity := StockCap(product);
        if newQuantity > maxQuantity {
          notice := OnlyAvailable(maxQuantity);
          items := items[i := items[i].(quantity := maxQuantity)];
          return;
        }
        items := items[i := items[i].(quantity := newQuantity)];
        notice := QuantityUpdated;
      case None =>
        items := items + [CartItem(product, q)];
        notice := ItemAdded;
    }

    /** `removeItem`: drops the product's line, keeping the others in order. */
    method RemoveItem(id: string) returns (notice: Notice)
      requires Valid()
      modifies this
      ensures Valid()
      ensures isOpen == old(isOpen)
      ensures items == WithoutId(old(items), id)
      ensures notice == ItemRemoved
    {
      WithoutIdUnique(items, id);
      items := WithoutId(items, id);
      notice := ItemRemoved;
    }

    /** `updateQuantity`: below 1 the line is filtered out (without a toast);
        otherwise the found line gets exactly `quantity`. */
    method UpdateQuantity(id: string, quantity: int)
      requires Valid()
      modifies this
      ensures Valid()
      ensures isOpen == old(isOpen)
      ensures items == Updated(old(items), id, quantity)
    {
      UpdatedLines(items, id, quantity);
      if quantity < 1 {
        items := WithoutId(items, id);
        return;
      }
      match IndexOf(items, id)
      case Some(i) => items := items[i := items[i].(quantity := quantity)];
      case None =>
    }

    /** `clearCart`: no lines; the panel flag is kept. */
    method ClearCart() returns (notice: Notice)
      modifies this
      ensures Valid()
      ensures items == [] && isOpen == old(isOpen)
      ensures notice == CartCleared
    {
      items := [];
      notice := CartCleared;
    }

    /** `openCart`: only the panel flag changes. */
    method OpenCart()
      modifies this
      ensures isOpen && items == old(items)
    {
      isOpen := true;
    }

    /** `closeCart`: only the panel flag changes. */
    method CloseCart()
      modifies this
      ensures !isOpen && items == old(items)
    {
      isOpen := false;
    }
  }
}
