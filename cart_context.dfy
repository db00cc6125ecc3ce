/** The React-context cart (contexts/CartContext.tsx): `CartProvider` keeps
    `items` and `isOpen` in component state and replaces `items` through pure
    updaters built from `find`, `map`, `filter` and spread. A separate cart
    from the Redux one in CartSlice. */
module CartContext {
  import opened Types
  import opened CartLines
  import opened CartTotals
  import CartSlice

  /** `current.map(item => item.product.id === id ? { ...item, quantity: q } : item)`:
      every line of that product gets `q`. */
  function WithQuantity(current: seq<CartItem>, id: string, q: int): (r: seq<CartItem>)
    ensures |r| == |current|
  {
    seq(|current|, j requires 0 <= j < |current| =>
      if current[j].product.id == id then current[j].(quantity := q) else current[j])
  }

  /** The `setItems` updater of `addItem` for an in-stock product. */
  function AddedItems(current: seq<CartItem>, p: Product, q: int): seq<CartItem> {
    match IndexOf(current, p.id)
    case Some(i) =>
      var newQuantity := current[i].quantity + q;
      var maxQuantity := StockCap(p);
      if newQuantity > maxQuantity then WithQuantity(current, p.id, maxQuantity)
      else WithQuantity(current, p.id, newQuantity)
    case None => current + [CartItem(p, q)]
  }

  /** With unique ids the `map` touches exactly the one line of the product. */
  lemma WithQuantityAt(current: seq<CartItem>, id: string, q: int)
    requires UniqueIds(current)
    ensures IndexOf(current, id).None? ==> WithQuantity(current, id, q) == current
    ensures IndexOf(current, id).Some? ==>
      var i := IndexOf(current, id).value;
      WithQuantity(current, id, q) == current[i := current[i].(quantity := q)]
  {
  }

  /** On a cart with unique ids the context's `addItem` updater and the Redux
      slice's `addItem` produce the same lines. */
  lemma AddedItemsAgree(current: seq<CartItem>, p: Product, q: int)
    requires UniqueIds(current)
    ensures AddedItems(current, p, q) == CartSlice.Added(current, p, q)
  {
    match IndexOf(current, p.id)
    case Some(i) =>
      WithQuantityAt(current, p.id, Clamped(current[i].quantity, q, StockCap(p)));
    case None =>
  }

  /** The same for `updateQuantity`: below 1 both filter the product out, from
      1 up the context's `map` and the slice's in-place write agree. */
  lemma UpdateAgrees(current: seq<CartItem>, id: string, q: int)
    requires UniqueIds(current)
    ensures (if q < 1 then WithoutId(current, id) else WithQuantity(current, id, q))
         == CartSlice.Updated(current, id, q)
  {
    WithQuantityAt(current, id, q);
  }

  /** Without unique ids the two carts part ways: the context's `map` rewrites
      every line of the product, the slice only the first one found. */
  lemma DuplicateLinesDiverge(p: Product)
    requires p.inStock && p.stockCount.None?
    ensures AddedItems([CartItem(p, 1), CartItem(p, 1)], p, 1) == [CartItem(p, 2), CartItem(p, 2)]
    ensures CartSlice.Added([CartItem(p, 1), CartItem(p, 1)], p, 1) == [CartItem(p, 2), CartItem(p, 1)]
  {
    var two := [CartItem(p, 1), CartItem(p, 1)];
    assert IndexOf(two, p.id) == Some(0);
    assert WithQuantity(two, p.id, 2) == [CartItem(p, 2), CartItem(p, 2)];
  }

  /** The state and derived values `CartProvider` exposes. */
  class CartProvider {
    var items: seq<CartItem>
    var isOpen: bool

    /** At most one line per product id. */
    ghost predicate Valid()
      reads this
    {
      UniqueIds(items)
    }

    /** `itemCount`, recomputed from `items` on every render. */
    function ItemCount(): int
      reads this
    {
      CartTotals.ItemCount(items)
    }

    /** `total`, recomputed from `items` on every render. */
    function Total(): int
      reads this
    {
      CartTotals.Total(items)
    }

    /** `useState<CartItem[]>([])` and `useState(false)`. */
    constructor ()
      ensures Valid() && items == [] && !isOpen
      ensures ItemCount() == 0 && Total() == 0
    {
      items := [];
      isOpen := false;
    }

    /** `addItem`: out of stock changes nothing and leaves the panel as it was;
        otherwise the updater runs and the panel opens, clamped or not. */
    method AddItem(product: Product, quantity: Option<int>) returns (notice: Notice)
      requires Valid()
      modifies this
      ensures Valid()
      ensures items == if product.inStock then AddedItems(old(items), product, Requested(quantity)) else old(items)
      ensures isOpen == (product.inStock || old(isOpen))
      ensures notice == AddNotice(old(items), product, Requested(quantity))
      ensures product.inStock && IndexOf(old(items), product.id).None? ==>
        ItemCount() == old(ItemCount()) + Requested(quantity)
        && Total() == old(Total()) + product.price * Requested(quantity)
    {
      var q := Requested(quantity);
      if !product.inStock {
        notice := OutOfStock;
        return;
      }
      AddedItemsAgree(items, product, q);
      CartSlice.AddedLines(items, product, q);
      CartSlice.AddedTotals(items, product, q);
      notice := AddNotice(items, product, q);
      items := AddedItems(items, product, q);
      isOpen := true;
    }

    /** `removeItem`: filters the product out, keeping the other lines in order,
        and takes exactly its line off the derived values. */
    method RemoveItem(id: string) returns (notice: Notice)
      requires Valid()
      modifies this
      ensures Valid()
      ensures isOpen == old(isOpen)
      ensures items == WithoutId(old(items), id)
      ensures IndexOf(old(items), id).Some? ==>
        var line := old(items)[IndexOf(old(items), id).value];
        ItemCount() == old(ItemCount()) - line.quantity
        && Total() == old(Total()) - line.product.price * line.quantity
      ensures notice == ItemRemoved
    {
      WithoutIdUnique(items, id);
      RemoveTotals(items, id);
      items := WithoutId(items, id);
      notice := ItemRemoved;
    }

    /** `updateQuantity`: below 1 it delegates to `removeItem` (and so toasts);
        otherwise every line of the product gets exactly `quantity`. */
    method UpdateQuantity(id: string, quantity: int) returns (notice: Notice)
      requires Valid()
      modifies this
      ensures Valid()
      ensures isOpen == old(isOpen)
      ensures items == if quantity < 1 then WithoutId(old(items), id) else WithQuantity(old(items), id, quantity)
      ensures notice == if quantity < 1 then ItemRemoved else Silent
    {
      if quantity < 1 {
        notice := RemoveItem(id);
        return;
      }
      UpdateAgrees(items, id, quantity);
      CartSlice.UpdatedLines(items, id, quantity);
      items := WithQuantity(items, id, quantity);
      notice := Silent;
    }

    /** `clearCart`: no lines and both derived values 0. */
    method ClearCart() returns (notice: Notice)
      modifies this
      ensures Valid()
      ensures items == [] && isOpen == old(isOpen)
      ensures ItemCount() == 0 && Total() == 0
      ensures notice == CartCleared
    {
      items := [];
      notice := CartCleared;
    }

    /** `openCart`: only the panel flag changes. */
    method OpenCart()
      modifies this
      ensures isOpen && items == old(items)
    {
      isOpen := true;
    }

    /** `closeCart`: only the panel flag changes. */
    method CloseCart()
      modifies this
      ensures !isOpen && items == old(items)
    {
      isOpen := false;
    }
  }
}
