/** Line-level rules that store/cartSlice.ts and contexts/CartContext.tsx both
    apply to a list of cart lines: locating a product's line, the stock cap,
    the default quantity, and dropping a product's line. */
module CartLines {
  import opened Types

  /** The toast a cart action raises, kept as a signal. */
  datatype Notice =
    | OutOfStock             // "This item is currently out of stock" (error)
    | OnlyAvailable(cap: int) // "Only <cap> items available in stock" (warning)
    | QuantityUpdated        // "Quantity updated in cart"
    | ItemAdded              // "Item added to cart successfully"
    | ItemRemoved            // "Item removed from cart"
    | CartCleared            // "Cart cleared"
    | Silent                 // no toast

  /** `items.find(item => item.product.id === id)`, as the index of the first
      matching line. */
  function IndexOf(items: seq<CartItem>, id: string): (r: Option<nat>)
    ensures r.Some? ==> r.value < |items| && items[r.value].product.id == id
    ensures r.Some? ==> forall j :: 0 <= j < r.value ==> items[j].product.id != id
    ensures r.None? ==> forall j :: 0 <= j < |items| ==> items[j].product.id != id
  {
    if items == [] then None
    else if items[0].product.id == id then Some(0)
    else match IndexOf(items[1..], id)
      case None => None
      case Some(k) => Some(k + 1)
  }

  /** At most one line per product id. */
  predicate UniqueIds(items: seq<CartItem>) {
    forall i, j :: 0 <= i < j < |items| ==> items[i].product.id != items[j].product.id
  }

  /** `product.stockCount || 10`: a missing stock count, and a stock count of
      0, both fall back to 10. */
  function StockCap(p: Product): int {
    match p.stockCount
    case Some(n) => if n != 0 then n else 10
    case None => 10
  }

  /** The destructuring default `quantity = 1`: an omitted quantity is 1. */
  function Requested(quantity: Option<int>): int {
    match quantity
    case Some(q) => q
    case None => 1
  }

  /** The quantity an existing line ends with after adding `q` more: the sum,
      unless that exceeds `cap`, in which case `cap`. */
  function Clamped(current: int, q: int, cap: int): (r: int)
    ensures r <= cap && r <= current + q
    ensures r == cap || r == current + q
  {
    if current + q > cap then cap else current + q
  }

  /** The toast `addItem` raises; the Redux slice and the context cart word
      theirs alike: out of stock, the cap warning, quantity updated, or
      added. */
  function AddNotice(items: seq<CartItem>, p: Product, q: int): Notice {
    if !p.inStock then OutOfStock
    else match IndexOf(items, p.id)
      case Some(i) => if items[i].quantity + q > StockCap(p) then OnlyAvailable(StockCap(p)) else QuantityUpdated
      case None => ItemAdded
  }

  /** `items.filter(item => item.product.id !== id)`. */
  function WithoutId(items: seq<CartItem>, id: string): (r: seq<CartItem>)
    ensures |r| <= |items|
    ensures forall j :: 0 <= j < |r| ==> r[j].product.id != id
  {
    if items == [] then []
    else if items[0].product.id == id then WithoutId(items[1..], id)
    else [items[0]] + WithoutId(items[1..], id)
  }

  /** Removing an id that has no line changes nothing. */
  lemma {:induction false} WithoutAbsentId(items: seq<CartItem>, id: string)
    requires IndexOf(items, id).None?
    ensures WithoutId(items, id) == items
  {
    if items != [] {
      assert IndexOf(items[1..], id).None?;
      WithoutAbsentId(items[1..], id);
    }
  }

  /** With unique ids, removing the id of line `k` deletes exactly that line and
      keeps every other line, in order. */
  lemma {:induction false} WithoutIdAt(items: seq<CartItem>, id: string, k: nat)
    requires UniqueIds(items)
    requires k < |items| && items[k].product.id == id
    ensures WithoutId(items, id) == items[..k] + items[k + 1..]
  {
    if k == 0 {
      assert IndexOf(items[1..], id).None?;
      WithoutAbsentId(items[1..], id);
    } else {
      WithoutIdAt(items[1..], id, k - 1);
      assert items[1..][..k - 1] == items[1..k];
      assert items[1..][k..] == items[k + 1..];
      assert items[..k] == [items[0]] + items[1..k];
    }
  }

  /** Removing a product's line keeps the ids unique. */
  lemma WithoutIdUnique(items: seq<CartItem>, id: string)
    requires UniqueIds(items)
    ensures UniqueIds(WithoutId(items, id))
  {
    match IndexOf(items, id)
    case None => WithoutAbsentId(items, id);
    case Some(k) =>
      WithoutIdAt(items, id, k);
      var r := items[..k] + items[k + 1..];
      forall i, j | 0 <= i < j < |r|
        ensures r[i].product.id != r[j].product.id
      {
        var i', j' := if i < k then i else i + 1, if j < k then j else j + 1;
        assert r[i] == items[i'] && r[j] == items[j'];
      }
  }

  /** Changing one line's quantity keeps the ids unique. */
  lemma SetQuantityUnique(items: seq<CartItem>, k: nat, q: int)
    requires UniqueIds(items) && k < |items|
    ensures UniqueIds(items[k := items[k].(quantity := q)])
  {
  }

  /** Appending a line for a product with no line keeps the ids unique. */
  lemma AppendUnique(items: seq<CartItem>, line: CartItem)
    requires UniqueIds(items) && IndexOf(items, line.product.id).None?
    ensures UniqueIds(items + [line])
  {
  }
}
