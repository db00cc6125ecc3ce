/** `useCart` (store/hooks.ts): the Redux cart's lines, its derived `itemCount`
    and `total`, and wrappers that dispatch the slice's actions unchanged. */
module CartHooks {
  import opened Types
  import opened CartLines
  import CartTotals
  import opened CartSlice

  class UseCart {
    /** The cart slice of the store the hook's `dispatch` and selectors reach. */
    const cart: CartState

    constructor (cart: CartState)
      ensures this.cart == cart
    {
      this.cart := cart;
    }

    /** `itemCount`: the sum of the line quantities, from `items` only. */
    function ItemCount(): int
      reads cart
    {
      CartTotals.ItemCount(cart.items)
    }

    /** `total`: the sum of price times quantity, from `items` only. */
    function Total(): int
      reads cart
    {
      CartTotals.Total(cart.items)
    }

    /** `addItem(product, quantity?)`: an omitted quantity is dispatched as
        `undefined`, which the reducer reads as 1. */
    method AddItem(product: Product, quantity: Option<int>) returns (notice: Notice)
      requires cart.Valid()
      modifies cart
      ensures cart.Valid() && cart.isOpen == old(cart.isOpen)
      ensures cart.items == if product.inStock then Added(old(cart.items), product, Requested(quantity)) else old(cart.items)
      ensures notice == AddNotice(old(cart.items), product, Requested(quantity))
      ensures quantity.None? && product.inStock && IndexOf(old(cart.items), product.id).None? ==>
        cart.items == old(cart.items) + [CartItem(product, 1)]
        && ItemCount() == old(ItemCount()) + 1 && Total() == old(Total()) + product.price
    {
      CartTotals.AppendLine(cart.items, CartItem(product, 1));
      notice := cart.AddItem(product, quantity);
    }

    /** `removeItem(productId)`. */
    method RemoveItem(productId: string) returns (notice: Notice)
      requires cart.Valid()
      modifies cart
      ensures cart.Valid() && cart.isOpen == old(cart.isOpen)
      ensures cart.items == WithoutId(old(cart.items), productId)
      ensures notice == ItemRemoved
    {
      notice := cart.RemoveItem(productId);
    }

    /** `updateQuantity(productId, quantity)`. */
    method UpdateQuantity(productId: string, quantity: int)
      requires cart.Valid()
      modifies cart
      ensures cart.Valid() && cart.isOpen == old(cart.isOpen)
      ensures cart.items == Updated(old(cart.items), productId, quantity)
    {
      cart.UpdateQuantity(productId, quantity);
    }

    /** `clearCart()`. */
    method ClearCart() returns (notice: Notice)
      modifies cart
      ensures cart.Valid() && cart.items == [] && cart.isOpen == old(cart.isOpen)
      ensures ItemCount() == 0 && Total() == 0
      ensures notice == CartCleared
    {
      notice := cart.ClearCart();
    }

    /** `openCart()`: the derived values do not move. */
    method OpenCart()
      modifies cart
      ensures cart.isOpen && cart.items == old(cart.items)
      ensures ItemCount() == old(ItemCount()) && Total() == old(Total())
    {
      cart.OpenCart();
    }

    /** `closeCart()`: the derived values do not move. */
    method CloseCart()
      modifies cart
      ensures !cart.isOpen && cart.items == old(cart.items)
      ensures ItemCount() == old(ItemCount()) && Total() == old(Total())
    {
      cart.CloseCart();
    }
  }
}
