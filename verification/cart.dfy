/**
 * The totals of the cart drawer: the subtotal is a left fold over the cart's
 * order items of price times quantity, a missing price counting as 0; the total
 * is the subtotal minus the discount when the subtotal is non-zero, otherwise 0.
 * The drawer's discount is a state that is never set, so it stays 0.
 */
module Cart {
  import opened Wrappers

  /** One line of the cart; the price may be missing. */
  datatype OrderItem = OrderItem(price: Option<int>, quantity: int)

  /** The stored cart; its list of order items may be missing. */
  datatype CartItems = CartItems(orderItems: Option<seq<OrderItem>>)

  /** The discount the drawer starts with and never changes. */
  const Discount: int := 0

  /** What one item adds to the subtotal (`(price || 0) * quantity`). */
  function LineAmount(item: OrderItem): int {
    item.price.GetOr(0) * item.quantity
  }

  /** The sum of the line amounts of some items: the reference definition of the subtotal. */
  function ItemsSum(items: seq<OrderItem>): int {
    if |items| == 0 then 0 else LineAmount(items[0]) + ItemsSum(items[1..])
  }

  /** The reduce of the drawer: the items folded into the running total `acc`, front to back. */
  function Reduce(acc: int, items: seq<OrderItem>): (total: int)
    ensures (forall k :: 0 <= k < |items| ==> LineAmount(items[k]) >= 0) ==> total >= acc
    decreases |items|
  {
    if |items| == 0 then acc else Reduce(acc + LineAmount(items[0]), items[1..])
  }

  /** Folding from any starting total adds the items' sum to it. */
  lemma {:induction false} ReduceAddsSum(acc: int, items: seq<OrderItem>)
    ensures Reduce(acc, items) == acc + ItemsSum(items)
    decreases |items|
  {
    if |items| > 0 {
      ReduceAddsSum(acc + LineAmount(items[0]), items[1..]);
    }
  }

  /** The sum of a concatenation is the sum of the parts. */
  lemma {:induction false} ItemsSumAppend(a: seq<OrderItem>, b: seq<OrderItem>)
    ensures ItemsSum(a + b) == ItemsSum(a) + ItemsSum(b)
    decreases |a|
  {
    if |a| > 0 {
      assert (a + b)[1..] == a[1..] + b;
      ItemsSumAppend(a[1..], b);
    } else {
      assert a + b == b;
    }
  }

  /**
   * The drawer's subtotal: missing when the cart or its item list is missing,
   * otherwise the sum of every item's price (0 when missing) times its quantity.
   */
  function Subtotal(cart: Option<CartItems>): (r: Option<int>)
    ensures r.Some? <==> cart.Some? && cart.value.orderItems.Some?
    ensures r.Some? ==> r.value == ItemsSum(cart.value.orderItems.value)
  {
    match cart
    case None => None
    case Some(c) =>
      match c.orderItems
      case None => None
      case Some(items) =>
        ReduceAddsSum(0, items);
        Some(Reduce(0, items))
  }

  /** The total the drawer's effect sets: the subtotal less the discount, or 0 for a missing or zero subtotal. */
  function Total(subtotal: Option<int>, discount: int): (t: int)
    ensures subtotal.Some? && subtotal.value != 0 ==> t + discount == subtotal.value
    ensures subtotal.None? || subtotal.value == 0 ==> t == 0
  {
    if subtotal.Some? && subtotal.value != 0 then subtotal.value - discount else 0
  }

  /** An empty item list gives a subtotal of 0. */
  lemma EmptyCartSubtotal()
    ensures Subtotal(Some(CartItems(Some([])))) == Some(0)
  {
  }

  /** An item without a price, wherever it sits, leaves the subtotal unchanged. */
  lemma UnpricedItemAddsNothing(items: seq<OrderItem>, k: nat, quantity: int)
    requires k <= |items|
    ensures var withItem := items[..k] + [OrderItem(None, quantity)] + items[k..];
      Subtotal(Some(CartItems(Some(withItem)))) == Subtotal(Some(CartItems(Some(items))))
  {
    var unpriced := [OrderItem(None, quantity)];
    ItemsSumAppend(items[..k] + unpriced, items[k..]);
    ItemsSumAppend(items[..k], unpriced);
    ItemsSumAppend(items[..k], items[k..]);
    assert items[..k] + items[k..] == items;
  }

  /**
   * With the drawer's discount of 0 the total shown is always the subtotal
   * shown (which displays a missing subtotal as 0).
   */
  lemma TotalShowsSubtotal(cart: Option<CartItems>)
    ensures Total(Subtotal(cart), Discount) == Subtotal(cart).GetOr(0)
  {
  }
}
