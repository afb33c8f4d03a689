/** The cart sheet: the item and price totals shown on the badge and the
    footer, and the +/- buttons, which compute a clamped quantity and hand
    it to the owner of the cart through a callback. Prices are whole cents. */
module ShoppingCart {
  import opened Wrappers

  datatype CartItem = CartItem(id: string, name: string, price: int, quantity: int,
                               image: string, stock: Option<int>)

  function Max(a: int, b: int): int { if a >= b then a else b }
  function Min(a: int, b: int): int { if a <= b then a else b }

  /** `Math.max(lo, Math.min(hi, v))`. */
  function Clamp(v: int, lo: int, hi: int): (r: int)
    ensures r >= lo
    ensures lo <= hi ==> r <= hi
    ensures lo <= v <= hi ==> r == v
    ensures v < lo ==> r == lo
    ensures lo <= hi < v ==> r == hi
  {
    Max(lo, Min(hi, v))
  }

  /** `stock || 99`: a missing or zero stock allows 99. */
  function StockCap(stock: Option<int>): int {
    if stock.Some? && stock.value != 0 then stock.value else 99
  }

  // ---------------------------------------------------------------------
  // Totals
  // ---------------------------------------------------------------------

  /** `cartItems.reduce((sum, item) => sum + item.quantity, 0)`. */
  function TotalItems(items: seq<CartItem>): int {
    if items == [] then 0 else TotalItems(items[..|items| - 1]) + items[|items| - 1].quantity
  }

  /** `cartItems.reduce((sum, item) => sum + item.price * item.quantity, 0)`. */
  function TotalPrice(items: seq<CartItem>): int {
    if items == [] then 0
    else TotalPrice(items[..|items| - 1]) + items[|items| - 1].price * items[|items| - 1].quantity
  }

  /** The totals of a cart split anywhere are the sums of the totals of the
      two parts. */
  lemma {:induction false} TotalsAppend(a: seq<CartItem>, b: seq<CartItem>)
    ensures TotalItems(a + b) == TotalItems(a) + TotalItems(b)
    ensures TotalPrice(a + b) == TotalPrice(a) + TotalPrice(b)
    decreases |b|
  {
    if b == [] {
      assert a + b == a;
    } else {
      var b' := b[..|b| - 1];
      assert (a + b)[..|a + b| - 1] == a + b';
      TotalsAppend(a, b');
    }
  }

  lemma TotalsSingle(it: CartItem)
    ensures TotalItems([it]) == it.quantity
    ensures TotalPrice([it]) == it.price * it.quantity
  {
    assert [it][..0] == [];
  }

  /** Putting an item in front of a cart adds its quantity and its line
      price to the totals. */
  lemma TotalsCons(it: CartItem, rest: seq<CartItem>)
    ensures TotalItems([it] + rest) == it.quantity + TotalItems(rest)
    ensures TotalPrice([it] + rest) == it.price * it.quantity + TotalPrice(rest)
  {
    TotalsAppend([it], rest);
    TotalsSingle(it);
  }

  /** With no negative quantity or price, the totals are not negative. */
  lemma {:induction false} TotalsNonNegative(items: seq<CartItem>)
    requires forall i :: 0 <= i < |items| ==> items[i].quantity >= 0 && items[i].price >= 0
    ensures TotalItems(items) >= 0 && TotalPrice(items) >= 0
    decreases |items|
  {
    if items != [] {
      TotalsNonNegative(items[..|items| - 1]);
    }
  }

  // ---------------------------------------------------------------------
  // handleQuantityChange
  // ---------------------------------------------------------------------

  /** The first item with id `id` (`cartItems.find`). */
  function FindItem(items: seq<CartItem>, id: string): (o: Option<nat>)
    ensures o.None? <==> forall i :: 0 <= i < |items| ==> items[i].id != id
    ensures o.Some? ==> o.value < |items| && items[o.value].id == id
    ensures o.Some? ==> forall i :: 0 <= i < o.value ==> items[i].id != id
  {
    if items == [] then None
    else if items[0].id == id then Some(0)
    else match FindItem(items[1..], id)
      case None => None
      case Some(k) => Some(k + 1)
  }

  /** What a +/- press asks of the owner of the cart. */
  datatype Callback = NoCallback | RemoveItem(id: string) | UpdateQuantity(id: string, quantity: int)

  /** `handleQuantityChange(id, change)`. */
  function QuantityChange(items: seq<CartItem>, id: string, change: int): Callback {
    match FindItem(items, id)
    case None => NoCallback
    case Some(k) =>
      var q := Clamp(items[k].quantity + change, 0, StockCap(items[k].stock));
      if q == 0 then RemoveItem(id) else UpdateQuantity(id, q)
  }

  /** An unknown id makes no call; otherwise the quantity of the first item
      with that id moves by `change` within `[0, stock || 99]`, a result of
      0 removes the item and any other result becomes its new quantity. */
  lemma QuantityChangeFacts(items: seq<CartItem>, id: string, change: int)
    ensures var cb := QuantityChange(items, id, change);
            && (cb.NoCallback? <==> forall i :: 0 <= i < |items| ==> items[i].id != id)
            && (!cb.NoCallback? ==>
                  var it := items[FindItem(items, id).value];
                  var q := Clamp(it.quantity + change, 0, StockCap(it.stock));
                  && cb.id == id
                  && (cb.RemoveItem? <==> q == 0)
                  && (cb.UpdateQuantity? ==> cb.quantity == q && 1 <= q <= StockCap(it.stock)))
  {
  }

  /** The + button is disabled once the quantity reaches `stock || 99`. */
  predicate IncrementDisabled(it: CartItem) {
    it.quantity >= StockCap(it.stock)
  }

  /** While + is enabled, pressing it raises the quantity by exactly one;
      pressing - on a quantity of 1 removes the item. */
  lemma ButtonsOnItem(items: seq<CartItem>, k: nat)
    requires k < |items| && forall i :: 0 <= i < k ==> items[i].id != items[k].id
    requires items[k].quantity >= 0
    ensures !IncrementDisabled(items[k]) ==>
              QuantityChange(items, items[k].id, 1) == UpdateQuantity(items[k].id, items[k].quantity + 1)
    ensures items[k].quantity == 1 ==> QuantityChange(items, items[k].id, -1) == RemoveItem(items[k].id)
  {
  }
}
