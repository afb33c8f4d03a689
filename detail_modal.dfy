/** The product detail dialog: a quantity picker that starts at 1, moves
    within `[1, stock || 99]` and hands the chosen quantity to the page,
    plus a row of at most four similar products. */
module DetailModal {
  import opened Wrappers
  import opened Seqs
  import opened ShoppingCart
  import opened ProductGrid

  /** What the dialog asks of the page. */
  datatype Event = AddRequest(product: Product, quantity: int) | CloseDialog | OpenSimilar(product: Product)

  /** The dialog's own state: the quantity it shows. */
  datatype ModalState = ModalState(quantity: int)

  /** `useState(1)`, and the effect that sets it back to 1 whenever the
      dialog opens or shows another product. */
  function Opened(s: ModalState, isOpen: bool): (r: ModalState)
    ensures isOpen ==> r.quantity == 1
    ensures !isOpen ==> r == s
  {
    if isOpen then ModalState(1) else s
  }

  /** `handleQuantityChange(change)`. */
  function Step(s: ModalState, p: Product, change: int): ModalState {
    ModalState(DialogQuantity(s.quantity, change, p.stock))
  }

  /** The quantity after pressing the buttons in `changes` in order. */
  function Presses(s: ModalState, p: Product, changes: seq<int>): ModalState
    decreases |changes|
  {
    if changes == [] then s else Presses(Step(s, p, changes[0]), p, changes[1..])
  }

  /** The minus button is disabled at 1 or below. */
  predicate MinusDisabled(s: ModalState) { s.quantity <= 1 }

  /** The plus button is disabled at `stock || 99` or above. */
  predicate PlusDisabled(s: ModalState, p: Product) { s.quantity >= StockCap(p.stock) }

  /** `handleAddToCart`: hand the product and quantity to the page, then close. */
  function AddPressed(s: ModalState, p: Product): (events: seq<Event>)
    ensures |events| == 2 && events[1] == CloseDialog
    ensures events[0].AddRequest? && events[0].product == p && events[0].quantity == s.quantity
  {
    [AddRequest(p, s.quantity), CloseDialog]
  }

  /** The similar products the dialog lists: the first four it is given. */
  function SimilarShown(similar: seq<Product>): (r: seq<Product>)
    ensures |r| <= 4 && |r| <= |similar| && r == similar[..|r|]
    ensures |similar| >= 4 ==> |r| == 4
    ensures |similar| <= 4 ==> r == similar
  {
    Take(similar, 4)
  }

  /** Clicking the `i`-th similar product hands it to the page. */
  function SimilarClicked(similar: seq<Product>, i: nat): (e: Option<Event>)
    ensures e.Some? <==> i < |SimilarShown(similar)|
    ensures e.Some? ==> e.value == OpenSimilar(similar[i])
  {
    var shown := SimilarShown(similar);
    if i < |shown| then Some(OpenSimilar(shown[i])) else None
  }

  /** The dialog's quantity stays within `[1, stock || 99]` whatever is
      pressed after it opens, when the stock allows at least one. */
  lemma {:induction false} PressesStayInRange(p: Product, changes: seq<int>)
    requires StockCap(p.stock) >= 1
    ensures var q := Presses(ModalState(1), p, changes).quantity;
            1 <= q <= StockCap(p.stock)
  {
    PressesFrom(ModalState(1), p, changes);
  }

  lemma {:induction false} PressesFrom(s: ModalState, p: Product, changes: seq<int>)
    requires StockCap(p.stock) >= 1 && 1 <= s.quantity <= StockCap(p.stock)
    ensures 1 <= Presses(s, p, changes).quantity <= StockCap(p.stock)
    decreases |changes|
  {
    if changes != [] {
      PressesFrom(Step(s, p, changes[0]), p, changes[1..]);
    }
  }

  /** An enabled plus raises the quantity by one, an enabled minus lowers it
      by one, and the one undoes the other; a disabled button would have
      changed nothing. */
  lemma ButtonsFacts(s: ModalState, p: Product)
    requires 1 <= s.quantity <= StockCap(p.stock)
    ensures !PlusDisabled(s, p) ==> Step(s, p, 1).quantity == s.quantity + 1
                                    && Step(Step(s, p, 1), p, -1) == s
    ensures !MinusDisabled(s) ==> Step(s, p, -1).quantity == s.quantity - 1
                                  && Step(Step(s, p, -1), p, 1) == s
    ensures PlusDisabled(s, p) ==> Step(s, p, 1) == s
    ensures MinusDisabled(s) ==> Step(s, p, -1) == s
  {
  }

  /** The page applying the dialog's request: the cart keeps distinct ids,
      gains the product's id and its badge grows by the chosen quantity. */
  lemma AddedToCart(cart: seq<CartItem>, s: ModalState, p: Product)
    requires UniqueIds(cart)
    ensures var e := AddPressed(s, p)[0];
            var r := ProductGrid.AddToCart(cart, e.product, e.quantity);
            && UniqueIds(r)
            && HasId(r, p.id)
            && TotalItems(r) == TotalItems(cart) + s.quantity
  {
    MergeFacts(cart, p.id, s.quantity, NewItem(p, s.quantity));
  }

  /** The similar products the page passes in, as listed by the dialog: at
      most four, none the product itself, each sharing a category with it. */
  lemma SimilarRow(products: seq<Product>, selected: Product)
    ensures var r := SimilarShown(SimilarProducts(products, selected));
            && |r| <= 4
            && forall i :: 0 <= i < |r| ==> r[i].id != selected.id && SharesCategory(r[i], selected)
  {
    SimilarFacts(products, selected);
  }
}
