/** The product grid page: the cart, the wishlist, the add-to-cart dialog,
    the detail view with its similar products, and the engagement log that
    every click, hover and share appends to. The cart, wishlist and
    similar-product computations are pure updates; `GridSession` holds the
    page's state and applies them. */
module ProductGrid {
  import opened Wrappers
  import opened Seqs
  import opened ShoppingCart

  /** The fields of a processed product the page reads; a missing
      `category` or `about_product` is the empty string, missing
      `categories` the empty list. */
  datatype Product = Product(id: string, name: string, description: string, category: string,
                             categories: seq<string>, aboutProduct: string, price: int,
                             stock: Option<int>, image: string, popularity: int, feedback: int)

  datatype Engagement = Click | Hover | Share

  /** One entry of the session's `itemlist`. `dwellTime` is in milliseconds. */
  datatype SessionItem = SessionItem(product: string, productName: string, description: string,
                                     category: string, aboutProduct: string, engagement: Engagement,
                                     dwellTime: int, wishlisted: int, addedToCart: int,
                                     popularity: int, feedback: int, image: string, sequence: int)

  const DefaultAbout := "No additional product information available"

  /** `product.category || "General"`. */
  function CategoryOf(p: Product): string {
    if p.category != "" then p.category else "General"
  }

  /** `product.about_product || product.description || DefaultAbout`. */
  function AboutOf(p: Product): string {
    if p.aboutProduct != "" then p.aboutProduct
    else if p.description != "" then p.description
    else DefaultAbout
  }

  // ---------------------------------------------------------------------
  // Cart updates
  // ---------------------------------------------------------------------

  predicate HasId(cart: seq<CartItem>, id: string) {
    exists i :: 0 <= i < |cart| && cart[i].id == id
  }

  predicate UniqueIds(cart: seq<CartItem>) {
    forall i, j :: 0 <= i < j < |cart| ==> cart[i].id != cart[j].id
  }

  function Bump(it: CartItem, delta: int): CartItem {
    it.(quantity := it.quantity + delta)
  }

  /** The merge both add handlers perform: an item already in the cart
      gains `delta`, otherwise `newItem` is appended. */
  function Merge(cart: seq<CartItem>, id: string, delta: int, newItem: CartItem): seq<CartItem> {
    if HasId(cart, id) then
      seq(|cart|, i requires 0 <= i < |cart| => if cart[i].id == id then Bump(cart[i], delta) else cart[i])
    else cart + [newItem]
  }

  function NewItem(p: Product, quantity: int): CartItem {
    CartItem(p.id, p.name, p.price, quantity, p.image, p.stock)
  }

  /** `handleAddToCart(product, quantity)`. */
  function AddToCart(cart: seq<CartItem>, p: Product, quantity: int): seq<CartItem> {
    Merge(cart, p.id, quantity, NewItem(p, quantity))
  }

  /** The item `handleRecommendedAddToCart` would append; its price and
      stock are mock values. */
  function RecommendedItem(p: Product, mockPrice: int, mockStock: int): CartItem {
    CartItem(p.id, p.name, mockPrice, 1, p.image, Some(mockStock))
  }

  /** `handleRecommendedAddToCart(product)`: the +1 variant. */
  function AddRecommended(cart: seq<CartItem>, p: Product, mockPrice: int, mockStock: int): seq<CartItem> {
    Merge(cart, p.id, 1, RecommendedItem(p, mockPrice, mockStock))
  }

  /** The product `handleRecommendedViewDetails` hands to the modal: the
      recommended product's own fields, its category as the only entry of
      `categories`, no "about" text, and mock price and stock. */
  function ModalProduct(p: Product, mockPrice: int, mockStock: int): Product {
    Product(p.id, p.name, p.description, p.category, [p.category], "", mockPrice, Some(mockStock),
            p.image, p.popularity, p.feedback)
  }

  /** `handleUpdateCartQuantity(id, quantity)`. */
  function SetQuantity(cart: seq<CartItem>, id: string, quantity: int): seq<CartItem> {
    seq(|cart|, i requires 0 <= i < |cart| => if cart[i].id == id then cart[i].(quantity := quantity) else cart[i])
  }

  /** `handleRemoveFromCart(id)`. */
  function RemoveFromCart(cart: seq<CartItem>, id: string): seq<CartItem> {
    Keep(cart, (it: CartItem) => it.id != id)
  }

  /** In a cart of distinct ids, the position holding `id`. */
  lemma PositionOf(cart: seq<CartItem>, id: string) returns (k: nat)
    requires HasId(cart, id)
    ensures k < |cart| && cart[k].id == id
    ensures UniqueIds(cart) ==> forall i :: 0 <= i < |cart| && i != k ==> cart[i].id != id
  {
    k :| 0 <= k < |cart| && cart[k].id == id;
  }

  /** Changing one item's quantity changes the item total by the
      difference and nothing else. */
  lemma TotalsReplace(cart: seq<CartItem>, k: nat, q: int)
    requires k < |cart|
    ensures TotalItems(cart[k := cart[k].(quantity := q)]) == TotalItems(cart) - cart[k].quantity + q
  {
    var it := cart[k];
    var it' := it.(quantity := q);
    assert cart == cart[..k] + [it] + cart[k + 1..];
    assert cart[k := it'] == cart[..k] + [it'] + cart[k + 1..];
    TotalsAppend(cart[..k] + [it], cart[k + 1..]);
    TotalsAppend(cart[..k], [it]);
    TotalsAppend(cart[..k] + [it'], cart[k + 1..]);
    TotalsAppend(cart[..k], [it']);
    TotalsSingle(it);
    TotalsSingle(it');
  }

  /** Adding an id already in the cart keeps the cart's length, raises the
      item with that id by `delta` and leaves every other item as it was. */
  lemma MergeExisting(cart: seq<CartItem>, id: string, delta: int, newItem: CartItem)
    requires UniqueIds(cart) && HasId(cart, id)
    ensures var r := Merge(cart, id, delta, newItem);
            && |r| == |cart|
            && (forall i :: 0 <= i < |cart| && cart[i].id == id ==> r[i] == Bump(cart[i], delta))
            && (forall i :: 0 <= i < |cart| && cart[i].id != id ==> r[i] == cart[i])
            && UniqueIds(r)
            && (forall x :: HasId(r, x) <==> HasId(cart, x))
            && TotalItems(r) == TotalItems(cart) + delta
  {
    var r := Merge(cart, id, delta, newItem);
    var k := PositionOf(cart, id);
    assert r == cart[k := Bump(cart[k], delta)];
    TotalsReplace(cart, k, cart[k].quantity + delta);
    forall x
      ensures HasId(r, x) <==> HasId(cart, x)
    {
      if HasId(r, x) {
        var i :| 0 <= i < |r| && r[i].id == x;
        assert cart[i].id == x;
      }
      if HasId(cart, x) {
        var i :| 0 <= i < |cart| && cart[i].id == x;
        assert r[i].id == x;
      }
    }
  }

  /** Adding a new id appends one item at the end; the ids stay distinct. */
  lemma MergeNew(cart: seq<CartItem>, id: string, delta: int, newItem: CartItem)
    requires UniqueIds(cart) && !HasId(cart, id) && newItem.id == id
    ensures var r := Merge(cart, id, delta, newItem);
            && r == cart + [newItem]
            && UniqueIds(r)
            && (forall x :: HasId(r, x) <==> HasId(cart, x) || x == id)
            && TotalItems(r) == TotalItems(cart) + newItem.quantity
  {
    var r := Merge(cart, id, delta, newItem);
    TotalsAppend(cart, [newItem]);
    TotalsSingle(newItem);
    forall x
      ensures HasId(r, x) <==> HasId(cart, x) || x == id
    {
      if HasId(r, x) {
        var i :| 0 <= i < |r| && r[i].id == x;
        if i < |cart| {
          assert cart[i].id == x;
        }
      }
      if HasId(cart, x) {
        var i :| 0 <= i < |cart| && cart[i].id == x;
        assert r[i].id == x;
      }
      if x == id {
        assert r[|cart|].id == x;
      }
    }
  }

  /** Either way, adding `delta` of an item keeps the ids distinct, adds
      just its id, and grows the badge total by exactly `delta`. */
  lemma MergeFacts(cart: seq<CartItem>, id: string, delta: int, newItem: CartItem)
    requires UniqueIds(cart) && newItem.id == id && newItem.quantity == delta
    ensures var r := Merge(cart, id, delta, newItem);
            && UniqueIds(r)
            && (forall x :: HasId(r, x) <==> HasId(cart, x) || x == id)
            && TotalItems(r) == TotalItems(cart) + delta
  {
    if HasId(cart, id) {
      MergeExisting(cart, id, delta, newItem);
    } else {
      MergeNew(cart, id, delta, newItem);
    }
  }

  /** Setting a quantity keeps every id in place, gives the items with that
      id the new quantity and leaves all other items unchanged. */
  lemma SetQuantityFacts(cart: seq<CartItem>, id: string, q: int)
    ensures var r := SetQuantity(cart, id, q);
            && |r| == |cart|
            && (forall i :: 0 <= i < |cart| ==> r[i].id == cart[i].id)
            && (forall i :: 0 <= i < |cart| && cart[i].id == id ==> r[i].quantity == q)
            && (forall i :: 0 <= i < |cart| && cart[i].id != id ==> r[i] == cart[i])
            && (UniqueIds(cart) ==> UniqueIds(r))
  {
  }

  /** In a cart of distinct ids, setting the quantity of item `k`'s id
      changes item `k` alone. */
  lemma SetQuantityAt(cart: seq<CartItem>, k: nat, q: int)
    requires UniqueIds(cart) && k < |cart|
    ensures SetQuantity(cart, cart[k].id, q) == cart[k := cart[k].(quantity := q)]
  {
    var r := SetQuantity(cart, cart[k].id, q);
    forall i | 0 <= i < |cart|
      ensures r[i] == cart[k := cart[k].(quantity := q)][i]
    {
      if i != k {
        assert cart[i].id != cart[k].id;
      }
    }
  }

  /** Removing drops exactly the items with that id and keeps the others in
      their order. */
  lemma RemoveFacts(cart: seq<CartItem>, id: string)
    ensures var r := RemoveFromCart(cart, id);
            && !HasId(r, id)
            && IsSubsequence(r, cart)
            && (forall i :: 0 <= i < |cart| && cart[i].id != id ==> cart[i] in r)
  {
  }

  /** In a cart of distinct ids, removing cuts out the one position. */
  lemma RemoveCutsOut(cart: seq<CartItem>, k: nat)
    requires UniqueIds(cart) && k < |cart|
    ensures RemoveFromCart(cart, cart[k].id) == cart[..k] + cart[k + 1..]
  {
    var id := cart[k].id;
    KeepCut(cart, k, (it: CartItem) => it.id != id);
  }

  /** Cutting out one position lowers the item total by its quantity. */
  lemma TotalsCut(cart: seq<CartItem>, k: nat)
    requires k < |cart|
    ensures TotalItems(cart[..k] + cart[k + 1..]) == TotalItems(cart) - cart[k].quantity
  {
    var a, b := cart[..k], cart[k + 1..];
    calc {
      TotalItems(cart);
      { SplitAt(cart, k); }
      TotalItems(a + ([cart[k]] + b));
      { TotalsAppend(a, [cart[k]] + b); }
      TotalItems(a) + TotalItems([cart[k]] + b);
      { TotalsAppend([cart[k]], b); TotalsSingle(cart[k]); }
      TotalItems(a) + cart[k].quantity + TotalItems(b);
      { TotalsAppend(a, b); }
      TotalItems(a + b) + cart[k].quantity;
    }
  }

  /** What the cart sheet's callback does to the cart. */
  function ApplyCallback(cart: seq<CartItem>, cb: Callback): seq<CartItem> {
    match cb
    case NoCallback => cart
    case RemoveItem(id) => RemoveFromCart(cart, id)
    case UpdateQuantity(id, q) => SetQuantity(cart, id, q)
  }

  /** In a cart of distinct ids, a press on item `k` asks for the clamped
      quantity of that item, or for its removal when that is 0. */
  lemma PressCallback(cart: seq<CartItem>, k: nat, change: int)
    requires UniqueIds(cart) && k < |cart|
    ensures var q := Clamp(cart[k].quantity + change, 0, StockCap(cart[k].stock));
            QuantityChange(cart, cart[k].id, change)
              == if q == 0 then RemoveItem(cart[k].id) else UpdateQuantity(cart[k].id, q)
  {
  }

  /** The intended wiring of the cart sheet to the page: the grid defines
      the update and remove handlers but renders no cart sheet, so this
      states what a +/- press would do if the sheet's callback were applied
      through them. In a cart of distinct ids the pressed item's quantity
      becomes the clamped value, or the item leaves the cart when that value
      is 0, and the badge total moves by the same amount. */
  lemma PressFacts(cart: seq<CartItem>, k: nat, change: int)
    requires UniqueIds(cart) && k < |cart|
    ensures var q := Clamp(cart[k].quantity + change, 0, StockCap(cart[k].stock));
            var r := ApplyCallback(cart, QuantityChange(cart, cart[k].id, change));
            && (q == 0 ==> r == cart[..k] + cart[k + 1..])
            && (q != 0 ==> r == cart[k := cart[k].(quantity := q)])
            && TotalItems(r) == TotalItems(cart) - cart[k].quantity + q
            && UniqueIds(r)
  {
    var id := cart[k].id;
    var q := Clamp(cart[k].quantity + change, 0, StockCap(cart[k].stock));
    PressCallback(cart, k, change);
    if q == 0 {
      RemoveCutsOut(cart, k);
      TotalsCut(cart, k);
      KeepUnique(cart, (it: CartItem) => it.id != id);
    } else {
      SetQuantityAt(cart, k, q);
      TotalsReplace(cart, k, q);
      SetQuantityFacts(cart, id, q);
    }
  }

  // ---------------------------------------------------------------------
  // Wishlist
  // ---------------------------------------------------------------------

  /** `handleWishlistToggle`: delete the id when present, add it otherwise. */
  function Toggle(wishlist: set<string>, id: string): set<string> {
    if id in wishlist then wishlist - {id} else wishlist + {id}
  }

  /** Toggling flips the membership of that id only, the `wishlisted` flag
      it records is the new membership, and toggling twice restores the set. */
  lemma ToggleFacts(wishlist: set<string>, id: string)
    ensures id in Toggle(wishlist, id) <==> id !in wishlist
    ensures forall x :: x != id ==> (x in Toggle(wishlist, id) <==> x in wishlist)
    ensures Toggle(Toggle(wishlist, id), id) == wishlist
    ensures WishFlag(Toggle(wishlist, id), id) == (if id in wishlist then 0 else 1)
  {
  }

  function WishFlag(wishlist: set<string>, id: string): int {
    if id in wishlist then 1 else 0
  }

  // ---------------------------------------------------------------------
  // Add-to-cart dialog and similar products
  // ---------------------------------------------------------------------

  /** `handleAddToCartQuantityChange(change)`: at least 1, at most `stock || 99`. */
  function DialogQuantity(quantity: int, change: int, stock: Option<int>): (q: int)
    ensures q >= 1
    ensures StockCap(stock) >= 1 ==> q <= StockCap(stock)
    ensures 1 <= quantity + change <= StockCap(stock) ==> q == quantity + change
  {
    Clamp(quantity + change, 1, StockCap(stock))
  }

  predicate SharesCategory(p: Product, shown: Product) {
    exists i :: 0 <= i < |p.categories| && p.categories[i] in shown.categories
  }

  predicate IsSimilar(p: Product, shown: Product) {
    p.id != shown.id && SharesCategory(p, shown)
  }

  /** Every product other than `shown` that shares a category with it, in
      the list's order. */
  function SimilarCandidates(products: seq<Product>, shown: Product): seq<Product> {
    Keep(products, (p: Product) => IsSimilar(p, shown))
  }

  /** Every product other than `shown` in its category, in the list's order. */
  function CategoryCandidates(products: seq<Product>, shown: Product): seq<Product> {
    Keep(products, (p: Product) => p.category == shown.category && p.id != shown.id)
  }

  /** The similar products of the detail view. */
  function SimilarProducts(products: seq<Product>, shown: Product): seq<Product> {
    Take(SimilarCandidates(products, shown), 6)
  }

  /** The similar products of a recommended product: same category. */
  function SimilarByCategory(products: seq<Product>, shown: Product): seq<Product> {
    Take(CategoryCandidates(products, shown), 6)
  }

  /** The first six qualifying products, in the list's order: the candidates
      are exactly the products other than `shown` that share a category with
      it, in order, and the result is the first `min(6, n)` of them; so none
      is the product itself, and when six or fewer qualify all are shown. */
  lemma SimilarFacts(products: seq<Product>, shown: Product)
    ensures forall x :: x in SimilarCandidates(products, shown) <==> x in products && IsSimilar(x, shown)
    ensures IsSubsequence(SimilarCandidates(products, shown), products)
    ensures |SimilarProducts(products, shown)| ==
              if |SimilarCandidates(products, shown)| <= 6 then |SimilarCandidates(products, shown)| else 6
    ensures SimilarProducts(products, shown) ==
              SimilarCandidates(products, shown)[..|SimilarProducts(products, shown)|]
    ensures var r := SimilarProducts(products, shown);
            && (forall i :: 0 <= i < |r| ==> r[i].id != shown.id && SharesCategory(r[i], shown))
            && IsSubsequence(r, products)
            && (|SimilarCandidates(products, shown)| <= 6 ==>
                  forall i :: 0 <= i < |products| && IsSimilar(products[i], shown) ==> products[i] in r)
  {
    var all := SimilarCandidates(products, shown);
    var r := SimilarProducts(products, shown);
    KeepFacts(products, (p: Product) => IsSimilar(p, shown));
    PrefixIsSubsequence(all, |r|);
    SubsequenceTransitive(r, all, products);
    forall i | 0 <= i < |r|
      ensures r[i].id != shown.id && SharesCategory(r[i], shown)
    {
      assert r[i] == all[i];
    }
  }

  /** The same for the similar products of a recommended product, with
      "same category" for "shares a category". */
  lemma SimilarByCategoryFacts(products: seq<Product>, shown: Product)
    ensures forall x :: x in CategoryCandidates(products, shown) <==>
              x in products && x.category == shown.category && x.id != shown.id
    ensures IsSubsequence(CategoryCandidates(products, shown), products)
    ensures |SimilarByCategory(products, shown)| ==
              if |CategoryCandidates(products, shown)| <= 6 then |CategoryCandidates(products, shown)| else 6
    ensures SimilarByCategory(products, shown) ==
              CategoryCandidates(products, shown)[..|SimilarByCategory(products, shown)|]
    ensures var r := SimilarByCategory(products, shown);
            && (forall i :: 0 <= i < |r| ==> r[i].id != shown.id && r[i].category == shown.category)
            && IsSubsequence(r, products)
            && (|CategoryCandidates(products, shown)| <= 6 ==>
                  forall i :: (0 <= i < |products| && products[i].category == shown.category &&
                               products[i].id != shown.id) ==> products[i] in r)
  {
    var all := CategoryCandidates(products, shown);
    var r := SimilarByCategory(products, shown);
    KeepFacts(products, (p: Product) => p.category == shown.category && p.id != shown.id);
    PrefixIsSubsequence(all, |r|);
    SubsequenceTransitive(r, all, products);
    forall i | 0 <= i < |r|
      ensures r[i].id != shown.id && r[i].category == shown.category
    {
      assert r[i] == all[i];
    }
  }

  // ---------------------------------------------------------------------
  // The page state
  // ---------------------------------------------------------------------

  /** What `handleMouseEnter` remembers about a hovered product. */
  datatype HoverData = HoverData(name: string, description: string, category: string, aboutProduct: string,
                                 popularity: int, feedback: int, image: string)

  /** A snapshot of every field of the page state. */
  datatype GridView = GridView(products: seq<Product>, cart: seq<CartItem>, wishlist: set<string>,
                               itemlist: seq<SessionItem>, sequenceNumber: int,
                               hoverStartTimes: map<string, int>, productDataCache: map<string, HoverData>,
                               selectedProduct: Option<Product>, detailOpen: bool, similarProducts: seq<Product>,
                               addToCartProduct: Option<Product>, addToCartOpen: bool, addToCartQuantity: int)

  class GridSession {
    var products: seq<Product>
    var cart: seq<CartItem>
    var wishlist: set<string>
    var itemlist: seq<SessionItem>
    var sequenceNumber: int
    var hoverStartTimes: map<string, int>
    var productDataCache: map<string, HoverData>
    var selectedProduct: Option<Product>
    var detailOpen: bool
    var similarProducts: seq<Product>
    var addToCartProduct: Option<Product>
    var addToCartOpen: bool
    var addToCartQuantity: int

    function View(): GridView
      reads this
    {
      GridView(products, cart, wishlist, itemlist, sequenceNumber, hoverStartTimes, productDataCache,
               selectedProduct, detailOpen, similarProducts, addToCartProduct, addToCartOpen, addToCartQuantity)
    }

    /** The cart holds each id once, and the logged events are numbered
        consecutively, the last one just below `sequenceNumber`. */
    predicate Valid()
      reads this
    {
      && UniqueIds(cart)
      && forall i :: 0 <= i < |itemlist| ==> itemlist[i].sequence == sequenceNumber - |itemlist| + i
    }

    constructor(products: seq<Product>)
      ensures Valid()
      ensures View() == GridView(products, [], {}, [], 1, map[], map[], None, false, [], None, false, 1)
    {
      this.products := products;
      cart := [];
      wishlist := {};
      itemlist := [];
      sequenceNumber := 1;
      hoverStartTimes := map[];
      productDataCache := map[];
      selectedProduct := None;
      detailOpen := false;
      similarProducts := [];
      addToCartProduct := None;
      addToCartOpen := false;
      addToCartQuantity := 1;
    }

    /** `trackEngagement(...)`: log one event numbered with the counter,
        then advance the counter. */
    method TrackEngagement(productId: string, productName: string, description: string, category: string,
                           aboutProduct: string, engagement: Engagement, dwellTime: int, addedToCart: int,
                           popularity: int, feedback: int, image: string, wishlisted: int)
      requires Valid()
      modifies this
      ensures Valid()
      ensures View() == old(View()).(
                itemlist := old(itemlist) + [SessionItem(productId, productName, description, category, aboutProduct,
                                                         engagement, dwellTime, wishlisted, addedToCart,
                                                         popularity, feedback, image, old(sequenceNumber))],
                sequenceNumber := old(sequenceNumber) + 1)
    {
      var item := SessionItem(productId, productName, description, category, aboutProduct,
                              engagement, dwellTime, wishlisted, addedToCart, popularity, feedback, image,
                              sequenceNumber);
      itemlist := itemlist + [item];
      sequenceNumber := sequenceNumber + 1;
    }

    /** Log an event about a whole product. */
    method TrackProduct(p: Product, engagement: Engagement, addedToCart: int, wishlisted: int)
      requires Valid()
      modifies this
      ensures Valid()
      ensures View() == old(View()).(
                itemlist := old(itemlist) + [LogItem(p, engagement, addedToCart, wishlisted, old(sequenceNumber))],
                sequenceNumber := old(sequenceNumber) + 1)
    {
      TrackEngagement(p.id, p.name, p.description, CategoryOf(p), AboutOf(p), engagement, 0, addedToCart,
                      p.popularity, p.feedback, p.image, wishlisted);
    }

    /** `handleViewDetails(product)`. */
    method HandleViewDetails(p: Product)
      requires Valid()
      modifies this
      ensures Valid()
      ensures View() == old(View()).(
                itemlist := old(itemlist) + [LogItem(p, Click, 0, 0, old(sequenceNumber))],
                sequenceNumber := old(sequenceNumber) + 1,
                similarProducts := SimilarProducts(old(products), p),
                selectedProduct := Some(p), detailOpen := true)
    {
      TrackProduct(p, Click, 0, 0);
      similarProducts := SimilarProducts(products, p);
      selectedProduct := Some(p);
      detailOpen := true;
    }

    /** `handleProductDetailClick(product)`: the same view, without a log entry. */
    method HandleProductDetailClick(p: Product)
      requires Valid()
      modifies this
      ensures Valid()
      ensures View() == old(View()).(similarProducts := SimilarProducts(old(products), p),
                                     selectedProduct := Some(p), detailOpen := true)
    {
      similarProducts := SimilarProducts(products, p);
      selectedProduct := Some(p);
      detailOpen := true;
    }

    /** `handleRecommendedViewDetails(product)`: the modal shows the product
        rebuilt by `ModalProduct` with the mock price and stock. */
    method HandleRecommendedViewDetails(p: Product, mockPrice: int, mockStock: int)
      requires Valid()
      modifies this
      ensures Valid()
      ensures View() == old(View()).(
                itemlist := old(itemlist) + [LogItem(p, Click, 0, 0, old(sequenceNumber))],
                sequenceNumber := old(sequenceNumber) + 1,
                similarProducts := SimilarByCategory(old(products), p),
                selectedProduct := Some(ModalProduct(p, mockPrice, mockStock)), detailOpen := true)
    {
      TrackProduct(p, Click, 0, 0);
      similarProducts := SimilarByCategory(products, p);
      selectedProduct := Some(ModalProduct(p, mockPrice, mockStock));
      detailOpen := true;
    }

    /** `handleShare(product)`: only the log entry; the share sheet is not modelled. */
    method HandleShare(p: Product)
      requires Valid()
      modifies this
      ensures Valid()
      ensures View() == old(View()).(
                itemlist := old(itemlist) + [LogItem(p, Share, 0, 0, old(sequenceNumber))],
                sequenceNumber := old(sequenceNumber) + 1)
    {
      TrackProduct(p, Share, 0, 0);
    }

    /** `handleAddToCart(product, quantity)`. */
    method HandleAddToCart(p: Product, quantity: int)
      requires Valid()
      modifies this
      ensures Valid()
      ensures View() == old(View()).(
                cart := AddToCart(old(cart), p, quantity),
                itemlist := old(itemlist) + [LogItem(p, Click, 1, 0, old(sequenceNumber))],
                sequenceNumber := old(sequenceNumber) + 1)
    {
      MergeFacts(cart, p.id, quantity, NewItem(p, quantity));
      cart := AddToCart(cart, p, quantity);
      TrackProduct(p, Click, 1, 0);
    }

    /** `handleRecommendedAddToCart(product)`: log, then add one. */
    method HandleRecommendedAddToCart(p: Product, mockPrice: int, mockStock: int)
      requires Valid()
      modifies this
      ensures Valid()
      ensures View() == old(View()).(
                cart := AddRecommended(old(cart), p, mockPrice, mockStock),
                itemlist := old(itemlist) + [LogItem(p, Click, 1, 0, old(sequenceNumber))],
                sequenceNumber := old(sequenceNumber) + 1)
    {
      TrackProduct(p, Click, 1, 0);
      MergeFacts(cart, p.id, 1, RecommendedItem(p, mockPrice, mockStock));
      cart := AddRecommended(cart, p, mockPrice, mockStock);
    }

    /** `handleUpdateCartQuantity(id, quantity)`. */
    method HandleUpdateCartQuantity(id: string, quantity: int)
      requires Valid()
      modifies this
      ensures Valid()
      ensures View() == old(View()).(cart := SetQuantity(old(cart), id, quantity))
    {
      SetQuantityFacts(cart, id, quantity);
      cart := SetQuantity(cart, id, quantity);
    }

    /** `handleRemoveFromCart(id)`. */
    method HandleRemoveFromCart(id: string)
      requires Valid()
      modifies this
      ensures Valid()
      ensures View() == old(View()).(cart := RemoveFromCart(old(cart), id))
    {
      var r := RemoveFromCart(cart, id);
      assert UniqueIds(r) by {
        KeepUnique(cart, (it: CartItem) => it.id != id);
      }
      cart := r;
    }

    /** `handleClearCart()`. */
    method HandleClearCart()
      requires Valid()
      modifies this
      ensures Valid()
      ensures View() == old(View()).(cart := [])
    {
      cart := [];
    }

    /** `handleAddToCartClick(product)`: open the dialog at quantity 1. */
    method HandleAddToCartClick(p: Product)
      requires Valid()
      modifies this
      ensures Valid()
      ensures View() == old(View()).(addToCartProduct := Some(p), addToCartQuantity := 1, addToCartOpen := true)
    {
      addToCartProduct := Some(p);
      addToCartQuantity := 1;
      addToCartOpen := true;
    }

    /** `handleAddToCartQuantityChange(change)`: only while a product is chosen. */
    method HandleAddToCartQuantityChange(change: int)
      requires Valid()
      modifies this
      ensures Valid()
      ensures old(addToCartProduct).None? ==> View() == old(View())
      ensures old(addToCartProduct).Some? ==>
                View() == old(View()).(addToCartQuantity :=
                            DialogQuantity(old(addToCartQuantity), change, old(addToCartProduct).value.stock))
    {
      if addToCartProduct.Some? {
        addToCartQuantity := DialogQuantity(addToCartQuantity, change, addToCartProduct.value.stock);
      }
    }

    /** `handleAddToCartConfirm()`: add the chosen quantity, then close. */
    method HandleAddToCartConfirm()
      requires Valid()
      modifies this
      ensures Valid()
      ensures old(addToCartProduct).None? ==> View() == old(View())
      ensures old(addToCartProduct).Some? ==>
                var p := old(addToCartProduct).value;
                View() == old(View()).(
                  cart := AddToCart(old(cart), p, old(addToCartQuantity)),
                  itemlist := old(itemlist) + [LogItem(p, Click, 1, 0, old(sequenceNumber))],
                  sequenceNumber := old(sequenceNumber) + 1,
                  addToCartOpen := false, addToCartProduct := None)
    {
      if addToCartProduct.Some? {
        HandleAddToCart(addToCartProduct.value, addToCartQuantity);
        addToCartOpen := false;
        addToCartProduct := None;
      }
    }

    /** `handleWishlistToggle(product)`: flip the id, then log the new state. */
    method HandleWishlistToggle(p: Product)
      requires Valid()
      modifies this
      ensures Valid()
      ensures View() == old(View()).(
                wishlist := Toggle(old(wishlist), p.id),
                itemlist := old(itemlist) + [LogItem(p, Click, 0, WishFlag(Toggle(old(wishlist), p.id), p.id),
                                                     old(sequenceNumber))],
                sequenceNumber := old(sequenceNumber) + 1)
    {
      wishlist := Toggle(wishlist, p.id);
      TrackProduct(p, Click, 0, WishFlag(wishlist, p.id));
    }

    /** `handleMouseEnter(...)` at time `now`. */
    method HandleMouseEnter(productId: string, data: HoverData, now: int)
      requires Valid()
      modifies this
      ensures Valid()
      ensures View() == old(View()).(hoverStartTimes := old(hoverStartTimes)[productId := now],
                                     productDataCache := old(productDataCache)[productId := data])
    {
      hoverStartTimes := hoverStartTimes[productId := now];
      productDataCache := productDataCache[productId := data];
    }

    /** `handleMouseLeave(productId)` at time `now`: with a (non-zero) start
        time and remembered data, log a hover with the dwell time and forget
        both; otherwise nothing happens. */
    method HandleMouseLeave(productId: string, now: int)
      requires Valid()
      modifies this
      ensures Valid()
      ensures !HoverPending(old(View()), productId) ==> View() == old(View())
      ensures HoverPending(old(View()), productId) ==>
                var d := old(productDataCache)[productId];
                View() == old(View()).(
                  itemlist := old(itemlist) + [SessionItem(productId, d.name, d.description, d.category, d.aboutProduct,
                                                           Hover, now - old(hoverStartTimes)[productId], 0, 0,
                                                           d.popularity, d.feedback, d.image, old(sequenceNumber))],
                  sequenceNumber := old(sequenceNumber) + 1,
                  hoverStartTimes := old(hoverStartTimes) - {productId},
                  productDataCache := old(productDataCache) - {productId})
    {
      if productId in hoverStartTimes && hoverStartTimes[productId] != 0 && productId in productDataCache {
        var start := hoverStartTimes[productId];
        var d := productDataCache[productId];
        TrackEngagement(productId, d.name, d.description, d.category, d.aboutProduct, Hover, now - start, 0,
                        d.popularity, d.feedback, d.image, 0);
        hoverStartTimes := hoverStartTimes - {productId};
        productDataCache := productDataCache - {productId};
      }
    }
  }

  /** The log entry for an event about `p`. */
  function LogItem(p: Product, engagement: Engagement, addedToCart: int, wishlisted: int, n: int): SessionItem {
    SessionItem(p.id, p.name, p.description, CategoryOf(p), AboutOf(p), engagement, 0, wishlisted, addedToCart,
                p.popularity, p.feedback, p.image, n)
  }

  /** A hover that `handleMouseLeave` turns into a log entry. */
  predicate HoverPending(v: GridView, productId: string) {
    productId in v.hoverStartTimes && v.hoverStartTimes[productId] != 0 && productId in v.productDataCache
  }

  /** Filtering a cart of distinct ids leaves distinct ids. */
  lemma {:induction false} KeepUnique(cart: seq<CartItem>, p: CartItem -> bool)
    requires UniqueIds(cart)
    ensures UniqueIds(Keep(cart, p))
    decreases |cart|
  {
    if cart != [] {
      KeepUnique(cart[1..], p);
      if p(cart[0]) {
        var rest := Keep(cart[1..], p);
        KeepFacts(cart[1..], p);
        forall j | 0 <= j < |rest|
          ensures rest[j].id != cart[0].id
        {
          assert rest[j] in cart[1..];
        }
        assert Keep(cart, p) == [cart[0]] + rest;
      }
    }
  }

  /** A fresh page that logs a share of `p` and then an add-to-cart of `q`
      holds two entries numbered 1 and 2, in that order. */
  method TwoEventsNumbered(products: seq<Product>, p: Product, q: Product) returns (log: seq<SessionItem>)
    ensures |log| == 2
    ensures log[0].product == p.id && log[0].engagement == Share && log[0].sequence == 1
    ensures log[1].product == q.id && log[1].addedToCart == 1 && log[1].sequence == 2
  {
    var page := new GridSession(products);
    page.HandleShare(p);
    page.HandleAddToCart(q, 1);
    log := page.itemlist;
  }
}
