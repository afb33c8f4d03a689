/** The query stage of the products route (`GET`): every fetched record is
    enriched by the field resolvers, the list is narrowed by the category,
    price and search filters, and one page of it is returned together with
    the pagination flags. */
module Query {
  import opened Wrappers
  import opened Seqs
  import opened Text
  import opened Records
  import opened Normalize
  import Catalog

  // ---------------------------------------------------------------------
  // Enrichment
  // ---------------------------------------------------------------------

  /** The fields of a processed product that the query stage reads. */
  datatype Listing = Listing(id: Value, name: string, categories: seq<string>, category: string,
                             description: string, image: Option<string>, price: real)

  /** The four priority lists the resolvers walk. */
  datatype Priority = Priority(names: seq<string>, categories: seq<string>,
                               descriptions: seq<string>, images: seq<string>)

  /** The route's own lists. */
  const RoutePriority := Priority(NameFields, CategoryFields, DescriptionFields, ImageFields)

  /** The `index`-th processed product; `price` is what `getPrice` gave. */
  function Enrich(r: Record, index: nat, price: real, keys: Priority): Listing {
    var cats := CategoriesFrom(r, keys.categories);
    Listing(FirstTruthy(r, ["id", "Id"], Str("product-" + NatToString(index))),
            NameFrom(r, index, keys.names), cats,
            if cats[0] != [] then cats[0] else DefaultCategory,
            DescriptionFrom(r, keys.descriptions), ImageFrom(r, keys.images), price)
  }

  function EnrichAll(raw: seq<Record>, priceOf: Record -> real, keys: Priority): (ls: seq<Listing>)
    ensures |ls| == |raw|
    ensures forall i :: 0 <= i < |raw| ==> ls[i] == Enrich(raw[i], i, priceOf(raw[i]), keys)
  {
    seq(|raw|, i requires 0 <= i < |raw| => Enrich(raw[i], i, priceOf(raw[i]), keys))
  }

  /** Every processed product has a truthy id, a non-empty name and
      description, a non-empty category list whose head is `category`. */
  lemma EnrichShape(r: Record, index: nat, price: real, keys: Priority)
    ensures var l := Enrich(r, index, price, keys);
            && Truthy(l.id) && l.name != [] && l.description != []
            && l.categories != [] && l.category == l.categories[0]
            && l.price == price
  {
  }

  // ---------------------------------------------------------------------
  // Filters
  // ---------------------------------------------------------------------

  /** The query parameters, as the route reads them. `category` and `search`
      are None when absent or empty. */
  datatype Filters = Filters(category: Option<string>, minPrice: Option<real>, maxPrice: Option<real>,
                             search: Option<string>, page: int, limit: int)

  /** `cats.some(cat => cat.toLowerCase().includes(term))`. */
  predicate SomeContains(cats: seq<string>, term: string) {
    exists i :: 0 <= i < |cats| && Contains(ToLower(cats[i]), term)
  }

  predicate CategoryActive(f: Filters) {
    f.category.Some? && f.category.value != [] && f.category.value != "all"
  }

  predicate SearchActive(f: Filters) {
    f.search.Some? && f.search.value != []
  }

  predicate InCategory(l: Listing, c: string) {
    SomeContains(l.categories, ToLower(c))
  }

  predicate MatchesSearch(l: Listing, s: string) {
    var term := ToLower(s);
    Contains(ToLower(l.name), term) || Contains(ToLower(l.description), term) || SomeContains(l.categories, term)
  }

  /** Each stage keeps, in order, the listings that pass its filter, or all
      of them when that filter is inactive. */
  function CategoryStage(ls: seq<Listing>, f: Filters): (r: seq<Listing>)
    ensures IsSubsequence(r, ls)
    ensures forall l :: l in r <==> l in ls && (CategoryActive(f) ==> InCategory(l, f.category.value))
  {
    if CategoryActive(f) then
      var p := (l: Listing) => InCategory(l, f.category.value);
      KeepFacts(ls, p);
      Keep(ls, p)
    else
      SubsequenceOfSelf(ls);
      ls
  }

  function MinPriceStage(ls: seq<Listing>, f: Filters): (r: seq<Listing>)
    ensures IsSubsequence(r, ls)
    ensures forall l :: l in r <==> l in ls && (f.minPrice.Some? ==> l.price >= f.minPrice.value)
  {
    if f.minPrice.Some? then
      var p := (l: Listing) => l.price >= f.minPrice.value;
      KeepFacts(ls, p);
      Keep(ls, p)
    else
      SubsequenceOfSelf(ls);
      ls
  }

  function MaxPriceStage(ls: seq<Listing>, f: Filters): (r: seq<Listing>)
    ensures IsSubsequence(r, ls)
    ensures forall l :: l in r <==> l in ls && (f.maxPrice.Some? ==> l.price <= f.maxPrice.value)
  {
    if f.maxPrice.Some? then
      var p := (l: Listing) => l.price <= f.maxPrice.value;
      KeepFacts(ls, p);
      Keep(ls, p)
    else
      SubsequenceOfSelf(ls);
      ls
  }

  function SearchStage(ls: seq<Listing>, f: Filters): (r: seq<Listing>)
    ensures IsSubsequence(r, ls)
    ensures forall l :: l in r <==> l in ls && (SearchActive(f) ==> MatchesSearch(l, f.search.value))
  {
    if SearchActive(f) then
      var p := (l: Listing) => MatchesSearch(l, f.search.value);
      KeepFacts(ls, p);
      Keep(ls, p)
    else
      SubsequenceOfSelf(ls);
      ls
  }

  /** The four filters, in the route's order. */
  function Filtered(ls: seq<Listing>, f: Filters): seq<Listing> {
    SearchStage(MaxPriceStage(MinPriceStage(CategoryStage(ls, f), f), f), f)
  }

  /** What a listing must satisfy to pass every active filter. */
  predicate Admitted(l: Listing, f: Filters) {
    && (CategoryActive(f) ==> InCategory(l, f.category.value))
    && (f.minPrice.Some? ==> l.price >= f.minPrice.value)
    && (f.maxPrice.Some? ==> l.price <= f.maxPrice.value)
    && (SearchActive(f) ==> MatchesSearch(l, f.search.value))
  }

  /** The filters only remove listings: the result is a subsequence of the
      input, in the input's order. */
  lemma FilteredIsSubsequence(ls: seq<Listing>, f: Filters)
    ensures IsSubsequence(Filtered(ls, f), ls)
  {
    var a := CategoryStage(ls, f);
    var b := MinPriceStage(a, f);
    var c := MaxPriceStage(b, f);
    SubsequenceTransitive(b, a, ls);
    SubsequenceTransitive(c, b, ls);
    SubsequenceTransitive(Filtered(ls, f), c, ls);
  }

  /** The filters never add listings. */
  lemma FilteredShorter(ls: seq<Listing>, f: Filters)
    ensures |Filtered(ls, f)| <= |ls|
  {
  }

  /** A listing of the input survives exactly when it passes every active
      filter; price bounds are inclusive. */
  lemma FilteredIff(ls: seq<Listing>, f: Filters, l: Listing)
    ensures l in Filtered(ls, f) <==> l in ls && Admitted(l, f)
  {
  }

  /** The category filter is skipped for "all". */
  lemma AllCategoriesSkipped(ls: seq<Listing>, f: Filters)
    requires f.category == Some("all")
    ensures CategoryStage(ls, f) == ls
  {
  }

  /** Prices 10, 20 and 30 with bounds 15 and 25 leave exactly the 20. */
  lemma PriceWindowExample(a: Listing, b: Listing, c: Listing)
    requires a.price == 10.0 && b.price == 20.0 && c.price == 30.0
    ensures Filtered([a, b, c], Filters(None, Some(15.0), Some(25.0), None, 1, 20)) == [b]
  {
    var f := Filters(None, Some(15.0), Some(25.0), None, 1, 20);
    var lo := (l: Listing) => l.price >= f.minPrice.value;
    var hi := (l: Listing) => l.price <= f.maxPrice.value;
    assert [a, b, c][1..] == [b, c];
    assert [b, c][1..] == [c];
    assert Keep([c], lo) == [c] by {
      assert [c][1..] == [];
    }
    assert Keep([a, b, c], lo) == [b, c];
    assert Keep([c], hi) == [] by {
      assert [c][1..] == [];
    }
    assert Keep([b, c], hi) == [b];
  }

  // ---------------------------------------------------------------------
  // Pagination
  // ---------------------------------------------------------------------

  /** `Math.ceil(total / limit)`. */
  function TotalPages(total: nat, limit: int): int
    requires limit > 0
  {
    (total + limit - 1) / limit
  }

  /** The page count is the least number of `limit`-sized pages that hold
      every listing. */
  lemma TotalPagesIsCeiling(total: nat, limit: int)
    requires limit > 0
    ensures TotalPages(total, limit) >= 0
    ensures TotalPages(total, limit) * limit >= total
    ensures (TotalPages(total, limit) - 1) * limit < total || total == 0
    ensures total == 0 <==> TotalPages(total, limit) == 0
  {
    var t := TotalPages(total, limit);
    var q := total + limit - 1;
    assert q == t * limit + q % limit;
  }

  /** `processedProducts.slice(startIndex, startIndex + limit)`. */
  function PageOf(ls: seq<Listing>, page: int, limit: int): seq<Listing> {
    var start := (page - 1) * limit;
    Slice(ls, start, start + limit)
  }

  /** The first index of page `page` lies before the end of the list
      exactly when the page is within the page count. */
  lemma PageStartInRange(total: nat, page: int, limit: int)
    requires limit > 0 && page >= 1
    ensures (page - 1) * limit >= 0
    ensures page <= TotalPages(total, limit) <==> (page - 1) * limit < total
  {
    TotalPagesIsCeiling(total, limit);
    var t := TotalPages(total, limit);
    if page <= t {
      assert (page - 1) * limit <= (t - 1) * limit;
    } else {
      assert (page - 1) * limit >= t * limit;
    }
  }

  /** A page has at most `limit` listings, taken in order from index
      `(page-1)*limit`; a page between 1 and the page count is never empty. */
  lemma PageContents(ls: seq<Listing>, page: int, limit: int)
    requires limit > 0 && page >= 1
    ensures var p := PageOf(ls, page, limit);
            var start := (page - 1) * limit;
            && |p| <= limit
            && (forall i :: 0 <= i < |p| ==> start + i < |ls| && p[i] == ls[start + i])
            && |p| == (if start >= |ls| then 0 else if start + limit <= |ls| then limit else |ls| - start)
            && (page <= TotalPages(|ls|, limit) ==> |p| > 0)
  {
    PageStartInRange(|ls|, page, limit);
  }

  datatype Pagination = Pagination(currentPage: int, totalPages: int, totalProducts: nat,
                                   hasNextPage: bool, hasPrevPage: bool)

  function PaginationOf(total: nat, page: int, limit: int): Pagination
    requires limit > 0
  {
    var pages := TotalPages(total, limit);
    Pagination(page, pages, total, page < pages, page > 1)
  }

  // ---------------------------------------------------------------------
  // The catalogue-wide summary
  // ---------------------------------------------------------------------

  /** `Math.min(...xs)` for a non-empty list. */
  function MinOf(xs: seq<real>): (m: real)
    requires xs != []
    ensures m in xs
    ensures forall i :: 0 <= i < |xs| ==> m <= xs[i]
  {
    if |xs| == 1 then xs[0]
    else
      var rest := MinOf(xs[1..]);
      if xs[0] <= rest then xs[0] else rest
  }

  /** `Math.max(...xs)` for a non-empty list. */
  function MaxOf(xs: seq<real>): (m: real)
    requires xs != []
    ensures m in xs
    ensures forall i :: 0 <= i < |xs| ==> xs[i] <= m
  {
    if |xs| == 1 then xs[0]
    else
      var rest := MaxOf(xs[1..]);
      if xs[0] >= rest then xs[0] else rest
  }

  /** `{ min, max }` over every fetched price; None where JavaScript gives
      the empty list's `Infinity` and `-Infinity`. */
  function PriceRange(prices: seq<real>): (range: Option<(real, real)>)
    ensures range.None? <==> prices == []
    ensures range.Some? ==> range.value.0 <= range.value.1
    ensures range.Some? ==> range.value.0 in prices && range.value.1 in prices
    ensures range.Some? ==> forall i :: 0 <= i < |prices| ==> range.value.0 <= prices[i] <= range.value.1
  {
    if prices == [] then None
    else
      assert MinOf(prices) <= prices[0] <= MaxOf(prices);
      Some((MinOf(prices), MaxOf(prices)))
  }

  function Prices(raw: seq<Record>, priceOf: Record -> real): (ps: seq<real>)
    ensures |ps| == |raw|
    ensures forall i :: 0 <= i < |raw| ==> ps[i] == priceOf(raw[i])
  {
    seq(|raw|, i requires 0 <= i < |raw| => priceOf(raw[i]))
  }

  /** Every category of every fetched record (`allCategories`), and nothing else. */
  function AllCategories(raw: seq<Record>, keys: Priority): (cats: set<string>)
    ensures forall i, j :: 0 <= i < |raw| && 0 <= j < |CategoriesFrom(raw[i], keys.categories)| ==>
              CategoriesFrom(raw[i], keys.categories)[j] in cats
    ensures forall c :: c in cats ==> exists i :: 0 <= i < |raw| && c in CategoriesFrom(raw[i], keys.categories)
  {
    set i, j | 0 <= i < |raw| && 0 <= j < |CategoriesFrom(raw[i], keys.categories)| :: CategoriesFrom(raw[i], keys.categories)[j]
  }

  // ---------------------------------------------------------------------
  // The answer
  // ---------------------------------------------------------------------

  /** What the route answers: one page of listings, the pagination block,
      and the categories and price range of the whole catalogue. */
  datatype Answer = Answer(products: seq<Listing>, pagination: Pagination,
                           categories: set<string>, priceRange: Option<(real, real)>)

  /** The answer to a query over the fetched records `raw`. `priceOf` stands
      for `getPrice` and `order` for the sort the route applies after the
      filters. */
  function AnswerFor(raw: seq<Record>, priceOf: Record -> real, order: seq<Listing> -> seq<Listing>,
                     f: Filters, keys: Priority): Answer
    requires f.limit > 0
  {
    var ls := Filtered(EnrichAll(raw, priceOf, keys), f);
    Answer(PageOf(order(ls), f.page, f.limit), PaginationOf(|ls|, f.page, f.limit),
           AllCategories(raw, keys), PriceRange(Prices(raw, priceOf)))
  }

  /** `hasNextPage` holds exactly when the page is before the last, and
      `hasPrevPage` exactly when it is after the first; the total counts
      the filtered listings, and a page of a reordering holds at most
      `limit` of them, every one admitted by the filters. */
  lemma AnswerFacts(raw: seq<Record>, priceOf: Record -> real, order: seq<Listing> -> seq<Listing>,
                    f: Filters, keys: Priority)
    requires f.limit > 0
    requires multiset(order(Filtered(EnrichAll(raw, priceOf, keys), f))) == multiset(Filtered(EnrichAll(raw, priceOf, keys), f))
    ensures var ans := AnswerFor(raw, priceOf, order, f, keys);
            var ls := Filtered(EnrichAll(raw, priceOf, keys), f);
            && ans.pagination.totalProducts == |ls| <= |raw|
            && (ans.pagination.hasNextPage <==> f.page < TotalPages(|ls|, f.limit))
            && (ans.pagination.hasPrevPage <==> f.page > 1)
            && (f.page >= 1 ==> |ans.products| <= f.limit)
            && (f.page >= 1 && f.page <= ans.pagination.totalPages ==> ans.products != [])
            && (forall i :: 0 <= i < |ans.products| ==> ans.products[i] in ls && Admitted(ans.products[i], f))
            && (ans.priceRange.None? <==> raw == [])
  {
    var ls := Filtered(EnrichAll(raw, priceOf, keys), f);
    var sorted := order(ls);
    assert |sorted| == |multiset(sorted)| == |ls|;
    FilteredShorter(EnrichAll(raw, priceOf, keys), f);
    if f.page >= 1 {
      PageContents(sorted, f.page, f.limit);
    }
    PageAdmitted(EnrichAll(raw, priceOf, keys), sorted, f);
  }

  /** Every listing on a page of a reordering of the filtered list passes the filters. */
  lemma PageAdmitted(all: seq<Listing>, sorted: seq<Listing>, f: Filters)
    requires multiset(sorted) == multiset(Filtered(all, f))
    ensures var page := PageOf(sorted, f.page, f.limit);
            forall i :: 0 <= i < |page| ==> page[i] in Filtered(all, f) && Admitted(page[i], f)
  {
    var page := PageOf(sorted, f.page, f.limit);
    forall i | 0 <= i < |page|
      ensures page[i] in Filtered(all, f) && Admitted(page[i], f)
    {
      assert page[i] in sorted;
      assert page[i] in multiset(sorted);
      FilteredIff(all, f, page[i]);
    }
  }

  /** The response body of `GET`. */
  datatype Response = Response(answer: Answer, dataSource: Option<string>, lastErrorDetails: Option<string>)

  /** `GET(request)`: fetch (or reuse) the catalogue, then answer the query
      with the route's priority lists. */
  method HandleGet(cache: Catalog.CatalogCache, now: int, storedAt: int, stamp: string,
                   fetch: string -> Catalog.Attempt, parseJson: string -> Option<Catalog.Json>,
                   priceOf: Record -> real, order: seq<Listing> -> seq<Listing>, f: Filters)
    returns (resp: Response, raw: seq<Record>)
    requires f.limit > 0
    modifies cache
    ensures raw == (if old(cache.Fresh(now)) then old(cache.cachedProducts).value
                    else Catalog.Resolve(fetch, parseJson, stamp).products)
    ensures resp.answer == AnswerFor(raw, priceOf, order, f, RoutePriority)
    ensures resp.dataSource == cache.lastSuccessfulSource
    ensures resp.lastErrorDetails == cache.lastErrorDetails
    ensures !old(cache.Fresh(now)) ==> resp.dataSource == Some(Catalog.Resolve(fetch, parseJson, stamp).source)
    ensures old(cache.Fresh(now)) ==> unchanged(cache)
    ensures !old(cache.Fresh(now)) ==>
              && cache.cachedProducts == Some(raw) && cache.cacheTimestamp == storedAt
              && cache.lastSuccessfulSource == Some(Catalog.Resolve(fetch, parseJson, stamp).source)
              && cache.lastErrorDetails == Catalog.Resolve(fetch, parseJson, stamp).error
  {
    var tried;
    raw, tried := cache.FetchProducts(now, storedAt, stamp, fetch, parseJson);
    resp := Response(AnswerFor(raw, priceOf, order, f, RoutePriority),
                     cache.lastSuccessfulSource, cache.lastErrorDetails);
  }
}
