/** The filter panel: the filter state it edits on behalf of the page, the
    "clear all" action, the active-filter badges and their count, and the
    label of the selected category. */
module ProductFilters {
  import opened Wrappers
  import opened Text

  datatype SortBy = ByName | ByPopularity | ByPrice | ByFeedback
  datatype SortOrder = Asc | Desc

  datatype FilterState = FilterState(category: string, minPrice: real, maxPrice: real,
                                     search: string, sortBy: SortBy, sortOrder: SortOrder)

  /** The catalogue's price range the panel is given. */
  datatype PriceBounds = PriceBounds(min: real, max: real)

  /** One `handleFilterChange(key, value)` call, with the value typed by key. */
  datatype Change =
    | SetCategory(category: string)
    | SetMinPrice(minPrice: real)
    | SetMaxPrice(maxPrice: real)
    | SetSearch(search: string)
    | SetSortBy(sortBy: SortBy)
    | SetSortOrder(sortOrder: SortOrder)

  /** `{ ...filters, [key]: value }`. */
  function Apply(f: FilterState, c: Change): FilterState {
    match c
    case SetCategory(v) => f.(category := v)
    case SetMinPrice(v) => f.(minPrice := v)
    case SetMaxPrice(v) => f.(maxPrice := v)
    case SetSearch(v) => f.(search := v)
    case SetSortBy(v) => f.(sortBy := v)
    case SetSortOrder(v) => f.(sortOrder := v)
  }

  /** The change that puts back what `f` held under the key `c` sets. */
  function Restore(f: FilterState, c: Change): Change {
    match c
    case SetCategory(_) => SetCategory(f.category)
    case SetMinPrice(_) => SetMinPrice(f.minPrice)
    case SetMaxPrice(_) => SetMaxPrice(f.maxPrice)
    case SetSearch(_) => SetSearch(f.search)
    case SetSortBy(_) => SetSortBy(f.sortBy)
    case SetSortOrder(_) => SetSortOrder(f.sortOrder)
  }

  /** Whether two changes set the same key. */
  predicate SameKey(c: Change, d: Change) {
    (c.SetCategory? && d.SetCategory?) || (c.SetMinPrice? && d.SetMinPrice?) ||
    (c.SetMaxPrice? && d.SetMaxPrice?) || (c.SetSearch? && d.SetSearch?) ||
    (c.SetSortBy? && d.SetSortBy?) || (c.SetSortOrder? && d.SetSortOrder?)
  }

  /** A change can be undone by restoring the old value; of two changes to
      one key the second wins; changes to different keys commute; applying a
      change twice is applying it once. */
  lemma ApplyFacts(f: FilterState, c: Change, d: Change)
    ensures Apply(Apply(f, c), Restore(f, c)) == f
    ensures SameKey(c, d) ==> Apply(Apply(f, c), d) == Apply(f, d)
    ensures !SameKey(c, d) ==> Apply(Apply(f, c), d) == Apply(Apply(f, d), c)
    ensures Apply(Apply(f, c), c) == Apply(f, c)
  {
  }

  /** `handlePriceRangeChange` once its timer fires: the slider's two values
      become the price bounds. */
  function PriceRangeChanged(f: FilterState, values: (real, real)): (r: FilterState)
    ensures r == Apply(Apply(f, SetMinPrice(values.0)), SetMaxPrice(values.1))
    ensures r.category == f.category && r.search == f.search
    ensures r.sortBy == f.sortBy && r.sortOrder == f.sortOrder
  {
    f.(minPrice := values.0, maxPrice := values.1)
  }

  /** `clearFilters`: every filter back to its default. */
  function Cleared(b: PriceBounds): FilterState {
    FilterState("all", b.min, b.max, "", ByPopularity, Desc)
  }

  predicate CategoryBadge(f: FilterState) { f.category != "all" }
  predicate SearchBadge(f: FilterState) { f.search != "" }
  predicate PriceBadge(f: FilterState, b: PriceBounds) { f.minPrice != b.min || f.maxPrice != b.max }

  /** `hasActiveFilters`. */
  predicate HasActiveFilters(f: FilterState, b: PriceBounds) {
    f.category != "all" || f.search != "" || f.minPrice != b.min || f.maxPrice != b.max
  }

  function Flag(c: bool): nat { if c then 1 else 0 }

  /** The number on the mobile "Filters" button. */
  function ActiveCount(f: FilterState, b: PriceBounds): (n: nat)
    ensures n <= 3
    ensures n == 0 <==> !HasActiveFilters(f, b)
  {
    Flag(CategoryBadge(f)) + Flag(SearchBadge(f)) + Flag(PriceBadge(f, b))
  }

  /** The X on the category, search and price badges. */
  function CategoryBadgeCleared(f: FilterState): FilterState { Apply(f, SetCategory("all")) }
  function SearchBadgeCleared(f: FilterState): FilterState { Apply(f, SetSearch("")) }
  function PriceBadgeCleared(f: FilterState, b: PriceBounds): FilterState {
    f.(minPrice := b.min, maxPrice := b.max)
  }

  /** After "clear all" nothing is active, the sort is by popularity,
      descending, and moving the slider to the catalogue's bounds keeps it so. */
  lemma ClearedFacts(f: FilterState, b: PriceBounds)
    ensures !HasActiveFilters(Cleared(b), b) && ActiveCount(Cleared(b), b) == 0
    ensures Cleared(b).sortBy == ByPopularity && Cleared(b).sortOrder == Desc
    ensures PriceRangeChanged(Cleared(b), (b.min, b.max)) == Cleared(b)
  {
  }

  /** Each badge's X removes that badge alone, so the count drops by one;
      clearing all three badges gives the "clear all" state except for the
      sort, which stays as it was. */
  lemma BadgesFacts(f: FilterState, b: PriceBounds)
    ensures CategoryBadge(f) ==> ActiveCount(CategoryBadgeCleared(f), b) == ActiveCount(f, b) - 1
                                 && !CategoryBadge(CategoryBadgeCleared(f))
    ensures SearchBadge(f) ==> ActiveCount(SearchBadgeCleared(f), b) == ActiveCount(f, b) - 1
                               && !SearchBadge(SearchBadgeCleared(f))
    ensures PriceBadge(f, b) ==> ActiveCount(PriceBadgeCleared(f, b), b) == ActiveCount(f, b) - 1
                                 && !PriceBadge(PriceBadgeCleared(f, b), b)
    ensures PriceBadgeCleared(SearchBadgeCleared(CategoryBadgeCleared(f)), b)
              == Cleared(b).(sortBy := f.sortBy, sortOrder := f.sortOrder)
  {
  }

  /** The first category equal to `c` when both are lower-cased
      (`categories.find`). */
  function FindCategory(categories: seq<string>, c: string): (o: Option<nat>)
    ensures o.None? <==> forall i :: 0 <= i < |categories| ==> ToLower(categories[i]) != ToLower(c)
    ensures o.Some? ==> o.value < |categories| && ToLower(categories[o.value]) == ToLower(c)
    ensures o.Some? ==> forall i :: 0 <= i < o.value ==> ToLower(categories[i]) != ToLower(c)
  {
    if categories == [] then None
    else if ToLower(categories[0]) == ToLower(c) then Some(0)
    else match FindCategory(categories[1..], c)
      case None => None
      case Some(k) => Some(k + 1)
  }

  /** `getSelectedCategoryDisplay`: the spelling of the first category of
      the list that matches the selection case-insensitively, or the
      selection itself when none does. */
  function SelectedCategoryDisplay(f: FilterState, categories: seq<string>): (text: string)
    ensures f.category == "all" ==> text == "All Categories"
    ensures f.category != "all" ==> ToLower(text) == ToLower(f.category)
    ensures f.category != "all" && text != f.category ==> text in categories
    ensures f.category != "all" ==>
              forall k :: (0 <= k < |categories| && ToLower(categories[k]) == ToLower(f.category) &&
                           (forall i :: 0 <= i < k ==> ToLower(categories[i]) != ToLower(f.category)))
                          ==> text == categories[k]
    ensures (f.category != "all" &&
             (forall i :: 0 <= i < |categories| ==> ToLower(categories[i]) != ToLower(f.category)))
              ==> text == f.category
  {
    if f.category == "all" then "All Categories"
    else match FindCategory(categories, f.category)
      case Some(k) => categories[k]
      case None => f.category
  }

  /** A selected category spelt as in the list, with no other spelling of it
      earlier in the list, is shown as is. */
  lemma DisplayExact(f: FilterState, categories: seq<string>, k: nat)
    requires f.category != "all" && k < |categories| && categories[k] == f.category
    requires forall i :: 0 <= i < k ==> ToLower(categories[i]) != ToLower(f.category)
    ensures SelectedCategoryDisplay(f, categories) == f.category
  {
    assert ToLower(categories[k]) == ToLower(f.category);
  }
}
