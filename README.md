# Product recommendation store — a Dafny model of its core

This project models the deterministic core of the product recommendation
store: a Next.js shop whose products route loads a catalogue and answers
filtered, paginated queries over it, whose chat route recommends products
for a message, and whose page components keep a cart, a wishlist, an
engagement log, a filter panel and a pagination bar.

The modules follow the source files:

- **Csv** — `parseCSV`: trimming, the split on newlines, the quote-aware
  character loop (as a method proved against a scanner function), the zip
  against the headers, `originalIndex`, and the "too few lines" error.
- **Catalog** — `fetchProductsFromCSV`: a class holding the module's cache
  slot, and the chain of sources. The chain is the primary CSV, then three
  JSON mirrors in order, then `createSampleData`'s ten records. A fetch, the
  JSON parser and the clock are parameters.
- **Normalize** — `getProductName`, `getProductCategories`,
  `getProductDescription` and `getProductImage`, each a first-match search
  over a priority list of keys.
- **Query** — the enrichment, filter and pagination steps of `GET`, plus
  the catalogue-wide categories and price range it returns.
- **ProductPagination** — `getVisiblePages`, the "Showing X to Y" numbers
  and the arrow buttons.
- **ShoppingCart** — the totals and `handleQuantityChange` of the cart sheet.
- **ProductGrid** — the cart, wishlist, dialog and hover handlers, and the
  engagement log. The page's state is a class with one field per state
  variable.
- **DetailModal** — the product dialog's quantity picker, its add-to-cart
  button and its row of similar products.
- **ProductFilters** — the filter state, "clear all", the badges and their
  count, and the category label.
- **ChatRecommend** — the chat route: validation, the match rule, the cap
  of six, and the book fallback.

Wrappers, Seqs, Text and Records hold the shared definitions:

- `Option`/`Result`;
- order-keeping filtering and prefixes;
- JavaScript's `trim`, `toLowerCase` (ASCII), `includes`, `length`
  (in UTF-16 code units) and number rendering;
- JavaScript objects as lists of key/value fields in insertion order.
  `Records.Entries` lists them in the order `Object.entries` does:
  array-index keys (such as `12`) first, in ascending numeric order, then
  the other keys in insertion order.

Prices in the cart are whole cents. Prices in the query stage and the
filter panel are `real`s.

Three behaviours of the code that the model keeps as written:

- After a JSON mirror succeeds, `lastErrorDetails` is set back to null
  (app/api/products/route.ts:261), so the primary source's error is not
  kept. Catalog.SecondMirrorWins states this.
- `parseCSV` works on the whole text. There is no chunked reading, no
  cap on the number of records and no per-row error recovery.
- `parseCSV` fails only when the trimmed text has fewer than two lines
  (app/api/products/route.ts:27-30). Csv.ParseNonEmpty shows that a text
  with two lines always has a data row, so a successful parse is never
  empty.

## Model

| member | source | states |
|---|---|---|
| Csv.SplitFields | app/api/products/route.ts:38-50 | the character loop yields exactly `Fields(line)`: the trimmed fields split at commas outside quotes, with no quote copied |
| Csv.ScanParity | app/api/products/route.ts:41-42 | "inside quotes" holds exactly when an odd number of quotes has been seen |
| Csv.FieldCount | app/api/products/route.ts:65-79 | a line has one field more than it has commas standing after an even number of quotes |
| Csv.ScanAppend | app/api/products/route.ts:65-79 | scanning `p + q` is scanning `q` from the state reached after `p` |
| Csv.ScanFromFresh | app/api/products/route.ts:72-75 | after a splitting comma the scan of the rest proceeds as a fresh line, behind the fields closed so far |
| Csv.SplitAtComma | app/api/products/route.ts:65-79 | a comma after an even number of quotes splits: the fields of `p + "," + q` are those of `p` followed by those of `q` |
| Csv.QuotedCommaKept | app/api/products/route.ts:65-79 | a comma after an odd number of quotes is copied into the current field and adds no field |
| Csv.OneField | app/api/products/route.ts:65-79 | a line with no splitting comma is the single field holding the line without its quotes |
| Csv.RawFieldsJoin | app/api/products/route.ts:65-79 | joining the fields with commas gives back the line minus its quotes: nothing but quotes is lost |
| Csv.RawFieldsQuoteFree | app/api/products/route.ts:68-75 | no field ever holds a double quote |
| Csv.FieldsClean | app/api/products/route.ts:71-79 | every pushed value is quote-free and already trimmed |
| Csv.QuotedCommaExample | app/api/products/route.ts:65-79 | `"A","B, C",5,10` gives the values `A`, `B, C`, `5`, `10` |
| Csv.ZipRecord | app/api/products/route.ts:82-86 | the header loop builds the record `Zip(headers, values)` |
| Csv.ZipKeys | app/api/products/route.ts:83-86 | the record's keys are the headers, each once |
| Csv.ZipValue | app/api/products/route.ts:83-86 | a header takes its last column's value, or `""` when the line is short |
| Csv.ZipValuesClean | app/api/products/route.ts:83-86 | trimmed, quote-free fields give only trimmed, quote-free values |
| Csv.MakeRecordShape | app/api/products/route.ts:82-88 | a record holds exactly the header keys plus `originalIndex`, each once, with the given index and the column values |
| Csv.DataRows | app/api/products/route.ts:56-58 | every data row is a non-blank line after the header |
| Csv.DataRowsFacts | app/api/products/route.ts:56-58 | the data rows are strictly increasing and miss no non-blank line after the header |
| Csv.RowRecords | app/api/products/route.ts:56-90 | one record per data row |
| Csv.RowRecordsSnoc | app/api/products/route.ts:89 | a further data row appends its one record at the end |
| Csv.ParseCSV | app/api/products/route.ts:26-99 | the parse returns exactly `ParsedRecords(csvText)`: the too-few-lines error, or the records of the data rows in order |
| Csv.ParseFailsIffOneLine | app/api/products/route.ts:27-30 | the parse fails, with the header-and-row message, exactly when the trimmed text has no newline |
| Csv.ParseNonEmpty | app/api/products/route.ts:27-58 | a successful parse has at least one record: the last line of trimmed text is never blank |
| Csv.RecordShape | app/api/products/route.ts:56-89 | the n-th record is built from its own line, and all its header values are trimmed and quote-free |
| Csv.RecordOrder | app/api/products/route.ts:56-89 | one record per non-blank line, blank lines give none, and `originalIndex` strictly increases |
| Catalog.PrimaryOutcome | app/api/products/route.ts:118-175 | the primary source's records or thrown message; stated by Catalog.PrimarySucceedsIff and Catalog.NoEmptyProductsError |
| Catalog.AltRecords | app/api/products/route.ts:217-267 | one mirror's records, or none; stated by Catalog.BadBodyRejected and Catalog.FirstAlternativeFacts |
| Catalog.Resolve | app/api/products/route.ts:185-280 | what a cache miss stores; stated by Catalog.ResolveFacts, Catalog.PrimaryWins and Catalog.AllFail |
| Catalog.TryPrimary | app/api/products/route.ts:118-175 | the primary attempt gives exactly `PrimaryOutcome`: each thrown error message, or the parsed records |
| Catalog.TryAlternative | app/api/products/route.ts:217-267 | one mirror attempt yields exactly `AltRecords`: None on a bad status, unreadable, HTML, blank or unparsable body, or an empty array |
| Catalog.TryAlternatives | app/api/products/route.ts:215-268 | the mirror loop returns the first mirror that yields, tagged, and fetches exactly the mirrors up to it |
| Catalog.TaggedCsv | app/api/products/route.ts:178-183 | the i-th CSV record is tagged with its position i; what a tag holds is stated by Catalog.TagCsvShape |
| Catalog.TaggedAlt | app/api/products/route.ts:248-254 | the i-th mirror record is tagged with its position i; what a tag holds is stated by Catalog.TagAltShape |
| Catalog.TagCsvShape | app/api/products/route.ts:178-183 | a CSV record gains a truthy `id` (its own, else `csv-product-<n>`), the source name and the stamp, and keeps every other field |
| Catalog.TagAltShape | app/api/products/route.ts:248-254 | a mirror record gains `originalIndex`, a truthy `id` (else `alt-product-<n>`), the mirror's name and the stamp |
| Catalog.SampleData | app/api/products/route.ts:284-407 | the sample catalogue has exactly ten records |
| Catalog.CatalogCache.constructor | app/api/products/route.ts:19-22 | the cache starts empty, with timestamp 0 and no source or error |
| Catalog.CatalogCache.FetchProducts | app/api/products/route.ts:101-282 | a fresh cache (set, and under five minutes old) returns its list unchanged and fetches nothing; otherwise the result of the chain is returned and stored with its time, source and error |
| Catalog.FetchTwice | app/api/products/route.ts:103-106 | a second call within five minutes of a fill returns the same list and fetches nothing |
| Catalog.PrimarySucceedsIff | app/api/products/route.ts:130-175 | the primary source succeeds iff it answers 2xx with a readable non-HTML body whose trimmed text has a newline, and then yields the non-empty parse |
| Catalog.NoEmptyProductsError | app/api/products/route.ts:173-175 | the "Empty products array" error can never be raised for an answered request |
| Catalog.BadBodyRejected | app/api/products/route.ts:151-159 | a body that is HTML or blank once trimmed is rejected by the primary source and by every mirror |
| Catalog.FirstAlternativeFacts | app/api/products/route.ts:215-268 | a mirror result is non-empty, carries no error and is named after one of the mirrors; there is none iff no mirror yields |
| Catalog.FirstSuccessWins | app/api/products/route.ts:215-263 | mirrors are tried strictly in order: the first that yields decides, and none after it is fetched |
| Catalog.ResolveFacts | app/api/products/route.ts:185-280 | the chain never yields an empty list, and it keeps an error exactly when it fell back to the samples |
| Catalog.PrimaryWins | app/api/products/route.ts:185-193 | a successful primary source is cached as "Azure Blob Storage CSV" with no error, and no mirror is fetched |
| Catalog.AllFail | app/api/products/route.ts:270-280 | when every source fails, exactly the ten samples come back as "Sample Data Fallback" with the primary error, after all four sources were fetched in order |
| Catalog.SecondMirrorWins | app/api/products/route.ts:215-263 | a primary throw, an HTML first mirror and a three-item second mirror give three records from "jsDelivr CDN", no error, and three fetches |
| Normalize.FirstIndex | app/api/products/route.ts:440-445 | the first key of a priority list that qualifies, and none exactly when no key does |
| Normalize.FirstIndexIs | app/api/products/route.ts:440-445 | a qualifying key with none before it is the one found |
| Normalize.Base64ShapedIff | app/api/products/route.ts:458 | the base64 test holds exactly for alphabet characters followed by at most two `=` |
| Records.InsertByIndex | app/api/products/route.ts:449 | inserting a field adds exactly that field to the list |
| Records.InsertOrdered | app/api/products/route.ts:449 | inserting into a list ordered by key value keeps it ordered |
| Records.SortByIndex | app/api/products/route.ts:449 | sorting by key value keeps exactly the same fields |
| Records.SortOrdered | app/api/products/route.ts:449 | the sorted list is ordered by key value |
| Records.EntriesPermutation | app/api/products/route.ts:449 | `Object.entries` lists every field of the record exactly once |
| Records.EntriesOrder | app/api/products/route.ts:449 | the array-index keys come first, in ascending numeric order, and the other keys follow in insertion order |
| Records.EntriesFind | app/api/products/route.ts:449-466 | the first entry passing a filter exists iff some field passes; if an array-index field passes, it is the passing one with the smallest key value; otherwise it is the first passing field in insertion order |
| Text.Utf16Length | app/api/products/route.ts:454 | `length` counts each character once, or twice outside the Basic Multilingual Plane, so it equals the character count for BMP text |
| Normalize.NameLike | app/api/products/route.ts:449-466 | the entry filter: a non-blank string of 3 to 199 UTF-16 units, not a URL, data URL or base64 text, under a key naming no image, url or id; its uses are stated by Normalize.NameLikeChoice |
| Normalize.FirstNameLike | app/api/products/route.ts:465-466 | the first of the given fields that passes the filter, and none exactly when no field does |
| Normalize.NameLikeChoice | app/api/products/route.ts:449-466 | over `Object.entries`: a name-like field is found iff one exists; a name-like array-index field beats every other, the smallest key value first; otherwise the first name-like field in insertion order |
| Normalize.NumericKeyFirst | app/api/products/route.ts:449-466 | for the header `sku,12` and the row `Blue mug,Red cup`, `Object.entries` puts `12` first and the heuristic takes `Red cup` |
| Normalize.NameFrom | app/api/products/route.ts:410-476 | a resolved name is never empty |
| Normalize.GetProductName | app/api/products/route.ts:410-476 | `getProductName` never returns an empty string |
| Normalize.NameSources | app/api/products/route.ts:440-475 | the name is the first usable priority field trimmed, else the first name-like entry of `Object.entries` trimmed, else `Product <index+1>`, and it is always trimmed |
| Normalize.Segments | app/api/products/route.ts:494 | splitting on `\| > / \ , ;` gives at least one piece, none holding a separator |
| Normalize.CategoryList | app/api/products/route.ts:494-496 | every kept category is non-empty, trimmed and free of separators |
| Normalize.TrimKeepsNoDelim | app/api/products/route.ts:495 | trimming a separator-free piece leaves it separator-free |
| Normalize.CategoriesFrom | app/api/products/route.ts:478-506 | a resolved category list is non-empty, with non-empty, trimmed, separator-free entries |
| Normalize.GetProductCategories | app/api/products/route.ts:478-506 | `getProductCategories` always returns a non-empty list of non-empty, trimmed, separator-free categories |
| Normalize.CategorySources | app/api/products/route.ts:491-505 | the first field whose split is non-empty decides, and with none the list is `["General"]` |
| Normalize.DescriptionFrom | app/api/products/route.ts:508-528 | a resolved description is never empty |
| Normalize.GetProductDescription | app/api/products/route.ts:508-528 | `getProductDescription` never returns an empty string |
| Normalize.DescriptionSources | app/api/products/route.ts:521-527 | the description is the first usable field trimmed, else "No description available" |
| Normalize.ImageFrom | app/api/products/route.ts:530-564 | an image starts with `data:image/` or `http`, and there is none exactly when no field gives one |
| Normalize.GetProductImage | app/api/products/route.ts:530-564 | `getProductImage` gives a `data:image/` or `http` reference, or null |
| Normalize.ImageSources | app/api/products/route.ts:548-560 | the first field with an image form decides; a value that is neither data-image nor http is base64 longer than 100 characters and becomes a JPEG data URL |
| Query.Enrich | app/api/products/route.ts:665-678 | one processed product; its properties are stated by Query.EnrichShape |
| Query.EnrichAll | app/api/products/route.ts:664-684 | the i-th processed product is the i-th record, enriched with index i; what each holds is stated by Query.EnrichShape |
| Query.EnrichShape | app/api/products/route.ts:665-678 | a processed product has a truthy id, a non-empty name and description, and a non-empty category list whose head is its category |
| Query.CategoryStage | app/api/products/route.ts:689-693 | keeps, in order, exactly the listings with a category containing the lower-cased filter, or all of them when the filter is unset or `all` |
| Query.MinPriceStage | app/api/products/route.ts:695-697 | keeps, in order, exactly the listings priced at or above the minimum, or all of them without one |
| Query.MaxPriceStage | app/api/products/route.ts:699-701 | keeps, in order, exactly the listings priced at or below the maximum, or all of them without one |
| Query.SearchStage | app/api/products/route.ts:703-711 | keeps, in order, exactly the listings whose name, description or a category contains the lower-cased term, or all of them for an empty term |
| Query.Filtered | app/api/products/route.ts:689-711 | the four filters in the route's order; stated by Query.FilteredIff and Query.FilteredIsSubsequence |
| Query.FilteredIsSubsequence | app/api/products/route.ts:689-711 | the filters only remove listings and keep their order |
| Query.FilteredShorter | app/api/products/route.ts:689-711 | the filters never add listings |
| Query.FilteredIff | app/api/products/route.ts:689-711 | a listing survives exactly when it passes every active filter, with inclusive price bounds |
| Query.AllCategoriesSkipped | app/api/products/route.ts:689 | the category filter is skipped for "all" |
| Query.PriceWindowExample | app/api/products/route.ts:695-701 | prices 10, 20 and 30 with bounds 15 and 25 leave only the 20 |
| Query.TotalPages | app/api/products/route.ts:743 | `Math.ceil(total / limit)`; stated by Query.TotalPagesIsCeiling |
| Query.PageOf | app/api/products/route.ts:744-745 | the slice of one page; stated by Query.PageContents |
| Query.TotalPagesIsCeiling | app/api/products/route.ts:743 | the page count is the least number of `limit`-sized pages holding every listing, and 0 exactly for none |
| Query.PageStartInRange | app/api/products/route.ts:744 | a page's first index lies inside the list exactly when the page is within the page count |
| Query.PageContents | app/api/products/route.ts:744-745 | a page holds at most `limit` listings taken in order from `(page-1)*limit`, and a page within the count is never empty |
| Query.MinOf | app/api/products/route.ts:737 | the minimum is one of the prices and at most every price |
| Query.MaxOf | app/api/products/route.ts:738 | the maximum is one of the prices and at least every price |
| Query.PriceRange | app/api/products/route.ts:736-739 | the range is absent exactly for no prices; otherwise it is an ordered pair of prices bounding every price |
| Query.Prices | app/api/products/route.ts:728-733 | one price per fetched record, in order; its bounds are stated by Query.MinOf, Query.MaxOf and Query.PriceRange |
| Query.AllCategories | app/api/products/route.ts:727-735 | the category set holds every category of every fetched record and nothing else |
| Query.AnswerFacts | app/api/products/route.ts:742-757 | `hasNextPage` iff page < page count; `hasPrevPage` iff page > 1; the total counts the filtered listings; a page of any reordering holds at most `limit` admitted listings |
| Query.AnswerFor | app/api/products/route.ts:664-757 | the answer to a query over the fetched records; stated by Query.AnswerFacts |
| Query.HandleGet | app/api/products/route.ts:642-768 | `GET` answers over the cached or freshly resolved catalogue, with the cache's source and error details; a fresh cache is left unchanged, and otherwise the cache holds the resolved list, its time, source and error |
| ProductPagination.Span | components/product-pagination.tsx:37-39 | the page numbers from `lo` to `hi`, empty when `lo > hi` |
| ProductPagination.AsPages | components/product-pagination.tsx:47 | each middle number becomes a page entry, in order; where they sit in the window is stated by ProductPagination.VisibleLayout |
| ProductPagination.VisiblePages | components/product-pagination.tsx:32-56 | the window of page entries; stated by the lemmas below |
| ProductPagination.GetVisiblePages | components/product-pagination.tsx:32-56 | the loop and the pushes build exactly the window `VisiblePages` |
| ProductPagination.VisibleLayout | components/product-pagination.tsx:41-53 | where page 1, the left ellipsis, the middle pages and the tail sit in the window |
| ProductPagination.VisibleEnds | components/product-pagination.tsx:41-53 | the window starts at page 1, ends at the last page when there is more than one, and has at most five middle pages |
| ProductPagination.EntryFacts | components/product-pagination.tsx:37-53 | each numbered entry is 1 at the front, the next middle page in the middle, or the last page at the end |
| ProductPagination.VisibleIncreasing | components/product-pagination.tsx:37-53 | the numbered entries strictly increase and lie in `[1, max(1, totalPages)]` |
| ProductPagination.WindowBelowFirstPage | components/product-pagination.tsx:37-53 | with current page -10 and no pages the window is `1, …, 0`, not increasing |
| ProductPagination.WindowRepeatsFirstPage | components/product-pagination.tsx:37-53 | with current page -3 and one page the window is `1, …, 1`, not increasing |
| ProductPagination.VisibleHasCurrent | components/product-pagination.tsx:37-53 | a current page in `[1, totalPages]` is always shown |
| ProductPagination.DotsNeedMiddle | components/product-pagination.tsx:37-53 | with the current page in range, either ellipsis leaves at least one middle page |
| ProductPagination.VisibleLeftDots | components/product-pagination.tsx:37-47 | the second entry is an ellipsis iff `currentPage - 2 > 2` |
| ProductPagination.VisibleRightDots | components/product-pagination.tsx:37-53 | the second to last entry is an ellipsis iff `currentPage + 2 < totalPages - 1` |
| ProductPagination.VisibleDots | components/product-pagination.tsx:41-53 | the left ellipsis appears iff `currentPage - 2 > 2`, the right one iff `currentPage + 2 < totalPages - 1` |
| ProductPagination.ShowingFrom | components/product-pagination.tsx:64 | the "from" number; stated by ProductPagination.ShowingMatchesPage |
| ProductPagination.ShowingTo | components/product-pagination.tsx:64 | the "to" number is `currentPage*limit` or the total, and never above the total |
| ProductPagination.ArrowsFollowRoute | components/product-pagination.tsx:92-141 | with the route's flags, First/Previous are disabled iff page ≤ 1 or loading, and Next/Last iff page ≥ page count or loading |
| ProductPagination.ShowingMatchesPage | components/product-pagination.tsx:64 | for a page in range, "Showing X to Y" counts exactly the listings the route put on that page |
| ShoppingCart.StockCap | components/shopping-cart.tsx:35 | `stock \|\| 99`; used by ShoppingCart.QuantityChangeFacts |
| ShoppingCart.TotalItems | components/shopping-cart.tsx:29 | the item total; stated by ShoppingCart.TotalsAppend, ShoppingCart.TotalsSingle and ShoppingCart.TotalsNonNegative |
| ShoppingCart.TotalPrice | components/shopping-cart.tsx:30 | the price total; stated by the same lemmas |
| ShoppingCart.QuantityChange | components/shopping-cart.tsx:32-42 | the callback a press makes; stated by ShoppingCart.QuantityChangeFacts |
| ShoppingCart.Clamp | components/shopping-cart.tsx:35 | the clamp lies in `[lo, hi]`, keeps a value within the bounds, and gives the bound that a value overshoots |
| ShoppingCart.TotalsAppend | components/shopping-cart.tsx:29-30 | the item and price totals of a split cart are the sums of its parts' totals |
| ShoppingCart.TotalsSingle | components/shopping-cart.tsx:29-30 | one item counts its quantity and its price times quantity |
| ShoppingCart.TotalsCons | components/shopping-cart.tsx:29-30 | an item in front adds its quantity and line price |
| ShoppingCart.TotalsNonNegative | components/shopping-cart.tsx:29-30 | with no negative quantity or price, both totals are non-negative |
| ShoppingCart.FindItem | components/shopping-cart.tsx:33 | the first item with the id, and none exactly when no item has it |
| ShoppingCart.QuantityChangeFacts | components/shopping-cart.tsx:32-42 | an unknown id makes no call; otherwise the clamped quantity in `[0, stock\|\|99]` removes the item at 0 and updates it otherwise |
| ShoppingCart.ButtonsOnItem | components/shopping-cart.tsx:109-119 | an enabled + raises the quantity by exactly one, and − at quantity 1 removes the item |
| ProductGrid.Merge | components/product-grid.tsx:741-758 | the merge of both add handlers; stated by ProductGrid.MergeExisting, ProductGrid.MergeNew and ProductGrid.MergeFacts |
| ProductGrid.AddToCart | components/product-grid.tsx:740-776 | `handleAddToCart` on the cart; stated by ProductGrid.MergeFacts |
| ProductGrid.AddRecommended | components/product-grid.tsx:839-876 | `handleRecommendedAddToCart` on the cart; stated by ProductGrid.MergeFacts |
| ProductGrid.SetQuantity | components/product-grid.tsx:778-780 | `handleUpdateCartQuantity`; stated by ProductGrid.SetQuantityFacts |
| ProductGrid.RemoveFromCart | components/product-grid.tsx:782-784 | `handleRemoveFromCart`; stated by ProductGrid.RemoveFacts |
| ProductGrid.Toggle | components/product-grid.tsx:885-894 | the wishlist toggle; stated by ProductGrid.ToggleFacts |
| ProductGrid.SimilarProducts | components/product-grid.tsx:677-680 | the detail view's similar products; stated by ProductGrid.SimilarFacts |
| ProductGrid.SimilarByCategory | components/product-grid.tsx:831-832 | a recommended product's similar products; stated by ProductGrid.SimilarByCategoryFacts |
| ProductGrid.ModalProduct | components/product-grid.tsx:816-829 | the product handed to the dialog; used by ProductGrid.GridSession.HandleRecommendedViewDetails |
| ProductGrid.PositionOf | components/product-grid.tsx:741 | an id in the cart sits at one position, the only one when ids are distinct |
| ProductGrid.TotalsReplace | components/product-grid.tsx:742-744 | changing one item's quantity changes the item total by the difference |
| ProductGrid.MergeExisting | components/product-grid.tsx:741-744 | adding an id already in the cart raises that item's quantity and leaves the length, the ids and every other item alone |
| ProductGrid.MergeNew | components/product-grid.tsx:745-757 | adding a new id appends exactly one item at the end, and ids stay distinct |
| ProductGrid.MergeFacts | components/product-grid.tsx:741-758 | after an add, ids stay distinct, the id is present, no other id appears, and the item total grows by the quantity |
| ProductGrid.SetQuantityFacts | components/product-grid.tsx:778-780 | an update changes only the items with that id, and only their quantity |
| ProductGrid.SetQuantityAt | components/product-grid.tsx:778-780 | with distinct ids, an update replaces one position's quantity |
| ProductGrid.RemoveFacts | components/product-grid.tsx:782-784 | a removal drops every item with the id and keeps the others in order |
| ProductGrid.RemoveCutsOut | components/product-grid.tsx:782-784 | with distinct ids, a removal cuts out exactly that one position |
| ProductGrid.TotalsCut | components/product-grid.tsx:782-784 | cutting out an item lowers the item total by its quantity |
| ProductGrid.PressCallback | components/shopping-cart.tsx:35-40 | a +/− press on an item asks for removal at 0 and for the clamped quantity otherwise |
| ProductGrid.PressFacts | components/product-grid.tsx:778-784 | the intended wiring of the cart sheet: the grid applying a press removes the item at 0 and sets its quantity otherwise, keeps ids distinct, and moves the item total by exactly the quantity change |
| ProductGrid.ToggleFacts | components/product-grid.tsx:885-894 | a toggle flips only that id, twice restores the set, and the logged flag is the new membership |
| ProductGrid.DialogQuantity | components/product-grid.tsx:878-883 | the dialog quantity is at least 1, at most `stock\|\|99`, and exactly `q+change` within those bounds |
| ProductGrid.SimilarFacts | components/product-grid.tsx:677-680 | the first `min(6, n)` of the n products other than the shown one that share a category with it, in list order; all of them when six or fewer qualify |
| ProductGrid.SimilarByCategoryFacts | components/product-grid.tsx:831-832 | the first `min(6, n)` of the n other products of its category, in list order; all of them when six or fewer qualify |
| ProductGrid.GridSession.constructor | components/product-grid.tsx:104-185 | the page starts with an empty cart, wishlist and log, counter 1, and closed dialogs |
| ProductGrid.GridSession.TrackEngagement | components/product-grid.tsx:551-598 | one event numbered with the counter is appended, the counter moves up by one, and the numbering stays consecutive |
| ProductGrid.GridSession.TrackProduct | components/product-grid.tsx:551-598 | the same, for an event that describes a product |
| ProductGrid.GridSession.HandleViewDetails | components/product-grid.tsx:661-685 | a click is logged, and the dialog opens on the product with its similar products |
| ProductGrid.GridSession.HandleProductDetailClick | components/product-grid.tsx:790-798 | the dialog opens on the product with its similar products, and nothing is logged |
| ProductGrid.GridSession.HandleRecommendedViewDetails | components/product-grid.tsx:800-837 | a click is logged, and the dialog opens on the product rebuilt with its category as its only category, no "about" text and the mock price and stock, with the same-category products |
| ProductGrid.GridSession.HandleShare | components/product-grid.tsx:687-724 | a share event is logged, and nothing else changes |
| ProductGrid.GridSession.HandleAddToCart | components/product-grid.tsx:740-776 | the cart becomes the merge of the product and quantity, one add is logged, and ids stay distinct |
| ProductGrid.GridSession.HandleRecommendedAddToCart | components/product-grid.tsx:839-876 | one add is logged and one unit of the product is merged in |
| ProductGrid.GridSession.HandleUpdateCartQuantity | components/product-grid.tsx:778-780 | only the cart changes, by the update |
| ProductGrid.GridSession.HandleRemoveFromCart | components/product-grid.tsx:782-784 | only the cart changes, by the removal, and ids stay distinct |
| ProductGrid.GridSession.HandleClearCart | components/product-grid.tsx:786-788 | the cart becomes empty and nothing else changes |
| ProductGrid.GridSession.HandleAddToCartClick | components/product-grid.tsx:726-730 | the quantity dialog opens on the product at quantity 1 |
| ProductGrid.GridSession.HandleAddToCartQuantityChange | components/product-grid.tsx:878-883 | with a chosen product the quantity is clamped into `[1, stock\|\|99]`, and without one nothing changes |
| ProductGrid.GridSession.HandleAddToCartConfirm | components/product-grid.tsx:732-738 | the chosen quantity is added and logged, then the dialog closes; without a product nothing changes |
| ProductGrid.GridSession.HandleWishlistToggle | components/product-grid.tsx:885-911 | the id's membership flips and a click carrying the new membership is logged |
| ProductGrid.GridSession.HandleMouseEnter | components/product-grid.tsx:600-622 | the hover's start time and product data are remembered under the id |
| ProductGrid.GridSession.HandleMouseLeave | components/product-grid.tsx:624-647 | with a started hover, a hover event with the dwell time is logged and both entries are forgotten; otherwise nothing changes |
| ProductGrid.KeepUnique | components/product-grid.tsx:782-784 | filtering a cart of distinct ids leaves distinct ids |
| ProductGrid.TwoEventsNumbered | components/product-grid.tsx:565-587 | on a fresh page, a share and then an add-to-cart are logged in that order, numbered 1 and 2 |
| DetailModal.Opened | components/product-detail-modal.tsx:41-45 | opening the dialog sets the quantity to 1; otherwise the quantity is kept |
| DetailModal.PressesStayInRange | components/product-detail-modal.tsx:39-52 | from the opening quantity, any presses keep the quantity in `[1, stock\|\|99]` |
| DetailModal.PressesFrom | components/product-detail-modal.tsx:49-52 | presses from a quantity in range stay in range |
| DetailModal.ButtonsFacts | components/product-detail-modal.tsx:49-52 | an enabled + or − moves the quantity by exactly one and the other button undoes it; a disabled button would change nothing |
| DetailModal.AddPressed | components/product-detail-modal.tsx:54-57 | add-to-cart hands on exactly the product and the current quantity, then closes |
| DetailModal.AddedToCart | components/product-detail-modal.tsx:54-57 | the page applying that request keeps ids distinct, holds the product, and grows the item total by the quantity |
| DetailModal.SimilarShown | components/product-detail-modal.tsx:202 | the dialog lists the first four similar products, or all of them when there are fewer |
| DetailModal.SimilarClicked | components/product-detail-modal.tsx:202-206 | clicking a listed similar product hands exactly that product on |
| DetailModal.SimilarRow | components/product-detail-modal.tsx:198-206 | the row shows at most four products, none the product itself, each sharing a category |
| ProductFilters.Apply | components/product-filters.tsx:48-50 | one filter change; stated by ProductFilters.ApplyFacts |
| ProductFilters.Cleared | components/product-filters.tsx:67-78 | the cleared filters; stated by ProductFilters.ClearedFacts |
| ProductFilters.HasActiveFilters | components/product-filters.tsx:80-84 | whether any filter is active; stated by ProductFilters.ActiveCount |
| ProductFilters.ApplyFacts | components/product-filters.tsx:48-50 | a change is undone by restoring the old value; for the same key the second wins; different keys commute; a change is idempotent |
| ProductFilters.PriceRangeChanged | components/product-filters.tsx:53-65 | the slider sets min and max only |
| ProductFilters.ActiveCount | components/product-filters.tsx:273-277 | the count is at most 3, and 0 exactly when no filter is active |
| ProductFilters.ClearedFacts | components/product-filters.tsx:67-84 | after clearing nothing is active, the count is 0, the sort is by popularity, descending, and the bounds slider keeps it so |
| ProductFilters.BadgesFacts | components/product-filters.tsx:223-253 | each badge's X removes only that badge and lowers the count by one; the three together give the cleared state with the sort kept |
| ProductFilters.FindCategory | components/product-filters.tsx:89 | the first list category equal ignoring case, and none exactly when there is no such category |
| ProductFilters.SelectedCategoryDisplay | components/product-filters.tsx:87-91 | "All Categories" for "all"; otherwise the spelling of the first list category equal to the selection ignoring case, or the selection itself when there is none |
| ProductFilters.DisplayExact | components/product-filters.tsx:87-91 | a selection spelt as its first case-insensitive match is shown as is |
| ChatRecommend.Chat | app/api/chat_recommend/route.ts:40-192 | the `POST` handler; stated by ChatRecommend.ValidationFacts, ChatRecommend.SearchFacts and ChatRecommend.FallbackFacts |
| ChatRecommend.TextFromFacts | app/api/chat_recommend/route.ts:54-96 | a resolver gives the first usable field trimmed (never blank at either end), else its fallback |
| ChatRecommend.ChatName | app/api/chat_recommend/route.ts:54-74 | the chat name is never empty |
| ChatRecommend.ChatDescription | app/api/chat_recommend/route.ts:76-85 | the chat description is never empty |
| ChatRecommend.ChatCategory | app/api/chat_recommend/route.ts:87-96 | the chat category is never empty |
| ChatRecommend.ChatDefaults | app/api/chat_recommend/route.ts:54-96 | with no usable fields: `Product <index+1>`, "No description available" and "Uncategorized" |
| ChatRecommend.OriginalIndex | app/api/chat_recommend/route.ts:101 | a usable `originalIndex` is a positive whole number |
| ChatRecommend.Matching | app/api/chat_recommend/route.ts:100-124 | the matches are exactly the products passing the match rule, in list order |
| ChatRecommend.SearchHit | app/api/chat_recommend/route.ts:129-139 | a recommendation has id `search-…`, score 0.95, the placeholder image, popularity in `[100, 1100)` and feedback in `[50, 550)` |
| ChatRecommend.SearchHits | app/api/chat_recommend/route.ts:129 | at most six recommendations, the i-th built from the i-th match |
| ChatRecommend.ValidationFacts | app/api/chat_recommend/route.ts:45-47 | a missing message or session id is a 400 with no recommendations; a non-string message is a 500; everything else is answered with the session id |
| ChatRecommend.SearchFacts | app/api/chat_recommend/route.ts:99-144 | with products sent, at most six matching products come back in order, and none exactly when nothing matches |
| ChatRecommend.FallbackFacts | app/api/chat_recommend/route.ts:145-178 | without products, a book/read/novel message gets exactly the two fixed books and any other message gets none |
| ChatRecommend.ItemWordFacts | app/api/chat_recommend/route.ts:127 | the reply says "item" for one match and "items" for more |

## Left out

- Network, HTTP and JSON: `fetch`, `response.text()`, `JSON.parse`, `NextResponse` and request parsing are left out. A fetch is an abstract `Attempt` and the JSON parser is a parameter. Only array and object documents are modelled; other JSON values are not.
- Clocks: `Date.now()` and `new Date().toISOString()` are parameters (`now`, `storedAt`, `stamp`). `cacheAge` in the debug block is not returned.
- Randomness: `Math.random` is left out. `getPrice` is a parameter `priceOf`. The rating, stock and mock cart prices are parameters or not modelled. The chat route's two draws are parameters reduced by their formulas' ranges.
- Query.AnswerFor: one `priceOf` stands for both `getPrice` calls (app/api/products/route.ts:675 and :732). For a record without a usable price each call is an independent random draw, so in the source `priceRange` need not bound the listed prices.
- Catalog.Resolve: one `stamp` stands for every `new Date().toISOString()` call of a fetch (app/api/products/route.ts:182, 253 and 296-404). In the source, records of one fetch may carry different times.
- Query.Enrich: the response's products are modelled only by the fields the filters and pagination read: id, name, categories, category, description, image and price. The `...product` spread of the raw fields, `popularity`, `net_feedback`, `rating` and `stock` (app/api/products/route.ts:665-678) are not carried.
- `getPrice`, `getPopularity`, `getNetFeedback`: left out. They parse numbers with `parseFloat` and fall back to random values. Only `getPrice` appears, as the parameter `priceOf`.
- `parseFloat`/`parseInt` of the query string, NaN, and `toFixed` are not modelled. The filters' numbers arrive already parsed.
- Query.AnswerFacts: the sort is stated only as some reordering of the filtered listings (a multiset requirement on `order`). The source's comparator never returns 0 and is not a valid ordering, so no order is claimed.
- Query.TotalPages: requires `limit > 0`. A zero or negative limit gives JavaScript's `Infinity`/NaN arithmetic, which is not modelled.
- Query.AllCategories: the categories are a set. The route's final sort of the category array is not modelled.
- Query.HandleGet: the 500 branch is not modelled. It is reached only when the fetch chain throws, and the model's chain always yields.
- Query.PriceRange: `Math.min`/`Math.max` over no prices give `Infinity`/`-Infinity`. The model gives None there.
- Text.ToLower: covers ASCII letters only, with no Unicode case mapping.
- ChatRecommend.OriginalIndex: a non-numeric, fractional or negative `originalIndex` is read as absent. In JavaScript a string or a negative index is truthy and would be used as is.
- ProductPagination.EntryFacts: requires `currentPage >= 1`. Below page 1 the window can break. With `page=-3` and a single page of results it is `1, …, 1` (ProductPagination.WindowRepeatsFirstPage). With `page=-4` or lower and no results it ends in page 0 (ProductPagination.WindowBelowFirstPage). The route passes any parsed `page` through (app/api/products/route.ts:650 and :752), so such requests reach these cases. The grid itself starts at page 1, and its previous-page buttons follow `hasPrevPage`.
- ProductPagination.VisibleIncreasing: requires `currentPage >= 1`, for the same reason.
- ChatRecommend.Chat: the 800 ms delay and `session_data`/`chat_history` are left out. A non-array truthy `available_products` is not modelled.
- ProductGrid.GridSession.HandleMouseLeave: the dwell time is the raw difference of the two clock values. The source's rounding of it to seconds is not modelled.
- ProductGrid.GridSession.HandleShare: the share sheet, the clipboard and `alert` are left out. Only the logged event is modelled.
- ProductGrid.GridSession.HandleRecommendedAddToCart: the "added to cart" `alert` (components/product-grid.tsx:875) is left out.
- ProductGrid.PressFacts: the grid defines `handleUpdateCartQuantity` and `handleRemoveFromCart` (components/product-grid.tsx:778-784) but renders no cart sheet, and `isCartOpen` is never read. No press of components/shopping-cart.tsx:32-42 reaches those handlers in the source. The lemma states the intended wiring.
- ShoppingCart.TotalPrice: prices are integer cents. In the source they are JavaScript decimals, and the summed `totalPrice` (components/shopping-cart.tsx:30) is floating point with its rounding.
- React rendering, hooks' scheduling, the filter panel's debounce timer and local slider echo, infinite scroll, the session POST and console logging are left out.
- Unsynchronised concurrent cache fills are left out. Each call is one atomic step.
- Normalize.GetProductImage: states only that an image has the right prefix. That null means no field gives an image is stated on Normalize.ImageFrom, the function it calls.
- ProductFilters.ApplyFacts: `handleFilterChange`'s untyped `value` is modelled as a value typed by its key.
- app/api/session/route.ts, app/api/recommend/route.ts, app/api/recommendations/route.ts, app/api/debug/route.ts and app/page.tsx are not part of this model.
