/** The chat recommendation endpoint: it validates the request, matches the
    shopper's message against the products the page sends (by substring or
    by a few keyword rules), caps the answer at six products, and falls back
    to two fixed books or to nothing when no products are sent. */
module ChatRecommend {
  import opened Wrappers
  import opened Seqs
  import opened Text
  import opened Records
  import opened Normalize

  // ---------------------------------------------------------------------
  // The resolvers
  // ---------------------------------------------------------------------

  const ChatNameFields: seq<string> := [
    "name", "Name", "title", "Title", "productName", "product_name", "itemName", "item_name", "label", "Label"
  ]
  const ChatDescriptionFields: seq<string> := [
    "description", "Description", "desc", "Desc", "details", "Details", "summary", "Summary"
  ]
  const ChatCategoryFields: seq<string> := ["category", "Category", "type", "Type", "group", "Group"]

  const Uncategorized := "Uncategorized"

  /** The first field of `fields` holding a string that is not blank,
      trimmed; `fallback` when there is none. */
  function TextFrom(r: Record, fields: seq<string>, fallback: string): string {
    match FirstIndex(fields, key => UsableText(r, key))
    case Some(i) => Trim(TextAt(r, fields[i]))
    case None => fallback
  }

  /** The value `TextFrom` picks: the first usable field, trimmed, so never
      blank at either end; the fallback only when no field is usable. */
  lemma TextFromFacts(r: Record, fields: seq<string>, fallback: string)
    ensures var t := TextFrom(r, fields, fallback);
            && ((forall j :: 0 <= j < |fields| ==> !UsableText(r, fields[j])) ==> t == fallback)
            && (forall k :: (0 <= k < |fields| && UsableText(r, fields[k])
                             && (forall j :: 0 <= j < k ==> !UsableText(r, fields[j]))) ==>
                  t == Trim(TextAt(r, fields[k])) && t != [] && !IsSpace(t[0]) && !IsSpace(t[|t| - 1]))
  {
    var p := key => UsableText(r, key);
    forall k | 0 <= k < |fields| && UsableText(r, fields[k]) && (forall j :: 0 <= j < k ==> !UsableText(r, fields[j]))
      ensures TextFrom(r, fields, fallback) == Trim(TextAt(r, fields[k]))
    {
      FirstIndexIs(fields, p, k);
    }
    forall k | 0 <= k < |fields| && UsableText(r, fields[k])
      ensures Trim(TextAt(r, fields[k])) != []
      ensures !IsSpace(Trim(TextAt(r, fields[k]))[0])
      ensures !IsSpace(Trim(TextAt(r, fields[k]))[|Trim(TextAt(r, fields[k]))| - 1])
    {
      TrimFacts(TextAt(r, fields[k]));
    }
  }

  /** `Product ${index + 1}`. */
  function NumberedName(index: nat): string {
    "Product " + NatToString(index + 1)
  }

  /** The chat route's `getProductName(product, index)`. */
  function ChatName(r: Record, index: nat): (name: string)
    ensures name != []
  {
    TextFrom(r, ChatNameFields, NumberedName(index))
  }

  /** The chat route's `getProductDescription(product)`: the same rule and
      default as the products route's, over a shorter list. */
  function ChatDescription(r: Record): (d: string)
    ensures d != []
  {
    DescriptionFrom(r, ChatDescriptionFields)
  }

  /** The chat route's `getProductCategory(product)`. */
  function ChatCategory(r: Record): (c: string)
    ensures c != []
  {
    TextFrom(r, ChatCategoryFields, Uncategorized)
  }

  /** `product.originalIndex`, when it is a positive whole number (a truthy
      index); `None` stands for the `|| 0` / `|| index` default. */
  function OriginalIndex(r: Record): (o: Option<nat>)
    ensures o.Some? ==> o.value > 0
  {
    match Get(r, "originalIndex")
    case Some(Num(x)) => if x > 0.0 && x == x.Floor as real then Some(x.Floor as nat) else None
    case _ => None
  }

  // ---------------------------------------------------------------------
  // The match rule
  // ---------------------------------------------------------------------

  /** The match test on the lower-cased message and the lower-cased name,
      description and category of one product. */
  predicate Matches(m: string, name: string, desc: string, cat: string) {
    Contains(name, m) || Contains(desc, m) || Contains(cat, m) ||
    (Contains(m, "harry potter") &&
      (Contains(name, "harry") || Contains(name, "potter") || Contains(desc, "harry") || Contains(desc, "potter"))) ||
    (Contains(m, "book") && (Contains(cat, "book") || Contains(desc, "book") || Contains(name, "book"))) ||
    (Contains(m, "movie") && (Contains(cat, "movie") || Contains(desc, "movie") || Contains(desc, "film"))) ||
    (Contains(m, "tech") && (Contains(cat, "tech") || Contains(desc, "tech") || Contains(desc, "electronic"))) ||
    (Contains(m, "toy") && (Contains(cat, "toy") || Contains(desc, "toy") || Contains(name, "toy")))
  }

  /** The filter callback: the name is resolved with index
      `originalIndex || 0`. */
  predicate ProductMatches(m: string, r: Record) {
    var index := match OriginalIndex(r) case Some(n) => n case None => 0;
    Matches(m, ToLower(ChatName(r, index)), ToLower(ChatDescription(r)), ToLower(ChatCategory(r)))
  }

  function Matching(products: seq<Record>, m: string): (r: seq<Record>)
    ensures forall i :: 0 <= i < |r| ==> ProductMatches(m, r[i]) && r[i] in products
    ensures forall i :: 0 <= i < |products| && ProductMatches(m, products[i]) ==> products[i] in r
    ensures IsSubsequence(r, products)
  {
    var keep := (p: Record) => ProductMatches(m, p);
    KeepFacts(products, keep);
    Keep(products, keep)
  }

  // ---------------------------------------------------------------------
  // Building the answer
  // ---------------------------------------------------------------------

  datatype Recommendation = Recommendation(id: string, name: string, description: string, category: string,
                                           image: string, popularity: int, netFeedback: int,
                                           score: real, reason: string)

  const PlaceholderImage := "/placeholder.svg?height=300&width=300"
  const SearchScore := 0.95

  /** The `index`-th match as a recommendation. `rolls` stands for the two
      `Math.random()` draws, reduced to the ranges their formulas give. */
  function SearchHit(r: Record, index: nat, message: string, rolls: (nat, nat)): (rec: Recommendation)
    ensures rec.score == SearchScore && rec.image == PlaceholderImage
    ensures StartsWith(rec.id, "search-")
    ensures 100 <= rec.popularity < 1100 && 50 <= rec.netFeedback < 550
  {
    var shown := match OriginalIndex(r) case Some(n) => n case None => index;
    var nameIndex := match OriginalIndex(r) case Some(n) => n case None => 0;
    Recommendation("search-" + NatToString(shown), ChatName(r, nameIndex), ChatDescription(r), ChatCategory(r),
                   PlaceholderImage, rolls.0 % 1000 + 100, rolls.1 % 500 + 50, SearchScore,
                   "Matches your search: \"" + message + "\"")
  }

  function SearchHits(matches: seq<Record>, message: string, random: nat -> (nat, nat)): (recs: seq<Recommendation>)
    ensures |recs| == |Take(matches, 6)| && |recs| <= 6
    ensures forall i :: 0 <= i < |recs| ==> recs[i] == SearchHit(matches[i], i, message, random(i))
  {
    var top := Take(matches, 6);
    seq(|top|, i requires 0 <= i < |top| => SearchHit(top[i], i, message, random(i)))
  }

  /** "item" for exactly one match, "items" otherwise. */
  function ItemWord(n: nat): string { if n > 1 then "items" else "item" }

  /** Which of the four replies the endpoint writes. */
  datatype Reply = Found(count: nat, message: string) | NothingFound(message: string) | BookIdeas | AskMore(message: string)

  /** The reply's text. */
  function ReplyText(reply: Reply): string {
    match reply
    case Found(n, message) =>
      "Perfect! I found " + NatToString(n) + " " + ItemWord(n) + " matching \"" + message + "\". "
      + (if n > 1 then "Here are your matches:" else "Here it is:")
    case NothingFound(message) =>
      "I couldn't find any items specifically matching \"" + message
      + "\" in our current inventory. Let me suggest some popular alternatives or try searching for broader categories like \"books\", \"movies\", \"technology\", or describe what you're looking for in more detail."
    case BookIdeas =>
      "I see you're interested in books! Here are some great reads for you. Are you looking for fiction, non-fiction, or a specific genre?"
    case AskMore(message) =>
      "I'd love to help you find what you're looking for! Could you be more specific about \"" + message
      + "\"? For example, are you looking for books, movies, technology items, toys, or something else?"
  }

  const FirstBook := Recommendation("api-book-1", "The Seven Husbands of Evelyn Hugo",
                                    "A captivating novel about a reclusive Hollywood icon's life story", "Books",
                                    PlaceholderImage, 1200, 950, 0.96, "Perfect match for book lovers")
  const SecondBook := Recommendation("api-book-2", "Atomic Habits",
                                     "Transform your life with tiny changes that deliver remarkable results", "Books",
                                     PlaceholderImage, 1500, 1100, 0.94, "Highly recommended for personal growth")

  /** The two books offered when no products are sent. */
  function BookPicks(): seq<Recommendation> {
    [FirstBook, SecondBook]
  }

  predicate AsksForBooks(m: string) {
    Contains(m, "book") || Contains(m, "read") || Contains(m, "novel")
  }

  // ---------------------------------------------------------------------
  // The handler
  // ---------------------------------------------------------------------

  /** The request body: `message`, `session_id` and `available_products`
      (absent, or a list of product objects). */
  datatype ChatRequest = ChatRequest(message: Value, sessionId: Value, products: Option<seq<Record>>)

  datatype ChatResult =
    | Answered(reply: Reply, recommendations: seq<Recommendation>, sessionId: Value)
    | Failed(status: nat)

  /** The `error` text sent with a failure status. */
  function ErrorText(status: nat): string {
    if status == 400 then "Message and session_id are required" else "Failed to process chat message"
  }

  /** `POST`. A message that is truthy but not a string makes
      `toLowerCase` throw, which the handler turns into a 500. */
  function Chat(req: ChatRequest, random: nat -> (nat, nat)): ChatResult {
    if !Truthy(req.message) || !Truthy(req.sessionId) then
      Failed(400)
    else if !req.message.Str? then
      Failed(500)
    else
      var message := req.message.s;
      var m := ToLower(message);
      if req.products.Some? && req.products.value != [] then
        var matches := Matching(req.products.value, m);
        if matches != [] then
          Answered(Found(|matches|, message), SearchHits(matches, message, random), req.sessionId)
        else
          Answered(NothingFound(message), [], req.sessionId)
      else if AsksForBooks(m) then
        Answered(BookIdeas, BookPicks(), req.sessionId)
      else
        Answered(AskMore(message), [], req.sessionId)
  }

  /** A missing message or session id is a 400 with no recommendations; a
      non-string message a 500; every other request is answered. */
  lemma ValidationFacts(req: ChatRequest, random: nat -> (nat, nat))
    ensures var res := Chat(req, random);
            && (res.Failed? && res.status == 400 <==> !Truthy(req.message) || !Truthy(req.sessionId))
            && (res.Failed? && res.status == 500 <==>
                  Truthy(req.message) && Truthy(req.sessionId) && !req.message.Str?)
            && (res.Answered? <==> Truthy(req.message) && Truthy(req.sessionId) && req.message.Str?)
            && (res.Answered? ==> res.sessionId == req.sessionId)
  {
  }

  /** With products sent, at most six come back, each of them a product that
      matches the message, in the list's order and scored 0.95; none come
      back exactly when nothing matches. */
  lemma SearchFacts(req: ChatRequest, random: nat -> (nat, nat))
    requires req.message.Str? && req.message.s != [] && Truthy(req.sessionId)
    requires req.products.Some? && req.products.value != []
    ensures var res := Chat(req, random);
            var m := ToLower(req.message.s);
            var matches := Matching(req.products.value, m);
            && res.Answered?
            && |res.recommendations| <= 6
            && |res.recommendations| == (if |matches| < 6 then |matches| else 6)
            && (res.recommendations == [] <==> forall i :: 0 <= i < |req.products.value| ==>
                                                   !ProductMatches(m, req.products.value[i]))
            && (forall i :: 0 <= i < |res.recommendations| ==>
                  ProductMatches(m, matches[i]) && matches[i] in req.products.value
                  && res.recommendations[i] == SearchHit(matches[i], i, req.message.s, random(i))
                  && res.recommendations[i].score == SearchScore)
  {
  }

  /** Without products, a message about books, reading or novels gets the two
      fixed books and any other message gets none. */
  lemma FallbackFacts(req: ChatRequest, random: nat -> (nat, nat))
    requires req.message.Str? && req.message.s != [] && Truthy(req.sessionId)
    requires req.products.None? || req.products.value == []
    ensures var res := Chat(req, random);
            && res.Answered?
            && (AsksForBooks(ToLower(req.message.s)) ==> res.recommendations == BookPicks())
            && (!AsksForBooks(ToLower(req.message.s)) ==> res.recommendations == [])
  {
  }

  /** The reply says "item" for a single match and "items" for more. */
  lemma ItemWordFacts(n: nat)
    requires n >= 1
    ensures ItemWord(n) == "item" <==> n == 1
    ensures ItemWord(n) == "items" <==> n > 1
  {
  }

  /** The resolver defaults: a product with no usable name field is called
      `Product {index+1}`, one with no usable description field gets
      "No description available" and one with no usable category
      `Uncategorized`. */
  lemma ChatDefaults(r: Record, index: nat)
    requires forall j :: 0 <= j < |ChatNameFields| ==> !UsableText(r, ChatNameFields[j])
    requires forall j :: 0 <= j < |ChatDescriptionFields| ==> !UsableText(r, ChatDescriptionFields[j])
    requires forall j :: 0 <= j < |ChatCategoryFields| ==> !UsableText(r, ChatCategoryFields[j])
    ensures ChatName(r, index) == NumberedName(index)
    ensures ChatDescription(r) == DefaultDescription
    ensures ChatCategory(r) == Uncategorized
  {
    DescriptionSources(r, ChatDescriptionFields, 0);
    TextFromFacts(r, ChatNameFields, NumberedName(index));
    TextFromFacts(r, ChatCategoryFields, Uncategorized);
  }
}
