/** The field resolvers of the products route (`getProductName`,
    `getProductCategories`, `getProductDescription`, `getProductImage`):
    each walks a priority list of keys and takes the first usable value,
    with a default when none is usable. */
module Normalize {
  import opened Wrappers
  import opened Seqs
  import opened Text
  import opened Records

  // ---------------------------------------------------------------------
  // The priority lists
  // ---------------------------------------------------------------------

  const NameFields: seq<string> := [
    "name", "Name", "NAME",
    "title", "Title", "TITLE",
    "product_name", "productName", "ProductName", "PRODUCT_NAME",
    "item_name", "itemName", "ItemName", "ITEM_NAME",
    "product_title", "productTitle", "ProductTitle", "PRODUCT_TITLE",
    "item_title", "itemTitle", "ItemTitle", "ITEM_TITLE",
    "display_name", "displayName", "DisplayName", "DISPLAY_NAME",
    "label", "Label", "LABEL",
    "book_title", "bookTitle", "BookTitle", "BOOK_TITLE",
    "movie_title", "movieTitle", "MovieTitle", "MOVIE_TITLE",
    "product", "Product", "PRODUCT",
    "item", "Item", "ITEM",
    "Product Name", "Product Title", "Item Name", "Item Title",
    "Book Title", "Movie Title", "Display Name",
    "description", "Description", "DESCRIPTION"
  ]

  const CategoryFields: seq<string> := [
    "category", "Category", "CATEGORY",
    "type", "Type", "TYPE",
    "group", "Group", "GROUP",
    "categories", "Categories", "CATEGORIES",
    "genre", "Genre", "GENRE",
    "classification", "Classification", "CLASSIFICATION",
    "Category Name", "Product Category", "Item Category",
    "product_category", "productCategory", "ProductCategory",
    "item_category", "itemCategory", "ItemCategory"
  ]

  const DescriptionFields: seq<string> := [
    "description", "Description", "DESCRIPTION",
    "desc", "Desc", "DESC",
    "details", "Details", "DETAILS",
    "summary", "Summary", "SUMMARY",
    "info", "Info", "INFO",
    "Product Description", "Item Description",
    "product_description", "productDescription", "ProductDescription",
    "item_description", "itemDescription", "ItemDescription",
    "about", "About", "ABOUT"
  ]

  const ImageFields: seq<string> := [
    "image", "Image", "IMAGE",
    "img", "Img", "IMG",
    "imageUrl", "image_url", "ImageUrl", "IMAGE_URL",
    "picture", "Picture", "PICTURE",
    "photo", "Photo", "PHOTO",
    "thumbnail", "Thumbnail", "THUMBNAIL",
    "src", "Src", "SRC",
    "url", "Url", "URL",
    "base64", "Base64", "BASE64",
    "imageData", "image_data", "ImageData", "IMAGE_DATA",
    "data", "Data", "DATA",
    "Product Image", "Item Image",
    "product_image", "productImage", "ProductImage",
    "item_image", "itemImage", "ItemImage"
  ]

  const DefaultCategory := "General"
  const DefaultDescription := "No description available"
  const Base64ImagePrefix := "data:image/jpeg;base64,"

  // ---------------------------------------------------------------------
  // First-match search
  // ---------------------------------------------------------------------

  /** The position of the first key of `keys` that satisfies `p`. */
  function FirstIndex(keys: seq<string>, p: string -> bool): (o: Option<nat>)
    ensures o.Some? ==> o.value < |keys| && p(keys[o.value])
    ensures o.Some? ==> forall j :: 0 <= j < o.value ==> !p(keys[j])
    ensures o.None? <==> forall j :: 0 <= j < |keys| ==> !p(keys[j])
    decreases |keys|
  {
    if keys == [] then None
    else if p(keys[0]) then Some(0)
    else match FirstIndex(keys[1..], p)
      case None => assert forall j :: 1 <= j < |keys| ==> keys[j] == keys[1..][j - 1]; None
      case Some(k) => Some(k + 1)
  }

  /** `product[field] && typeof product[field] === "string" && product[field].trim()`. */
  predicate UsableText(r: Record, key: string) {
    Get(r, key).Some? && Get(r, key).value.Str? && Trim(Get(r, key).value.s) != []
  }

  function TextAt(r: Record, key: string): string
    requires UsableText(r, key)
  {
    Get(r, key).value.s
  }

  // ---------------------------------------------------------------------
  // The base64 test `/^[A-Za-z0-9+/]*={0,2}$/`
  // ---------------------------------------------------------------------

  predicate IsBase64Char(c: char) {
    'A' <= c <= 'Z' || 'a' <= c <= 'z' || '0' <= c <= '9' || c == '+' || c == '/'
  }

  /** The pattern, read left to right: alphabet characters, then at most two `=`. */
  predicate Base64Shaped(s: string)
    decreases |s|
  {
    s == [] || s == "=" || s == "==" || (IsBase64Char(s[0]) && Base64Shaped(s[1..]))
  }

  /** The same language, stated by positions: a body of alphabet characters
      followed by a padding of zero to two `=`. */
  predicate Base64Split(s: string, pad: nat) {
    pad <= 2 && pad <= |s|
    && (forall i :: 0 <= i < |s| - pad ==> IsBase64Char(s[i]))
    && (forall i :: |s| - pad <= i < |s| ==> s[i] == '=')
  }

  lemma {:induction false} Base64ShapedIff(s: string)
    ensures Base64Shaped(s) <==> Base64Split(s, 0) || Base64Split(s, 1) || Base64Split(s, 2)
    decreases |s|
  {
    if s != [] {
      Base64ShapedIff(s[1..]);
      var t := s[1..];
      forall pad: nat | pad <= 2 && pad < |s|
        ensures Base64Split(s, pad) <==> IsBase64Char(s[0]) && Base64Split(t, pad)
      {
        assert forall i :: 1 <= i < |s| ==> s[i] == t[i - 1];
      }
      if Base64Split(s, |s|) && |s| <= 2 {
        assert s == "=" || s == "==";
      }
      if s == "=" {
        assert Base64Split(s, 1);
      }
      if s == "==" {
        assert Base64Split(s, 2);
      }
      assert !IsBase64Char('=');
    }
  }

  // ---------------------------------------------------------------------
  // getProductName
  // ---------------------------------------------------------------------

  /** The heuristic filter over `Object.entries(product)`; the length bounds
      count UTF-16 code units, as `String.prototype.length` does. */
  predicate NameLike(f: Field) {
    f.value.Str? &&
    var v := f.value.s;
    var key := ToLower(f.key);
    && Trim(v) != []
    && 2 < Utf16Length(v) < 200
    && !StartsWith(v, "http") && !StartsWith(v, "data:")
    && !Base64Shaped(v) && !Contains(v, "base64")
    && !Contains(key, "image") && !Contains(key, "url") && !Contains(key, "id")
  }

  /** The first of the fields, in the order given, that passes the filter. */
  function FirstNameLike(r: Record): (o: Option<Field>)
    ensures o.Some? ==> o.value in r && NameLike(o.value)
    ensures o.None? <==> forall i :: 0 <= i < |r| ==> !NameLike(r[i])
  {
    FirstWhere(r, NameLike)
  }

  function FallbackName(index: nat): string {
    "Product " + NatToString(index + 1)
  }

  /** The resolution of a name over a priority list `fields`. */
  function NameFrom(r: Record, index: nat, fields: seq<string>): (name: string)
    ensures name != []
  {
    match FirstIndex(fields, key => UsableText(r, key))
    case Some(i) => Trim(TextAt(r, fields[i]))
    case None =>
      match FirstNameLike(Entries(r))
      case Some(f) => Trim(f.value.s)
      case None => FallbackName(index)
  }

  /** `getProductName(product, index)`: never empty. */
  function GetProductName(r: Record, index: nat): (name: string)
    ensures name != []
  {
    NameFrom(r, index, NameFields)
  }

  /** Which field the heuristic takes from `Object.entries(product)`: there is
      one exactly when some field is name-like; when a field with an
      array-index key is name-like, it is a field with an array-index key,
      and of the name-like ones the one with the smallest key value; when no
      such field is name-like, it is the first name-like field in insertion
      order. */
  lemma NameLikeChoice(r: Record)
    ensures FirstNameLike(Entries(r)).None? <==> forall i :: 0 <= i < |r| ==> !NameLike(r[i])
    ensures (exists i :: 0 <= i < |r| && IsIndexField(r[i]) && NameLike(r[i])) ==>
              && FirstNameLike(Entries(r)).Some?
              && IsIndexField(FirstNameLike(Entries(r)).value)
              && forall j :: 0 <= j < |r| && IsIndexField(r[j]) && NameLike(r[j]) ==>
                   Rank(FirstNameLike(Entries(r)).value) <= Rank(r[j])
    ensures (forall i :: 0 <= i < |r| && IsIndexField(r[i]) ==> !NameLike(r[i])) ==>
              FirstNameLike(Entries(r)) == FirstNameLike(r)
  {
    EntriesFind(r, NameLike);
  }

  /** The first key of `keys` that satisfies `p` is the one `FirstIndex` finds. */
  lemma FirstIndexIs(keys: seq<string>, p: string -> bool, k: nat)
    requires k < |keys| && p(keys[k])
    requires forall j :: 0 <= j < k ==> !p(keys[j])
    ensures FirstIndex(keys, p) == Some(k)
  {
  }

  /** The name is the first usable priority field, trimmed; failing that,
      the first entry of `Object.entries` that looks like a name, trimmed
      (`NameLikeChoice` says which field that is); failing that,
      `Product <index+1>`. Whichever it is, it is trimmed. */
  lemma NameSources(r: Record, index: nat, fields: seq<string>, k: nat)
    ensures k < |fields| && UsableText(r, fields[k]) &&
            (forall j :: 0 <= j < k ==> !UsableText(r, fields[j])) ==>
              NameFrom(r, index, fields) == Trim(TextAt(r, fields[k]))
    ensures (forall j :: 0 <= j < |fields| ==> !UsableText(r, fields[j])) ==>
              if FirstNameLike(Entries(r)).Some? then NameFrom(r, index, fields) == Trim(FirstNameLike(Entries(r)).value.value.s)
              else NameFrom(r, index, fields) == FallbackName(index)
    ensures Trim(NameFrom(r, index, fields)) == NameFrom(r, index, fields)
  {
    var o := FirstIndex(fields, key => UsableText(r, key));
    if k < |fields| && UsableText(r, fields[k]) && (forall j :: 0 <= j < k ==> !UsableText(r, fields[j])) {
      FirstIndexIs(fields, key => UsableText(r, key), k);
    }
    if o.Some? {
      TrimIdempotent(TextAt(r, fields[o.value]));
    } else if FirstNameLike(Entries(r)).Some? {
      TrimIdempotent(FirstNameLike(Entries(r)).value.value.s);
    } else {
      var n := FallbackName(index);
      assert n[0] == 'P';
      assert n[|n| - 1] == NatToString(index + 1)[|NatToString(index + 1)| - 1];
      TrimKeeps(n);
    }
  }

  /** A CSV file with the header `sku,12` and the row `Blue mug,Red cup`:
      `Object.entries` lists the key `12` first, so when no priority field
      is usable the name heuristic takes `Red cup`, not `Blue mug`. */
  lemma NumericKeyFirst()
    ensures Entries([Field("sku", Str("Blue mug")), Field("12", Str("Red cup"))]) ==
            [Field("12", Str("Red cup")), Field("sku", Str("Blue mug"))]
    ensures FirstNameLike(Entries([Field("sku", Str("Blue mug")), Field("12", Str("Red cup"))])) ==
            Some(Field("12", Str("Red cup")))
  {
    var sku := Field("sku", Str("Blue mug"));
    var twelve := Field("12", Str("Red cup"));
    ExampleEntries(sku, twelve);
    RedCupNameLike(twelve);
    assert FirstNameLike([twelve, sku]) == Some(twelve);
  }

  lemma ExampleEntries(sku: Field, twelve: Field)
    requires sku == Field("sku", Str("Blue mug")) && twelve == Field("12", Str("Red cup"))
    ensures Entries([sku, twelve]) == [twelve, sku]
  {
    var r := [sku, twelve];
    assert DecimalValue("1") == 1;
    assert IsArrayIndex("12");
    assert !IsArrayIndex("sku") by {
      assert !IsDigit("sku"[0]);
    }
    assert Keep(r, IsIndexField) == [twelve];
    assert Keep(r, NotIndexField) == [sku];
  }

  lemma RedCupNameLike(f: Field)
    requires f == Field("12", Str("Red cup"))
    ensures NameLike(f)
  {
    RedCupText(f.value.s);
    TwelveKey(ToLower(f.key));
  }

  lemma RedCupText(v: string)
    requires v == "Red cup"
    ensures Trim(v) == v && Utf16Length(v) == 7
    ensures !StartsWith(v, "http") && !StartsWith(v, "data:")
    ensures !Base64Shaped(v) && !Contains(v, "base64")
  {
    TrimKeeps(v);
    NotStartsWithFirst(v, "http");
    NotStartsWithFirst(v, "data:");
    Base64ShapedIff(v);
    assert v[3] == ' ';
    NotStartsWithFirst(v, "base64");
    NotStartsWithFirst(v[1..], "base64");
    NotContainsLonger(v[1..][1..], "base64");
  }

  lemma TwelveKey(key: string)
    requires key == ToLower("12")
    ensures !Contains(key, "image") && !Contains(key, "url") && !Contains(key, "id")
  {
    assert key == "12";
    NotContainsLonger(key, "image");
    NotContainsLonger(key, "url");
    NotStartsWithFirst(key, "id");
    NotContainsLonger(key[1..], "id");
  }

  // ---------------------------------------------------------------------
  // getProductCategories
  // ---------------------------------------------------------------------

  /** The separators of `/[|>/\\,;]/`. */
  predicate IsCategoryDelim(c: char) {
    c == '|' || c == '>' || c == '/' || c == '\\' || c == ',' || c == ';'
  }

  predicate NoDelim(s: string) {
    forall j :: 0 <= j < |s| ==> !IsCategoryDelim(s[j])
  }

  /** `s.split(/[|>/\\,;]/)`. */
  function Segments(s: string): (r: seq<string>)
    ensures |r| >= 1
    ensures forall k :: 0 <= k < |r| ==> NoDelim(r[k])
    decreases |s|
  {
    if s == [] then [""]
    else
      var rest := Segments(s[1..]);
      if IsCategoryDelim(s[0]) then [""] + rest else [[s[0]] + rest[0]] + rest[1..]
  }

  predicate IsNonEmpty(s: string) {
    s != []
  }

  /** `.split(...).map(cat => cat.trim()).filter(cat => cat.length > 0)`. */
  function CategoryList(s: string): (r: seq<string>)
    ensures forall i :: 0 <= i < |r| ==> r[i] != [] && Trim(r[i]) == r[i] && NoDelim(r[i])
  {
    var pieces := MapTrim(Segments(s));
    var r := Keep(pieces, IsNonEmpty);
    KeepFacts(pieces, IsNonEmpty);
    assert forall i :: 0 <= i < |r| ==> Trim(r[i]) == r[i] && NoDelim(r[i]) by {
      forall i | 0 <= i < |r|
        ensures Trim(r[i]) == r[i] && NoDelim(r[i])
      {
        var k :| 0 <= k < |pieces| && pieces[k] == r[i];
        TrimIdempotent(Segments(s)[k]);
        TrimKeepsNoDelim(Segments(s)[k]);
      }
    }
    r
  }

  lemma TrimKeepsNoDelim(s: string)
    requires NoDelim(s)
    ensures NoDelim(Trim(s))
  {
    TrimFacts(s);
    assert forall k :: 0 <= k < |Trim(s)| ==> Trim(s)[k] == s[TrimOffset(s) + k];
  }

  /** A category field that is usable and splits into at least one category. */
  predicate CategorySource(r: Record, key: string) {
    UsableText(r, key) && CategoryList(Trim(TextAt(r, key))) != []
  }

  /** The resolution of the categories over a priority list `fields`. */
  function CategoriesFrom(r: Record, fields: seq<string>): (cats: seq<string>)
    ensures cats != []
    ensures forall i :: 0 <= i < |cats| ==> cats[i] != [] && Trim(cats[i]) == cats[i] && NoDelim(cats[i])
  {
    match FirstIndex(fields, key => CategorySource(r, key))
    case Some(i) => CategoryList(Trim(TextAt(r, fields[i])))
    case None =>
      TrimKeeps(DefaultCategory);
      [DefaultCategory]
  }

  /** `getProductCategories(product)`: a non-empty list of non-empty,
      trimmed categories, none holding a separator. */
  function GetProductCategories(r: Record): (cats: seq<string>)
    ensures cats != []
    ensures forall i :: 0 <= i < |cats| ==> cats[i] != [] && Trim(cats[i]) == cats[i] && NoDelim(cats[i])
  {
    CategoriesFrom(r, CategoryFields)
  }

  /** The first field whose split gives a category decides; a usable field
      whose split gives nothing is passed over; with no such field the result
      is `["General"]`. */
  lemma CategorySources(r: Record, fields: seq<string>, k: nat)
    ensures k < |fields| && CategorySource(r, fields[k]) &&
            (forall j :: 0 <= j < k ==> !CategorySource(r, fields[j])) ==>
              CategoriesFrom(r, fields) == CategoryList(Trim(TextAt(r, fields[k])))
    ensures (forall j :: 0 <= j < |fields| ==> !CategorySource(r, fields[j])) ==>
              CategoriesFrom(r, fields) == [DefaultCategory]
  {
    if k < |fields| && CategorySource(r, fields[k]) && (forall j :: 0 <= j < k ==> !CategorySource(r, fields[j])) {
      FirstIndexIs(fields, key => CategorySource(r, key), k);
    }
  }

  // ---------------------------------------------------------------------
  // getProductDescription
  // ---------------------------------------------------------------------

  /** The resolution of the description over a priority list `fields`. */
  function DescriptionFrom(r: Record, fields: seq<string>): (d: string)
    ensures d != []
  {
    match FirstIndex(fields, key => UsableText(r, key))
    case Some(i) => Trim(TextAt(r, fields[i]))
    case None => DefaultDescription
  }

  /** `getProductDescription(product)`: never empty. */
  function GetProductDescription(r: Record): (d: string)
    ensures d != []
  {
    DescriptionFrom(r, DescriptionFields)
  }

  /** The first usable description field, trimmed, else the default. */
  lemma DescriptionSources(r: Record, fields: seq<string>, k: nat)
    ensures k < |fields| && UsableText(r, fields[k]) &&
            (forall j :: 0 <= j < k ==> !UsableText(r, fields[j])) ==>
              DescriptionFrom(r, fields) == Trim(TextAt(r, fields[k]))
    ensures (forall j :: 0 <= j < |fields| ==> !UsableText(r, fields[j])) ==>
              DescriptionFrom(r, fields) == DefaultDescription
  {
    if k < |fields| && UsableText(r, fields[k]) && (forall j :: 0 <= j < k ==> !UsableText(r, fields[j])) {
      FirstIndexIs(fields, key => UsableText(r, key), k);
    }
  }

  // ---------------------------------------------------------------------
  // getProductImage
  // ---------------------------------------------------------------------

  /** What one usable value gives: itself when it is a data-image or http
      reference, a data URL around it when it is long base64, else nothing. */
  function ImageForm(v: string): Option<string> {
    if StartsWith(v, "data:image/") then Some(v)
    else if StartsWith(v, "http") then Some(v)
    else if Base64Shaped(v) && |v| > 100 then Some(Base64ImagePrefix + v)
    else None
  }

  predicate ImageSource(r: Record, key: string) {
    UsableText(r, key) && ImageForm(TextAt(r, key)).Some?
  }

  /** The resolution of the image over a priority list `fields`. */
  function ImageFrom(r: Record, fields: seq<string>): (img: Option<string>)
    ensures img.Some? ==> StartsWith(img.value, "data:image/") || StartsWith(img.value, "http")
    ensures img.None? <==> forall j :: 0 <= j < |fields| ==> !ImageSource(r, fields[j])
  {
    match FirstIndex(fields, key => ImageSource(r, key))
    case Some(i) =>
      var v := TextAt(r, fields[i]);
      assert (Base64ImagePrefix + v)[..11] == "data:image/";
      ImageForm(v)
    case None => None
  }

  /** `getProductImage(product)`: a data-image or http reference, or null. */
  function GetProductImage(r: Record): (img: Option<string>)
    ensures img.Some? ==> StartsWith(img.value, "data:image/") || StartsWith(img.value, "http")
  {
    ImageFrom(r, ImageFields)
  }

  /** The image is the form of the first field that has one. A value longer
      than 100 characters in the base64 alphabet becomes a JPEG data URL;
      any other value that is neither a data-image nor an http reference
      is passed over. */
  lemma ImageSources(r: Record, fields: seq<string>, k: nat)
    requires k < |fields| && ImageSource(r, fields[k])
    requires forall j :: 0 <= j < k ==> !ImageSource(r, fields[j])
    ensures var v := TextAt(r, fields[k]);
            ImageFrom(r, fields) == ImageForm(v)
            && (!StartsWith(v, "data:image/") && !StartsWith(v, "http") ==>
                  ImageFrom(r, fields) == Some(Base64ImagePrefix + v) && |v| > 100 &&
                  (Base64Split(v, 0) || Base64Split(v, 1) || Base64Split(v, 2)))
  {
    FirstIndexIs(fields, key => ImageSource(r, key), k);
    Base64ShapedIff(TextAt(r, fields[k]));
  }
}
