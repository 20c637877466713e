/**
 * The product detail page: which product the address names, its lookup in
 * the catalogue, the derived display fields (price, stock, compatible
 * models, main image), the related products, and the page check.
 */
module ProductDetail {
  import opened Wrappers
  import opened Strings
  import opened JsNumbers
  import opened Seqs
  import opened Browser
  import opened Catalog
  import Products

  /** `window.location`: the parsed query and hash parameters, the raw hash, the full href and the path. */
  datatype Location = Location(
    searchParams: map<string, string>, hash: string, hashParams: map<string, string>,
    href: string, pathname: string)

  // ---------------------------------------------------------------- product id

  /** The regular expression `/[?&]id=([^&]+)/` matches at position `k` of `href`. */
  predicate IdParamAt(href: string, k: int) {
    0 <= k && k + 4 < |href| && (href[k] == '?' || href[k] == '&')
    && href[k + 1] == 'i' && href[k + 2] == 'd' && href[k + 3] == '=' && href[k + 4] != '&'
  }

  /** End of the run of characters other than `&` that starts at `i` (the greedy `[^&]+`). */
  function RunEnd(s: string, i: nat): (j: nat)
    requires i <= |s|
    ensures i <= j <= |s|
    ensures forall k :: i <= k < j ==> s[k] != '&'
    ensures j < |s| ==> s[j] == '&'
    decreases |s| - i
  {
    if i < |s| && s[i] != '&' then RunEnd(s, i + 1) else i
  }

  /** Leftmost match position of the expression at or after `from`; -1 if none. */
  function FirstIdParam(href: string, from: nat): (k: int)
    requires from <= |href|
    ensures k == -1 || (from <= k && IdParamAt(href, k))
    ensures forall j :: from <= j && (k == -1 || j < k) ==> !IdParamAt(href, j)
    decreases |href| - from
  {
    if from + 4 >= |href| then -1
    else if IdParamAt(href, from) then from
    else FirstIdParam(href, from + 1)
  }

  /**
   * `href.match(/[?&]id=([^&]+)/)[1]`: the text after the leftmost `?id=` or
   * `&id=`, up to the next `&` or the end; `None` when there is no match.
   */
  function HrefIdMatch(href: string): (r: Option<string>)
    ensures r.None? <==> forall k :: 0 <= k ==> !IdParamAt(href, k)
    ensures r.Some? ==> r.value != "" && forall i :: 0 <= i < |r.value| ==> r.value[i] != '&'
    ensures r.Some? ==> exists k :: IdParamAt(href, k) && (forall j :: 0 <= j < k ==> !IdParamAt(href, j))
                                    && k + 4 + |r.value| <= |href| && href[k + 4..k + 4 + |r.value|] == r.value
                                    && (k + 4 + |r.value| == |href| || href[k + 4 + |r.value|] == '&')
  {
    var k := FirstIdParam(href, 0);
    if k == -1 then None else Some(href[k + 4..RunEnd(href, k + 4)])
  }

  /**
   * The product id of `loadProductDetail`: the query string's `id`, else the
   * hash's `id` (when there is a hash), else the decoded regular-expression
   * match in the full address. An empty id counts as none.
   */
  function ProductId(loc: Location, decode: string -> string): (r: Option<string>)
    ensures r.Some? ==> r.value != ""
    ensures Param(loc.searchParams, "id") != "" ==> r == Some(Param(loc.searchParams, "id"))
  {
    var fromQuery := Param(loc.searchParams, "id");
    if fromQuery != "" then Some(fromQuery)
    else
      var fromHash := if loc.hash != "" then Param(loc.hashParams, "id") else "";
      if fromHash != "" then Some(fromHash)
      else
        match HrefIdMatch(loc.href)
        case None => None
        case Some(raw) => if decode(raw) != "" then Some(decode(raw)) else None
  }

  /** The order of precedence: the query string, then the hash, then the scan of the full address. */
  lemma ProductIdPrecedence(loc: Location, decode: string -> string)
    ensures Param(loc.searchParams, "id") == "" && loc.hash != "" && Param(loc.hashParams, "id") != ""
            ==> ProductId(loc, decode) == Some(Param(loc.hashParams, "id"))
    ensures Param(loc.searchParams, "id") == "" && (loc.hash == "" || Param(loc.hashParams, "id") == "")
            ==> ProductId(loc, decode) == (match HrefIdMatch(loc.href)
                                           case None => None
                                           case Some(raw) => if decode(raw) != "" then Some(decode(raw)) else None)
    ensures ProductId(loc, decode) == None ==>
              && Param(loc.searchParams, "id") == ""
              && (loc.hash == "" || Param(loc.hashParams, "id") == "")
              && (HrefIdMatch(loc.href).None? || decode(HrefIdMatch(loc.href).value) == "")
  {
  }

  /** `?id=` at the very start of the query is found by the scan, up to the first `&`. */
  lemma HrefScanExample()
    ensures HrefIdMatch("x?id=K3&y=1") == Some("K3")
  {
    var href := "x?id=K3&y=1";
    assert !IdParamAt(href, 0);
    assert IdParamAt(href, 1);
    assert RunEnd(href, 5) == 7 by {
      assert href[5] != '&' && href[6] != '&' && href[7] == '&';
    }
    assert href[5..7] == "K3";
  }

  // ---------------------------------------------------------------- page flow

  /** What the detail container ends up showing. */
  datatype DetailView =
    | MissingId
    | LoadFailed
    | NotFound(id: string, knownIds: seq<string>)
    | Found(product: Product, related: seq<Product>)

  function Ids(products: seq<Product>): (ids: seq<string>)
    ensures |ids| == |products|
    ensures forall i :: 0 <= i < |ids| ==> ids[i] == products[i].id
  {
    seq(|products|, i requires 0 <= i < |products| => products[i].id)
  }

  /**
   * `loadProductDetail`: with no id, the missing-id message and no fetch;
   * otherwise the fetched catalogue (`None` when the fetch failed) is
   * searched for the id.
   */
  function LoadProductDetail(loc: Location, decode: string -> string, fetched: Option<seq<Product>>): (v: DetailView)
    ensures v.MissingId? <==> ProductId(loc, decode).None?
    ensures v.LoadFailed? <==> ProductId(loc, decode).Some? && fetched.None?
    ensures v.Found? ==> Some(v.product.id) == ProductId(loc, decode)
                         && fetched.Some? && FindById(fetched.value, v.product.id) == Some(v.product)
                         && v.related == Related(fetched.value, v.product)
    ensures v.NotFound? ==> Some(v.id) == ProductId(loc, decode) && fetched.Some?
                            && (forall i :: 0 <= i < |fetched.value| ==> fetched.value[i].id != v.id)
                            && |v.knownIds| <= 5
  {
    match ProductId(loc, decode)
    case None => MissingId
    case Some(id) =>
      match fetched
      case None => LoadFailed
      case Some(products) =>
        match FindById(products, id)
        case None => NotFound(id, Ids(JsSlice(products, 0, 5)))
        case Some(p) => Found(p, Related(products, p))
  }

  /** Without an id nothing is fetched: the outcome does not depend on the fetch. */
  lemma NoIdNoFetch(loc: Location, decode: string -> string, a: Option<seq<Product>>, b: Option<seq<Product>>)
    requires ProductId(loc, decode).None?
    ensures LoadProductDetail(loc, decode, a) == LoadProductDetail(loc, decode, b)
  {
  }

  // ---------------------------------------------------------------- display fields

  /** The detail price: the price, else the 'Price Range' specification, else "Contact for pricing". */
  function DetailPrice(p: Product): (r: string)
    ensures r != ""
    ensures p.price != "" ==> r == p.price
    ensures p.price == "" && Products.SpecPriceRange(p) != "" ==> r == Products.SpecPriceRange(p)
    ensures p.price == "" && Products.SpecPriceRange(p) == "" ==> r == "Contact for pricing"
  {
    if p.price != "" then p.price
    else if Products.SpecPriceRange(p) != "" then Products.SpecPriceRange(p)
    else "Contact for pricing"
  }

  /**
   * The detail page and the list card share the first two tiers; they part
   * only where the card shows no price line, and there the detail page says
   * "Contact for pricing".
   */
  lemma DetailPriceVersusCard(p: Product)
    ensures DetailPrice(p) == if Products.CardPrice(p) == "" then "Contact for pricing" else Products.CardPrice(p)
    ensures Products.CardPrice(p) == "" <==>
              (DetailPrice(p) == "Contact for pricing" && !p.hasPrice
               && p.price == "" && Products.SpecPriceRange(p) == "")
  {
  }

  datatype StockClass = InStock | LowStock | OutOfStock

  /** The stock status, defaulting to "in-stock" when missing. */
  function StockStatus(p: Product): string {
    if p.stockStatus != "" then p.stockStatus else "in-stock"
  }

  /** The stock class: in-stock and low-stock as such, any other status out of stock. */
  function StockClassOf(p: Product): (c: StockClass)
    ensures c == InStock <==> p.stockStatus == "" || p.stockStatus == "in-stock"
    ensures c == LowStock <==> p.stockStatus == "low-stock"
  {
    var status := StockStatus(p);
    if status == "in-stock" then InStock else if status == "low-stock" then LowStock else OutOfStock
  }

  /** The stock line: "In Stock: N units", "Low Stock" or "Out of Stock". */
  function StockText(p: Product): (t: string)
    ensures p.stockStatus == "" || p.stockStatus == "in-stock" ==>
              t == "In Stock: " + NatToDecimal(p.stock) + " units"
    ensures p.stockStatus == "low-stock" ==> t == "Low Stock"
    ensures p.stockStatus !in {"", "in-stock", "low-stock"} ==> t == "Out of Stock"
  {
    var status := StockStatus(p);
    if status == "in-stock" then "In Stock: " + NatToDecimal(p.stock) + " units"
    else if status == "low-stock" then "Low Stock"
    else "Out of Stock"
  }

  /** The stock text always agrees with the stock class, and reports the unit count only when in stock. */
  lemma StockTextAgreesWithClass(p: Product)
    ensures StockClassOf(p) == InStock <==> StockText(p) == "In Stock: " + NatToDecimal(p.stock) + " units"
    ensures StockClassOf(p) == LowStock <==> StockText(p) == "Low Stock"
    ensures StockClassOf(p) == OutOfStock <==> StockText(p) == "Out of Stock"
  {
    var t := StockText(p);
    if StockClassOf(p) == InStock {
      assert t[0] == 'I';
    } else {
      assert t[0] != 'I' by {
        assert t == "Low Stock" || t == "Out of Stock";
      }
      assert ("In Stock: " + NatToDecimal(p.stock) + " units")[0] == 'I';
    }
  }

  /** "Compatible Models": the list joined with ", ", else the single model, else "N/A". */
  function DetailModel(p: Product): (m: string)
    ensures p.model.ModelList? ==> m == Join(p.model.names, ", ")
    ensures p.model.ModelName? && p.model.name != "" ==> m == p.model.name
    ensures !p.model.ModelList? ==> m != ""
  {
    match p.model
    case ModelList(names) => Join(names, ", ")
    case ModelName(name) => if name != "" then name else "N/A"
    case NoModel => "N/A"
  }

  /**
   * The detail page shows the card's model text, with "N/A" in place of a
   * missing or empty single model; an empty list stays empty.
   */
  lemma DetailModelVersusCard(p: Product)
    ensures DetailModel(p) == if Products.CardModel(p) == "" && !p.model.ModelList? then "N/A"
                              else Products.CardModel(p)
    ensures DetailModel(p) == "" ==> p.model == ModelList([]) || (p.model.ModelList? && Join(p.model.names, ", ") == "")
  {
  }

  /** The main image: the first image, else a placeholder described by brand (or "Unknown") and name. */
  function MainImage(p: Product): (img: Image)
    ensures p.images != [] ==> img == p.images[0]
    ensures p.images == [] ==> img.alt == Products.BrandOrUnknown(p) + " " + p.name + " - main product image"
  {
    if |p.images| > 0 then p.images[0]
    else Image("https://via.placeholder.com/600x400/1a365d/ffffff?text=Product+Image",
               Products.BrandOrUnknown(p) + " " + p.name + " - main product image")
  }

  // ---------------------------------------------------------------- related products

  /** Another product in the same category or of the same brand. */
  predicate IsRelated(p: Product, current: Product) {
    p.id != current.id && (p.category == current.category || p.brand == current.brand)
  }

  /**
   * The related products: the first six others that share the category or
   * the brand, in catalogue order. Nothing related is left out unless the
   * list is already full, so the list (and the section showing it) is empty
   * exactly when no other product is related.
   */
  function Related(all: seq<Product>, current: Product): (r: seq<Product>)
    ensures |r| <= 6
    ensures var f := Filter(all, p => IsRelated(p, current));
      |r| == (if |f| < 6 then |f| else 6) && r == f[..|r|]
    ensures forall i :: 0 <= i < |r| ==> r[i].id != current.id
    ensures forall i :: 0 <= i < |r| ==>
              r[i].category == current.category || r[i].brand == current.brand
    ensures IsSubsequence(r, all)
    ensures |r| < 6 ==> forall i :: 0 <= i < |all| && IsRelated(all[i], current) ==> all[i] in r
    ensures r == [] <==> forall i :: 0 <= i < |all| ==> !IsRelated(all[i], current)
  {
    var keep := p => IsRelated(p, current);
    FirstKept(all, keep, 6);
    JsSlice(Filter(all, keep), 0, 6)
  }

  // ---------------------------------------------------------------- page check

  /** `isProductDetailPage`: the content element exists, or the path or address names the page. */
  function IsProductDetailPage(hasContent: bool, pathname: string, href: string): (r: bool)
    ensures hasContent ==> r
    ensures Contains(href, "/product-detail") ==> r
    ensures r ==> hasContent || Contains(pathname, "product-detail") || Contains(href, "product-detail")
  {
    var name := "product-detail";
    assert "product-detail.html"[0..14] == name && "/product-detail"[1..15] == name;
    ContainsPart(pathname, "product-detail.html", 0, 14);
    ContainsPart(pathname, "/product-detail", 1, 15);
    ContainsPart(href, "product-detail.html", 0, 14);
    ContainsPart(href, "/product-detail", 1, 15);
    EndsWithContains(pathname, name);
    assert pathname == "/product-detail" ==> pathname[1..15] == name && OccursAt(pathname, name, 1);
    hasContent
    || Contains(pathname, "product-detail.html")
    || Contains(pathname, "/product-detail")
    || pathname == "/product-detail"
    || EndsWith(pathname, "product-detail")
    || Contains(href, "product-detail.html")
    || Contains(href, "/product-detail")
  }

  /** The exact-path test adds nothing: that path already contains "/product-detail". */
  lemma ExactPathRedundant(hasContent: bool, pathname: string, href: string)
    ensures IsProductDetailPage(hasContent, pathname, href) <==>
              hasContent || Contains(pathname, "product-detail.html") || Contains(pathname, "/product-detail")
              || EndsWith(pathname, "product-detail")
              || Contains(href, "product-detail.html") || Contains(href, "/product-detail")
  {
    if pathname == "/product-detail" {
      assert OccursAt(pathname, "/product-detail", 0);
    }
  }
}
