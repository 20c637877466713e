# Excavator parts catalogue: verified model of the page scripts

This project models the client-side logic of a static product catalogue for
excavator replacement parts. The catalogue has three browser scripts:

- **List page** (`products.js`). A free-text search keeps the products in
  which the lower-cased, trimmed query occurs in the name, part number, OEM
  number, brand or model text, in catalogue order. The list is shown twelve
  products per page. A pager shows a window of at most five page numbers,
  plus the first and last pages and ellipses. The `page` and `search` URL
  parameters are written on every change and read back on load and on
  back/forward.
- **Detail page** (`product-detail.js`). It finds the product id in the
  address (query string, then hash, then a scan of the full address) and
  looks the product up. It derives the price, stock, model and image lines
  and lists up to six related products.
- **Home page** (`home.js`). It shows the first eight products as a featured
  selection and runs a hero carousel whose slide index moves modulo the
  number of slides.

Modules, leaves first:

- `Wrappers`: `Option`.
- `Strings`: `trim`, ASCII `toLowerCase`, `indexOf`, `includes`, `endsWith`, `join`.
- `JsNumbers`: `parseInt` and decimal rendering.
- `Seqs`: a stable filter, subsequences, and `slice` with JavaScript's index rules.
- `Browser`: URL parameters read as a map. The scripts test a parameter only for truthiness: `get` returning `null` for an absent parameter and `""` for an empty one lead to the same branch. So `Browser.Param` reads both as `""`.
- `Catalog`: the product record and lookup by id.
- `Products`, `ProductDetail`, `Home`: one module per script.

The list page's module-level variables are the class `Products.ProductsPage`.
Each event handler is a method whose new state is a step function of the old
one (`SearchStep`, `GoToPageStep`, `InitStep`, `SubmitSearchStep`,
`PopStateStep`). The lemmas about those functions state what each handler
keeps, chiefly the invariant `Consistent`: the filtered list is the result
of the current token, the page count fits it, and the page is in range. The
carousel is the class `Home.Carousel`. Its invariant is that exactly the
slide and the dot at the current index are active.

Three behaviours of the scripts are kept as written, although one might
expect otherwise:

- Back/forward does not clamp the page.
- A `search` parameter overrides the `page` parameter on load and on
  back/forward, because a search resets the page to 1. So an address with
  both does not reproduce its page.
- The comment "always 30 pages" on the pager is stale: the page count is
  computed from the list.

## Model

| member | source | states |
|---|---|---|
| `Strings.Trim` | products.js:71 | The result is a contiguous piece of the input, with only white space cut off before and after it. It is empty iff the input is all white space; otherwise it neither starts nor ends with white space |
| `Strings.TrimIdempotent` | products.js:71 | Trimming twice is trimming once |
| `Strings.LowerTrimCommute` | products.js:71 | Lower-casing then trimming equals trimming then lower-casing |
| `Strings.IndexOf` | products.js:85-89 | `indexOf` is -1 exactly when the token is not a substring; otherwise it is the first position where the token occurs |
| `Strings.ContainsInfix` | products.js:85-89 | A substring of a piece is a substring of any string that contains that piece |
| `Strings.JoinKeepsPartSubstrings` | products.js:81-83 | A substring of one lower-cased model name is a substring of the lower-cased, space-joined model text |
| `JsNumbers.NatToDecimal` | products.js:57 | `String(page)`: non-empty, only decimal digits, no leading zero |
| `JsNumbers.ParseInt` | products.js:343 | `parseInt` gives NaN unless a decimal digit follows the leading white space and optional sign. A number after a minus sign is never positive; without one it is never negative |
| `JsNumbers.ParseIntOfNegative` | products.js:405 | `parseInt` reads a minus sign followed by `String(n)` as -n, ignoring trailing text that does not continue the number |
| `JsNumbers.ParseIntOfDecimal` | products.js:343 | `parseInt` reads back the number `String(n)` wrote, ignoring trailing text that does not continue the number |
| `Seqs.Filter` | products.js:76-90 | `filter` keeps exactly the accepted elements: each kept element is accepted and in the input, and each accepted input element is kept as many times as it occurs |
| `Seqs.FilterIsSubsequence` | products.js:76-90 | A filter result is a subsequence of its input, in the same order |
| `Seqs.FilterAll` | products.js:73-74 | A filter that accepts every element returns the input unchanged |
| `Seqs.PrefixOfSubsequence` | product-detail.js:344-347 | Cutting a subsequence short keeps it a subsequence |
| `Seqs.JsSlice` | products.js:139 | `slice(start, end)` is never longer than the array or than `end - start`; for non-negative bounds it is the clipped range |
| `Seqs.TakePrefix` | home.js:23 | `slice(0, n)` is the first `min(n, length)` elements |
| `Catalog.FindById` | products.js:443-445 | Returns the first product with the id; returns none exactly when no product has it |
| `Catalog.FindOwnId` | products.js:186 | With unique ids, a card's `?id=` link finds that card's own product |
| `Products.NormalizeIdempotent` | products.js:71 | Normalising a search token again changes nothing |
| `Products.NormalizeEmpty` | products.js:71-74 | The token is empty exactly when the query is all white space |
| `Products.SearchResultsSpec` | products.js:73-90 | The result is a subsequence of the catalogue. A product is in it iff the token is a substring of its lower-cased name, part number, OEM number, brand or model text. The empty token keeps the whole catalogue |
| `Products.SearchIsFilter` | products.js:73-90 | The empty-token branch equals filtering with the empty token, because every product contains "" |
| `Products.ModelNameFinds` | products.js:81-89 | A token found in any one model name of the list finds the product |
| `Products.SearchFindsModelExample` | products.js:76-90 | Searching "pc200" finds a product whose model list is ["PC200-8"] |
| `Products.PageCount` | products.js:97-98 | The page count is the least positive number of 12-product pages that holds the list (at least 1) |
| `Products.ClampPage` | products.js:344-345 | The initial page lies in `1..total`. An in-range page is kept; one above becomes `total`, one below becomes 1 |
| `Products.ParsePageParam` | products.js:343 | `parseInt(v) \|\| 1`: NaN and 0 both become page 1, and any other parsed number is the page; so the page is never 0 |
| `Products.PageFromURL` | products.js:404-408 | The back/forward page: 1 without a `page` parameter or when it does not start with a digit, and never 0 |
| `Products.PageFromURLNegative` | products.js:404-408 | The page read back is not clamped: `page=-n` reads as page -n |
| `Products.UpdateURL` | products.js:54-67 | `page` is present iff page > 1, and then holds its decimal form. `search` is present iff the text is non-empty, and then holds the text. Every other parameter is unchanged |
| `Products.URLRoundTrip` | products.js:54-65 | Reading the written address back, as back/forward does, gives the same page and search text |
| `Products.Visible` | products.js:137-139 | The grid never shows more than 12 products |
| `Products.VisiblePosition` | products.js:137-139 | Product k of the filtered list is at place k mod 12 of page k div 12 + 1, and that page exists |
| `Products.VisibleNonEmpty` | products.js:137-141 | Every page from 1 to the page count shows at least one product when the list is non-empty |
| `Products.VisibleBeyondLast` | products.js:137-141 | A page beyond the page count shows nothing |
| `Products.VisibleBelowFirst` | products.js:137-139 | Page 0 shows nothing; a negative page shows a range counted back from the end of the list, by `slice`'s rule |
| `Products.Window` | products.js:231-244 | For total ≥ 1: `1 ≤ start ≤ end ≤ total` and the window has `min(5, total)` pages. For an in-range page the window contains it and starts at `current - 2`, clamped into `1..max(1, total-4)` with the same clamp as the initial page |
| `Products.LinksAt` | products.js:255-260 | Button k of the window is page `lo + k`, highlighted iff it is the current page |
| `Products.RenderEntries` | products.js:246-268 | The loop-built entries are page 1 and an ellipsis before the window, one button per window page, then an ellipsis and the last page: exactly what `PagerEntries` describes |
| `Products.RenderPagination` | products.js:209-293 | The pager equals `PagerFor`: First/Prev/Next/Last buttons and their disabled states, the entries, and "Showing from-to of count" |
| `Products.PagerCoversAllPages` | products.js:246-268 | The entries start at page 1 and end at the last page. Neighbouring buttons are consecutive pages. An ellipsis stands between two buttons exactly where pages are skipped |
| `Products.PagerHighlightsCurrent` | products.js:255-260 | For an in-range page, that page is shown and highlighted, and no other button is. `goToPage` accepts a button's page iff the button is not highlighted |
| `Products.NavButtonsMatchGuard` | products.js:216-283 | Each First/Prev/Next/Last button is disabled exactly when `goToPage` would ignore its target |
| `Products.ShowingMatchesVisible` | products.js:286-290 | "Showing from-to" counts exactly the products the grid shows |
| `Products.PagerExamples` | products.js:231-268 | (1,10) gives 1*,2,3,4,5,…,10 and (10,10) gives 1,…,6,7,8,9,10* |
| `Products.CardPrice` | products.js:170-177 | A price line is shown iff the product has a price, a 'Price Range' specification or the priced flag. The price wins, then the specification; with neither, the line is "Contact for pricing" when the priced flag is set and absent otherwise |
| `Products.CardImage` | products.js:159-162 | The card shows the first image. Without images it shows a placeholder whose alt text is the brand (or "Unknown"), the name and " - product image" |
| `Products.SearchStepSpec` | products.js:70-98 | After any search the page is consistent at page 1. The token is the normalised query, and the page count is `max(1, ceil(n/12))` |
| `Products.GoToPageSpec` | products.js:296-300 | `goToPage(p)` changes nothing when p < 1, p > total or p = current; otherwise it moves to p. It keeps the filtered list, the page count, the token and consistency |
| `Products.SubmitSearchSpec` | products.js:367-383 | A search from the box leaves the page consistent at page 1. The address then has no `page`, and its `search` is the trimmed text |
| `Products.InitConsistent` | products.js:321-361 | From the script's initial state, initialisation leaves the page consistent whatever the address and the fetch outcome |
| `Products.InitSearchIgnoresPage` | products.js:342-355 | When a `search` parameter is present, the initial page is 1 whatever the `page` parameter says |
| `Products.InitClampsPage` | products.js:342-346 | Without a search, the initial page is `parseInt(page) \|\| 1` clamped into `1..total` (1 without the parameter), and the whole catalogue is listed |
| `Products.PopStatePage` | products.js:400-416 | Back/forward takes the address's page unclamped when there is no search, and page 1 when there is one |
| `Products.PopStateRestoresPage` | products.js:400-425 | With no active search, going back to the address `goToPage` pushed restores exactly the state it left |
| `Products.PopStateKeepsStaleCount` | products.js:416-425 | As written, back/forward from a search to an address without one keeps the old page count. With 13 products the count stays 1 and page 2 cannot be reached |
| `Products.PopStateCorrectedConsistent` | products.js:400-425 | The corrected handler always leaves the page consistent |
| `Products.PopStateCorrectedAgrees` | products.js:410-415 | The corrected handler equals the written one whenever a search parameter is present |
| `Products.ProductsPage.constructor` | products.js:6-11 | The initial values of the module-level variables |
| `Products.ProductsPage.SearchProducts` | products.js:70-98 | `searchProducts`: the new state is `SearchStep` of the old one, and it is consistent |
| `Products.ProductsPage.UpdateURLParams` | products.js:54-67 | `updateURL` rewrites only the address parameters, as `UpdateURL` says |
| `Products.ProductsPage.GoToPage` | products.js:296-304 | `goToPage`: the new state is `GoToPageStep` of the old one, and consistency is kept |
| `Products.ProductsPage.SubmitSearch` | products.js:367-383 | The input (after the debounce) and Enter handlers: `SubmitSearchStep`, leaving the page consistent |
| `Products.ProductsPage.ClearSearch` | products.js:389-396 | The clear button: an empty search that lists the whole catalogue |
| `Products.ProductsPage.InitProductsPage` | products.js:321-361 | `initProductsPage` after the fetch: the new state is `InitStep` of the old one |
| `Products.ProductsPage.PopState` | products.js:400-426 | The back/forward handler as written: `PopStateStep` |
| `Products.GetProductById` | products.js:443-445 | `getProductById` returns the first product of the loaded catalogue with that id, or none exactly when there is none |
| `ProductDetail.HrefIdMatch` | product-detail.js:26-29 | The regular-expression scan takes the leftmost `?id=`/`&id=` and captures the non-empty text up to the next `&` or the end. It finds nothing iff there is no such place |
| `ProductDetail.ProductId` | product-detail.js:15-30 | A found id is never empty, and the query-string id wins when present |
| `ProductDetail.ProductIdPrecedence` | product-detail.js:15-35 | Without a query-string id: the hash's id (when there is a hash), else the decoded scan result. No id means all three sources failed |
| `ProductDetail.HrefScanExample` | product-detail.js:26 | `x?id=K3&y=1` yields `K3` |
| `ProductDetail.LoadProductDetail` | product-detail.js:35-97 | With no id: the missing-id view. With an id: a failed fetch gives the error view; otherwise the first product with that id and its related products, or the not-found view with at most five known ids |
| `ProductDetail.NoIdNoFetch` | product-detail.js:35-67 | Without an id the outcome does not depend on the fetch: nothing is fetched |
| `ProductDetail.DetailPrice` | product-detail.js:155-160 | The detail page always shows a price line: the price, else the 'Price Range' specification, else "Contact for pricing" |
| `ProductDetail.DetailPriceVersusCard` | product-detail.js:155-160 | Detail price = card price, or "Contact for pricing" where the card shows none. The card shows none exactly when there is no price, no specification and no priced flag |
| `ProductDetail.StockClassOf` | product-detail.js:148-150 | In-stock iff the status is missing or "in-stock"; low-stock iff "low-stock"; out-of-stock otherwise |
| `ProductDetail.StockText` | product-detail.js:148-152 | "In Stock: N units" for a missing or "in-stock" status, "Low Stock" for "low-stock", "Out of Stock" for any other status |
| `ProductDetail.StockTextAgreesWithClass` | product-detail.js:151-152 | The text is "In Stock: N units", "Low Stock" or "Out of Stock", matching the class. N is the stock, 0 when missing |
| `ProductDetail.DetailModel` | product-detail.js:143-145 | A model list is shown joined with ", "; a non-empty single model as itself; otherwise the text is never empty ("N/A") |
| `Products.CardModel` | products.js:165-167 | The card's model text: a model list joined with ", ", a single model as itself, and empty without a model |
| `ProductDetail.DetailModelVersusCard` | product-detail.js:143-145 | "Compatible Models" is the list joined with ", ", else the single model, else "N/A". An empty list shows empty |
| `ProductDetail.MainImage` | product-detail.js:136-140 | The main image is `images[0]`. Without images it is a placeholder whose alt text is the brand (or "Unknown"), the name and " - main product image" |
| `ProductDetail.Related` | product-detail.js:344-352 | The first `min(6, n)` of the n related products in catalogue order: none with the current id, each sharing the category or the brand. With fewer than six, none is left out. Empty (section hidden) iff no other product is related |
| `ProductDetail.IsProductDetailPage` | product-detail.js:360-381 | The check holds when the content element exists or the address contains "/product-detail". It holds only when the content element exists or the path or address contains "product-detail" |
| `ProductDetail.ExactPathRedundant` | product-detail.js:360-381 | The page check holds iff the content element exists, or the path or address contains one of the listed fragments; the exact-path test adds nothing |
| `Home.Featured` | home.js:23 | The featured products are the first `min(8, n)` products in catalogue order |
| `Home.HomeProducts` | home.js:18-20 | A loaded catalogue is used as it is. An empty one is replaced by what the loader brings, and stays empty when the loader fails |
| `Home.LoadOnlyWhenEmpty` | home.js:18-20 | When products are already loaded, the loader's outcome does not matter: it is not invoked |
| `Home.HomeGrid` | home.js:18-28 | The featured grid has at most 8 products and is empty exactly when there are no products |
| `Home.NextIndex` | home.js:70-73 | `nextSlide`'s index is in `0..n-1` |
| `Home.PrevIndex` | home.js:75-78 | `prevSlide`'s index is in `0..n-1` |
| `Home.PrevNextInverse` | home.js:70-78 | A step back undoes a step forward, and a step forward undoes a step back |
| `Home.NextTimesIsRotation` | home.js:70-73 | k steps forward from i land on (i + k) mod n |
| `Home.FullTurn` | home.js:70-73 | n steps forward come back to the starting slide |
| `Home.ToggleActive` | home.js:61-66 | The `forEach` toggle leaves exactly the element at the index active |
| `Home.Carousel.constructor` | home.js:54-56 | The carousel starts at slide 0 with only slide 0 and dot 0 active |
| `Home.Carousel.ShowSlide` | home.js:60-68 | `showSlide(i)` sets the index to i and marks exactly slide i and dot i active |
| `Home.Carousel.NextSlide` | home.js:70-73 | `nextSlide` moves to `(i + 1) mod n`, keeps the invariant, and lands inside `0..n-1` |
| `Home.Carousel.PrevSlide` | home.js:75-78 | `prevSlide` moves to `(i - 1 + n) mod n`, keeps the invariant, and lands inside `0..n-1` |
| `Home.InitHeroCarousel` | home.js:45-56 | With no slides there is no carousel; otherwise one at slide 0 |

## Findings

| source | as written | input that shows it | evidently intended | confidence | as-written member | corrected member |
|---|---|---|---|---|---|---|
| products.js:400-425 | Back/forward to an address without `search` lists the whole catalogue. It keeps the page count and the token of the previous search, and it does not clamp the page. | 13 products; search for a term that matches one product (page count 1); press Back to the plain list. All 13 products are listed on 2 real pages, but the pager says 1 of 1 and `goToPage(2)` is rejected. | Without a search parameter, clear the token, recount the pages from the whole catalogue and clamp the page, as initialisation does | not executed; high (the search path recounts right after it refilters, this path does not) | `Products.PopStateKeepsStaleCount` (about `Products.PopStateStep`) | `Products.PopStateCorrectedConsistent` (about `Products.PopStateStepCorrected`) |

The class method `Products.ProductsPage.PopState` keeps the written
behaviour, so that the class matches the code. The corrected handler is
given beside it, with its proof.

## Left out

- Fetching `products.json` (`loadProducts`, the `fetch` in `loadProductDetail`, async/await): I/O. The fetched product list is a parameter, with `None` for a failed fetch. The error and retry markup is not modelled.
- All markup and DOM effects are left out: `innerHTML` templates, `updateSearchInfo`, `scrollTo`, the loading and empty states, breadcrumbs, thumbnails, tabs (`switchTab`), `switchMainImage`, the stock icon and the related-product cards (`createProductCardForDetail`). Only the values they display are modelled.
- Timers are left out: the 300 ms search debounce, the carousel's `setInterval` (`restartTimer`) and the 100 ms fallback re-initialisation. `SubmitSearch` is the handler body after the debounce, and the timer's effect is `NextSlide`.
- The browser history stack and `pushState` are left out. The address is its map of query parameters. Back/forward receives the parameters of the entry it returns to.
- `URLSearchParams` parsing is taken as a map from name to decoded value. `decodeURIComponent` is a function parameter; its exception on a malformed escape is not modelled.
- `toLowerCase` maps only the ASCII letters; other Unicode case mappings are not modelled. Strings are sequences of characters, not of UTF-16 code units.
- `parseInt` works on unbounded integers; the loss of precision of large JavaScript numbers is not modelled.
- Absent string fields are the empty string. So `IsRelated` relates a product without a category to one whose category is empty, where `===` tells `undefined` from `""`.
- Images are `Image` records only; the scripts' fallback for images given as plain URL strings (`img.url || img`) is not modelled.
- `price` is a string, `stock` a natural number and every `model` entry a string; other JSON value types for these fields are not modelled. A missing `name` is the empty string; in the alt text, JavaScript would print "undefined".
- Page bootstrapping is left out: `isProductsPage`, `initializePage`, `initializeProductDetailPage`, `initHome`, `DOMContentLoaded`/`readyState`, and all console logging. The unused `getURLParam` of the detail page is left out too.
- Hero carousel buttons and dots are taken to exist when slides do; a missing `#hero-carousel` element is the same as having no slides.
- generate-products.js is not part of this model: it is an offline generator built on random numbers and file output.
