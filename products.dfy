/**
 * The product list page: free-text search over the catalogue, the page
 * bookkeeping, the pager, the visible slice of twelve products, the product
 * card's derived fields and the `page`/`search` URL parameters.
 *
 * The page's module-level variables are the class `ProductsPage`; each event
 * handler is a method whose effect is given by a step function on the value
 * `ListState`, and the lemmas about the step functions state what the
 * handlers keep and what they break.
 */
module Products {
  import opened Wrappers
  import opened Strings
  import opened JsNumbers
  import opened Seqs
  import opened Browser
  import opened Catalog

  const ProductsPerPage: nat := 12

  function Min(a: int, b: int): int { if a < b then a else b }
  function Max(a: int, b: int): int { if a < b then b else a }

  // ---------------------------------------------------------------- search

  /** The search token: the query lower-cased, then trimmed. */
  function Normalize(query: string): string {
    Trim(Lower(query))
  }

  /** Normalising a token again changes nothing. */
  lemma {:induction false} NormalizeIdempotent(query: string)
    ensures Normalize(Normalize(query)) == Normalize(query)
  {
    var u := Lower(query);
    LowerTrimCommute(Trim(u));
    TrimIdempotent(Lower(u));
    LowerIdempotent(query);
    calc {
      Normalize(Normalize(query));
      Trim(Lower(Trim(u)));
      { LowerTrimCommute(u); }
      Trim(Trim(Lower(u)));
      Trim(Lower(u));
      Trim(u);
    }
  }

  /** The token is empty exactly when the query is all white space. */
  lemma NormalizeEmpty(query: string)
    ensures Normalize(query) == "" <==> AllSpace(query)
  {
    assert AllSpace(Lower(query)) <==> AllSpace(query) by {
      assert forall i :: 0 <= i < |query| ==> IsSpace(Lower(query)[i]) == IsSpace(query[i]);
    }
  }

  /** The text the search looks at for `model`: a list is joined with single spaces. */
  function ModelSearchText(m: ModelField): string {
    match m
    case ModelList(names) => Join(names, " ")
    case ModelName(name) => name
    case NoModel => ""
  }

  /** The filter callback of the search: the token occurs in one of the five lower-cased fields. */
  predicate Matches(p: Product, token: string) {
    IndexOf(Lower(p.name), token) != -1
    || IndexOf(Lower(p.partNumber), token) != -1
    || IndexOf(Lower(p.oemNumber), token) != -1
    || IndexOf(Lower(p.brand), token) != -1
    || IndexOf(Lower(ModelSearchText(p.model)), token) != -1
  }

  /** The filtered list for a token: the whole catalogue for the empty token, else the matching products. */
  function SearchResults(all: seq<Product>, token: string): seq<Product> {
    if token == "" then all else Filter(all, p => Matches(p, token))
  }

  /**
   * What a search keeps: exactly the products in whose name, part number,
   * OEM number, brand or model text the token occurs, in catalogue order.
   */
  lemma SearchResultsSpec(all: seq<Product>, token: string)
    ensures IsSubsequence(SearchResults(all, token), all)
    ensures forall i :: 0 <= i < |SearchResults(all, token)| ==>
              var p := SearchResults(all, token)[i];
              Contains(Lower(p.name), token) || Contains(Lower(p.partNumber), token)
              || Contains(Lower(p.oemNumber), token) || Contains(Lower(p.brand), token)
              || Contains(Lower(ModelSearchText(p.model)), token)
    ensures forall i :: 0 <= i < |all| &&
              (Contains(Lower(all[i].name), token) || Contains(Lower(all[i].partNumber), token)
               || Contains(Lower(all[i].oemNumber), token) || Contains(Lower(all[i].brand), token)
               || Contains(Lower(ModelSearchText(all[i].model)), token))
              ==> all[i] in SearchResults(all, token)
    ensures token == "" ==> SearchResults(all, token) == all
  {
    if token == "" {
      EmptyTokenMatches(all);
      SubsequenceOfItself(all);
    } else {
      FilterIsSubsequence(all, p => Matches(p, token));
    }
  }

  lemma EmptyTokenMatches(all: seq<Product>)
    ensures forall i :: 0 <= i < |all| ==> Matches(all[i], "")
  {
    forall i | 0 <= i < |all| ensures Matches(all[i], "") {
      assert OccursAt(Lower(all[i].name), "", 0);
    }
  }

  /**
   * The empty-token branch is only a shortcut: every product matches the
   * empty token, so filtering with it gives the same list.
   */
  lemma SearchIsFilter(all: seq<Product>, token: string)
    ensures SearchResults(all, token) == Filter(all, p => Matches(p, token))
  {
    if token == "" {
      EmptyTokenMatches(all);
      FilterAll(all, p => Matches(p, token));
    }
  }

  /** A token found in any one of a product's model names finds the product. */
  lemma ModelNameFinds(p: Product, i: nat, token: string)
    requires p.model.ModelList? && i < |p.model.names|
    requires Contains(Lower(p.model.names[i]), token)
    ensures Matches(p, token)
  {
    JoinKeepsPartSubstrings(p.model.names, " ", i, token);
  }

  /** A search for "pc200" finds a product whose model list is ["PC200-8"]. */
  lemma SearchFindsModelExample(p: Product)
    requires p.model == ModelList(["PC200-8"])
    ensures SearchResults([p], Normalize("pc200")) == [p]
  {
    PlainTokenIsNormal();
    ModelExampleMatches(p);
    assert Filter([p], q => Matches(q, "pc200")) == [p] + Filter([p][1..], q => Matches(q, "pc200"));
  }

  lemma PlainTokenIsNormal()
    ensures Normalize("pc200") == "pc200"
  {
    assert Lower("pc200") == "pc200";
    TrimOfTrimmed("pc200");
  }

  lemma ModelExampleMatches(p: Product)
    requires p.model == ModelList(["PC200-8"])
    ensures Matches(p, "pc200")
  {
    var lowered := Lower("PC200-8");
    assert lowered[0] == 'p' && lowered[1] == 'c' && lowered[2] == '2' && lowered[3] == '0' && lowered[4] == '0';
    assert lowered[0..5] == "pc200";
    assert OccursAt(lowered, "pc200", 0);
    ModelNameFinds(p, 0, "pc200");
  }

  // ---------------------------------------------------------------- pages

  /** `Math.ceil(count / 12)`, raised to 1 for an empty list. */
  function PageCount(count: nat): (pages: nat)
    ensures pages >= 1
    ensures count <= pages * ProductsPerPage
    ensures pages == 1 || (pages - 1) * ProductsPerPage < count
  {
    var c := (count + ProductsPerPage - 1) / ProductsPerPage;
    if c == 0 then 1 else c
  }

  /** The initial page's clamp: first down to `total`, then up to 1. */
  function ClampPage(page: int, total: int): (r: int)
    requires total >= 1
    ensures 1 <= r <= total
    ensures 1 <= page <= total ==> r == page
    ensures page > total ==> r == total
    ensures page < 1 ==> r == 1
  {
    var p := if page > total then total else page;
    if p < 1 then 1 else p
  }

  /** `parseInt(value) || 1`: `NaN` and 0 both become page 1. */
  function ParsePageParam(value: string): (page: int)
    ensures page != 0
    ensures ParseInt(value).NaN? || ParseInt(value) == Num(0) ==> page == 1
    ensures ParseInt(value).Num? && ParseInt(value).value != 0 ==> page == ParseInt(value).value
  {
    match ParseInt(value)
    case NaN => 1
    case Num(n) => if n == 0 then 1 else n
  }

  /** The page the back/forward handler reads from the address: page 1 without a `page` parameter. */
  function PageFromURL(params: map<string, string>): (page: int)
    ensures page != 0
    ensures Param(params, "page") == "" ==> page == 1
    ensures !StartsNumber(Param(params, "page")) ==> page == 1
  {
    var v := Param(params, "page");
    if v != "" then ParsePageParam(v) else 1
  }

  /**
   * The page read from the address is not clamped: `page=-n` (with any
   * trailing text that does not continue the number) reads as page -n.
   */
  lemma {:induction false} PageFromURLNegative(params: map<string, string>, n: nat, rest: string)
    requires n >= 1
    requires rest == "" || DigitValue(rest[0]) >= 10
    requires "page" in params && params["page"] == "-" + NatToDecimal(n) + rest
    ensures PageFromURL(params) == -(n as int)
  {
    ParseIntOfNegative(n, rest);
  }

  /**
   * `updateURL(page, search)`: `page` is written (in decimal) only when above
   * 1 and `search` only when non-empty; every other parameter is kept.
   */
  function UpdateURL(params: map<string, string>, page: int, search: string): (r: map<string, string>)
    ensures ("page" in r) <==> page > 1
    ensures page > 1 ==> r["page"] == NatToDecimal(page)
    ensures ("search" in r) <==> search != ""
    ensures search != "" ==> r["search"] == search
    ensures forall k :: k != "page" && k != "search" ==> (k in r <==> k in params)
    ensures forall k :: k in r && k != "page" && k != "search" ==> r[k] == params[k]
  {
    var withPage := if page > 1 then params["page" := NatToDecimal(page)] else params - {"page"};
    if search != "" then withPage["search" := search] else withPage - {"search"}
  }

  /** Reading the address back gives the page and search text that were written into it. */
  lemma URLRoundTrip(params: map<string, string>, page: int, search: string)
    requires page >= 1
    ensures PageFromURL(UpdateURL(params, page, search)) == page
    ensures Param(UpdateURL(params, page, search), "search") == search
  {
    if page > 1 {
      ParseIntOfDecimal(page, "");
      assert NatToDecimal(page) + "" == NatToDecimal(page);
    }
  }

  /**
   * The products on a page: `slice((page-1)*12, (page-1)*12 + 12)` of the
   * filtered list, with JavaScript's negative-index rule for pages below 1.
   */
  function Visible(filtered: seq<Product>, page: int): (r: seq<Product>)
    ensures |r| <= ProductsPerPage
  {
    var start := (page - 1) * ProductsPerPage;
    JsSlice(filtered, start, start + ProductsPerPage)
  }

  /** Product number `k` of the filtered list is shown at place `k % 12` of page `k / 12 + 1`. */
  lemma VisiblePosition(filtered: seq<Product>, k: nat)
    requires k < |filtered|
    ensures k / ProductsPerPage + 1 <= PageCount(|filtered|)
    ensures k % ProductsPerPage < |Visible(filtered, k / ProductsPerPage + 1)|
    ensures Visible(filtered, k / ProductsPerPage + 1)[k % ProductsPerPage] == filtered[k]
  {
    var page := k / ProductsPerPage + 1;
    var start := (page - 1) * ProductsPerPage;
    assert start + k % ProductsPerPage == k;
  }

  /** Every page from 1 to the page count shows something, unless the list is empty. */
  lemma VisibleNonEmpty(filtered: seq<Product>, page: int)
    requires filtered != []
    requires 1 <= page <= PageCount(|filtered|)
    ensures Visible(filtered, page) != []
  {
  }

  /** Beyond the last page the grid is empty (the back/forward handler does not clamp). */
  lemma VisibleBeyondLast(filtered: seq<Product>, page: int)
    requires page > PageCount(|filtered|)
    ensures Visible(filtered, page) == []
  {
  }

  /** Page 0 is empty; a negative page counts back from the end of the list, as `slice` does. */
  lemma VisibleBelowFirst(filtered: seq<Product>, page: int)
    requires page <= 0
    requires |filtered| + (page - 1) * ProductsPerPage >= 0
    ensures page == 0 ==> Visible(filtered, page) == []
    ensures page < 0 ==>
              (Visible(filtered, page)
               == filtered[|filtered| + (page - 1) * ProductsPerPage..|filtered| + page * ProductsPerPage])
  {
  }

  // ---------------------------------------------------------------- pager

  /** The run of numbered page buttons `first..last`. */
  datatype PageRange = PageRange(first: int, last: int)

  /**
   * The window of page buttons: the current page ± 2, moved to `1..5` near
   * the start and to the last five pages near the end.
   */
  function Window(current: int, total: int): (w: PageRange)
    ensures total >= 1 ==> 1 <= w.first <= w.last <= total
    ensures total >= 1 ==> w.last - w.first + 1 == Min(5, total)
    ensures 1 <= current <= total ==> w.first <= current <= w.last
    ensures 1 <= current <= total ==> w.first == ClampPage(current - 2, Max(1, total - 4))
  {
    var first0 := Max(1, current - 2);
    var last0 := Min(total, current + 2);
    var nearStart := if current <= 3 then PageRange(1, Min(5, total)) else PageRange(first0, last0);
    if current >= total - 2 then PageRange(Max(1, total - 4), total) else nearStart
  }

  /** A numbered button, highlighted when it is the current page; or an ellipsis. */
  datatype PagerEntry = PageLink(page: int, active: bool) | Dots

  /** A First/Previous/Next/Last button: the page it asks for and whether it is disabled. */
  datatype NavButton = NavButton(target: int, disabled: bool)

  /** The pager: navigation buttons, the numbered entries, and "Showing from-to of count". */
  datatype Pager = Pager(
    first: NavButton, prev: NavButton, entries: seq<PagerEntry>, next: NavButton, last: NavButton,
    showingFrom: int, showingTo: int, count: nat)

  /** Page 1 and an ellipsis in front of the window, when the window does not start at 1. */
  function Leading(first: int): seq<PagerEntry> {
    if first > 1 then [PageLink(1, false)] + (if first > 2 then [Dots] else []) else []
  }

  /** An ellipsis and the last page after the window, when the window does not reach it. */
  function Trailing(last: int, total: int): seq<PagerEntry> {
    if last < total then (if last < total - 1 then [Dots] else []) + [PageLink(total, false)] else []
  }

  /** Buttons for pages `lo..hi`, the current one highlighted. */
  function Links(lo: int, hi: int, current: int): (r: seq<PagerEntry>)
    requires lo <= hi + 1
    ensures |r| == hi - lo + 1
    decreases hi - lo + 1
  {
    if lo > hi then [] else Links(lo, hi - 1, current) + [PageLink(hi, hi == current)]
  }

  /** The k-th button of the window is page `lo + k`, highlighted iff that is the current page. */
  lemma {:induction false} LinksAt(lo: int, hi: int, current: int)
    requires lo <= hi + 1
    ensures forall k :: 0 <= k < |Links(lo, hi, current)| ==>
              Links(lo, hi, current)[k] == PageLink(lo + k, lo + k == current)
    decreases hi - lo + 1
  {
    if lo <= hi {
      LinksAt(lo, hi - 1, current);
    }
  }

  function PagerEntries(current: int, total: int): seq<PagerEntry>
    requires total >= 1
  {
    var w := Window(current, total);
    Leading(w.first) + Links(w.first, w.last, current) + Trailing(w.last, total)
  }

  /** The pager that `renderPagination` draws for a page of a list of `count` products. */
  function PagerFor(current: int, total: int, count: nat): Pager
    requires total >= 1
  {
    Pager(NavButton(1, current == 1), NavButton(current - 1, current == 1),
          PagerEntries(current, total),
          NavButton(current + 1, current == total), NavButton(total, current == total),
          (current - 1) * ProductsPerPage + 1, Min(current * ProductsPerPage, count), count)
  }

  /**
   * The numbered part of `renderPagination`: page 1 and an ellipsis before
   * the window, a loop over the window's pages, an ellipsis and the last
   * page after it.
   */
  method RenderEntries(startPage: int, endPage: int, currentPage: int, totalPages: int)
    returns (entries: seq<PagerEntry>)
    requires 1 <= startPage <= endPage <= totalPages
    ensures entries == Leading(startPage) + Links(startPage, endPage, currentPage) + Trailing(endPage, totalPages)
  {
    entries := [];
    if startPage > 1 {
      entries := entries + [PageLink(1, false)];
      if startPage > 2 {
        entries := entries + [Dots];
      }
    }
    assert entries == Leading(startPage);
    var links: seq<PagerEntry> := [];
    var i := startPage;
    while i <= endPage
      invariant startPage <= i <= endPage + 1
      invariant links == Links(startPage, i - 1, currentPage)
    {
      links := links + [PageLink(i, i == currentPage)];
      i := i + 1;
    }
    entries := entries + links;
    if endPage < totalPages {
      if endPage < totalPages - 1 {
        entries := entries + [Dots];
      }
      entries := entries + [PageLink(totalPages, false)];
    }
  }

  /** `renderPagination`, with the markup left out. */
  method RenderPagination(currentPage: int, totalPages: int, count: nat) returns (pager: Pager)
    requires totalPages >= 1
    ensures pager == PagerFor(currentPage, totalPages, count)
  {
    var first := NavButton(1, currentPage == 1);
    var prev := NavButton(currentPage - 1, currentPage == 1);
    var w := Window(currentPage, totalPages);
    var entries := RenderEntries(w.first, w.last, currentPage, totalPages);
    var next := NavButton(currentPage + 1, currentPage == totalPages);
    var last := NavButton(totalPages, currentPage == totalPages);
    pager := Pager(first, prev, entries, next, last,
                   (currentPage - 1) * ProductsPerPage + 1,
                   Min(currentPage * ProductsPerPage, count), count);
  }

  /**
   * The pager's entries read as a compressed list of the pages `1..total`:
   * it starts at page 1 and ends at page `total`, neighbouring buttons are
   * consecutive pages, and an ellipsis stands between two buttons exactly
   * where at least one page is skipped.
   */
  predicate CoversAllPages(e: seq<PagerEntry>, total: int) {
    && |e| > 0
    && e[0].PageLink? && e[0].page == 1
    && e[|e| - 1].PageLink? && e[|e| - 1].page == total
    && (forall i :: 0 <= i < |e| - 1 && e[i].PageLink? && e[i + 1].PageLink? ==>
          e[i + 1].page == e[i].page + 1)
    && (forall i :: 0 <= i < |e| && e[i].Dots? ==>
          0 < i < |e| - 1 && e[i - 1].PageLink? && e[i + 1].PageLink?
          && e[i + 1].page > e[i - 1].page + 1)
  }

  /** Between two neighbouring buttons of the pager built around `first..last` the pages are consecutive. */
  lemma {:induction false} EntriesConsecutive(first: int, last: int, current: int, total: int)
    requires 1 <= first <= last <= total
    ensures var e := Leading(first) + Links(first, last, current) + Trailing(last, total);
      forall i :: 0 <= i < |e| - 1 && e[i].PageLink? && e[i + 1].PageLink? ==>
        e[i + 1].page == e[i].page + 1
  {
    var lead, mid, trail := Leading(first), Links(first, last, current), Trailing(last, total);
    LinksAt(first, last, current);
    var e := lead + mid + trail;
    forall i | 0 <= i < |e| - 1 && e[i].PageLink? && e[i + 1].PageLink?
      ensures e[i + 1].page == e[i].page + 1
    {
      if i + 1 < |lead| {
      } else if i + 1 == |lead| {
        assert e[i + 1] == mid[0];
      } else if i + 1 < |lead| + |mid| {
        assert e[i] == mid[i - |lead|] && e[i + 1] == mid[i + 1 - |lead|];
      } else {
        assert e[i] == mid[|mid| - 1] && e[i + 1] == trail[0];
      }
    }
  }

  /** In the pager built around `first..last` an ellipsis sits between two buttons that skip pages. */
  lemma {:induction false} EntriesDotsMarkGaps(first: int, last: int, current: int, total: int)
    requires 1 <= first <= last <= total
    ensures var e := Leading(first) + Links(first, last, current) + Trailing(last, total);
      forall i :: 0 <= i < |e| && e[i].Dots? ==>
        0 < i < |e| - 1 && e[i - 1].PageLink? && e[i + 1].PageLink?
        && e[i + 1].page > e[i - 1].page + 1
  {
    var lead, mid, trail := Leading(first), Links(first, last, current), Trailing(last, total);
    LinksAt(first, last, current);
    var e := lead + mid + trail;
    assert forall k :: |lead| <= k < |lead| + |mid| ==> e[k] == mid[k - |lead|];
    forall i | 0 <= i < |e| && e[i].Dots?
      ensures 0 < i < |e| - 1 && e[i - 1].PageLink? && e[i + 1].PageLink?
              && e[i + 1].page > e[i - 1].page + 1
    {
      if i < |lead| {
        assert i == 1 && e[i + 1] == mid[0];
      } else {
        assert i == |lead| + |mid| && e[i - 1] == mid[|mid| - 1];
      }
    }
  }

  /** The pager built around any window `first..last` of `1..total` covers all pages. */
  lemma {:induction false} EntriesCover(first: int, last: int, current: int, total: int)
    requires 1 <= first <= last <= total
    ensures CoversAllPages(Leading(first) + Links(first, last, current) + Trailing(last, total), total)
  {
    var lead, mid, trail := Leading(first), Links(first, last, current), Trailing(last, total);
    var e := lead + mid + trail;
    EntriesConsecutive(first, last, current, total);
    EntriesDotsMarkGaps(first, last, current, total);
    LinksAt(first, last, current);
    assert e[0] == if lead != [] then lead[0] else mid[0];
    assert e[|e| - 1] == if trail != [] then trail[|trail| - 1] else mid[|mid| - 1];
  }

  lemma {:induction false} PagerCoversAllPages(current: int, total: int)
    requires total >= 1
    ensures CoversAllPages(PagerEntries(current, total), total)
  {
    var w := Window(current, total);
    EntriesCover(w.first, w.last, current, total);
  }

  /**
   * The pager highlights exactly one button, the current page; and every
   * button asks for a page that `goToPage` accepts exactly when it is not
   * the current page.
   */
  lemma {:induction false} PagerHighlightsCurrent(current: int, total: int)
    requires 1 <= current <= total
    ensures exists i :: 0 <= i < |PagerEntries(current, total)|
              && PagerEntries(current, total)[i] == PageLink(current, true)
    ensures forall i :: 0 <= i < |PagerEntries(current, total)| && PagerEntries(current, total)[i].PageLink? ==>
              (PagerEntries(current, total)[i].active <==> PagerEntries(current, total)[i].page == current)
    ensures forall i :: 0 <= i < |PagerEntries(current, total)| && PagerEntries(current, total)[i].PageLink? ==>
              (PageChangeAllowed(current, total, PagerEntries(current, total)[i].page)
               <==> !PagerEntries(current, total)[i].active)
  {
    var w := Window(current, total);
    var lead, mid, trail := Leading(w.first), Links(w.first, w.last, current), Trailing(w.last, total);
    LinksAt(w.first, w.last, current);
    var e := lead + mid + trail;
    assert e[|lead| + current - w.first] == mid[current - w.first];
    PagerCoversAllPages(current, total);
    forall i | 0 <= i < |e| && e[i].PageLink?
      ensures e[i].active <==> e[i].page == current
      ensures 1 <= e[i].page <= total
    {
      if i < |lead| {
        assert i == 0;
      } else if i < |lead| + |mid| {
        assert e[i] == mid[i - |lead|];
      } else {
        assert e[i] == trail[i - |lead| - |mid|];
      }
    }
  }

  /** The guard of `goToPage`: a page in `1..total` other than the current one. */
  predicate PageChangeAllowed(current: int, total: int, page: int) {
    !(page < 1 || page > total || page == current)
  }

  /** Each navigation button is disabled exactly when `goToPage` would ignore its target. */
  lemma NavButtonsMatchGuard(current: int, total: int, count: nat)
    requires 1 <= current <= total
    ensures var p := PagerFor(current, total, count);
      && (p.first.disabled <==> !PageChangeAllowed(current, total, p.first.target))
      && (p.prev.disabled <==> !PageChangeAllowed(current, total, p.prev.target))
      && (p.next.disabled <==> !PageChangeAllowed(current, total, p.next.target))
      && (p.last.disabled <==> !PageChangeAllowed(current, total, p.last.target))
  {
  }

  /** "Showing from-to" counts exactly the products the grid shows. */
  lemma ShowingMatchesVisible(filtered: seq<Product>, current: int)
    requires filtered != []
    requires 1 <= current <= PageCount(|filtered|)
    ensures var p := PagerFor(current, PageCount(|filtered|), |filtered|);
      p.showingTo - p.showingFrom + 1 == |Visible(filtered, current)|
  {
  }

  /** Page 1 of 10 and page 10 of 10, worked out. */
  lemma PagerExamples()
    ensures PagerEntries(1, 10) == [PageLink(1, true), PageLink(2, false), PageLink(3, false),
                                    PageLink(4, false), PageLink(5, false), Dots, PageLink(10, false)]
    ensures PagerEntries(10, 10) == [PageLink(1, false), Dots, PageLink(6, false), PageLink(7, false),
                                     PageLink(8, false), PageLink(9, false), PageLink(10, true)]
  {
    assert Links(1, 5, 1) == [PageLink(1, true), PageLink(2, false), PageLink(3, false),
                              PageLink(4, false), PageLink(5, false)];
    assert Links(6, 10, 10) == [PageLink(6, false), PageLink(7, false),
                                PageLink(8, false), PageLink(9, false), PageLink(10, true)];
  }

  // ---------------------------------------------------------------- product card

  function BrandOrUnknown(p: Product): string {
    if p.brand != "" then p.brand else "Unknown"
  }

  /** The 'Price Range' specification, or "" when there is none. */
  function SpecPriceRange(p: Product): string {
    if "Price Range" in p.specifications then p.specifications["Price Range"] else ""
  }

  /**
   * The card's price line: the price, else the 'Price Range' specification,
   * else "Contact for pricing" when the product is flagged as priced, else
   * no price line (`""`).
   */
  function CardPrice(p: Product): (r: string)
    ensures r != "" <==> p.price != "" || SpecPriceRange(p) != "" || p.hasPrice
    ensures p.price != "" ==> r == p.price
    ensures p.price == "" && SpecPriceRange(p) != "" ==> r == SpecPriceRange(p)
    ensures p.price == "" && SpecPriceRange(p) == "" ==> r == (if p.hasPrice then "Contact for pricing" else "")
  {
    if p.price != "" then p.price
    else if SpecPriceRange(p) != "" then SpecPriceRange(p)
    else if p.hasPrice then "Contact for pricing"
    else ""
  }

  /** The card's image: the first image, else a placeholder described by brand and name. */
  function CardImage(p: Product): (img: Image)
    ensures p.images != [] ==> img == p.images[0]
    ensures p.images == [] ==> img.alt == BrandOrUnknown(p) + " " + p.name + " - product image"
  {
    if |p.images| > 0 then p.images[0]
    else Image("https://via.placeholder.com/280x180/1a365d/ffffff?text=Product+Image",
               BrandOrUnknown(p) + " " + p.name + " - product image")
  }

  /** The card's "For:" line: the model list joined with ", ", the single model, or nothing. */
  function CardModel(p: Product): (m: string)
    ensures p.model.ModelList? ==> m == Join(p.model.names, ", ")
    ensures p.model.ModelName? ==> m == p.model.name
    ensures p.model.NoModel? ==> m == ""
  {
    match p.model
    case ModelList(names) => Join(names, ", ")
    case ModelName(name) => name
    case NoModel => ""
  }

  // ---------------------------------------------------------------- page state

  /** The list page's module-level variables, plus the address's query parameters. */
  datatype ListState = ListState(
    all: seq<Product>, filtered: seq<Product>, page: int, totalPages: int, query: string,
    params: map<string, string>)

  /** The state when the script is loaded, at the given address. */
  function Fresh(params: map<string, string>): ListState {
    ListState([], [], 1, 1, "", params)
  }

  /**
   * The list page's invariant: the filtered list is the search result of the
   * current token, the page count fits it, and the current page is a page.
   */
  predicate Consistent(s: ListState) {
    && s.filtered == SearchResults(s.all, s.query)
    && s.totalPages == PageCount(|s.filtered|)
    && 1 <= s.page <= s.totalPages
  }

  /** `searchProducts(query)`. */
  function SearchStep(s: ListState, query: string): ListState {
    var token := Normalize(query);
    var filtered := SearchResults(s.all, token);
    s.(query := token, filtered := filtered, page := 1, totalPages := PageCount(|filtered|))
  }

  /** `goToPage(page)`: ignored unless allowed; otherwise move and record the page in the address. */
  function GoToPageStep(s: ListState, page: int): ListState {
    if !PageChangeAllowed(s.page, s.totalPages, page) then s
    else s.(page := page, params := UpdateURL(s.params, page, s.query))
  }

  /** The search box's input (after the debounce) and Enter handlers: search, then record it in the address. */
  function SubmitSearchStep(s: ListState, value: string): ListState {
    var query := Trim(value);
    var s1 := SearchStep(s, query);
    s1.(params := UpdateURL(s1.params, s1.page, query))
  }

  /**
   * `initProductsPage` once the catalogue fetch is over (`None` when it
   * failed): the page parameter is read and clamped, then a search
   * parameter, if any, is searched for.
   */
  function InitStep(s: ListState, loaded: Option<seq<Product>>): ListState {
    match loaded
    case None => s
    case Some(products) =>
      if products == [] then s.(all := [], filtered := [])
      else
        var pageParam := Param(s.params, "page");
        var searchParam := Param(s.params, "search");
        var total := PageCount(|products|);
        var page := if pageParam != "" then ClampPage(ParsePageParam(pageParam), total) else s.page;
        var s1 := s.(all := products, filtered := products, totalPages := total, page := page);
        if searchParam != "" then SearchStep(s1, searchParam) else s1
  }

  /**
   * The `popstate` handler, as written: take the page from the new address
   * without clamping it, then search for its search parameter, or else show
   * the whole catalogue, keeping the page count and token as they were.
   */
  function PopStateStep(s: ListState, params: map<string, string>): ListState {
    var s1 := s.(params := params, page := PageFromURL(params));
    var searchParam := Param(params, "search");
    if searchParam != "" then SearchStep(s1, searchParam) else s1.(filtered := s1.all)
  }

  /** The `popstate` handler as evidently intended: without a search, also reset the token, recount and clamp. */
  function PopStateStepCorrected(s: ListState, params: map<string, string>): ListState {
    var s1 := s.(params := params, page := PageFromURL(params));
    var searchParam := Param(params, "search");
    if searchParam != "" then SearchStep(s1, searchParam)
    else
      var total := PageCount(|s.all|);
      s1.(filtered := s.all, query := "", totalPages := total, page := ClampPage(s1.page, total))
  }

  /**
   * A search always leaves the page consistent at page 1, with the token
   * normalised, and nothing else changed.
   */
  lemma SearchStepSpec(s: ListState, query: string)
    ensures var r := SearchStep(s, query);
      && Consistent(r) && r.page == 1 && r.query == Normalize(query)
      && r.all == s.all && r.params == s.params
      && r.totalPages == Max(1, (|r.filtered| + ProductsPerPage - 1) / ProductsPerPage)
  {
  }

  /** `goToPage` keeps the page consistent, changes only the page and the address, and only when allowed. */
  lemma GoToPageSpec(s: ListState, page: int)
    requires Consistent(s)
    ensures var r := GoToPageStep(s, page);
      && Consistent(r)
      && r.all == s.all && r.filtered == s.filtered && r.totalPages == s.totalPages && r.query == s.query
      && (r.page == page <==> (PageChangeAllowed(s.page, s.totalPages, page) || page == s.page))
      && (!PageChangeAllowed(s.page, s.totalPages, page) ==> r == s)
  {
  }

  /** A search from the box leaves the address without `page` and with the trimmed text as `search`. */
  lemma SubmitSearchSpec(s: ListState, value: string)
    ensures var r := SubmitSearchStep(s, value);
      && Consistent(r) && r.page == 1
      && "page" !in r.params
      && Param(r.params, "search") == Trim(value)
  {
  }

  /** Whatever the address and however the fetch went, the freshly initialised page is consistent. */
  lemma InitConsistent(params: map<string, string>, loaded: Option<seq<Product>>)
    ensures Consistent(InitStep(Fresh(params), loaded))
  {
    match loaded
    case None =>
    case Some(products) =>
      if products != [] && Param(params, "search") == "" {
        SearchIsFilter(products, "");
        EmptyTokenMatches(products);
        FilterAll(products, p => Matches(p, ""));
      }
  }

  /** With a search parameter the page parameter is overridden: the search resets to page 1. */
  lemma InitSearchIgnoresPage(params: map<string, string>, products: seq<Product>)
    requires products != []
    requires Param(params, "search") != ""
    ensures InitStep(Fresh(params), Some(products)).page == 1
  {
  }

  /** Without a search parameter the page parameter is parsed and clamped into `1..pages`. */
  lemma InitClampsPage(params: map<string, string>, products: seq<Product>)
    requires products != []
    requires Param(params, "search") == ""
    ensures var r := InitStep(Fresh(params), Some(products));
      && (Param(params, "page") == "" ==> r.page == 1)
      && (Param(params, "page") != "" ==>
            r.page == ClampPage(ParsePageParam(Param(params, "page")), PageCount(|products|)))
      && r.filtered == products
  {
  }

  /** The back/forward handler takes the page as written when there is no search, and page 1 when there is. */
  lemma PopStatePage(s: ListState, params: map<string, string>)
    ensures Param(params, "search") == "" ==> PopStateStep(s, params).page == PageFromURL(params)
    ensures Param(params, "search") != "" ==> PopStateStep(s, params).page == 1
  {
  }

  /**
   * Going back to an address that `goToPage` pushed, while no search is
   * active, restores exactly the state it left.
   */
  lemma PopStateRestoresPage(s: ListState, page: int)
    requires Consistent(s)
    requires s.query == ""
    requires PageChangeAllowed(s.page, s.totalPages, page)
    ensures PopStateStep(GoToPageStep(s, page), GoToPageStep(s, page).params) == GoToPageStep(s, page)
  {
    URLRoundTrip(s.params, page, s.query);
  }

  /**
   * As written, going back from a search to an address without one shows
   * the whole catalogue but keeps the search's page count and token: with
   * 13 products and a search that matched at most 12, the page count stays
   * 1 while the list needs 2 pages, so page 2 cannot be reached.
   */
  lemma PopStateKeepsStaleCount(s: ListState, params: map<string, string>)
    requires Consistent(s)
    requires |s.all| == 13 && |s.filtered| <= 12
    requires Param(params, "search") == "" && Param(params, "page") == ""
    ensures var r := PopStateStep(s, params);
      && r.filtered == s.all && r.totalPages == 1 && PageCount(|r.filtered|) == 2
      && !Consistent(r)
      && GoToPageStep(r, 2) == r
  {
  }

  /** The corrected handler always leaves the page consistent. */
  lemma PopStateCorrectedConsistent(s: ListState, params: map<string, string>)
    ensures Consistent(PopStateStepCorrected(s, params))
  {
    if Param(params, "search") == "" {
      SearchIsFilter(s.all, "");
      EmptyTokenMatches(s.all);
      FilterAll(s.all, p => Matches(p, ""));
    }
  }

  /** The corrected handler differs from the written one only when no search parameter is present. */
  lemma PopStateCorrectedAgrees(s: ListState, params: map<string, string>)
    requires Param(params, "search") != ""
    ensures PopStateStepCorrected(s, params) == PopStateStep(s, params)
  {
  }

  /** The list page's module-level state, with its event handlers as methods. */
  class ProductsPage {
    var allProducts: seq<Product>
    var filteredProducts: seq<Product>
    var currentPage: int
    var totalPages: int
    var searchQuery: string
    /** The query parameters of `window.location`, rewritten by `updateURL`. */
    var location: map<string, string>

    function State(): ListState
      reads this
    {
      ListState(allProducts, filteredProducts, currentPage, totalPages, searchQuery, location)
    }

    constructor (params: map<string, string>)
      ensures State() == Fresh(params)
    {
      allProducts := [];
      filteredProducts := [];
      currentPage := 1;
      totalPages := 1;
      searchQuery := "";
      location := params;
    }

    method SearchProducts(query: string)
      modifies this
      ensures State() == SearchStep(old(State()), query)
      ensures Consistent(State())
    {
      searchQuery := Normalize(query);
      filteredProducts := SearchResults(allProducts, searchQuery);
      currentPage := 1;
      totalPages := PageCount(|filteredProducts|);
    }

    method UpdateURLParams(page: int, search: string)
      modifies this
      ensures State() == old(State()).(params := UpdateURL(old(location), page, search))
    {
      location := UpdateURL(location, page, search);
    }

    method GoToPage(page: int)
      modifies this
      ensures State() == GoToPageStep(old(State()), page)
      ensures old(Consistent(State())) ==> Consistent(State())
    {
      if page < 1 || page > totalPages || page == currentPage {
        return;
      }
      currentPage := page;
      UpdateURLParams(currentPage, searchQuery);
    }

    method SubmitSearch(value: string)
      modifies this
      ensures State() == SubmitSearchStep(old(State()), value)
      ensures Consistent(State())
    {
      var query := Trim(value);
      SearchProducts(query);
      UpdateURLParams(currentPage, query);
    }

    /** The clear button: an empty search. */
    method ClearSearch()
      modifies this
      ensures State() == SubmitSearchStep(old(State()), "")
      ensures State().filtered == State().all
    {
      SearchProducts("");
      UpdateURLParams(currentPage, "");
    }

    method InitProductsPage(loaded: Option<seq<Product>>)
      modifies this
      ensures State() == InitStep(old(State()), loaded)
    {
      if loaded.None? {
        return;
      }
      allProducts := loaded.value;
      filteredProducts := allProducts;
      if |allProducts| == 0 {
        return;
      }
      totalPages := PageCount(|allProducts|);
      var pageParam := Param(location, "page");
      var searchParam := Param(location, "search");
      if pageParam != "" {
        currentPage := ParsePageParam(pageParam);
        if currentPage > totalPages {
          currentPage := totalPages;
        }
        if currentPage < 1 {
          currentPage := 1;
        }
      }
      if searchParam != "" {
        searchQuery := searchParam;
        SearchProducts(searchParam);
      } else {
        filteredProducts := allProducts;
      }
    }

    /** The browser's back/forward handler; the browser has already moved to `params`. */
    method PopState(params: map<string, string>)
      modifies this
      ensures State() == PopStateStep(old(State()), params)
    {
      location := params;
      var pageParam := Param(params, "page");
      if pageParam != "" {
        currentPage := ParsePageParam(pageParam);
      } else {
        currentPage := 1;
      }
      var searchParam := Param(params, "search");
      if searchParam != "" {
        SearchProducts(searchParam);
      } else {
        filteredProducts := allProducts;
      }
    }
  }

  /** `getProductById`: lookup in the loaded catalogue. */
  function GetProductById(page: ProductsPage, id: string): (r: Option<Product>)
    reads page
    ensures r.Some? ==> r.value.id == id && r.value in page.allProducts
    ensures r.None? <==> forall j :: 0 <= j < |page.allProducts| ==> page.allProducts[j].id != id
    ensures r.Some? ==> exists k :: 0 <= k < |page.allProducts| && page.allProducts[k] == r.value
                                   && forall j :: 0 <= j < k ==> page.allProducts[j].id != id
  {
    FindById(page.allProducts, id)
  }
}
