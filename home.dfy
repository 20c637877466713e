/**
 * The home page: the featured products and the hero carousel.
 */
module Home {
  import opened Wrappers
  import opened Seqs
  import opened Catalog

  const FeaturedCount: nat := 8

  /** `allProducts.slice(0, 8)`: the first eight products in catalogue order. */
  function Featured(all: seq<Product>): (r: seq<Product>)
    ensures |r| == if |all| < FeaturedCount then |all| else FeaturedCount
    ensures r == all[..|r|]
  {
    TakePrefix(all, FeaturedCount);
    JsSlice(all, 0, FeaturedCount)
  }

  /**
   * The products `initHomePage` works from: the already loaded catalogue, or,
   * when none is loaded yet, what the shared loader brings (`None` when it
   * failed, which leaves the catalogue empty).
   */
  function HomeProducts(all: seq<Product>, loaded: Option<seq<Product>>): (r: seq<Product>)
    ensures all != [] ==> r == all
    ensures all == [] && loaded.Some? ==> r == loaded.value
    ensures all == [] && loaded.None? ==> r == []
  {
    if all == [] then (match loaded case Some(products) => products case None => all) else all
  }

  /** The loader is consulted only when nothing is loaded yet. */
  lemma LoadOnlyWhenEmpty(all: seq<Product>, a: Option<seq<Product>>, b: Option<seq<Product>>)
    requires all != []
    ensures HomeProducts(all, a) == HomeProducts(all, b) == all
  {
  }

  /** The featured grid: empty exactly when there are no products at all. */
  function HomeGrid(all: seq<Product>, loaded: Option<seq<Product>>): (grid: seq<Product>)
    ensures grid == [] <==> HomeProducts(all, loaded) == []
    ensures |grid| <= FeaturedCount
  {
    Featured(HomeProducts(all, loaded))
  }

  // ---------------------------------------------------------------- carousel

  /** JavaScript's `%`: the remainder takes the sign of the dividend. */
  function JsRem(a: int, n: int): int
    requires n > 0
  {
    if a >= 0 then a % n else -((-a) % n)
  }

  /** `(currentIndex + 1) % slides.length` */
  function NextIndex(i: int, n: int): (r: int)
    requires n > 0
    ensures i >= -1 ==> 0 <= r < n
  {
    JsRem(i + 1, n)
  }

  /** `(currentIndex - 1 + slides.length) % slides.length` */
  function PrevIndex(i: int, n: int): (r: int)
    requires n > 0
    ensures i >= 1 - n ==> 0 <= r < n
  {
    JsRem(i - 1 + n, n)
  }

  /** Euclidean division is unique: a quotient and remainder in range are the ones `/` and `%` give. */
  lemma {:induction false} DivModUnique(x: int, n: int, q: int, r: int)
    requires n > 0 && 0 <= r < n && x == q * n + r
    ensures x % n == r && x / n == q
  {
    var q0, r0 := x / n, x % n;
    assert x == q0 * n + r0 && 0 <= r0 < n;
    if q0 > q {
      assert (q0 - q) * n == r - r0;
      assert (q0 - q) * n >= n by { MulAtLeast(q0 - q, n); }
    } else if q0 < q {
      assert (q - q0) * n == r0 - r;
      assert (q - q0) * n >= n by { MulAtLeast(q - q0, n); }
    }
  }

  lemma MulAtLeast(d: int, n: int)
    requires d >= 1 && n > 0
    ensures d * n >= n
  {
    assert d * n == (d - 1) * n + n;
  }

  /** Stepping back undoes stepping forward, and the other way round. */
  lemma {:induction false} PrevNextInverse(i: int, n: int)
    requires n > 0 && 0 <= i < n
    ensures PrevIndex(NextIndex(i, n), n) == i
    ensures NextIndex(PrevIndex(i, n), n) == i
  {
    if i < n - 1 {
      DivModUnique(i + 1, n, 0, i + 1);
      DivModUnique(i + n, n, 1, i);
    } else {
      DivModUnique(n, n, 1, 0);
      DivModUnique(n - 1, n, 0, n - 1);
    }
    if i > 0 {
      DivModUnique(i - 1 + n, n, 1, i - 1);
      DivModUnique(i, n, 0, i);
    } else {
      DivModUnique(n - 1, n, 0, n - 1);
      DivModUnique(n, n, 1, 0);
    }
  }

  /** The index after `k` steps forward from `i`. */
  function NextTimes(i: int, n: int, k: nat): int
    requires n > 0
  {
    if k == 0 then i else NextIndex(NextTimes(i, n, k - 1), n)
  }

  /** `k` steps forward land on `(i + k) mod n`; in particular `n` steps come back to the start. */
  lemma {:induction false} NextTimesIsRotation(i: int, n: int, k: nat)
    requires n > 0 && 0 <= i < n
    ensures NextTimes(i, n, k) == (i + k) % n
  {
    if k == 0 {
      DivModUnique(i, n, 0, i);
    } else {
      NextTimesIsRotation(i, n, k - 1);
      NextOfRemainder(i + k - 1, n);
    }
  }

  /** One step forward from `a mod n` lands on `(a + 1) mod n`. */
  lemma NextOfRemainder(a: nat, n: int)
    requires n > 0
    ensures NextIndex(a % n, n) == (a + 1) % n
  {
    var q, r := a / n, a % n;
    assert a == q * n + r;
    assert NextIndex(r, n) == (r + 1) % n;
    if r + 1 < n {
      DivModUnique(r + 1, n, 0, r + 1);
      DivModUnique(a + 1, n, q, r + 1);
    } else {
      DivModUnique(r + 1, n, 1, 0);
      assert a + 1 == (q + 1) * n;
      DivModUnique(a + 1, n, q + 1, 0);
    }
  }

  /** After as many steps forward as there are slides, the carousel is back where it started. */
  lemma FullTurn(i: int, n: int)
    requires n > 0 && 0 <= i < n
    ensures NextTimes(i, n, n) == i
  {
    NextTimesIsRotation(i, n, n);
    DivModUnique(i + n, n, 1, i);
  }

  /** One flag per slide (or dot): set exactly at `index`. */
  function Marks(n: nat, index: int): (flags: seq<bool>)
    ensures |flags| == n
  {
    seq(n, j => j == index)
  }

  /** The `forEach` over slides or dots: `toggle('active', i === index)` on each. */
  method ToggleActive(flags: seq<bool>, index: int) returns (r: seq<bool>)
    ensures |r| == |flags|
    ensures forall j :: 0 <= j < |r| ==> (r[j] <==> j == index)
  {
    r := flags;
    var i := 0;
    while i < |r|
      invariant 0 <= i <= |r| == |flags|
      invariant forall j :: 0 <= j < i ==> (r[j] <==> j == index)
    {
      r := r[i := i == index];
      i := i + 1;
    }
  }

  /** The hero carousel: its slide and dot counts, the current index and the `active` flags. */
  class Carousel {
    const slideCount: nat
    const dotCount: nat
    var currentIndex: int
    var slideActive: seq<bool>
    var dotActive: seq<bool>

    /** There are slides, and exactly the slide and dot at the current index are active. */
    ghost predicate Valid()
      reads this
    {
      slideCount > 0 && currentIndex >= 0
      && slideActive == Marks(slideCount, currentIndex)
      && dotActive == Marks(dotCount, currentIndex)
    }

    /** The carousel as `initHeroCarousel` starts it: `showSlide(0)`. */
    constructor (slides: nat, dots: nat)
      requires slides > 0
      ensures slideCount == slides && dotCount == dots
      ensures Valid() && currentIndex == 0
    {
      slideCount := slides;
      dotCount := dots;
      currentIndex := 0;
      slideActive := seq(slides, _ => false);
      dotActive := seq(dots, _ => false);
      new;
      ShowSlide(0);
    }

    /** `showSlide(index)`, also what a click on dot `index` does. */
    method ShowSlide(index: nat)
      requires slideCount > 0
      requires |slideActive| == slideCount && |dotActive| == dotCount
      modifies this
      ensures Valid() && currentIndex == index
    {
      slideActive := ToggleActive(slideActive, index);
      dotActive := ToggleActive(dotActive, index);
      currentIndex := index;
    }

    method NextSlide()
      requires Valid()
      modifies this
      ensures Valid()
      ensures currentIndex == NextIndex(old(currentIndex), slideCount)
      ensures currentIndex < slideCount
    {
      var nextIndex := NextIndex(currentIndex, slideCount);
      ShowSlide(nextIndex);
    }

    method PrevSlide()
      requires Valid()
      modifies this
      ensures Valid()
      ensures currentIndex == PrevIndex(old(currentIndex), slideCount)
      ensures currentIndex < slideCount
    {
      var prevIndex := PrevIndex(currentIndex, slideCount);
      ShowSlide(prevIndex);
    }
  }

  /** `initHeroCarousel`: no carousel at all when there are no slides; otherwise one showing slide 0. */
  method InitHeroCarousel(slides: nat, dots: nat) returns (c: Carousel?)
    ensures c == null <==> slides == 0
    ensures c != null ==> fresh(c) && c.Valid() && c.currentIndex == 0
                          && c.slideCount == slides && c.dotCount == dots
  {
    if slides == 0 {
      return null;
    }
    c := new Carousel(slides, dots);
  }
}
