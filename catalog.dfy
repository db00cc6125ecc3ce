/** The catalog page (components/products/ProductCatalog.tsx): the filter and
    sort pipeline over the catalog array, the page arithmetic, and the list
    that infinite scrolling accumulates. */
module ProductCatalog {
  import opened Types
  import opened JsString
  import opened JsArray
  import opened StableSort
  import opened ProductSlice
  import opened JsMath

  // ---------------------------------------------------------------------------
  // The three predicates, each as the source applies it and as a test that is
  // trivially true when its control is off.

  /** `p => p.category === selectedCategory`. */
  function InCategory(category: CategoryId): Product -> bool {
    (p: Product) => p.category == category
  }

  /** `p => p.name.toLowerCase().includes(query) || p.description?.toLowerCase().includes(query)`,
      for a query already lowered. */
  function MentionsQuery(query: string): Product -> bool {
    (p: Product) => Includes(Lower(p.name), query) || Includes(Lower(p.description), query)
  }

  /** `p => p.inStock`. */
  function IsInStock(): Product -> bool {
    (p: Product) => p.inStock
  }

  predicate CategoryOk(st: ProductsState, p: Product) {
    st.selectedCategory != All ==> p.category == st.selectedCategory
  }

  predicate SearchOk(st: ProductsState, p: Product) {
    st.searchQuery != "" ==>
      Includes(Lower(p.name), Lower(st.searchQuery)) || Includes(Lower(p.description), Lower(st.searchQuery))
  }

  predicate StockOk(st: ProductsState, p: Product) {
    st.inStockOnly ==> p.inStock
  }

  /** A product is shown when it passes every control that is on. The price
      range is not among them: that filter is commented out in the source. */
  predicate Matches(st: ProductsState, p: Product) {
    CategoryOk(st, p) && SearchOk(st, p) && StockOk(st, p)
  }

  function Keep(st: ProductsState): Product -> bool {
    (p: Product) => Matches(st, p)
  }

  /** No filter call runs, so `filtered` is still the catalog array itself. */
  predicate NoFilterRuns(st: ProductsState) {
    st.selectedCategory == All && st.searchQuery == "" && !st.inStockOnly
  }

  // ---------------------------------------------------------------------------
  // Sorting.

  /** `p.rating || 0`: only an undefined rating (and 0 itself) reads as 0. */
  function RatingOrZero(p: Product): int {
    match p.rating
    case Some(r) => r
    case None => 0
  }

  /** The key each comparator subtracts: ascending price, descending price,
      descending `localeCompare` rank of the id, descending rating with a
      missing rating counted as 0. `localeRank` stands for the browser's
      collation order. */
  function SortKey(sortBy: SortOption, localeRank: string -> int): Product -> int {
    match sortBy
    case PriceAsc => (p: Product) => p.price
    case PriceDesc => (p: Product) => -p.price
    case Newest => (p: Product) => -localeRank(p.id)
    case Rating => (p: Product) => -RatingOrZero(p)
    case Default => (p: Product) => 0
  }

  /** The order the list ends in: unsorted for "default", otherwise stably
      sorted by the option's key. */
  function Arranged(s: seq<Product>, sortBy: SortOption, localeRank: string -> int): seq<Product> {
    if sortBy == Default then s else InsertionSort(s, SortKey(sortBy, localeRank))
  }

  /** The products `filteredProducts` holds, as a function of the catalog. */
  function Shown(catalog: seq<Product>, st: ProductsState, localeRank: string -> int): seq<Product> {
    Arranged(Filter(catalog, Keep(st)), st.sortBy, localeRank)
  }

  /** The category, search and stock steps, each applied only when its control
      is on, select exactly the catalog products that pass all of them, in
      catalog order. */
  lemma ChainIsConjunction(catalog: seq<Product>, st: ProductsState)
    ensures var byCategory := if st.selectedCategory != All then Filter(catalog, InCategory(st.selectedCategory)) else catalog;
      var bySearch := if st.searchQuery != "" then Filter(byCategory, MentionsQuery(Lower(st.searchQuery))) else byCategory;
      (if st.inStockOnly then Filter(bySearch, IsInStock()) else bySearch) == Filter(catalog, Keep(st))
  {
    var k1: Product -> bool := p => CategoryOk(st, p);
    var k2: Product -> bool := p => CategoryOk(st, p) && SearchOk(st, p);
    var byCategory := if st.selectedCategory != All then Filter(catalog, InCategory(st.selectedCategory)) else catalog;
    if st.selectedCategory != All {
      FilterAgree(catalog, InCategory(st.selectedCategory), k1);
    } else {
      FilterKeepsAll(catalog, k1);
    }
    assert byCategory == Filter(catalog, k1);
    var bySearch := if st.searchQuery != "" then Filter(byCategory, MentionsQuery(Lower(st.searchQuery))) else byCategory;
    if st.searchQuery != "" {
      FilterFilter(catalog, k1, MentionsQuery(Lower(st.searchQuery)), k2);
    } else {
      FilterAgree(catalog, k1, k2);
    }
    assert bySearch == Filter(catalog, k2);
    if st.inStockOnly {
      FilterFilter(catalog, k2, IsInStock(), Keep(st));
    } else {
      FilterAgree(catalog, k2, Keep(st));
    }
  }

  /** `filteredProducts`. The filter steps run on sequences; when none runs,
      `filtered` is the catalog array itself and the sort reorders the catalog
      in place, otherwise the sort works on a fresh array and the catalog is
      left as it was. */
  method FilteredProducts(catalog: array<Product>, st: ProductsState, localeRank: string -> int)
    returns (filtered: array<Product>)
    modifies catalog
    ensures filtered[..] == Shown(old(catalog[..]), st, localeRank)
    ensures NoFilterRuns(st) ==> filtered == catalog
    ensures !NoFilterRuns(st) ==> fresh(filtered) && catalog[..] == old(catalog[..])
  {
    var s := catalog[..];
    var ran := false;
    if st.selectedCategory != All {
      s := Filter(s, InCategory(st.selectedCategory));
      ran := true;
    }
    if st.searchQuery != "" {
      var query := Lower(st.searchQuery);
      s := Filter(s, MentionsQuery(query));
      ran := true;
    }
    if st.inStockOnly {
      s := Filter(s, IsInStock());
      ran := true;
    }
    ChainIsConjunction(catalog[..], st);
    if ran {
      filtered := ToArray(s);
    } else {
      filtered := catalog;
    }
    if st.sortBy != Default {
      SortInPlace(filtered, SortKey(st.sortBy, localeRank));
    }
  }

  /** A fresh array holding `s`, as the filter steps' result array. */
  method ToArray(s: seq<Product>) returns (a: array<Product>)
    ensures fresh(a) && a[..] == s
  {
    a := new Product[|s|](i requires 0 <= i < |s| => s[i]);
  }

  /** Sorting only reorders: the list holds the filtered products, each as
      often as the filter keeps it. */
  lemma ShownPermutes(catalog: seq<Product>, st: ProductsState, localeRank: string -> int)
    ensures multiset(Shown(catalog, st, localeRank)) == multiset(Filter(catalog, Keep(st)))
  {
    if st.sortBy != Default {
      SortPermutes(Filter(catalog, Keep(st)), SortKey(st.sortBy, localeRank));
    }
  }

  /** Every product listed passes every active control. */
  lemma ShownMatch(catalog: seq<Product>, st: ProductsState, localeRank: string -> int)
    ensures forall i :: 0 <= i < |Shown(catalog, st, localeRank)| ==> Matches(st, Shown(catalog, st, localeRank)[i])
  {
    var selected := Filter(catalog, Keep(st));
    var r := Shown(catalog, st, localeRank);
    ShownPermutes(catalog, st, localeRank);
    forall i | 0 <= i < |r|
      ensures Matches(st, r[i])
    {
      assert r[i] in multiset(selected);
      var j :| 0 <= j < |selected| && selected[j] == r[i];
    }
  }

  /** Every catalog product that passes every active control is listed. */
  lemma ShownComplete(catalog: seq<Product>, st: ProductsState, localeRank: string -> int)
    ensures forall p :: p in catalog && Matches(st, p) ==> p in Shown(catalog, st, localeRank)
  {
    var selected := Filter(catalog, Keep(st));
    ShownPermutes(catalog, st, localeRank);
    forall p | p in catalog && Matches(st, p)
      ensures p in Shown(catalog, st, localeRank)
    {
      FilterSelects(catalog, Keep(st), p);
      assert p in multiset(selected);
    }
  }

  /** What the list holds: exactly the catalog products that pass every active
      control, each as often as in the catalog, whatever the price range. */
  lemma ShownIsSelection(catalog: seq<Product>, st: ProductsState, localeRank: string -> int, range: PriceRange)
    ensures multiset(Shown(catalog, st, localeRank)) == multiset(Filter(catalog, Keep(st)))
    ensures forall i :: 0 <= i < |Shown(catalog, st, localeRank)| ==> Matches(st, Shown(catalog, st, localeRank)[i])
    ensures forall p :: p in catalog && Matches(st, p) ==> p in Shown(catalog, st, localeRank)
    ensures Shown(catalog, st.(priceRange := range), localeRank) == Shown(catalog, st, localeRank)
  {
    ShownPermutes(catalog, st, localeRank);
    ShownMatch(catalog, st, localeRank);
    ShownComplete(catalog, st, localeRank);
    FilterAgree(catalog, Keep(st.(priceRange := range)), Keep(st));
  }

  /** Every element of `s` that passes the test is kept. */
  lemma {:induction false} FilterSelects<T>(s: seq<T>, keep: T -> bool, x: T)
    requires x in s && keep(x)
    ensures x in Filter(s, keep)
  {
    if s[0] != x {
      FilterSelects(s[1..], keep, x);
    }
  }

  /** Each of the three controls, when on, holds for every product listed; when
      off it removes nothing. */
  lemma ControlsSound(catalog: seq<Product>, st: ProductsState, localeRank: string -> int)
    ensures forall p :: p in Shown(catalog, st, localeRank) && st.selectedCategory != All ==> p.category == st.selectedCategory
    ensures forall p :: p in Shown(catalog, st, localeRank) && st.searchQuery != "" ==>
      Includes(Lower(p.name), Lower(st.searchQuery)) || Includes(Lower(p.description), Lower(st.searchQuery))
    ensures forall p :: p in Shown(catalog, st, localeRank) && st.inStockOnly ==> p.inStock
    ensures NoFilterRuns(st) ==> multiset(Shown(catalog, st, localeRank)) == multiset(catalog)
  {
    ShownIsSelection(catalog, st, localeRank, st.priceRange);
    if NoFilterRuns(st) {
      FilterKeepsAll(catalog, Keep(st));
    }
  }

  /** The order of the list: catalog order under "default"; non-decreasing
      price, non-increasing price, non-increasing collation rank of the id or
      non-increasing rating (missing counted as 0) under the other options;
      and products that tie on the key keep their catalog order. */
  lemma ShownOrder(catalog: seq<Product>, st: ProductsState, localeRank: string -> int)
    ensures var r := Shown(catalog, st, localeRank);
      (st.sortBy == Default ==> r == Filter(catalog, Keep(st)))
      && (st.sortBy == PriceAsc ==> forall i, j :: 0 <= i < j < |r| ==> r[i].price <= r[j].price)
      && (st.sortBy == PriceDesc ==> forall i, j :: 0 <= i < j < |r| ==> r[i].price >= r[j].price)
      && (st.sortBy == Newest ==> forall i, j :: 0 <= i < j < |r| ==> localeRank(r[i].id) >= localeRank(r[j].id))
      && (st.sortBy == Rating ==> forall i, j :: 0 <= i < j < |r| ==> RatingOrZero(r[i]) >= RatingOrZero(r[j]))
    ensures forall v :: Filter(Shown(catalog, st, localeRank), KeyIs(SortKey(st.sortBy, localeRank), v))
                     == Filter(Filter(catalog, Keep(st)), KeyIs(SortKey(st.sortBy, localeRank), v))
  {
    var selected := Filter(catalog, Keep(st));
    var key := SortKey(st.sortBy, localeRank);
    if st.sortBy != Default {
      SortSorts(selected, key);
      forall v
        ensures Filter(InsertionSort(selected, key), KeyIs(key, v)) == Filter(selected, KeyIs(key, v))
      {
        SortStable(selected, key, v);
      }
    }
  }

  // ---------------------------------------------------------------------------
  // Paging.

  /** `Math.ceil(totalProducts / itemsPerPage)`: the fewest pages of
      `perPage` that hold `n` products. */
  function TotalPages(n: nat, perPage: int): (r: nat)
    requires perPage > 0
    ensures n <= r * perPage
    ensures n == 0 ==> r == 0
    ensures n > 0 ==> (r - 1) * perPage < n
  {
    var r := (n + perPage - 1) / perPage;
    assert r * perPage + (n + perPage - 1) % perPage == n + perPage - 1;
    r
  }

  /** `filteredProducts.slice(startIndex, startIndex + itemsPerPage)` with
      `startIndex = (currentPage - 1) * itemsPerPage`. */
  function PageOf<T>(s: seq<T>, page: int, perPage: int): seq<T> {
    Slice(s, PageStart(page, perPage), PageStart(page, perPage) + perPage)
  }

  /** `startIndex`: how many products the pages before `page` hold. */
  function PageStart(page: int, perPage: int): (r: int)
    ensures page >= 1 && perPage >= 0 ==> r >= 0
  {
    assert page >= 1 && perPage >= 0 ==> (page - 1) * perPage >= 0 by {
      if page >= 1 && perPage >= 0 {
        NonNegativeProduct(page - 1, perPage);
      }
    }
    (page - 1) * perPage
  }

  /** A page from 1 up is the run of at most `perPage` products that starts at
      `(page - 1) * perPage`, cut off at the end of the list. */
  lemma PageBounds<T>(s: seq<T>, page: int, perPage: int)
    requires page >= 1 && perPage > 0
    ensures var start := Min(PageStart(page, perPage), |s|);
      PageOf(s, page, perPage) == s[start..Min(start + perPage, |s|)]
      && |PageOf(s, page, perPage)| <= perPage
  {
  }

  /** Each page starts `perPage` after the one before; page 1 at 0. */
  lemma PageStartStep(page: int, perPage: int)
    ensures PageStart(page + 1, perPage) == PageStart(page, perPage) + perPage
    ensures PageStart(page + 1, perPage) == page * perPage
    ensures PageStart(1, perPage) == 0
  {
  }

  lemma NonNegativeProduct(a: int, b: int)
    requires a >= 0 && b >= 0
    ensures a * b >= 0
  {
  }

  /** Pages 1 to `m`, one after the other. */
  function Pages<T>(s: seq<T>, perPage: int, m: nat): seq<T> {
    if m == 0 then [] else Pages(s, perPage, m - 1) + PageOf(s, m, perPage)
  }

  lemma {:induction false} PagesPrefix<T>(s: seq<T>, perPage: int, m: nat)
    requires perPage > 0
    ensures Pages(s, perPage, m) == s[..Min(PageStart(m + 1, perPage), |s|)]
  {
    if m > 0 {
      PagesPrefix(s, perPage, m - 1);
      PageBounds(s, m, perPage);
      var a, b := Min(PageStart(m, perPage), |s|), Min(PageStart(m + 1, perPage), |s|);
      PageStartStep(m, perPage);
      assert s[..a] + s[a..b] == s[..b];
    }
  }

  /** Reading pages 1 to `totalPages` in turn shows the whole list once, in
      order. */
  lemma PagesReassemble<T>(s: seq<T>, perPage: int)
    requires perPage > 0
    ensures Pages(s, perPage, TotalPages(|s|, perPage)) == s
  {
    var t := TotalPages(|s|, perPage);
    PagesPrefix(s, perPage, t);
    PageStartStep(t, perPage);
    assert s[..|s|] == s;
  }

  /** `hasMore`. */
  function HasMore(currentPage: int, totalPages: int): bool {
    currentPage < totalPages
  }

  /** There is a next page exactly when the products before it do not already
      include all of them, and then that page is not empty. */
  lemma HasMoreIff(n: nat, perPage: int, currentPage: nat)
    requires perPage > 0
    ensures HasMore(currentPage, TotalPages(n, perPage)) <==> currentPage * perPage < n
  {
    var t := TotalPages(n, perPage);
    if currentPage < t {
      assert currentPage <= t - 1;
      MonotoneProduct(currentPage, t - 1, perPage);
    } else {
      MonotoneProduct(t, currentPage, perPage);
    }
  }

  lemma MonotoneProduct(a: int, b: int, k: int)
    requires 0 <= a <= b && k > 0
    ensures a * k <= b * k
  {
  }

  // ---------------------------------------------------------------------------
  // Infinite scrolling.

  function IdsOf(ps: seq<Product>): set<string> {
    set i | 0 <= i < |ps| :: ps[i].id
  }

  function NotIn(ids: set<string>): Product -> bool {
    (p: Product) => p.id !in ids
  }

  /** `[...prev, ...paginatedProducts.filter(p => !existingIds.has(p.id))]`. */
  function AppendNew(prev: seq<Product>, page: seq<Product>): seq<Product> {
    prev + Filter(page, NotIn(IdsOf(prev)))
  }

  predicate DistinctIds(ps: seq<Product>) {
    forall i, j :: 0 <= i < j < |ps| ==> ps[i].id != ps[j].id
  }

  lemma {:induction false} FilterDistinct(s: seq<Product>, keep: Product -> bool)
    requires DistinctIds(s)
    ensures DistinctIds(Filter(s, keep))
  {
    if s != [] {
      FilterDistinct(s[1..], keep);
      var rest := Filter(s[1..], keep);
      forall x | x in rest
        ensures x.id != s[0].id
      {
        FilterFrom(s[1..], keep, x);
      }
    }
  }

  /** Appending a later page keeps what was there as a prefix, adds only
      products of that page whose id was not yet listed, drops none of those
      (so every id of the page is then listed), and never introduces a
      repeated id. */
  lemma AppendNewProperties(prev: seq<Product>, page: seq<Product>)
    requires DistinctIds(prev) && DistinctIds(page)
    ensures var r := AppendNew(prev, page);
      prev <= r
      && DistinctIds(r)
      && (forall i :: |prev| <= i < |r| ==> r[i] in page && r[i].id !in IdsOf(prev))
      && IdsOf(r) == IdsOf(prev) + IdsOf(page)
  {
    var added := Filter(page, NotIn(IdsOf(prev)));
    var r := prev + added;
    FilterDistinct(page, NotIn(IdsOf(prev)));
    forall i | |prev| <= i < |r|
      ensures r[i] in page && r[i].id !in IdsOf(prev)
    {
      assert r[i] == added[i - |prev|];
      FilterFrom(page, NotIn(IdsOf(prev)), r[i]);
    }
    forall i, j | 0 <= i < j < |r|
      ensures r[i].id != r[j].id
    {
      if j >= |prev| && i < |prev| {
        assert r[j].id !in IdsOf(prev);
        assert r[i].id in IdsOf(prev);
      } else if i >= |prev| {
        assert r[i] == added[i - |prev|] && r[j] == added[j - |prev|];
      }
    }
    forall id | id in IdsOf(page)
      ensures id in IdsOf(r)
    {
      var k :| 0 <= k < |page| && page[k].id == id;
      if id !in IdsOf(prev) {
        FilterSelects(page, NotIn(IdsOf(prev)), page[k]);
        var m :| 0 <= m < |added| && added[m] == page[k];
        assert r[|prev| + m] == page[k];
      } else {
        var m :| 0 <= m < |prev| && prev[m].id == id;
        assert r[m] == prev[m];
      }
    }
    forall id | id in IdsOf(r)
      ensures id in IdsOf(prev) + IdsOf(page)
    {
      var k :| 0 <= k < |r| && r[k].id == id;
      if k < |prev| {
        assert prev[k] == r[k];
      } else {
        var m :| 0 <= m < |page| && page[m] == r[k];
      }
    }
  }

  /** The component's accumulated list (`accumulatedProducts`). */
  class CatalogView {
    var accumulated: seq<Product>

    /** `useState<Product[]>([])`. */
    constructor ()
      ensures accumulated == []
    {
      accumulated := [];
    }

    /** The accumulation effect: nothing in paged mode; in infinite mode page 1
        replaces the list and later pages append their new products. */
    method Accumulate(viewMode: ViewMode, currentPage: int, page: seq<Product>)
      modifies this
      ensures viewMode == Pagination ==> accumulated == old(accumulated)
      ensures viewMode == Infinite && currentPage == 1 ==> accumulated == page
      ensures viewMode == Infinite && currentPage != 1 ==> accumulated == AppendNew(old(accumulated), page)
    {
      if viewMode == Infinite {
        if currentPage == 1 {
          accumulated := page;
        } else {
          var existingIds := IdsOf(accumulated);
          accumulated := accumulated + Filter(page, NotIn(existingIds));
        }
      }
    }

    /** `displayProducts`: the accumulated list in infinite mode; otherwise
        `paginatedProducts`, the current page of the filtered and sorted
        catalog, which holds at most `itemsPerPage` catalog products, each
        passing every active control. */
    function Display(catalog: seq<Product>, st: ProductsState, localeRank: string -> int): (r: seq<Product>)
      reads this
      ensures st.viewMode == Infinite ==> r == accumulated
      ensures st.viewMode == Pagination ==> r == PageOf(Shown(catalog, st, localeRank), st.currentPage, st.itemsPerPage)
      ensures st.viewMode == Pagination && st.currentPage >= 1 && st.itemsPerPage > 0 ==>
        |r| <= st.itemsPerPage && forall i :: 0 <= i < |r| ==> r[i] in catalog && Matches(st, r[i])
    {
      if st.viewMode == Infinite then accumulated
      else
        var paginated := PageOf(Shown(catalog, st, localeRank), st.currentPage, st.itemsPerPage);
        if st.currentPage >= 1 && st.itemsPerPage > 0 then
          PageSelects(catalog, st, localeRank);
          paginated
        else paginated
    }

    /** In infinite mode, once the effect has run for pages 1 to `m` of a
        catalog whose ids are distinct (so `accumulated` is `Scrolled` of the
        filtered list, as `Accumulate`'s contract builds it step by step), the
        page shows exactly pages 1 to `m` of the filtered and sorted catalog. */
    lemma ScrolledDisplay(catalog: seq<Product>, st: ProductsState, localeRank: string -> int, m: nat)
      requires st.viewMode == Infinite && st.itemsPerPage > 0 && DistinctIds(catalog) && m >= 1
      requires accumulated == Scrolled(Shown(catalog, st, localeRank), st.itemsPerPage, m)
      ensures Display(catalog, st, localeRank) == Pages(Shown(catalog, st, localeRank), st.itemsPerPage, m)
      ensures Display(catalog, st, localeRank) == Shown(catalog, st, localeRank)[..Min(m * st.itemsPerPage, |Shown(catalog, st, localeRank)|)]
    {
      var shown := Shown(catalog, st, localeRank);
      ShownDistinct(catalog, st, localeRank);
      ScrollShowsPages(shown, st.itemsPerPage, m);
      PagesPrefix(shown, st.itemsPerPage, m);
      PageStartStep(m, st.itemsPerPage);
    }
  }

  /** Every product on a page (from page 1, with a positive page size) is a
      catalog product that passes every active control, and there are at most
      `itemsPerPage` of them. */
  lemma PageSelects(catalog: seq<Product>, st: ProductsState, localeRank: string -> int)
    requires st.currentPage >= 1 && st.itemsPerPage > 0
    ensures var r := PageOf(Shown(catalog, st, localeRank), st.currentPage, st.itemsPerPage);
      |r| <= st.itemsPerPage && forall i :: 0 <= i < |r| ==> r[i] in catalog && Matches(st, r[i])
  {
    var shown := Shown(catalog, st, localeRank);
    var r := PageOf(shown, st.currentPage, st.itemsPerPage);
    PageBounds(shown, st.currentPage, st.itemsPerPage);
    ShownMatch(catalog, st, localeRank);
    ShownPermutes(catalog, st, localeRank);
    var start := Min(PageStart(st.currentPage, st.itemsPerPage), |shown|);
    forall i | 0 <= i < |r|
      ensures r[i] in catalog && Matches(st, r[i])
    {
      assert r[i] == shown[start + i];
      assert r[i] in multiset(Filter(catalog, Keep(st)));
      FilterFrom(catalog, Keep(st), r[i]);
    }
  }

  /** The filtered and sorted list of a catalog with distinct ids has distinct
      ids. */
  lemma ShownDistinct(catalog: seq<Product>, st: ProductsState, localeRank: string -> int)
    requires DistinctIds(catalog)
    ensures DistinctIds(Shown(catalog, st, localeRank))
  {
    FilterDistinct(catalog, Keep(st));
    ShownPermutes(catalog, st, localeRank);
    PermutationKeepsDistinct(Filter(catalog, Keep(st)), Shown(catalog, st, localeRank));
  }

  /** Reordering a list keeps its ids distinct. */
  lemma {:induction false} PermutationKeepsDistinct(a: seq<Product>, b: seq<Product>)
    requires DistinctIds(a) && multiset(a) == multiset(b)
    ensures DistinctIds(b)
    decreases |b|
  {
    if b != [] {
      assert b[0] in multiset(a);
      var k :| 0 <= k < |a| && a[k] == b[0];
      var rest := a[..k] + a[k + 1..];
      RemoveAt(a, k, b);
      PermutationKeepsDistinct(rest, b[1..]);
      forall j | 1 <= j < |b|
        ensures b[0].id != b[j].id
      {
        assert b[j] in multiset(b[1..]);
      }
    }
  }

  /** Taking out the element at `k`, which `b` starts with, leaves a list
      with distinct ids none of which is that element's, holding what follows
      in `b`. */
  lemma RemoveAt(a: seq<Product>, k: nat, b: seq<Product>)
    requires DistinctIds(a) && multiset(a) == multiset(b) && k < |a| && b != [] && a[k] == b[0]
    ensures var rest := a[..k] + a[k + 1..];
      DistinctIds(rest) && multiset(rest) == multiset(b[1..])
      && forall p :: p in multiset(rest) ==> p.id != a[k].id
  {
    var rest := a[..k] + a[k + 1..];
    RemoveAtMultiset(a, k, b);
    forall i, j | 0 <= i < j < |rest|
      ensures rest[i].id != rest[j].id
    {
      var i' := if i < k then i else i + 1;
      var j' := if j < k then j else j + 1;
      assert rest[i] == a[i'] && rest[j] == a[j'];
    }
    forall p | p in multiset(rest)
      ensures p.id != a[k].id
    {
      var m :| 0 <= m < |rest| && rest[m] == p;
      var m' := if m < k then m else m + 1;
      assert a[m'] == p;
    }
  }

  /** Taking the same element out of two permutations of each other leaves
      permutations of each other. */
  lemma RemoveAtMultiset<T>(a: seq<T>, k: nat, b: seq<T>)
    requires multiset(a) == multiset(b) && k < |a| && b != [] && a[k] == b[0]
    ensures multiset(a[..k] + a[k + 1..]) == multiset(b[1..])
  {
    assert a == a[..k] + [a[k]] + a[k + 1..];
    assert b == [b[0]] + b[1..];
    calc {
      multiset(a[..k] + a[k + 1..]);
      multiset(a[..k]) + multiset(a[k + 1..]);
      multiset(a) - multiset{a[k]};
      multiset(b) - multiset{b[0]};
      multiset(b[1..]);
    }
  }

  /** Scrolling through pages 1, 2, ... of a list with distinct ids in infinite
      mode shows, after page `m`, exactly pages 1 to `m` one after the other:
      nothing is dropped or repeated. */
  lemma ScrollShowsPages(s: seq<Product>, perPage: int, m: nat)
    requires perPage > 0 && DistinctIds(s) && m >= 1
    ensures Scrolled(s, perPage, m) == Pages(s, perPage, m)
  {
    ScrolledPrefix(s, perPage, m);
    PagesPrefix(s, perPage, m);
  }

  /** After page `m` the accumulated list is the first `m` pages' worth of
      products. */
  lemma {:induction false} ScrolledPrefix(s: seq<Product>, perPage: int, m: nat)
    requires perPage > 0 && DistinctIds(s) && m >= 1
    ensures Scrolled(s, perPage, m) == s[..Min(PageStart(m + 1, perPage), |s|)]
  {
    if m == 1 {
      PageStartStep(1, perPage);
      PageBounds(s, 1, perPage);
    } else {
      ScrolledPrefix(s, perPage, m - 1);
      ScrolledStep(s, perPage, m);
    }
  }

  /** One step of the effect: the next page is appended whole. */
  lemma ScrolledStep(s: seq<Product>, perPage: int, m: nat)
    requires perPage > 0 && DistinctIds(s) && m >= 2
    requires Scrolled(s, perPage, m - 1) == s[..Min(PageStart(m, perPage), |s|)]
    ensures Scrolled(s, perPage, m) == s[..Min(PageStart(m + 1, perPage), |s|)]
  {
    var a := Min(PageStart(m, perPage), |s|);
    var b := Min(PageStart(m + 1, perPage), |s|);
    var page := PageOf(s, m, perPage);
    assert page == s[a..b] by {
      PageStartStep(m, perPage);
      PageBounds(s, m, perPage);
    }
    assert Scrolled(s, perPage, m) == AppendNew(s[..a], s[a..b]);
    assert AppendNew(s[..a], s[a..b]) == s[..a] + s[a..b] by {
      LaterRunIsNew(s, a, b);
    }
    assert s[..a] + s[a..b] == s[..b];
  }

  /** In a list with distinct ids, no product of a later run has an id that
      appears before the run. */
  lemma LaterRunIsNew(s: seq<Product>, a: nat, b: nat)
    requires DistinctIds(s) && a <= b <= |s|
    ensures Filter(s[a..b], NotIn(IdsOf(s[..a]))) == s[a..b]
  {
    var run, before := s[a..b], s[..a];
    FilterKeepsAll(run, NotIn(IdsOf(before)));
  }

  /** The accumulated list after the effect has run for pages 1 to `m` in
      turn, in infinite mode. */
  function Scrolled(s: seq<Product>, perPage: int, m: nat): seq<Product>
    requires m >= 1
  {
    if m == 1 then PageOf(s, 1, perPage) else AppendNew(Scrolled(s, perPage, m - 1), PageOf(s, m, perPage))
  }
}
