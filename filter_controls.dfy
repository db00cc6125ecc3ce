/** The filter bar above the catalog (components/products/FilterControls.tsx):
    the sort menu's table and the "active filters" test that shows the reset
    button and the badge. */
module FilterControls {
  import opened Types
  import opened JsString
  import opened ProductSlice
  import ProductCatalog

  /** One entry of the sort menu. */
  datatype SortEntry = SortEntry(value: SortOption, title: string)

  /** `sortOptions`. */
  const SortOptions: seq<SortEntry> := [
    SortEntry(Default, "Default"),
    SortEntry(PriceAsc, "Price: Low to High"),
    SortEntry(PriceDesc, "Price: High to Low"),
    SortEntry(Newest, "Newest First"),
    SortEntry(Rating, "Top Rated")
  ]

  /** The upper end of the price slider. */
  const SliderMax := 500000

  /** `hasActiveFilters`: a sort other than "default", a price range narrower
      than the slider's `0..500000`, the in-stock box, or a search that is not
      blank after `trim`. */
  predicate HasActiveFilters(st: ProductsState) {
    st.sortBy != Default
    || st.priceRange.min > 0
    || st.priceRange.max < SliderMax
    || st.inStockOnly
    || Trim(st.searchQuery) != ""
  }

  /** No filter counts as active exactly when the sort is "default", the range
      covers `0..500000`, the in-stock box is clear and the search consists of
      whitespace only (or nothing). */
  lemma InactiveIff(st: ProductsState)
    ensures !HasActiveFilters(st) <==>
      st.sortBy == Default && st.priceRange.min <= 0 && st.priceRange.max >= SliderMax
      && !st.inStockOnly && AllWhitespace(st.searchQuery)
  {
    TrimEmptyIff(st.searchQuery);
  }

  /** The category, the view mode and the paging fields are never consulted. */
  lemma IgnoresCategoryAndView(st: ProductsState, category: CategoryId, mode: ViewMode, page: int, perPage: int)
    ensures HasActiveFilters(st.(selectedCategory := category, viewMode := mode, currentPage := page, itemsPerPage := perPage))
         == HasActiveFilters(st)
  {
  }

  /** The store's initial state, which `resetFilters` restores, already counts
      as filtered: its price maximum of 10000 is below the slider's 500000, so
      the reset button stays visible right after a reset. */
  lemma InitialStateIsActive()
    ensures HasActiveFilters(InitialState)
    ensures InitialState.priceRange.max < SliderMax
  {
  }

  /** A query of blanks (say a single space) is not an active filter here, yet
      the catalog, which only tests the query for emptiness, runs its search
      step with it. */
  lemma BlankQueryStillSearches(st: ProductsState)
    requires st.searchQuery != "" && AllWhitespace(st.searchQuery)
    requires st.sortBy == Default && st.priceRange == PriceRange(0, SliderMax) && !st.inStockOnly
    ensures !HasActiveFilters(st)
    ensures !ProductCatalog.NoFilterRuns(st)
  {
    InactiveIff(st);
  }

  /** The menu has an entry for sort option `o`. */
  predicate Listed(o: SortOption) {
    exists i :: 0 <= i < |SortOptions| && SortOptions[i].value == o
  }

  /** The sort menu lists the five options once each, in the order default,
      price low to high, price high to low, newest, rating. */
  lemma SortOptionsTable()
    ensures |SortOptions| == 5
    ensures SortOptions[0].value == Default && SortOptions[1].value == PriceAsc
         && SortOptions[2].value == PriceDesc && SortOptions[3].value == Newest
         && SortOptions[4].value == Rating
    ensures forall o: SortOption :: Listed(o)
    ensures forall i, j :: 0 <= i < j < |SortOptions| ==> SortOptions[i].value != SortOptions[j].value
  {
    forall o: SortOption
      ensures Listed(o)
    {
      match o
      case Default => assert SortOptions[0].value == o;
      case PriceAsc => assert SortOptions[1].value == o;
      case PriceDesc => assert SortOptions[2].value == o;
      case Newest => assert SortOptions[3].value == o;
      case Rating => assert SortOptions[4].value == o;
    }
  }
}
