/** The catalog's filter, sort and paging state (store/productSlice.ts): a
    record whose reducers assign its fields in place. */
module ProductSlice {
  import opened Types

  datatype SortOption = Default | PriceAsc | PriceDesc | Newest | Rating

  datatype ViewMode = Pagination | Infinite

  datatype PriceRange = PriceRange(min: int, max: int)

  /** A snapshot of the slice, as `useAppSelector(state => state.products)`
      returns it. */
  datatype ProductsState = ProductsState(
    selectedCategory: CategoryId,
    sortBy: SortOption,
    priceRange: PriceRange,
    inStockOnly: bool,
    searchQuery: string,
    viewMode: ViewMode,
    currentPage: int,
    itemsPerPage: int)

  /** `initialState`. */
  const InitialState := ProductsState(All, Default, PriceRange(0, 10000), false, "", Pagination, 1, 12)

  class ProductsStore {
    var selectedCategory: CategoryId
    var sortBy: SortOption
    var priceRange: PriceRange
    var inStockOnly: bool
    var searchQuery: string
    var viewMode: ViewMode
    var currentPage: int
    var itemsPerPage: int

    function Snapshot(): ProductsState
      reads this
    {
      ProductsState(selectedCategory, sortBy, priceRange, inStockOnly, searchQuery,
                    viewMode, currentPage, itemsPerPage)
    }

    /** The store starts from `initialState`: category "all", sort "default",
        price 0..10000, not in-stock-only, empty search, paged view, page 1,
        12 per page. */
    constructor ()
      ensures Snapshot() == InitialState
      ensures selectedCategory == All && sortBy == Default && priceRange == PriceRange(0, 10000)
      ensures !inStockOnly && searchQuery == "" && viewMode == Pagination
      ensures currentPage == 1 && itemsPerPage == 12
    {
      selectedCategory := All;
      sortBy := Default;
      priceRange := PriceRange(0, 10000);
      inStockOnly := false;
      searchQuery := "";
      viewMode := Pagination;
      currentPage := 1;
      itemsPerPage := 12;
    }

    /** `setCategory`: sets the category and goes back to page 1. */
    method SetCategory(category: CategoryId)
      modifies this
      ensures Snapshot() == old(Snapshot()).(selectedCategory := category, currentPage := 1)
    {
      selectedCategory := category;
      currentPage := 1;
    }

    /** `setSortBy`: sets the sort and goes back to page 1. */
    method SetSortBy(sort: SortOption)
      modifies this
      ensures Snapshot() == old(Snapshot()).(sortBy := sort, currentPage := 1)
    {
      sortBy := sort;
      currentPage := 1;
    }

    /** `setPriceRange`: stores the range as given (min <= max is not checked)
        and goes back to page 1. */
    method SetPriceRange(range: PriceRange)
      modifies this
      ensures Snapshot() == old(Snapshot()).(priceRange := range, currentPage := 1)
    {
      priceRange := range;
      currentPage := 1;
    }

    /** `setInStockOnly`: sets the flag and goes back to page 1. */
    method SetInStockOnly(only: bool)
      modifies this
      ensures Snapshot() == old(Snapshot()).(inStockOnly := only, currentPage := 1)
    {
      inStockOnly := only;
      currentPage := 1;
    }

    /** `setSearchQuery`: sets the query and goes back to page 1. */
    method SetSearchQuery(query: string)
      modifies this
      ensures Snapshot() == old(Snapshot()).(searchQuery := query, currentPage := 1)
    {
      searchQuery := query;
      currentPage := 1;
    }

    /** `setViewMode`: the page is kept. */
    method SetViewMode(mode: ViewMode)
      modifies this
      ensures Snapshot() == old(Snapshot()).(viewMode := mode)
    {
      viewMode := mode;
    }

    /** `setCurrentPage`: stores the page as given, with no bounds check. */
    method SetCurrentPage(page: int)
      modifies this
      ensures Snapshot() == old(Snapshot()).(currentPage := page)
    {
      currentPage := page;
    }

    /** `setItemsPerPage`: the page is kept. */
    method SetItemsPerPage(count: int)
      modifies this
      ensures Snapshot() == old(Snapshot()).(itemsPerPage := count)
    {
      itemsPerPage := count;
    }

    /** `resetFilters`: every field, view mode and page size included, goes back
        to `initialState`, whatever the state was before; so a second reset
        changes nothing. */
    method ResetFilters()
      modifies this
      ensures Snapshot() == InitialState
    {
      selectedCategory := All;
      sortBy := Default;
      priceRange := PriceRange(0, 10000);
      inStockOnly := false;
      searchQuery := "";
      viewMode := Pagination;
      currentPage := 1;
      itemsPerPage := 12;
    }
  }
}
