# homify-furniture storefront: a verified model of its client-side state

This project models, in Dafny, the logic of the homify-furniture storefront that runs in the browser:

- the two shopping carts: the Redux `cart` slice with its `useCart` hook, and the React-context `CartProvider`;
- the catalog's filter state (`products` slice);
- the catalog page's filter, sort, paging and infinite-scroll pipeline;
- the page-number bar and the filter bar's "active filters" test;
- the custom-order form's validation and its file list;
- the image upload widget's file validation and its `files`/`previews` lists;
- the WhatsApp button's phone-number stripping.

Each source file maps to one module:

| module | file |
|---|---|
| `Types` | `types/product.ts` (record shapes), plus the browser `File` fields consulted |
| `JsString`, `JsArray` | the JavaScript string and array operations the components rely on (`trim`, `toLowerCase`, `includes`, `startsWith`, `filter`, `slice`, `splice`) |
| `CartLines`, `CartTotals` | line rules and `reduce` totals shared by both carts |
| `CartSlice` | `store/cartSlice.ts` |
| `CartHooks` | `store/hooks.ts` |
| `CartContext` | `contexts/CartContext.tsx` |
| `ProductSlice` | `store/productSlice.ts` |
| `StableSort` | the stable in-place sort behind `filtered.sort(...)` |
| `ProductCatalog` | `components/products/ProductCatalog.tsx` |
| `PaginationControls` | `components/products/PaginationControls.tsx` |
| `FilterControls` | `components/products/FilterControls.tsx` |
| `CustomOrders` | `app/customorders/page.tsx` |
| `Upload` | `components/UploadWithAPI.tsx` |
| `WhatsApp` | `components/common/WhatsAppButton.tsx` |

State that the source changes in place is modelled as classes with `modifies` clauses:

- the Redux reducers (`CartSlice.CartState`, `ProductSlice.ProductsStore`);
- the `useState` holders (`CartContext.CartProvider`, `ProductCatalog.CatalogView`, `CustomOrders.CustomOrderForm`, `Upload.UploadWidget`);
- the in-place `sort` (`StableSort.SortInPlace` on an `array`).

Each such method is specified against a pure function, and the properties are proved about that function. The `setItems` updaters, the filter chain, `validateEmail` and the digit stripping are pure functions.

Where commented-out code or the code's own shape shows an intent the running code does not carry out, the model follows the running code:

- The price-range filter is commented out (`ProductCatalog.tsx:51-54`), so the catalog ignores the price range (`ProductCatalog.ShownIsSelection`).
- The Redux `addItem` does not open the cart panel; its line is commented out (`cartSlice.ts:51`). Only the context cart opens the panel on add.
- The stock cap is `stockCount || 10`, so a stock count of 0 also caps at 10. A product added for the first time gets the requested quantity unclamped.
- Infinite scrolling replaces the list on page 1 and de-duplicates only the later pages.
- The e-mail pattern is matched against the untrimmed text (`CustomOrders.UntrimmedEmail`).

## Model

| member | source | states |
|---|---|---|
| CartLines.IndexOf | homify-furniture/src/store/cartSlice.ts:30-32 | the index found holds the first line with that product id; no index means no line has it |
| CartLines.StockCap | homify-furniture/src/store/cartSlice.ts:36 | defines the cap `stockCount || 10`: a missing or zero stock count caps at 10 (used by `CartLines.Clamped` and `CartSlice.AddedLines`) |
| CartLines.Requested | homify-furniture/src/store/cartSlice.ts:23 | defines the default `quantity = 1` of `addItem`'s payload (used by `CartSlice.CartState.AddItem`) |
| CartLines.AddNotice | homify-furniture/src/store/cartSlice.ts:25-48 | defines which toast `addItem` raises: out of stock, the cap warning with the cap, quantity updated, or added; the context cart raises the same ones (CartContext.tsx:30-59), and `CartSlice.AddedLines` and `CartContext.AddedItemsAgree` tie it to the lines |
| CartLines.Clamped | homify-furniture/src/store/cartSlice.ts:35-44 | the new quantity of an existing line is old + q when that is within the cap, else the cap; it never exceeds the cap |
| CartLines.WithoutId | homify-furniture/src/store/cartSlice.ts:54-58 | after `removeItem` no line has the product id and the list did not grow |
| CartLines.WithoutAbsentId | homify-furniture/src/store/cartSlice.ts:54-58 | removing an id that has no line leaves the lines unchanged |
| CartLines.WithoutIdAt | homify-furniture/src/store/cartSlice.ts:54-58 | with unique ids, removing the id of line k deletes exactly that line and keeps the others in order |
| CartLines.WithoutIdUnique | homify-furniture/src/store/cartSlice.ts:54-58 | `removeItem` keeps at most one line per product id |
| CartLines.SetQuantityUnique | homify-furniture/src/store/cartSlice.ts:74-77 | changing one line's quantity keeps at most one line per product id |
| CartLines.AppendUnique | homify-furniture/src/store/cartSlice.ts:46-48 | appending a line for a product not yet in the cart keeps ids unique |
| CartTotals.SumQuantitiesFrom | homify-furniture/src/store/hooks.ts:25-28 | the quantity reduce from a start value is that value plus the item count |
| CartTotals.SumAmountsFrom | homify-furniture/src/store/hooks.ts:29-33 | the amount reduce from a start value is that value plus the total |
| CartTotals.ItemCountConcat | homify-furniture/src/store/hooks.ts:25-28 | the item count of two line lists joined is the sum of their item counts |
| CartTotals.TotalConcat | homify-furniture/src/store/hooks.ts:29-33 | the total of two line lists joined is the sum of their totals |
| CartTotals.ItemCount | homify-furniture/src/store/hooks.ts:25-28 | defines `itemCount` as the quantity reduce from 0; `CartTotals.SumQuantitiesFrom` and `CartTotals.ItemCountConcat` prove it adds up per line |
| CartTotals.Total | homify-furniture/src/store/hooks.ts:29-33 | defines `total` as the price-times-quantity reduce from 0; `CartTotals.SumAmountsFrom` and `CartTotals.TotalConcat` prove it adds up per line |
| CartTotals.SingleLine | homify-furniture/src/store/hooks.ts:25-33 | one line counts its quantity and its price times quantity |
| CartTotals.AppendLine | homify-furniture/src/contexts/CartContext.tsx:26-27 | appending a line adds exactly its quantity to `itemCount` and price × quantity to `total`; both are 0 for an empty cart |
| CartTotals.SetQuantityTotals | homify-furniture/src/store/hooks.ts:25-33 | changing one line's quantity moves the count by the change and the total by price × change |
| CartTotals.RemoveTotals | homify-furniture/src/contexts/CartContext.tsx:26-27 | removing a product's line takes exactly its quantity and amount off the totals; an absent id changes neither |
| CartSlice.Added | homify-furniture/src/store/cartSlice.ts:30-49 | defines the lines after an in-stock `addItem`: the first line with the id is clamped, a new product is appended; `CartSlice.AddedLines` and `CartSlice.AddedTotals` state what that means |
| CartSlice.AddedLines | homify-furniture/src/store/cartSlice.ts:30-49 | an existing line gets min(old + q, cap) with cap = `stockCount \|\| 10`, all other lines unchanged; a new product is appended with quantity q unclamped; ids stay unique |
| CartSlice.AddedTotals | homify-furniture/src/store/cartSlice.ts:34-48 | `addItem` moves the item count by exactly the change in the product's quantity and the total by its price times that change |
| CartSlice.Updated | homify-furniture/src/store/cartSlice.ts:61-78 | defines the lines after `updateQuantity`: below 1 the id is filtered out, otherwise its first line gets the quantity; `CartSlice.UpdatedLines` states what that means |
| CartSlice.UpdatedLines | homify-furniture/src/store/cartSlice.ts:61-78 | below 1 the product's line is removed and nothing else changes; from 1 up the line gets exactly q with no cap; an unknown id changes nothing; ids stay unique |
| CartSlice.ClampScenario | homify-furniture/src/store/cartSlice.ts:35-41 | a product with stock 2 added three times ends at quantity 2 with the "Only 2 items available" warning |
| CartSlice.CartState.constructor | homify-furniture/src/store/cartSlice.ts:10-13 | the cart starts with no lines and the panel closed |
| CartSlice.CartState.AddItem | homify-furniture/src/store/cartSlice.ts:19-52 | out of stock changes nothing; otherwise the lines become `Added`; `isOpen` never changes; ids stay unique |
| CartSlice.CartState.RemoveItem | homify-furniture/src/store/cartSlice.ts:54-59 | the lines become those without the id, in order; `isOpen` is kept |
| CartSlice.CartState.UpdateQuantity | homify-furniture/src/store/cartSlice.ts:61-78 | the lines become `Updated`; `isOpen` is kept; ids stay unique |
| CartSlice.CartState.ClearCart | homify-furniture/src/store/cartSlice.ts:80-83 | no lines remain and `isOpen` is kept |
| CartSlice.CartState.OpenCart | homify-furniture/src/store/cartSlice.ts:85-87 | only `isOpen` changes, to true |
| CartSlice.CartState.CloseCart | homify-furniture/src/store/cartSlice.ts:89-91 | only `isOpen` changes, to false |
| CartContext.WithQuantity | homify-furniture/src/contexts/CartContext.tsx:77-81 | the `map` keeps the number of lines |
| CartContext.WithQuantityAt | homify-furniture/src/contexts/CartContext.tsx:44-56 | with unique ids the `map` changes exactly the product's line, or nothing when it has none |
| CartContext.AddedItems | homify-furniture/src/contexts/CartContext.tsx:35-61 | defines the `setItems` updater of an in-stock add; `CartContext.AddedItemsAgree` proves it equals the Redux slice's add when ids are unique |
| CartContext.AddedItemsAgree | homify-furniture/src/contexts/CartContext.tsx:35-61 | with unique ids the context's add updater and toast equal the Redux slice's, so the cap and append rules carry over |
| CartContext.UpdateAgrees | homify-furniture/src/contexts/CartContext.tsx:71-82 | with unique ids the context's `updateQuantity` produces the same lines as the Redux slice's |
| CartContext.DuplicateLinesDiverge | homify-furniture/src/contexts/CartContext.tsx:44-56 | with two lines of one product, the context rewrites both and the slice only the first |
| CartContext.CartProvider.constructor | homify-furniture/src/contexts/CartContext.tsx:23-27 | the cart starts empty and closed, with `itemCount` and `total` 0 |
| CartContext.CartProvider.AddItem | homify-furniture/src/contexts/CartContext.tsx:29-64 | out of stock changes nothing and leaves the panel as it was; otherwise the updater runs and the panel opens, clamped or not; a new line adds its quantity and amount to the totals |
| CartContext.CartProvider.RemoveItem | homify-furniture/src/contexts/CartContext.tsx:66-69 | the product's line is filtered out, the others are kept in order, and the totals drop by exactly that line |
| CartContext.CartProvider.UpdateQuantity | homify-furniture/src/contexts/CartContext.tsx:71-82 | below 1 it acts as `removeItem` (toast included); otherwise only the product's quantity is replaced |
| CartContext.CartProvider.ClearCart | homify-furniture/src/contexts/CartContext.tsx:84-87 | no lines remain and both derived values are 0 |
| CartContext.CartProvider.OpenCart | homify-furniture/src/contexts/CartContext.tsx:89 | only `isOpen` changes, to true |
| CartContext.CartProvider.CloseCart | homify-furniture/src/contexts/CartContext.tsx:90 | only `isOpen` changes, to false |
| CartHooks.UseCart.constructor | homify-furniture/src/store/hooks.ts:20-23 | the hook reads the store's cart slice |
| CartHooks.UseCart.AddItem | homify-furniture/src/store/hooks.ts:40-41 | forwards to the slice's `addItem`; an omitted quantity adds a new product with quantity 1, raising the count by 1 and the total by its price |
| CartHooks.UseCart.RemoveItem | homify-furniture/src/store/hooks.ts:42 | forwards to the slice's `removeItem` with the id unchanged |
| CartHooks.UseCart.UpdateQuantity | homify-furniture/src/store/hooks.ts:43-44 | forwards to the slice's `updateQuantity` with its arguments unchanged |
| CartHooks.UseCart.ClearCart | homify-furniture/src/store/hooks.ts:45 | empties the cart; `itemCount` and `total` become 0 |
| CartHooks.UseCart.OpenCart | homify-furniture/src/store/hooks.ts:46 | opens the panel; `itemCount` and `total` do not move |
| CartHooks.UseCart.CloseCart | homify-furniture/src/store/hooks.ts:47 | closes the panel; `itemCount` and `total` do not move |
| ProductSlice.ProductsStore.constructor | homify-furniture/src/store/productSlice.ts:28-37 | the initial state: category all, sort default, price 0..10000, not in-stock-only, empty search, pagination view, page 1, 12 per page |
| ProductSlice.ProductsStore.SetCategory | homify-furniture/src/store/productSlice.ts:43-47 | sets the category and resets the page to 1; nothing else changes |
| ProductSlice.ProductsStore.SetSortBy | homify-furniture/src/store/productSlice.ts:48-52 | sets the sort and resets the page to 1; nothing else changes |
| ProductSlice.ProductsStore.SetPriceRange | homify-furniture/src/store/productSlice.ts:53-57 | stores the range unchecked and resets the page to 1; nothing else changes |
| ProductSlice.ProductsStore.SetInStockOnly | homify-furniture/src/store/productSlice.ts:58-62 | sets the flag and resets the page to 1; nothing else changes |
| ProductSlice.ProductsStore.SetSearchQuery | homify-furniture/src/store/productSlice.ts:63-67 | sets the query and resets the page to 1; nothing else changes |
| ProductSlice.ProductsStore.SetViewMode | homify-furniture/src/store/productSlice.ts:68-71 | sets only the view mode; the page is kept |
| ProductSlice.ProductsStore.SetCurrentPage | homify-furniture/src/store/productSlice.ts:72-74 | stores the page unchecked; nothing else changes |
| ProductSlice.ProductsStore.SetItemsPerPage | homify-furniture/src/store/productSlice.ts:75-77 | sets only the page size |
| ProductSlice.ProductsStore.ResetFilters | homify-furniture/src/store/productSlice.ts:78-88 | the state becomes exactly the initial state, from any state, so a second reset changes nothing |
| JsArray.Filter | homify-furniture/src/components/products/ProductCatalog.tsx:37 | `filter` keeps only elements that pass the test and never lengthens the list |
| JsArray.FilterMultiset | homify-furniture/src/components/products/ProductCatalog.tsx:37 | `filter` keeps every passing element as often as it occurs, and nothing else |
| JsArray.FilterConcat | homify-furniture/src/components/products/ProductCatalog.tsx:98-101 | filtering two lists joined is filtering each and joining the results |
| JsArray.FilterSnoc | homify-furniture/src/components/UploadWithAPI.tsx:68-85 | filtering one more element appends it exactly when it passes |
| JsArray.FilterKeepsAll | homify-furniture/src/components/products/ProductCatalog.tsx:37 | a filter every element passes returns the list unchanged |
| JsArray.FilterFilter | homify-furniture/src/components/products/ProductCatalog.tsx:37-58 | two filters in a row equal one filter by the conjunction |
| JsArray.FilterAgree | homify-furniture/src/components/products/ProductCatalog.tsx:37-58 | filters whose tests agree on the list give the same result |
| JsArray.FilterFrom | homify-furniture/src/components/products/ProductCatalog.tsx:37 | every element kept comes from the list |
| JsArray.RelativeIndex | homify-furniture/src/components/products/ProductCatalog.tsx:86 | a `slice` bound is clamped into 0..length, negative ones counting from the end |
| JsArray.Slice | homify-furniture/src/components/products/ProductCatalog.tsx:86 | `slice` with in-range bounds is the run between them; it is never longer than the list |
| JsArray.WithoutIndex | homify-furniture/src/app/customorders/page.tsx:95 | filtering by index removes exactly the element at that index and keeps the rest in order; an out-of-range index removes nothing |
| JsArray.SpliceOne | homify-furniture/src/components/UploadWithAPI.tsx:117-118 | `splice(index, 1)` removes the element at index (counted from the end when negative) and nothing past the end |
| JsString.Lower | homify-furniture/src/components/products/ProductCatalog.tsx:43 | `toLowerCase` keeps the length |
| JsString.TrimStartSpec | homify-furniture/src/app/customorders/page.tsx:42 | trimming the start keeps the longest suffix that does not begin with whitespace and drops only whitespace |
| JsString.TrimEndSpec | homify-furniture/src/app/customorders/page.tsx:42 | trimming the end keeps the longest prefix that does not end with whitespace and drops only whitespace |
| JsString.Trim | homify-furniture/src/components/products/FilterControls.tsx:55 | defines `trim()` as `trimStart` then `trimEnd`; `JsString.TrimStartSpec`, `JsString.TrimEndSpec` and `JsString.TrimEmptyIff` state what it drops |
| JsString.TrimEmptyIff | homify-furniture/src/components/products/FilterControls.tsx:55 | `trim()` is empty exactly when the string is all whitespace |
| StableSort.InsertPermutes | homify-furniture/src/components/products/ProductCatalog.tsx:62-71 | inserting adds exactly the one element |
| StableSort.InsertSorted | homify-furniture/src/components/products/ProductCatalog.tsx:62-71 | inserting into a sorted list keeps it sorted |
| StableSort.InsertStable | homify-furniture/src/components/products/ProductCatalog.tsx:62-71 | inserting puts the new element after every element of equal key |
| StableSort.SortPermutes | homify-furniture/src/components/products/ProductCatalog.tsx:62-71 | the sort is a permutation of its input |
| StableSort.SortSorts | homify-furniture/src/components/products/ProductCatalog.tsx:62-71 | the sort's result is ordered by the key |
| StableSort.SortStable | homify-furniture/src/components/products/ProductCatalog.tsx:62-71 | elements of equal key keep their input order, as `Array.prototype.sort` promises |
| StableSort.InsertAt | homify-furniture/src/components/products/ProductCatalog.tsx:62-71 | one pass of the in-place sort shifts larger elements right and leaves the first i + 1 elements equal to the functional insertion |
| StableSort.InsertSplit | homify-furniture/src/components/products/ProductCatalog.tsx:62-71 | the functional insertion places the element right after the last element whose key is not greater |
| StableSort.InsertPlaced | homify-furniture/src/components/products/ProductCatalog.tsx:62-71 | the array after the shift loop is the sorted prefix with the element put in its slot |
| StableSort.SortInPlace | homify-furniture/src/components/products/ProductCatalog.tsx:62-71 | `filtered.sort` reorders the array in place into the stable sort of its old contents |
| ProductCatalog.Matches | homify-furniture/src/components/products/ProductCatalog.tsx:34-59 | defines the product test as the conjunction of the category, search and stock steps; `ProductCatalog.ChainIsConjunction` proves the chained filters compute it |
| ProductCatalog.ChainIsConjunction | homify-furniture/src/components/products/ProductCatalog.tsx:34-59 | the category, search and stock steps, each run only when its control is on, keep exactly the products passing all active controls, in catalog order |
| ProductCatalog.FilteredProducts | homify-furniture/src/components/products/ProductCatalog.tsx:28-76 | the result is the filtered and sorted list; when no filter runs it is the catalog array itself, sorted in place, otherwise a fresh array and the catalog is untouched |
| ProductCatalog.ToArray | homify-furniture/src/components/products/ProductCatalog.tsx:37 | a filter step returns a new array holding its result |
| ProductCatalog.SortKey | homify-furniture/src/components/products/ProductCatalog.tsx:61-71 | defines the comparator of each sort option as a key: price, negated price, negated id rank, negated rating (undefined as 0), or none; `ProductCatalog.ShownOrder` states the order it yields |
| ProductCatalog.Arranged | homify-furniture/src/components/products/ProductCatalog.tsx:61-71 | defines the sort step: "default" keeps the order, the others sort stably by the key; `ProductCatalog.ShownPermutes` and `ProductCatalog.ShownOrder` state what it yields |
| ProductCatalog.Shown | homify-furniture/src/components/products/ProductCatalog.tsx:28-76 | defines `filteredProducts` as the filter then the sort; `ProductCatalog.ShownPermutes`, `ProductCatalog.ShownMatch`, `ProductCatalog.ShownComplete` and `ProductCatalog.ShownIsSelection` state what it holds |
| ProductCatalog.ShownPermutes | homify-furniture/src/components/products/ProductCatalog.tsx:61-71 | sorting only reorders the filtered products |
| ProductCatalog.ShownMatch | homify-furniture/src/components/products/ProductCatalog.tsx:34-59 | every product listed passes every active control |
| ProductCatalog.ShownComplete | homify-furniture/src/components/products/ProductCatalog.tsx:34-59 | every catalog product passing every active control is listed |
| ProductCatalog.ShownIsSelection | homify-furniture/src/components/products/ProductCatalog.tsx:28-76 | the list is a permutation of exactly the matching catalog products, and the price range changes nothing because its filter is commented out |
| ProductCatalog.FilterSelects | homify-furniture/src/components/products/ProductCatalog.tsx:37 | an element of the list that passes the test is kept |
| ProductCatalog.ControlsSound | homify-furniture/src/components/products/ProductCatalog.tsx:34-59 | with a category chosen every product listed has it; with a query every one mentions it in its lowered name or description; with in-stock-only every one is in stock; with no control on all products are listed |
| ProductCatalog.ShownOrder | homify-furniture/src/components/products/ProductCatalog.tsx:61-71 | catalog order under "default"; ascending price, descending price, descending collation rank of the id, or descending rating (missing as 0) under the other options; ties keep catalog order |
| ProductCatalog.TotalPages | homify-furniture/src/components/products/ProductCatalog.tsx:80 | `Math.ceil(n / k)` is the fewest pages of k that hold n products |
| ProductCatalog.PageStart | homify-furniture/src/components/products/ProductCatalog.tsx:84 | the start index is never negative for page 1 up |
| ProductCatalog.PageOf | homify-furniture/src/components/products/ProductCatalog.tsx:83-87 | defines a page as `slice(startIndex, startIndex + itemsPerPage)`; `ProductCatalog.PageBounds` states which products it holds |
| ProductCatalog.PageBounds | homify-furniture/src/components/products/ProductCatalog.tsx:83-87 | a page is the run of at most k products from (p - 1)·k, cut at the end of the list |
| ProductCatalog.PageStartStep | homify-furniture/src/components/products/ProductCatalog.tsx:84-85 | each page starts k after the one before, page 1 at 0 |
| ProductCatalog.Pages | homify-furniture/src/components/products/ProductCatalog.tsx:83-87 | defines pages 1 to m joined; `ProductCatalog.PagesPrefix` proves they are a prefix of the list |
| ProductCatalog.PagesPrefix | homify-furniture/src/components/products/ProductCatalog.tsx:83-87 | pages 1 to m joined are the first m·k products |
| ProductCatalog.PagesReassemble | homify-furniture/src/components/products/ProductCatalog.tsx:80-87 | pages 1 to ceil(n / k) joined reproduce the filtered list |
| ProductCatalog.HasMore | homify-furniture/src/components/products/ProductCatalog.tsx:110 | defines `hasMore` as `currentPage < totalPages`; `ProductCatalog.HasMoreIff` states when it holds |
| ProductCatalog.HasMoreIff | homify-furniture/src/components/products/ProductCatalog.tsx:110 | `hasMore` holds exactly when the pages up to the current one do not hold all products |
| ProductCatalog.FilterDistinct | homify-furniture/src/components/products/ProductCatalog.tsx:98-100 | filtering a list with distinct ids keeps the ids distinct |
| ProductCatalog.AppendNew | homify-furniture/src/components/products/ProductCatalog.tsx:96-101 | defines a later page's update as the old list plus the page's products whose id is not yet listed; `ProductCatalog.AppendNewProperties` states what it keeps |
| ProductCatalog.AppendNewProperties | homify-furniture/src/components/products/ProductCatalog.tsx:96-101 | appending a later page keeps the old list as a prefix, adds only page products with unseen ids, introduces no repeated id, and then lists every id of the page |
| ProductCatalog.CatalogView.constructor | homify-furniture/src/components/products/ProductCatalog.tsx:25 | the accumulated list starts empty |
| ProductCatalog.CatalogView.Accumulate | homify-furniture/src/components/products/ProductCatalog.tsx:90-104 | nothing happens in paged mode; in infinite mode page 1 replaces the list and later pages append their unseen products |
| ProductCatalog.CatalogView.Display | homify-furniture/src/components/products/ProductCatalog.tsx:83-108 | infinite mode shows the accumulated list; paged mode shows page `currentPage` of the filtered and sorted catalog, which from page 1 with a positive page size holds at most `itemsPerPage` catalog products, each passing every active control |
| ProductCatalog.CatalogView.ScrolledDisplay | homify-furniture/src/components/products/ProductCatalog.tsx:90-108 | in infinite mode, once the effect has run for pages 1 to m of a catalog with distinct ids, the page shows exactly pages 1 to m of the filtered and sorted catalog, that is its first m·`itemsPerPage` products |
| ProductCatalog.PageSelects | homify-furniture/src/components/products/ProductCatalog.tsx:83-87 | every product on a page is a catalog product that passes every active control, and a page holds at most `itemsPerPage` of them |
| ProductCatalog.ShownDistinct | homify-furniture/src/components/products/ProductCatalog.tsx:28-76 | filtering and sorting a catalog with distinct ids keeps the ids distinct |
| ProductCatalog.PermutationKeepsDistinct | homify-furniture/src/components/products/ProductCatalog.tsx:61-71 | reordering a list, as the sort does, keeps its ids distinct |
| ProductCatalog.Scrolled | homify-furniture/src/components/products/ProductCatalog.tsx:90-104 | defines the list after scrolling through pages 1 to m: page 1 replaces it, each later page is appended by `AppendNew`; `ProductCatalog.ScrollShowsPages` states what it holds |
| ProductCatalog.ScrollShowsPages | homify-furniture/src/components/products/ProductCatalog.tsx:90-104 | scrolling through pages 1 to m of a list with distinct ids shows exactly those pages, in order, nothing dropped or repeated |
| ProductCatalog.ScrolledPrefix | homify-furniture/src/components/products/ProductCatalog.tsx:90-104 | after page m the accumulated list is the first m pages' worth of products |
| ProductCatalog.ScrolledStep | homify-furniture/src/components/products/ProductCatalog.tsx:97-101 | each later page is appended whole |
| ProductCatalog.LaterRunIsNew | homify-furniture/src/components/products/ProductCatalog.tsx:97-100 | in a list with distinct ids no product of a later run is filtered out as already present |
| PaginationControls.Run | homify-furniture/src/components/products/PaginationControls.tsx:66-68 | a run of links from lo to hi has hi - lo + 1 entries, none when lo > hi |
| PaginationControls.RunAt | homify-furniture/src/components/products/PaginationControls.tsx:66-68 | the k-th link of a run is page lo + k |
| PaginationControls.RunSnoc | homify-furniture/src/components/products/PaginationControls.tsx:66-68 | one more loop step appends the next page |
| PaginationControls.JoinAscending | homify-furniture/src/components/products/PaginationControls.tsx:57-74 | joining two increasing pieces whose ranges do not overlap gives an increasing bar |
| PaginationControls.FewPages | homify-furniture/src/components/products/PaginationControls.tsx:52-55 | with at most 5 pages the bar is exactly pages 1 to totalPages with no ellipsis, and empty when there are none |
| PaginationControls.ManyPagesEnds | homify-furniture/src/components/products/PaginationControls.tsx:57-74 | with more than 5 pages the bar starts with page 1, ends with the last page and has at most 7 entries |
| PaginationControls.ManyPagesAscending | homify-furniture/src/components/products/PaginationControls.tsx:57-74 | with more than 5 pages the numbers strictly increase and stay in 1..totalPages |
| PaginationControls.WindowShown | homify-furniture/src/components/products/PaginationControls.tsx:63-68 | every page of the window max(2, c - 1)..min(T - 1, c + 1) is on the bar |
| PaginationControls.PageNumbers | homify-furniture/src/components/products/PaginationControls.tsx:49-78 | defines the bar: every page up to 5 pages, otherwise 1, an optional ellipsis, the window around the current page, an optional ellipsis and the last page; `PaginationControls.BarShape` and the lemmas after it state its shape |
| PaginationControls.BarShape | homify-furniture/src/components/products/PaginationControls.tsx:49-78 | for any page count the numbers strictly increase, stay in 1..totalPages, and there are at most 7 entries |
| PaginationControls.CurrentPageShown | homify-furniture/src/components/products/PaginationControls.tsx:57-74 | a current page in range is always on the bar |
| PaginationControls.EllipsisPlacement | homify-furniture/src/components/products/PaginationControls.tsx:59-61 | the leading ellipsis is there exactly when the current page is past 3, the trailing one exactly when it is before totalPages - 2 (lines 70-72) |
| PaginationControls.GetPageNumbers | homify-furniture/src/components/products/PaginationControls.tsx:49-78 | the loops build exactly the bar described above, so it is increasing, within 1..totalPages and at most 7 long |
| PaginationControls.HandlePageChange | homify-furniture/src/components/products/PaginationControls.tsx:40-46 | a page in 1..totalPages becomes the current page and scrolls; any other page changes nothing; a current page in range stays in range |
| PaginationControls.HandleViewModeChange | homify-furniture/src/components/products/PaginationControls.tsx:36-38 | only the view mode changes |
| PaginationControls.StepPage | homify-furniture/src/components/products/PaginationControls.tsx:111 | the previous and next buttons (the next one at line 139) move the current page one step when the target is in 1..totalPages and change nothing otherwise, so a page in range stays in range |
| FilterControls.HasActiveFilters | homify-furniture/src/components/products/FilterControls.tsx:50-55 | defines the "active filters" test as the disjunction of its five conditions; `FilterControls.InactiveIff` states when it fails |
| FilterControls.InactiveIff | homify-furniture/src/components/products/FilterControls.tsx:50-55 | no filter is active exactly when the sort is default, min ≤ 0, max ≥ 500000, the in-stock box is clear and the search is all whitespace |
| FilterControls.IgnoresCategoryAndView | homify-furniture/src/components/products/FilterControls.tsx:46-55 | the category, view mode and paging fields never change the answer |
| FilterControls.InitialStateIsActive | homify-furniture/src/components/products/FilterControls.tsx:53 | the initial (and reset) state already counts as filtered, since its max of 10000 is below 500000 |
| FilterControls.BlankQueryStillSearches | homify-furniture/src/components/products/FilterControls.tsx:55 | a blank query is not an active filter, yet the catalog's search step still runs for it |
| FilterControls.SortOptionsTable | homify-furniture/src/components/products/FilterControls.tsx:32-38 | the menu lists the five sort options once each, in the order default, price-asc, price-desc, newest, rating |
| CustomOrders.ValidateEmail | homify-furniture/src/app/customorders/page.tsx:34-37 | defines the e-mail test as the existence of an "@" and a later "." splitting the text into three non-empty parts; `CustomOrders.EmailShape` states exactly which strings pass |
| CustomOrders.EmailShape | homify-furniture/src/app/customorders/page.tsx:34-37 | `/^[^\s@]+@[^\s@]+\.[^\s@]+$/` accepts exactly the strings with no whitespace, one '@' that is not first, and a '.' after it with at least one character between them and one after |
| CustomOrders.ValidEmails | homify-furniture/src/app/customorders/page.tsx:34-37 | "jane@homify.co.ke" and "a@b.c" pass the pattern |
| CustomOrders.InvalidEmails | homify-furniture/src/app/customorders/page.tsx:34-37 | "a@b", "@b.c", "a@.c", "a@b.", "a@@b.c" and " a@b.c" fail the pattern |
| CustomOrders.NoDotAfterAt | homify-furniture/src/app/customorders/page.tsx:35 | a string without a '.' never matches |
| CustomOrders.Set | homify-furniture/src/app/customorders/page.tsx:102 | the spread update sets the named input and keeps every other input's text |
| CustomOrders.FieldErrors | homify-furniture/src/app/customorders/page.tsx:42-49 | the input checks never write the "files" entry |
| CustomOrders.FieldErrorsKeys | homify-furniture/src/app/customorders/page.tsx:42-49 | each required input has an entry exactly when blank after `trim`; the e-mail has one exactly when blank or failing the pattern, with the matching message; no other key appears |
| CustomOrders.FieldErrorsSpec | homify-furniture/src/app/customorders/page.tsx:42-49 | name, phone, timeline and description get an error exactly when blank after `trim`; dimensions, material, color and budget never do; the e-mail's message is "required" when blank and "invalid" only when not blank |
| CustomOrders.FileErrors | homify-furniture/src/app/customorders/page.tsx:50-55 | defines the three file checks, each overwriting the "files" entry; `CustomOrders.FileErrorsSpec` states which message is left |
| CustomOrders.FileErrorsSpec | homify-furniture/src/app/customorders/page.tsx:50-55 | the "files" entry appears exactly when there are no files, more than 5, or one over 10·1024·1024 bytes; the size message overrides either count message; other entries are untouched |
| CustomOrders.FormErrors | homify-furniture/src/app/customorders/page.tsx:39-58 | defines `validateForm`'s error map as the field checks then the file checks; `CustomOrders.FormErrorsSpec` states it entry by entry |
| CustomOrders.FormErrorsSpec | homify-furniture/src/app/customorders/page.tsx:39-58 | the whole error map, entry by entry and message by message, and that it is empty exactly when the form is acceptable |
| CustomOrders.OptionalFieldsIgnored | homify-furniture/src/app/customorders/page.tsx:42-55 | changing dimensions, material, color or budget never changes the error map |
| CustomOrders.UntrimmedEmail | homify-furniture/src/app/customorders/page.tsx:43-45 | the pattern sees the e-mail as typed: " a@b.c" is not blank yet gets "Please enter a valid email" |
| CustomOrders.CustomOrderForm.constructor | homify-furniture/src/app/customorders/page.tsx:13-30 | all nine inputs empty, no files, no errors, not submitting |
| CustomOrders.CustomOrderForm.ValidateForm | homify-furniture/src/app/customorders/page.tsx:39-59 | the error map is replaced by the one for the current inputs and files, and the result is true exactly when the form is acceptable |
| CustomOrders.CustomOrderForm.HandleSubmit | homify-furniture/src/app/customorders/page.tsx:114-133 | an unacceptable form only refreshes the errors; an acceptable one is submitted and the submit flag ends cleared |
| CustomOrders.CustomOrderForm.HandleFileSelect | homify-furniture/src/app/customorders/page.tsx:67-79 | a selection is appended after the files already attached; no selection changes nothing |
| CustomOrders.CustomOrderForm.HandleDeleteFile | homify-furniture/src/app/customorders/page.tsx:94-96 | removes exactly the file at that index and keeps the others in order; an out-of-range index changes nothing |
| CustomOrders.CustomOrderForm.HandleInputChange | homify-furniture/src/app/customorders/page.tsx:98-112 | sets only the named input; removes only that input's error, and only when it has a non-empty one |
| Upload.ValidateFile | homify-furniture/src/components/UploadWithAPI.tsx:48-58 | defines the per-file check: not an image, too large, or passes; `Upload.ValidateFileSpec` states when it passes |
| Upload.ValidateFileSpec | homify-furniture/src/components/UploadWithAPI.tsx:48-58 | a file passes exactly when its type starts with "image/" and its size is at most maxSize·1024·1024; a non-image is refused as such whatever its size; an image over the limit gets the size error |
| Upload.LastError | homify-furniture/src/components/UploadWithAPI.tsx:72-83 | defines the error the `forEach` leaves: that of the last invalid file, or none; `Upload.LastErrorSpec` states which file it comes from |
| Upload.LastErrorSpec | homify-furniture/src/components/UploadWithAPI.tsx:72-83 | there is no pending error exactly when every selected file is valid; otherwise it is the error of an invalid file after which all files are valid |
| Upload.LastErrorSnoc | homify-furniture/src/components/UploadWithAPI.tsx:72-83 | one more `forEach` step replaces the pending error exactly when that file is invalid |
| Upload.CheckSelection | homify-furniture/src/components/UploadWithAPI.tsx:68-85 | the loop collects exactly the valid files, in order, one new preview URL each, numbered on from the counter; the error flag is set exactly when some file is invalid, and the error left is the last invalid file's |
| Upload.UploadWidget.constructor | homify-furniture/src/components/UploadWithAPI.tsx:19-32 | the props given are kept, an undefined one takes its default (5 files, 10 MB, upload on select), and the lists start empty with no error |
| Upload.UploadWidget.HandleFilesSelected | homify-furniture/src/components/UploadWithAPI.tsx:61-101 | too many files only sets the max-files error; any invalid file adds nothing and leaves the last invalid file's error; otherwise the files are appended in order with as many new previews, the error is cleared, and without auto-upload the parent gets the whole list; files and previews stay aligned and distinct; starting within maxFiles the list stays within it |
| Upload.UploadWidget.RemoveFile | homify-furniture/src/components/UploadWithAPI.tsx:112-131 | the same index is spliced out of both lists, so they stay aligned; the preview at that index is revoked; without auto-upload the parent gets the new list |
| Upload.UploadWidget.ResetEffect | homify-furniture/src/components/UploadWithAPI.tsx:36-46 | when reset is set the files, previews and results are emptied and the error cleared; otherwise nothing changes |
| Upload.UploadWidget.HandleUpload | homify-furniture/src/components/UploadWithAPI.tsx:134-158 | with no files nothing happens (line 135); otherwise non-empty results are stored and reported, empty results fail with "No results returned", a thrown error leaves its message or the fallback, and the busy flag ends cleared |
| Upload.AppendFresh | homify-furniture/src/components/UploadWithAPI.tsx:82-88 | newly created preview URLs appended to the old ones keep all previews distinct |
| Upload.SpliceKeepsFresh | homify-furniture/src/components/UploadWithAPI.tsx:115-120 | splicing one preview out keeps the rest distinct |
| WhatsApp.StripNonDigits | homify-furniture/src/components/common/WhatsAppButton.tsx:9 | `replace(/\D/g, "")` leaves only the characters 0-9 and never lengthens the string |
| WhatsApp.StripIsFilter | homify-furniture/src/components/common/WhatsAppButton.tsx:9 | what is left is exactly the digits of the input, in their order |
| WhatsApp.StripKeepsDigits | homify-furniture/src/components/common/WhatsAppButton.tsx:9 | a string of digits only is left as it is |
| WhatsApp.StripIdempotent | homify-furniture/src/components/common/WhatsAppButton.tsx:9 | stripping twice is stripping once |
| WhatsApp.StripConcat | homify-furniture/src/components/common/WhatsAppButton.tsx:9 | the digits of a joined string are the digits of each part, joined |
| WhatsApp.PlusThenDigits | homify-furniture/src/components/common/WhatsAppButton.tsx:9 | a number written as '+' and digits reduces to those digits |
| WhatsApp.SellerDigits | homify-furniture/src/data/products.ts:53 | the seller's number "+254719352072" reduces to "254719352072" |
| WhatsApp.UrlStartsWith | homify-furniture/src/components/common/WhatsAppButton.tsx:11 | the link is "https://wa.me/" and the digits and "?text=", followed by the encoded message |
| WhatsApp.WhatsAppUrl | homify-furniture/src/components/common/WhatsAppButton.tsx:9-11 | defines the link as "https://wa.me/", the stripped number, "?text=" and the encoded message; `WhatsApp.UrlStartsWith` and `WhatsApp.SellerLink` state its prefix |
| WhatsApp.SellerLink | homify-furniture/src/components/common/WhatsAppButton.tsx:9-11 | every link the button opens begins with "https://wa.me/254719352072?text=" |

## Left out

- Toasts are kept as a returned `Notice` (carts) or folded into the result; the `sonner` calls themselves are not modelled.
- `console.log` calls are left out: they have no effect on state.
- Prices, ratings, quantities and file sizes are unbounded integers. JavaScript numbers (floating point, `NaN`, fractional quantities) are not modelled, and a fractional `maxSize` in megabytes is not representable.
- `itemsPerPage` must be positive for the page arithmetic (`ProductCatalog.TotalPages`, `ProductCatalog.PagesReassemble`). With 0 the source divides by zero (`Infinity`/`NaN` pages); that case is not modelled.
- `toLowerCase` maps only A-Z, and `trim` uses the ECMAScript white-space and line-terminator set. Unicode case mapping is not modelled.
- The "newest" sort's `localeCompare` is a caller-supplied rank function on ids (`localeRank`): the browser's collation order is not modelled.
- `Product` keeps only the fields the carts and the catalog read. Images, `originalPrice`, `isNew`, `reviewCount` and `specifications` are left out.
- `CartItem` lines are values. The Redux draft's aliasing of the found line (`existingItem.quantity = ...`) is modelled as an update of that index.
- `useMemo` caching and `useCallback` identity are not modelled. Derived values are recomputed from the state.
- CustomOrders.CustomOrderForm.HandleInputChange: the source tests the `errors` of the last render; the model tests the current error map, which is the same unless updates are batched.
- Upload.CheckSelection: React applies the `setError` calls after the callback; the model keeps the pending error in a local, so the last invalid file's message wins.
- `URL.createObjectURL` is modelled as numbered `ObjectUrl` tokens. `URL.revokeObjectURL` is modelled as the token `RemoveFile` returns. Neither browser call is modelled.
- The URLs created for valid files of a selection that is then rejected are never revoked in the source either. The model advances its counter past them.
- `FileReader`, the file-input reset (`fileInputRef.current.value = ""`), `handleViewFile`/`previewFile`, drag-and-drop handlers and `openFilePicker` are browser UI and are not modelled.
- `window.scrollTo` is reported as the `scrolled` flag of `PaginationControls.HandlePageChange`. `window.open` is not modelled: the URL it would open is `WhatsApp.WhatsAppUrl`.
- `encodeURIComponent` is not modelled: the encoded message is a parameter of `WhatsApp.WhatsAppUrl`.
- The network call `api.uploadMultipleImages` is replaced by its answer, passed to `Upload.UploadWidget.HandleUpload` as an `UploadResponse`. The `progress` state, which the code never advances, is left out.
- The one-and-a-half-second `setTimeout` in `handleSubmit` is not modelled: the simulated submission sets and clears the flag at once.
- The upload widget's error texts are the `UploadError` datatype. The number-to-string formatting inside "File size must be less than {maxSize}MB" and "Maximum {maxFiles} files allowed" is not modelled.
- The custom-order error texts are the `Message` datatype with the exact wording in `CustomOrders.Text`.
- The API routes, the `fetch` client, the Firebase configuration and the Cloudinary upload are server-side or network code and are not part of this model.
- `formatPrice` and `getDiscountPercentage` in `data/products.ts` (locale formatting and floating-point division) are not part of this model. Only `SELLER_WHATSAPP` is used.
- Rendering components (header, footer, home sections, product cards, cart sidebar, category bar, providers) are not part of this model.
- The catalog array `ProductCatalog.tsx` imports from `data/products` is not defined in that file. The catalog is an input of `ProductCatalog.FilteredProducts`.
