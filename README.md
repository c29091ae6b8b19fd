# draymodas storefront core, modelled in Dafny

This project models the decision and query rules of the draymodas storefront, a
Next.js shop with a Prisma store behind it. The store is a set of in-memory tables
(`Base.Tables`): products, categories, sizes, product–size links, images and
admins. The ORM's `where`, `orderBy`, `skip`, `take` and `include` are written out
as functions over those sequences.

The modelled parts:

- **Catalog listing** (`GET /api/products`, module `CatalogQuery`). The query
  parameters become a conjunction of conditions:
  - category equality;
  - inclusive price bounds;
  - case-insensitive name substring;
  - "has any of these sizes".

  The result is ordered newest first, by price ascending or by price descending.
  The handler returns one page of it (`skip = (page-1)*perPage`, `take = perPage`)
  together with `total`, `totalPages` and `hasNextPage`.
  - The `orderBy` names one column, so products that tie on it may come back in
    any order. Each request is a separate query and may break ties its own way.
  - The model therefore takes the order the store answers in as a parameter
    (`CatalogQuery.StoreOrder`): the matching products, sorted by the key.
    `CatalogQuery.Ordered` is one such order, used as the reference.
  - The pages of a listing cover it exactly when no two matching products tie on
    the key (`CatalogQuery.AllPagesCoverListing`). With a tie, one product can
    appear on two pages while another is skipped
    (`CatalogQuery.TiesLetPagesRepeat`).
- **Catalog page in the browser** (`CatalogPager`).
  - `buildFilters` is a pure function.
  - The page's state is a class `CatalogPage` whose handlers change it:
    - the product list, the page counter, `hasMore` and `isLoadingMore`;
    - the page cache keyed by the filters and the page number.
  - Every handler is proved equal to a step function on a state value. The lemmas
    about paging are proved on those step functions.
- **Admin product creation** (`POST /api/admin/products`, `AdminProducts`).
  - The ordered validation chain: admin, then categories, then sizes.
  - Creation of the product with its first category and one size link per size id.
  - The write is a method on the store class `Db.Database`.
- **Admin categories** (`GET` and `POST /api/admin/categories`, `AdminCategories`).
- **Product service queries** (`lib/services/product.service.ts`, `ProductService`).
- **Home feed** (`GET /api/products/home`, `HomeProducts`).
- **Route guard** (`app/middleware.ts`, `Middleware`). JWT verification is an opaque
  boolean oracle.
- **Product schema** (`lib/validations/product.ts`). Field rules shared with the
  forms are in `Schema`; the schema itself is `ProductValidation`.
- **New and edit product forms** (`NewProductForm`, `EditProductForm`).
  - Their schemas are pure functions.
  - The selection lists, the loading flags and the submit preconditions are
    classes whose methods update those fields.

Prices and timestamps are integers: prices in cents, timestamps as ticks.
`parseInt`/`parseFloat` results enter the model already parsed, as `Option<int>`,
where `None` means absent or empty. The store's answers are parameters:
- `storeAvailable`, `reachable` or `accepted` say whether the store answered;
- new ids and timestamps are parameters;
- the network reply on the catalog page is a `Fetch` value;
- the edit form's reply is a `Reply` value.

### Where the files disagree with each other

The model makes these mismatches explicit:

- **Page size.** The catalog page sends `limit=10`
  (`app/catalogo/page.tsx:37, 54-57`), but the server reads `perPage` and defaults
  it to 50 (`app/api/products/route.ts:14`).
  - `CatalogPager.ClientPageSizeIsIgnored` reads the request the way the endpoint
    does, by name. No entry is named `perPage`, so the endpoint uses its default
    of 50. No entry is named `sizeId` either.
  - `CatalogPager.FiltersReachEndpoint`: the category, the search text, the sort
    and the page number do reach the endpoint.
- **Response shape.** The browser treats `response.data` as the product array
  (`app/catalogo/page.tsx:83`). For axios that is the whole JSON body, and the
  server's body is the object `{ data, meta }`
  (`app/api/products/route.ts:57-66`).
  - The pager is modelled on the body it receives (`CatalogPager.Body`): a list,
    which is what the page expects, or the endpoint's object.
  - An object has no `length`, so it is never a full page. The object is stored
    in the cache and in the products state. There the grid's `products.map`
    (`app/catalogo/page.tsx:279`) fails on it, and so does the spread of the next
    page (`CatalogPager.Shown.NotAList`).
  - `CatalogPager.EndpointAnswerEndsPaging`: for every answer the listing endpoint
    gives, a fetch leaves `hasMore` false. A page answer leaves a state the grid
    cannot list, whatever the number of matches.
  - The paging lemmas (`PagingConsistent` and the lemmas that keep it) describe
    the page's own logic for list bodies, which this endpoint never sends.
- **Duplicate categories.** The new-product form appends a selected category
  without checking for duplicates (`components/admin/NewProductForm.tsx:131-135`).
  The server compares the number of categories found with the number of ids sent
  (`app/api/admin/products/route.ts:64`).
  - `NewProductForm.SelectingTwiceRepeats`: selecting the same category twice
    repeats it.
  - `NewProductForm.RepeatedCategoryIsRefused`: the server then rejects the
    request with 404.
- **Re-selecting the current category.** This sets the page back to 1 without a
  refetch, because the effect on `selectedCategory` does not rerun
  (`app/catalogo/page.tsx:117-120, 160-163`). The next "load more" then appends
  page 2 a second time (`CatalogPager.ReselectingCategoryRepeatsPageTwo`).

### Behaviour of the listing endpoint worth knowing

- The default page size is 50 (`app/api/products/route.ts:14`).
- The sort values are the code's:
  - `menor-preco`: price ascending;
  - `maior-preco`: price descending;
  - anything else, including `relevancia` and absence: newest first.
- A page below 1 is not rejected as invalid input. With a positive `perPage` it
  makes `skip` negative, which the store refuses, so the answer is the handler's
  500 (`CatalogQuery.Query`).
- Price bounds are not checked for sign or order. Inverted bounds give an empty
  page with total 0 (`CatalogQuery.InvertedPriceBoundsGiveEmptyPage`).

## Model

| member | source | states |
|---|---|---|
| Base.Filter | app/api/products/route.ts:16-30 | the rows kept by a `where` are exactly the rows of the table that satisfy it, each as often as in the table, in table order |
| Base.CountIsFilterLength | app/api/products/route.ts:38-41 | `count({ where })` equals the length of `findMany({ where })` for the same `where` |
| Base.Take | lib/services/product.service.ts:52 | `take: n` keeps the first `min(n, length)` rows, a prefix of the input |
| Base.Slice | app/api/products/route.ts:51-52 | `skip`/`take` yields at most `take` rows, row `i` being row `skip + i` of the input; nothing when `skip` is past the end |
| Base.FindProduct | lib/services/product.service.ts:4-5 | `findUnique` finds a product exactly when one with that id exists, and what it finds has that id |
| Base.FindProductUnique | lib/services/product.service.ts:4-5 | with unique ids, `findUnique` returns the one product carrying the id |
| Sorting.SortBy | app/api/products/route.ts:53 | `orderBy` returns a permutation of its input that is sorted by the key |
| Sorting.SortedUnique | app/api/products/route.ts:32-34 | two sorted permutations of the same rows agree when no two rows share a key; the order is determined only up to ties |
| Db.Database.CreateProduct | app/api/admin/products/route.ts:95-110 | inserting a product appends it and its size links, leaves every other table unchanged and keeps the ids unique |
| Db.Database.CreateCategory | app/api/admin/categories/route.ts:48-52 | inserting a category appends it, leaves every other table unchanged and keeps the ids unique |
| CatalogQuery.BuildWhere | app/api/products/route.ts:16-30 | one conjunct per present parameter and none for an absent or empty one; each present parameter's condition is in the `where` |
| CatalogQuery.WhereMembers | app/api/products/route.ts:16-30 | a condition is in the `where` exactly when its parameter asks for it |
| CatalogQuery.WhereMeansMatches | app/api/products/route.ts:16-30 | a product satisfies the `where` iff it is in the category, within both price bounds inclusive, has the search term in its name ignoring case, and has one of the sizes |
| CatalogQuery.OrderFor | app/api/products/route.ts:32-34 | `menor-preco` gives price ascending, `maior-preco` gives price descending, and anything else (absent, `relevancia`, unknown) gives newest first, each as an iff |
| CatalogQuery.SortedByKeyIsOrdered | app/api/products/route.ts:32-34 | sorting by the chosen key puts newer before older, or cheaper before dearer, or dearer before cheaper |
| CatalogQuery.Ordered | app/api/products/route.ts:16-34 | the listing contains each product as often as the table does when it matches the query, and not at all otherwise, in the requested order |
| CatalogQuery.StoreOrderMeaning | app/api/products/route.ts:32-53 | the reference order is one the store may answer in, and every order it may answer in lists each matching product as often as the table holds it, nothing else, and in the requested order |
| CatalogQuery.StoreOrderIsUnique | app/api/products/route.ts:32-34 | when no two matching products share the sort key, the store has only one order to answer in: the reference order |
| CatalogQuery.TotalIsOrderedLength | app/api/products/route.ts:38-39 | `total` is the number of products in the whole filtered listing |
| CatalogQuery.CeilDiv | app/api/products/route.ts:63 | `totalPages` is the least page count whose pages hold all `total` products |
| CatalogQuery.FindCategory | app/api/products/route.ts:43 | the attached category is found exactly when a category row has the product's category id |
| CatalogQuery.FindSize | app/api/products/route.ts:45-48 | the attached size is found exactly when a size row has the link's size id |
| CatalogQuery.Expand | app/api/products/route.ts:42-50 | each listed product carries its own category (found exactly when a category row has its id), exactly its own images, and one size entry per size link of that product, in table order, each with the size row of that id when there is one |
| CatalogQuery.SkipSign | app/api/products/route.ts:36 | with a positive `perPage`, `skip` is non-negative exactly when the page is at least 1 |
| CatalogQuery.ProductsOfExpandAll | app/api/products/route.ts:42-50 | attaching relations does not change which products are listed or their order |
| CatalogQuery.Query | app/api/products/route.ts:4-74 | a page exactly when the store answers and `skip`/`perPage` are non-negative, else a 500 with the error message; the page is the `skip`/`take` slice of the order the store answers in, with at most `perPage` rows, each with its relations attached; `total` counts the whole listing, `currentPage` and `perPage` echo the parameters (defaults 1 and 50), `totalPages` is the ceiling of `total/perPage`, and `hasNextPage` holds iff page < totalPages, iff some product lies beyond this page |
| CatalogQuery.HasNextPageIff | app/api/products/route.ts:63-64 | `page < ceil(total/perPage)` holds exactly when `page * perPage < total` |
| CatalogQuery.OrderedIgnoresPaging | app/api/products/route.ts:16-34 | the ordered listing depends only on the filter and sort parameters, not on `page` or `perPage` |
| CatalogQuery.TotalIgnoresPaging | app/api/products/route.ts:38-39 | `total` is the same for every page and page size of one query, however the store breaks ties |
| CatalogQuery.NoParamsListsEverything | app/api/products/route.ts:16-22 | without filter parameters the `where` is empty and the listing is a permutation of the whole table |
| CatalogQuery.InvertedPriceBoundsGiveEmptyPage | app/api/products/route.ts:18-21 | a minimum above the maximum gives an empty page with total 0 and no next page, not an error |
| CatalogQuery.PriceBoundsInclusive | app/api/products/route.ts:18-21 | a product whose price equals both bounds matches |
| CatalogQuery.SearchIgnoresDescription | app/api/products/route.ts:22 | whether a product matches never depends on its description |
| CatalogQuery.SearchIgnoresCase | app/api/products/route.ts:22 | folding the case of the name or of the search term does not change the match |
| CatalogQuery.SizeFilterIsUnion | app/api/products/route.ts:24-30 | asking for sizes `a ++ b` matches exactly the products that match for `a` or for `b` |
| CatalogQuery.PageProductsIsSlice | app/api/products/route.ts:36-53 | page `k` holds the products of that request's order from position `(k-1)*perPage` on, at most `perPage` of them |
| CatalogQuery.PagesThroughIsSlices | app/api/products/route.ts:36-53 | when pages 1..n are answered in one order, laid end to end they are that order's slices laid end to end |
| CatalogQuery.AllPagesCoverListing | app/api/products/route.ts:32-53 | when no two matching products tie on the sort key, pages 1..totalPages laid end to end give the whole ordered listing however each request is answered, so each matching product appears exactly as often as in the table |
| CatalogQuery.TiesLetPagesRepeat | app/api/products/route.ts:32-53 | two matching products that tie on the key, one per page, may both be answered as the same product on pages 1 and 2, each order allowed |
| CatalogQuery.OneRowPage | app/api/products/route.ts:36-53 | with one row per page, page `k` holds the `k`-th product of its order |
| CatalogQuery.ReverseOfAscendingIsDescending | app/api/products/route.ts:33-34 | a price-ascending sequence read backwards is price-descending |
| CatalogQuery.DescendingIsReversedAscending | app/api/products/route.ts:33-34 | with distinct prices, sorting descending equals the ascending sort reversed |
| CatalogQuery.AscendingIsReversedDescending | app/api/products/route.ts:33-34 | with distinct prices among the matches, the `maior-preco` listing is the `menor-preco` listing reversed |
| CatalogPager.LookupFinds | app/catalogo/page.tsx:54-64 | reading a key of the filter object finds a value exactly when an entry has that key |
| CatalogPager.LookupAppend | app/catalogo/page.tsx:54-64 | reading a key of joined entries looks in the first part, then in the second |
| CatalogPager.TrimStartCuts | app/catalogo/page.tsx:61 | trimming the start removes exactly the leading whitespace |
| CatalogPager.TrimEndCuts | app/catalogo/page.tsx:61 | trimming the end removes exactly the trailing whitespace |
| CatalogPager.TrimByCuts | app/catalogo/page.tsx:61 | `trim()` yields a middle piece of the input with no whitespace at either end, everything cut off being whitespace |
| CatalogPager.TrimIdempotent | app/catalogo/page.tsx:61 | trimming twice is trimming once |
| CatalogPager.TrimEmptyIffBlank | app/catalogo/page.tsx:61 | the trimmed search is empty exactly when the input is all whitespace |
| CatalogPager.BuildFilters | app/catalogo/page.tsx:54-57 | the first entry is always `limit` = "10" |
| CatalogPager.EntriesForMeaning | app/catalogo/page.tsx:58-62 | each optional entry reads as its value when present and is absent otherwise |
| CatalogPager.LookupEntryThen | app/catalogo/page.tsx:58-62 | a conditional entry followed by the rest reads as its value when present and as the rest otherwise |
| CatalogPager.BuildFiltersMeaning | app/catalogo/page.tsx:54-64 | `categoryId`, `minPrice` and `maxPrice` appear only when non-empty; `search` appears only when its trimmed value is non-empty and then holds the trimmed value; `sort` appears unless it is `relevancia` |
| CatalogPager.ClientPageSizeIsIgnored | app/catalogo/page.tsx:54-57 | read by name as the endpoint reads it (app/api/products/route.ts:7-14), the request has no `perPage` and no `sizeId`, so the endpoint uses 50 rows per page, not 10; `limit` = "10" is always sent |
| CatalogPager.FiltersReachEndpoint | app/catalogo/page.tsx:58-69 | the endpoint reads the category, the search text and the sort the filters hold, and the page number sent |
| CatalogPager.GetIsLookup | app/catalogo/page.tsx:81 | reading the query string by a key's name finds what the filter object holds under that key |
| CatalogPager.NameNotSent | app/catalogo/page.tsx:81 | a name no entry is sent under reads as absent, and as no values |
| CatalogPager.SearchSpacingIsInvisible | app/catalogo/page.tsx:61 | two searches that trim to the same text produce the same filters |
| CatalogPager.FetchStep | app/catalogo/page.tsx:66-98 | a cache hit serves the stored body and a miss stores the received one, with no existing entry changed; reset mode shows the body alone and append mode spreads it after the current items; `hasMore` holds iff a list of exactly 10 came back; a failure empties the list only in reset mode |
| CatalogPager.CacheHitIgnoresNetwork | app/catalogo/page.tsx:71-79 | when the page is cached the network answer is irrelevant and the cache is unchanged |
| CatalogPager.RefetchShowsCachedPage | app/catalogo/page.tsx:70-86 | fetching a page again shows exactly the body the first fetch stored |
| CatalogPager.CachedPagesLayout | app/catalogo/page.tsx:84-90 | full cached pages 1..n laid end to end are 10·n items long, and items 10·(k-1) to 10·k of them are cached page `k` |
| CatalogPager.CachedPagesStable | app/catalogo/page.tsx:84 | a cache that keeps its entries keeps the pages laid end to end |
| CatalogPager.ConsistentPagingCounts | app/catalogo/page.tsx:90 | with `hasMore`, the products shown are a list of 10·page items |
| CatalogPager.RestartIsConsistent | app/catalogo/page.tsx:129-132 | applying a filter sets page 1 and shows exactly the body of page 1 (or an empty list on error), and the paging invariant holds: with `hasMore`, the list shown is the cached page 1 |
| CatalogPager.LoadMoreAppends | app/catalogo/page.tsx:134-141 | load-more does nothing while loading or without more pages; otherwise it appends page `page+1` after the current items and advances `page` |
| CatalogPager.LoadMoreKeepsPagingConsistent | app/catalogo/page.tsx:134-141 | load-more keeps the invariant: while `hasMore` holds, pages 1..page are cached full lists and the list shown is exactly them laid end to end |
| CatalogPager.FilterChangesRestart | app/catalogo/page.tsx:117-163 | changing category, sort, either price bound or the search resets to page 1 with the new value, and keeps the paging invariant |
| CatalogPager.ReselectingCategoryRepeatsPageTwo | app/catalogo/page.tsx:117-163 | re-selecting the current category breaks the paging invariant: page 2 is already shown at items 10 to 19, and the next load-more appends the cached page 2 once more |
| CatalogPager.InitialStateSendsOnlyLimit | app/catalogo/page.tsx:143-151 | the first fetch sends only `limit`, the initial state is consistent and only page 1 is cached |
| CatalogPager.EndpointAnswerEndsPaging | app/catalogo/page.tsx:82-95 | for every answer of the listing endpoint, a fetch leaves `hasMore` false; a page answer leaves products the grid cannot list, and a failure empties the list in replace mode and keeps it in append mode |
| CatalogPager.CatalogPage.constructor | app/catalogo/page.tsx:40-52 | the page's state is that of empty filters after the first fetch of page 1 in replace mode |
| CatalogPager.CatalogPage.FetchProducts | app/catalogo/page.tsx:66-98 | the new state is `FetchStep` of the old one |
| CatalogPager.CatalogPage.Restart | app/catalogo/page.tsx:160-163 | the new state is the old one reset to page 1 and refetched in replace mode |
| CatalogPager.CatalogPage.LoadMore | app/catalogo/page.tsx:134-141 | the new state is `LoadMoreStep` of the old one |
| CatalogPager.CatalogPage.HandleCategoryChange | app/catalogo/page.tsx:117-120 | the category is set and the page is 1; a different category also refetches page 1 |
| CatalogPager.CatalogPage.ChangeSort | app/catalogo/page.tsx:160-163 | the sort is set; a different value refetches page 1 |
| CatalogPager.CatalogPage.HandlePriceChange | app/catalogo/page.tsx:122-127 | one price bound is set; a different value refetches page 1 |
| CatalogPager.CatalogPage.ApplyPriceFilter | app/catalogo/page.tsx:129-132 | page 1 is refetched in replace mode |
| CatalogPager.CatalogPage.ChangeSearch | app/catalogo/page.tsx:153-158 | the search text is set; a different value refetches page 1 |
| AdminProducts.Links | app/api/admin/products/route.ts:102-108 | one product–size link per listed size id, in order |
| AdminProducts.Post | app/api/admin/products/route.ts:31-123 | the response is the outcome of the validation chain and creation, and the store gains exactly the created product and its links or nothing |
| AdminProducts.FoundIsExistingIds | app/api/admin/products/route.ts:60-62 | the number of rows found for a list of ids is the number of distinct listed ids that exist |
| AdminProducts.SetOfSize | app/api/admin/products/route.ts:60-64 | a list has as many distinct ids as entries exactly when no id repeats |
| AdminProducts.FoundAllIff | app/api/admin/products/route.ts:64 | the count check passes iff the ids are distinct and every one exists, so repeated ids are refused |
| AdminProducts.PassesIff | app/api/admin/products/route.ts:36-92 | validation passes iff the admin exists, the categories are a non-empty list of distinct existing ids and the sizes are too |
| AdminProducts.FirstFailureDecides | app/api/admin/products/route.ts:36-69 | an unknown admin gives 404 first; then a non-array or empty category list gives 400; then a repeated or unknown category 404; later fields never change an earlier rejection |
| AdminProducts.SizeChecksFollowCategories | app/api/admin/products/route.ts:72-92 | once the admin and the categories pass, a non-array or empty size list gives 400, and a repeated or unknown size 404 |
| AdminProducts.CreatedProduct | app/api/admin/products/route.ts:94-110 | a product is created iff validation passes, the text fields and price are present and the store accepts; it takes the first category id, the given name, description, price and the admin |
| AdminProducts.FailureWritesNothing | app/api/admin/products/route.ts:36-122 | a rejected request leaves every table unchanged and answers 400, 404 or 500 |
| AdminCategories.Codes | app/api/admin/categories/route.ts:7-9 | the key a name is ordered by is its code points, one per character, in order |
| AdminCategories.Summaries | app/api/admin/categories/route.ts:19-25 | each entry is the projection of the category at the same position |
| AdminCategories.ListOutcome | app/api/admin/categories/route.ts:4-35 | the listing (`List`, of which `ListingIsSortedCensus` speaks) is returned exactly when the store answers, else 500 with the error message |
| AdminCategories.ListingIsSortedCensus | app/api/admin/categories/route.ts:6-25 | one entry per category, every category listed, each entry a projection of a category, ascending by name, and `productsCount` the number of products filed under it |
| AdminCategories.CreateOutcome | app/api/admin/categories/route.ts:37-62 | a missing or empty name gives 400; otherwise the category is created iff the store accepts, else 500 |
| AdminCategories.Create | app/api/admin/categories/route.ts:37-62 | the response is `CreateOutcome`; a refusal leaves the store unchanged and a creation appends exactly the new category |
| ProductService.ProductByIdMeaning | lib/services/product.service.ts:3-16 | `null` exactly when no product has the id; otherwise that product with its relations |
| ProductService.ProductsByCategoryMeaning | lib/services/product.service.ts:27-37 | exactly the products of the category, each as often as in the table, with their own images |
| ProductService.ListingImagesAreOwn | lib/services/product.service.ts:32-35 | a listing's images are exactly the images of its product |
| ProductService.ProductWithRelatedMeaning | lib/services/product.service.ts:39-59 | `null` exactly when the product is missing; otherwise the product and min(3, number of candidates) related products, each in the same category, none of them the product itself, none more often than the table holds it |
| ProductService.FeaturedProductsMeaning | lib/services/product.service.ts:61-71 | exactly the featured products, each as often as in the table, inactive ones included |
| HomeProducts.HomeOutcome | app/api/products/home/route.ts:47-54 | the feed (`Feed`, of which `FeedRows`, `FeedProjection` and `FeedIsNewest` speak) is returned exactly when the store answers, else 500 with an error body |
| HomeProducts.FeedRows | app/api/products/home/route.ts:10-31 | at most 12 items, each an active and featured product of the table, newest first |
| HomeProducts.ShownRows | app/api/products/home/route.ts:11-14 | at most 12 products, all active and featured, newest first |
| HomeProducts.FeedProjection | app/api/products/home/route.ts:15-27 | each item has at most one image url, taken from its own product's images, and its category's name only |
| HomeProducts.ProjectMeaning | app/api/products/home/route.ts:15-27 | the projection keeps the product and attaches only its category name and at most one of its image urls |
| HomeProducts.FirstImageUrl | app/api/products/home/route.ts:16-21 | `take: 1` of a product's images leaves at most one url, which belongs to an image of that product |
| HomeProducts.FeedIsNewest | app/api/products/home/route.ts:28-31 | with at most 12 eligible products all are shown; an eligible product left out is no newer than any shown one |
| Middleware.AnyPrefixMeaning | app/middleware.ts:14-16 | `some(startsWith)` holds exactly when one of the routes is a prefix of the path |
| Middleware.ProtectedIff | app/middleware.ts:7-16 | a path is protected iff it starts with `/api/admin/profile` or `/api/admin/produtos` |
| Middleware.RawPrefixMatch | app/middleware.ts:7-16 | the match is on raw text: `/api/admin/products` is not protected, `/api/admin/profileX` is |
| Middleware.Guard | app/middleware.ts:5-44 | a request passes iff its path is unprotected or it has a token, the secret is configured and verification succeeds; otherwise 401, "Token não encontrado" without a token and the invalid-token message without a secret |
| Middleware.UnprotectedPassesThrough | app/middleware.ts:43 | an unprotected path passes whatever cookie, secret or verifier |
| Schema.IssueOf | lib/validations/product.ts:3-12 | a field yields no issue exactly when it is valid, else one issue at its path |
| Schema.NonEmptyText | lib/validations/product.ts:4-5 | accepted iff a non-empty string; missing gives "required", empty gives the field's message |
| Schema.Texts | lib/validations/product.ts:11 | an array of strings reads as the strings in order |
| Schema.NonEmptyTextList | lib/validations/product.ts:11 | accepted iff an array of strings with at least one element; missing gives "required", empty gives the field's message |
| Schema.Flag | lib/validations/product.ts:8-9 | a boolean is accepted as given, and a missing one takes the default when there is one |
| Schema.NumberAtLeast | lib/validations/product.ts:6 | a number at least the bound is accepted and a missing one takes the default; a smaller one gives the field's message |
| Schema.OptionalList | lib/validations/product.ts:10 | a missing list or any array is accepted |
| ProductValidation.FieldIssue | lib/validations/product.ts:3-12 | each field yields at most one issue, at its own path |
| ProductValidation.ParseProduct | lib/validations/product.ts:3-12 | valid iff every field passes; the result holds the given values with price 0, active true and ready false as defaults; otherwise the issues of the failing fields |
| ProductValidation.ParseProductReportsEachField | lib/validations/product.ts:3-12 | an invalid product lists at least one issue, and an issue is listed exactly when its field fails with it |
| ProductValidation.ListedFromItsField | lib/validations/product.ts:3-12 | every failing field's issue is reported |
| ProductValidation.FoundInSomeField | lib/validations/product.ts:3-12 | every reported issue comes from a failing field |
| ProductValidation.ParseProductExamples | lib/validations/product.ts:4-11 | a missing name is reported at `name`; an empty size list is reported with "Selecione pelo menos um tamanho" |
| NewProductForm.ParseForm | components/admin/NewProductForm.tsx:22-28 | valid iff name, description and price are non-empty strings and categories and sizes are non-empty string arrays; otherwise the failing fields' issues |
| NewProductForm.TextList | components/admin/NewProductForm.tsx:134 | the selection list as the form's array value, one string per id |
| NewProductForm.WithoutMeaning | components/admin/NewProductForm.tsx:159-164 | removing an id removes every occurrence of it and keeps every other id as often as before; it changes nothing when the id is absent |
| NewProductForm.CheckThenUncheck | components/admin/NewProductForm.tsx:188-199 | checking then unchecking a size restores a selection that did not hold it |
| NewProductForm.Form.constructor | components/admin/NewProductForm.tsx:39-56 | the form starts with no categories, no sizes and not loading |
| NewProductForm.Form.SelectCategory | components/admin/NewProductForm.tsx:131-135 | the category is appended at the end, with no duplicate check |
| NewProductForm.Form.RemoveCategory | components/admin/NewProductForm.tsx:159-164 | the selection becomes the old one without that id |
| NewProductForm.Form.ToggleSize | components/admin/NewProductForm.tsx:188-199 | checking appends the size; unchecking removes it; nothing else changes |
| NewProductForm.Form.Submit | components/admin/NewProductForm.tsx:58-97 | an invalid form sends nothing; a valid one sends a request exactly when an admin is signed in, carrying the admin, the fields and the selections, and ends not loading |
| NewProductForm.SelectingTwiceRepeats | components/admin/NewProductForm.tsx:131-135 | selecting the same category twice leaves a list with a repeat |
| NewProductForm.RepeatedCategoryIsRefused | components/admin/NewProductForm.tsx:131-135 | a request with a repeated category is refused by the server with 404 |
| EditProductForm.ParseForm | components/admin/EditProductForm.tsx:30-39 | valid iff name, description, price and category are non-empty strings, sizes a non-empty string array and the three flags booleans |
| EditProductForm.InitialSizes | components/admin/EditProductForm.tsx:54-56 | the initial selection is the product's size ids, in order |
| EditProductForm.SubmitOutcome | components/admin/EditProductForm.tsx:88-134 | no request without an admin and then without a category, each with its message; a sent request carries the product id, the admin and the data; no error iff sent and accepted; a refusal shows the server's error or "Erro ao atualizar produto" |
| EditProductForm.Form.constructor | components/admin/EditProductForm.tsx:52-78 | the form starts from the product's category, size ids and flags, not submitting and with no error |
| EditProductForm.Form.SelectCategory | components/admin/EditProductForm.tsx:211-213 | the category becomes the chosen value and no other field changes |
| EditProductForm.Form.SetSwitch | components/admin/EditProductForm.tsx:270-297 | each switch sets its own flag and no other field changes |
| EditProductForm.Form.ToggleSize | components/admin/EditProductForm.tsx:241-253 | checking appends the size and unchecking removes it, in both the selection and the form value; no other field changes |
| EditProductForm.Form.Submit | components/admin/EditProductForm.tsx:88-134 | an invalid form sends nothing and changes nothing; a valid one follows `SubmitOutcome`, records its error, ends not submitting and changes no other field |
| EditProductForm.SentRequestsAreComplete | components/admin/EditProductForm.tsx:93-111 | a valid form's request is sent exactly when an admin is present, and carries every validated field |
| EditProductForm.InitialSizesPass | components/admin/EditProductForm.tsx:54-56 | the untouched selection passes the size check exactly when the product has a size, and then reads as the product's size ids |

## Left out

- HTTP, JSON serialisation, `FormData` and the React runtime are left out. Handlers are functions or methods from parsed inputs to responses, and a component's state is a class's fields.
- The store is not called. Its answers are parameters: `storeAvailable`, `reachable` or `accepted` for success or failure; new ids and creation timestamps are given. Failures inside the store (constraint violations, connection loss) become that boolean.
- Concurrency: the two queries of the listing run in parallel in the source (`Promise.all`). They are modelled as one snapshot, read sequentially.
- The debounce timer of the catalog search (app/catalogo/page.tsx:109-115) is left out: a search change refetches at once. The extra debounced rerun when `buildFilters` changes identity is also left out.
- The home feed's `cacheStrategy` TTL/SWR caching (app/api/products/home/route.ts:32-36) is infrastructure, not logic.
- Floating point: prices are integer cents and the price bounds are integers. `parseInt`/`parseFloat` coercion, including `NaN` from non-numeric text, is outside the model: parameters arrive parsed or absent.
- CatalogQuery.Query: a negative `perPage` is modelled as the 500 answer. The store's take-from-the-end reading of a negative `take` is not modelled.
- CatalogPager: the cache key is the list of filter entries plus the page number. `JSON.stringify` of the filter object is taken to be injective, so two keys are equal exactly when the entries are.
- CatalogPager: an object body stored in the products state is modelled as `NotAList`. Whether React then shows an error page or a blank grid is not modelled. Neither is the state after a later list body replaces it.
- CatalogPager: a body that is neither a list nor the endpoint's object, and a list holding something other than products, are not modelled.
- `getProducts` (lib/services/product.service.ts:18-25) is left out. It is an unfiltered listing with relations; the same relation attachment is modelled in `ProductService.ListingsOf`.
- The unfiltered `GET` of app/api/admin/products/route.ts, and the PUT and delete routes behind the edit form and the category page, are left out. They are not part of the core, and their handlers are not part of this model.
- Middleware: JWT verification is an opaque `verify(token, secret)` oracle, and the route matcher configuration (app/middleware.ts:46-48) is left out.
- Zod: per-element issues inside arrays are collapsed into one wrong-type issue for the field. Zod's own default message texts are represented by the `Required` and `InvalidType` problems.
- AdminCategories.ListingIsSortedCensus: names are ordered by code point, not by the database's collation.
- AdminCategories.Create: uniqueness of category names is not modelled, because the database schema is not part of this model. A store refusal for any reason is the `accepted` parameter.
- ProductService.ProductWithRelatedMeaning: which three related products come back is not promised. The query has no `orderBy`, so the store may return any three candidates. The model's function takes them in table order, but the contract states only their number, their membership and their multiplicity.
- `findMany` without `orderBy` elsewhere in the product service returns rows in table order in the model. The contracts about those lists use only membership and counts.
- CatalogQuery.Expand: the images and size links attached to a product come in table order. The `include` has no `orderBy`, so the store promises no order there; the order is the model's choice, and `ProductService.ProductByIdMeaning` inherits it.
- CatalogQuery.Lower: case folding covers ASCII and Latin-1 capitals only. The store's `mode: "insensitive"` uses the database's full Unicode case folding, so letters outside Latin-1 (Greek, Cyrillic, `Œ`, `Ÿ`) are not folded in the model.
- CatalogQuery.WhereMeansMatches: "ignoring case" means the Latin-1 folding of `CatalogQuery.Lower`, not full Unicode folding.
- CatalogQuery.Query: the order the store answers in is a parameter. It is constrained to the matching products sorted by the key; how the store breaks ties is not modelled.
- Navigation (`router.push`), toasts and console logging in the forms are left out.
- EditProductForm: only the request the form sends is modelled. What the server does with it is not.
