/** The catalog page in the browser (`app/catalogo/page.tsx`): it turns the filter
    controls into the query-string entries it sends, keeps the products shown so
    far, pages through the listing with "load more", and caches every page it has
    fetched under the serialised filters and page number.

    Each handler is specified by a step function on `PagerState`; the class
    `CatalogPage` holds the same state in mutable fields and its methods are tied
    to those step functions. The network is a parameter: `Fetch` is what the
    request produced. */
module CatalogPager {
  import opened Base
  import CatalogQuery

  /** `ITEMS_PER_PAGE`, and the text it is sent as. */
  const ItemsPerPage: int := 10
  const LimitText: string := "10"
  const DefaultSort: string := "relevancia"

  /** A product as the page reads it from the response. */
  datatype Item = Item(id: string, name: string, price: int, imageUrls: seq<string>)

  /** The properties `buildFilters` may set, and the names they are sent under. */
  datatype FilterKey = Limit | CategoryId | MinPrice | MaxPrice | Search | Sort

  function KeyName(k: FilterKey): string
  {
    match k
    case Limit => "limit"
    case CategoryId => "categoryId"
    case MinPrice => "minPrice"
    case MaxPrice => "maxPrice"
    case Search => "search"
    case Sort => "sort"
  }

  /** An object of string values, as its entries in insertion order. */
  type Entries = seq<(FilterKey, string)>

  predicate HasKey(es: Entries, k: FilterKey)
  {
    exists i :: 0 <= i < |es| && es[i].0 == k
  }

  /** The value stored under `k` (JavaScript property access). */
  function Lookup(es: Entries, k: FilterKey): Option<string>
  {
    if es == [] then None
    else if es[0].0 == k then Some(es[0].1)
    else Lookup(es[1..], k)
  }

  /** A key has a value exactly when some entry carries it, and the value found is
      the one of such an entry. */
  lemma {:induction false} LookupFinds(es: Entries, k: FilterKey)
    ensures Lookup(es, k).Some? <==> HasKey(es, k)
    ensures Lookup(es, k).Some? ==> (k, Lookup(es, k).value) in es
  {
    if es != [] && es[0].0 != k {
      LookupFinds(es[1..], k);
      if HasKey(es, k) {
        var i :| 0 <= i < |es| && es[i].0 == k;
        assert es[1..][i - 1].0 == k;
      }
      if HasKey(es[1..], k) {
        var i :| 0 <= i < |es[1..]| && es[1..][i].0 == k;
        assert es[i + 1].0 == k;
      }
    }
  }

  lemma {:induction false} LookupAppend(a: Entries, b: Entries, k: FilterKey)
    ensures Lookup(a + b, k) == if Lookup(a, k).Some? then Lookup(a, k) else Lookup(b, k)
  {
    if a == [] {
      assert a + b == b;
    } else {
      assert (a + b)[1..] == a[1..] + b;
      LookupAppend(a[1..], b, k);
    }
  }

  predicate DistinctKeys(es: Entries)
  {
    forall i, j :: 0 <= i < j < |es| ==> es[i].0 != es[j].0
  }

  /** The characters `String.prototype.trim` removes: white space (tab, vertical tab,
      form feed, the byte-order mark and category Zs) and line terminators. */
  predicate IsJsSpace(c: char)
  {
    || c == '\t' || c == '\n' || c == '\U{B}' || c == '\U{C}' || c == '\r' || c == ' '
    || c == '\U{A0}' || c == '\U{1680}' || ('\U{2000}' <= c <= '\U{200A}')
    || c == '\U{2028}' || c == '\U{2029}' || c == '\U{202F}' || c == '\U{205F}'
    || c == '\U{3000}' || c == '\U{FEFF}'
  }

  /** The text after the leading characters that `space` accepts. */
  function TrimStart(s: string, space: char -> bool): string
  {
    if s != [] && space(s[0]) then TrimStart(s[1..], space) else s
  }

  /** The text before the trailing characters that `space` accepts. */
  function TrimEnd(s: string, space: char -> bool): string
  {
    if s != [] && space(s[|s| - 1]) then TrimEnd(s[..|s| - 1], space) else s
  }

  lemma {:induction false} TrimStartCuts(s: string, space: char -> bool)
    ensures |TrimStart(s, space)| <= |s| && TrimStart(s, space) == s[|s| - |TrimStart(s, space)|..]
    ensures TrimStart(s, space) == [] || !space(TrimStart(s, space)[0])
    ensures forall k :: 0 <= k < |s| - |TrimStart(s, space)| ==> space(s[k])
  {
    if s != [] && space(s[0]) {
      TrimStartCuts(s[1..], space);
    }
  }

  lemma {:induction false} TrimEndCuts(s: string, space: char -> bool)
    ensures |TrimEnd(s, space)| <= |s| && TrimEnd(s, space) == s[..|TrimEnd(s, space)|]
    ensures TrimEnd(s, space) == [] || !space(TrimEnd(s, space)[|TrimEnd(s, space)| - 1])
    ensures forall k :: |TrimEnd(s, space)| <= k < |s| ==> space(s[k])
  {
    if s != [] && space(s[|s| - 1]) {
      TrimEndCuts(s[..|s| - 1], space);
    }
  }

  /** `r` is `s` with the characters before position `i` and after `r` cut away,
      all of them accepted by `space`. */
  predicate TrimmedAt(s: string, r: string, i: int, space: char -> bool)
  {
    && 0 <= i && i + |r| <= |s| && r == s[i..i + |r|]
    && (forall k :: 0 <= k < i ==> space(s[k]))
    && (forall k :: i + |r| <= k < |s| ==> space(s[k]))
  }

  /** Both ends cut. */
  function TrimBy(s: string, space: char -> bool): string
  {
    TrimEnd(TrimStart(s, space), space)
  }

  /** The trimmed text is the middle part of `s` that neither starts nor ends with a
      character `space` accepts, once only such characters are cut away at both ends. */
  lemma TrimByCuts(s: string, space: char -> bool)
    ensures TrimBy(s, space) == [] || (!space(TrimBy(s, space)[0]) && !space(TrimBy(s, space)[|TrimBy(s, space)| - 1]))
    ensures exists i :: TrimmedAt(s, TrimBy(s, space), i, space)
  {
    var a := TrimStart(s, space);
    var r := TrimEnd(a, space);
    TrimStartCuts(s, space);
    TrimEndCuts(a, space);
    var i := |s| - |a|;
    assert r == s[i..i + |r|];
    forall k | i + |r| <= k < |s| ensures space(s[k]) {
      assert s[k] == a[k - i];
    }
    assert TrimmedAt(s, r, i, space);
  }

  lemma TrimIdempotent(s: string, space: char -> bool)
    ensures TrimBy(TrimBy(s, space), space) == TrimBy(s, space)
  {
    var r := TrimBy(s, space);
    TrimByCuts(s, space);
    assert TrimStart(r, space) == r;
    assert TrimEnd(r, space) == r;
  }

  /** The trimmed text is empty exactly when every character is cut. */
  lemma TrimEmptyIffBlank(s: string, space: char -> bool)
    ensures TrimBy(s, space) == [] <==> forall k :: 0 <= k < |s| ==> space(s[k])
  {
    TrimByCuts(s, space);
    var i :| TrimmedAt(s, TrimBy(s, space), i, space);
  }

  /** `String.prototype.trim`. */
  function Trim(s: string): string
  {
    TrimBy(s, IsJsSpace)
  }

  /** The filter controls that `buildFilters` reads. */
  datatype Inputs = Inputs(
    selectedCategory: string,
    priceMin: string,
    priceMax: string,
    searchQuery: string,
    sortBy: string)

  function Entry(k: FilterKey, v: string, present: bool): Entries
  {
    if present then [(k, v)] else []
  }

  /** `buildFilters`: `limit` first, then each control that is set, in a fixed order;
      the search text is sent trimmed. */
  function BuildFilters(i: Inputs): (r: Entries)
    ensures |r| >= 1 && r[0] == (Limit, LimitText)
  {
    EntriesFor(i, Trim(i.searchQuery))
  }

  /** The entries for the controls `i`, with `search` standing for the trimmed search text. */
  function EntriesFor(i: Inputs, search: string): Entries
  {
    [(Limit, LimitText)]
    + (Entry(CategoryId, i.selectedCategory, i.selectedCategory != "")
    + (Entry(MinPrice, i.priceMin, i.priceMin != "")
    + (Entry(MaxPrice, i.priceMax, i.priceMax != "")
    + (Entry(Search, search, search != "")
    + Entry(Sort, i.sortBy, i.sortBy != DefaultSort)))))
  }

  /** What each filter key should hold, key by key, given the trimmed search text. */
  function FilterValue(i: Inputs, search: string, k: FilterKey): Option<string>
  {
    match k
    case Limit => Some(LimitText)
    case CategoryId => if i.selectedCategory != "" then Some(i.selectedCategory) else None
    case MinPrice => if i.priceMin != "" then Some(i.priceMin) else None
    case MaxPrice => if i.priceMax != "" then Some(i.priceMax) else None
    case Search => if search != "" then Some(search) else None
    case Sort => if i.sortBy != DefaultSort then Some(i.sortBy) else None
  }

  lemma EntriesForMeaning(i: Inputs, search: string, k: FilterKey)
    ensures Lookup(EntriesFor(i, search), k) == FilterValue(i, search, k)
  {
    var so := Entry(Sort, i.sortBy, i.sortBy != DefaultSort);
    var r4 := Entry(Search, search, search != "") + so;
    var r3 := Entry(MaxPrice, i.priceMax, i.priceMax != "") + r4;
    var r2 := Entry(MinPrice, i.priceMin, i.priceMin != "") + r3;
    var r1 := Entry(CategoryId, i.selectedCategory, i.selectedCategory != "") + r2;
    LookupEntryThen(Limit, LimitText, true, r1, k);
    LookupEntryThen(CategoryId, i.selectedCategory, i.selectedCategory != "", r2, k);
    LookupEntryThen(MinPrice, i.priceMin, i.priceMin != "", r3, k);
    LookupEntryThen(MaxPrice, i.priceMax, i.priceMax != "", r4, k);
    LookupEntryThen(Search, search, search != "", so, k);
    LookupEntryThen(Sort, i.sortBy, i.sortBy != DefaultSort, [], k);
    assert so + [] == so;
  }

  lemma LookupEntryThen(key: FilterKey, v: string, present: bool, rest: Entries, k: FilterKey)
    ensures Lookup(Entry(key, v, present) + rest, k) == if present && k == key then Some(v) else Lookup(rest, k)
  {
    LookupAppend(Entry(key, v, present), rest, k);
  }

  /** Read as an object, the filters hold exactly the value `FilterValue` gives each
      key: `limit` is always "10", an empty control is left out, a blank search is
      left out and a non-blank one is sent trimmed, and the default sort is left out. */
  lemma BuildFiltersMeaning(i: Inputs, k: FilterKey)
    ensures Lookup(BuildFilters(i), k) == FilterValue(i, Trim(i.searchQuery), k)
  {
    EntriesForMeaning(i, Trim(i.searchQuery), k);
  }

  /** The value of the first entry whose key is sent under `name`
      (`URLSearchParams.get` on the query string built from the entries). */
  function Get(es: Entries, name: string): Option<string>
  {
    if es == [] then None
    else if KeyName(es[0].0) == name then Some(es[0].1)
    else Get(es[1..], name)
  }

  /** The values of every entry sent under `name` (`URLSearchParams.getAll`). */
  function GetAll(es: Entries, name: string): seq<string>
  {
    if es == [] then []
    else (if KeyName(es[0].0) == name then [es[0].1] else []) + GetAll(es[1..], name)
  }

  /** A numeric parameter: absent or empty means the endpoint's default. */
  function Number(v: Option<string>, parse: string -> Option<int>): Option<int>
  {
    if v.Some? && v.value != "" then parse(v.value) else None
  }

  /** The parameters the listing endpoint reads from the request for the filters `es`
      and page `pageNum`; `parse` stands for the number parsing, which plays no part
      in which names are read. */
  function EndpointParams(es: Entries, pageNum: int, parse: string -> Option<int>): CatalogQuery.Params
  {
    CatalogQuery.Params(
      Get(es, "categoryId"),
      Number(Get(es, "minPrice"), parse),
      Number(Get(es, "maxPrice"), parse),
      Get(es, "search"),
      GetAll(es, "sizeId"),
      Get(es, "sort"),
      Some(pageNum),
      Number(Get(es, "perPage"), parse))
  }

  lemma KeyNamesDiffer(a: FilterKey, b: FilterKey)
    ensures KeyName(a) == KeyName(b) ==> a == b
  {
  }

  /** Reading by name finds what reading by key finds. */
  lemma {:induction false} GetIsLookup(es: Entries, k: FilterKey)
    ensures Get(es, KeyName(k)) == Lookup(es, k)
  {
    if es != [] {
      KeyNamesDiffer(es[0].0, k);
      GetIsLookup(es[1..], k);
    }
  }

  /** A name no entry is sent under is absent from the request. */
  lemma {:induction false} NameNotSent(es: Entries, name: string)
    requires forall e :: e in es ==> KeyName(e.0) != name
    ensures Get(es, name) == None && GetAll(es, name) == []
  {
    if es != [] {
      assert es[0] in es;
      assert forall e :: e in es[1..] ==> e in es;
      NameNotSent(es[1..], name);
    }
  }

  /** No filter is sent under the names the endpoint reads its page size and its
      size filter from. */
  lemma NoKeyIsPageSizeOrSize(es: Entries)
    ensures forall e :: e in es ==> KeyName(e.0) != "perPage"
    ensures forall e :: e in es ==> KeyName(e.0) != "sizeId"
  {
    forall e | e in es ensures KeyName(e.0) != "perPage" && KeyName(e.0) != "sizeId" {
      assert |KeyName(e.0)| != 7 || KeyName(e.0)[0] != 'p';
      assert |KeyName(e.0)| != 6 || KeyName(e.0)[0] != 's' || KeyName(e.0)[1] != 'i';
    }
  }

  /** The request carries `limit` and never `perPage`, the name the listing endpoint
      reads, so the endpoint falls back to its default of 50 rows per page; nor does
      it ever carry a size filter. */
  lemma ClientPageSizeIsIgnored(i: Inputs, pageNum: int, parse: string -> Option<int>)
    ensures Lookup(BuildFilters(i), Limit) == Some(LimitText)
    ensures EndpointParams(BuildFilters(i), pageNum, parse).perPage == None
    ensures CatalogQuery.PerPageOf(EndpointParams(BuildFilters(i), pageNum, parse)) == CatalogQuery.DefaultPerPage != ItemsPerPage
    ensures EndpointParams(BuildFilters(i), pageNum, parse).sizeIds == []
  {
    var es := BuildFilters(i);
    BuildFiltersMeaning(i, Limit);
    NoKeyIsPageSizeOrSize(es);
    NameNotSent(es, "perPage");
    NameNotSent(es, "sizeId");
  }

  /** The category, the search text and the sort reach the endpoint as the filters
      hold them, and the page asked for is the page sent. */
  lemma FiltersReachEndpoint(i: Inputs, pageNum: int, parse: string -> Option<int>)
    ensures EndpointParams(BuildFilters(i), pageNum, parse).categoryId == FilterValue(i, Trim(i.searchQuery), CategoryId)
    ensures EndpointParams(BuildFilters(i), pageNum, parse).search == FilterValue(i, Trim(i.searchQuery), Search)
    ensures EndpointParams(BuildFilters(i), pageNum, parse).sort == FilterValue(i, Trim(i.searchQuery), Sort)
    ensures CatalogQuery.PageOf(EndpointParams(BuildFilters(i), pageNum, parse)) == pageNum
  {
    var es := BuildFilters(i);
    BuildFiltersMeaning(i, CategoryId);
    BuildFiltersMeaning(i, Search);
    BuildFiltersMeaning(i, Sort);
    GetIsLookup(es, CategoryId);
    GetIsLookup(es, Search);
    GetIsLookup(es, Sort);
  }

  /** Surrounding white space in the search box does not change the request. */
  lemma SearchSpacingIsInvisible(i: Inputs, q: string)
    requires Trim(q) == Trim(i.searchQuery)
    ensures BuildFilters(i.(searchQuery := q)) == BuildFilters(i)
  {
  }

  /** The cache key: the serialised filters together with the page number. */
  datatype CacheKey = CacheKey(filters: Entries, page: int)

  function KeyFor(i: Inputs, pageNum: int): CacheKey
  {
    CacheKey(BuildFilters(i), pageNum)
  }

  /** The body of an answer as the page reads it (`response.data`). The page expects
      an array of products; the listing endpoint answers with an object that holds
      the array under `data` and the counts under `meta`. An absent body reads as
      the empty array. */
  datatype Body = ListBody(items: seq<Item>) | ObjectBody(data: seq<Item>, total: nat)

  /** What the request produced: an answer, or a failure. */
  datatype Fetch = Answered(body: Body) | Failed

  /** The `products` state. `NotAList` is the state once an object body has been
      stored in it or spread into it: the grid's `map` and the spread of the next
      page both fail on it, so the page cannot list its products. */
  datatype Shown = Listed(items: seq<Item>) | NotAList

  /** `setProducts(body)` in replace mode. */
  function Show(b: Body): Shown
  {
    if b.ListBody? then Listed(b.items) else NotAList
  }

  /** `setProducts(prev => [...prev, ...body])` in append mode. */
  function Appended(p: Shown, b: Body): Shown
  {
    if p.Listed? && b.ListBody? then Listed(p.items + b.items) else NotAList
  }

  /** `body.length === ITEMS_PER_PAGE`: an object has no length, so it is never full. */
  predicate IsFullPage(b: Body)
  {
    b.ListBody? && |b.items| == ItemsPerPage
  }

  datatype PagerState = PagerState(
    inputs: Inputs,
    products: Shown,
    page: int,
    hasMore: bool,
    isLoadingMore: bool,
    cache: map<CacheKey, Body>)

  /** The body a fetch of page `pageNum` obtains: the cached one when there is one,
      otherwise what the request was answered with. */
  function Served(s: PagerState, pageNum: int, f: Fetch): Option<Body>
  {
    var key := KeyFor(s.inputs, pageNum);
    if key in s.cache then Some(s.cache[key])
    else if f.Answered? then Some(f.body)
    else None
  }

  /** `fetchProducts(pageNum, reset)`. */
  function FetchStep(s: PagerState, pageNum: int, reset: bool, f: Fetch): (r: PagerState)
    ensures r.inputs == s.inputs && r.page == s.page && r.isLoadingMore == s.isLoadingMore
    // the cache only grows, by at most the key of this request, and never changes an entry
    ensures forall k :: k in r.cache <==>
              k in s.cache || (k == KeyFor(s.inputs, pageNum) && Served(s, pageNum, f).Some?)
    ensures forall k :: k in s.cache ==> r.cache[k] == s.cache[k]
    ensures Served(s, pageNum, f).Some? ==> r.cache[KeyFor(s.inputs, pageNum)] == Served(s, pageNum, f).value
    // a full page, and only a full page, says there may be more
    ensures r.hasMore <==> Served(s, pageNum, f).Some? && IsFullPage(Served(s, pageNum, f).value)
    // replace mode shows the page alone; append mode keeps what was shown and adds the page;
    // a failure empties the list in replace mode and keeps it in append mode
    ensures reset ==> r.products == if Served(s, pageNum, f).Some? then Show(Served(s, pageNum, f).value) else Listed([])
    ensures !reset ==> r.products == if Served(s, pageNum, f).Some? then Appended(s.products, Served(s, pageNum, f).value) else s.products
  {
    var key := KeyFor(s.inputs, pageNum);
    if key in s.cache then
      var cached := s.cache[key];
      s.(products := if reset then Show(cached) else Appended(s.products, cached),
         hasMore := IsFullPage(cached))
    else
      match f
      case Answered(body) =>
        s.(cache := s.cache[key := body],
           products := if reset then Show(body) else Appended(s.products, body),
           hasMore := IsFullPage(body))
      case Failed =>
        s.(products := if reset then Listed([]) else s.products, hasMore := false)
  }

  /** A cached page is served without using the network. */
  lemma CacheHitIgnoresNetwork(s: PagerState, pageNum: int, reset: bool, f1: Fetch, f2: Fetch)
    requires KeyFor(s.inputs, pageNum) in s.cache
    ensures FetchStep(s, pageNum, reset, f1) == FetchStep(s, pageNum, reset, f2)
    ensures FetchStep(s, pageNum, reset, f1).cache == s.cache
  {
  }

  /** After a page has been fetched once, fetching it again with the same filters
      shows the same body, whatever the network would do now. */
  lemma RefetchShowsCachedPage(s: PagerState, pageNum: int, reset: bool, b: Body, f: Fetch)
    requires KeyFor(s.inputs, pageNum) !in s.cache
    ensures FetchStep(FetchStep(s, pageNum, reset, Answered(b)), pageNum, true, f).products == Show(b)
  {
  }

  /** The cache holds a full list for page `k` of the filters `i`. */
  predicate FullPageCached(cache: map<CacheKey, Body>, i: Inputs, k: int)
  {
    KeyFor(i, k) in cache && IsFullPage(cache[KeyFor(i, k)])
  }

  /** The list the cache holds for page `k` of the filters `i` (empty when it holds none). */
  function PageItems(cache: map<CacheKey, Body>, i: Inputs, k: int): seq<Item>
  {
    if KeyFor(i, k) in cache && cache[KeyFor(i, k)].ListBody? then cache[KeyFor(i, k)].items else []
  }

  /** The cached lists of pages 1 to `n`, one after the other. */
  function CachedPages(cache: map<CacheKey, Body>, i: Inputs, n: nat): seq<Item>
  {
    if n == 0 then [] else CachedPages(cache, i, n - 1) + PageItems(cache, i, n)
  }

  /** `hasMore` promises that pages 1 to `page` were all full and that the products
      shown are exactly those pages, in order. */
  predicate PagingConsistent(s: PagerState)
  {
    s.hasMore ==>
      && s.page >= 1
      && (forall k :: 1 <= k <= s.page ==> FullPageCached(s.cache, s.inputs, k))
      && s.products == Listed(CachedPages(s.cache, s.inputs, s.page))
  }

  /** Full pages 1 to `n` make a list of `n` pages, and page `k` of it is the cached
      page `k`. */
  lemma {:induction false} CachedPagesLayout(cache: map<CacheKey, Body>, i: Inputs, n: nat, k: nat)
    requires forall j :: 1 <= j <= n ==> FullPageCached(cache, i, j)
    ensures |CachedPages(cache, i, n)| == ItemsPerPage * n
    ensures 1 <= k <= n ==>
      CachedPages(cache, i, n)[ItemsPerPage * (k - 1)..ItemsPerPage * k] == PageItems(cache, i, k)
  {
    if n > 0 {
      CachedPagesLayout(cache, i, n - 1, k);
      var prev := CachedPages(cache, i, n - 1);
      assert FullPageCached(cache, i, n);
      if 1 <= k < n {
        assert CachedPages(cache, i, n)[ItemsPerPage * (k - 1)..ItemsPerPage * k]
            == prev[ItemsPerPage * (k - 1)..ItemsPerPage * k];
      }
    }
  }

  /** A cache that keeps every entry of pages 1 to `n` keeps their concatenation. */
  lemma {:induction false} CachedPagesStable(c1: map<CacheKey, Body>, c2: map<CacheKey, Body>, i: Inputs, n: nat)
    requires forall j :: 1 <= j <= n ==> FullPageCached(c1, i, j)
    requires forall key :: key in c1 ==> key in c2 && c2[key] == c1[key]
    ensures CachedPages(c2, i, n) == CachedPages(c1, i, n)
  {
    if n > 0 {
      assert FullPageCached(c1, i, n);
      CachedPagesStable(c1, c2, i, n - 1);
    }
  }

  /** With `hasMore`, the list shown is `page` full pages long. */
  lemma ConsistentPagingCounts(s: PagerState)
    requires PagingConsistent(s) && s.hasMore
    ensures s.products.Listed? && |s.products.items| == ItemsPerPage * s.page
  {
    CachedPagesLayout(s.cache, s.inputs, s.page, 0);
  }

  /** Back to page 1 and fetch it in replace mode (the effect of lines 160-163,
      `applyPriceFilter`, and the debounced search). */
  function RestartStep(s: PagerState, f: Fetch): PagerState
  {
    FetchStep(s.(page := 1), 1, true, f)
  }

  /** Restarting leaves page 1 shown and the paging consistent, from any state. */
  lemma RestartIsConsistent(s: PagerState, f: Fetch)
    ensures RestartStep(s, f).page == 1
    ensures PagingConsistent(RestartStep(s, f))
    ensures RestartStep(s, f).products == match Served(s, 1, f) case Some(b) => Show(b) case None => Listed([])
  {
    assert KeyFor(s.(page := 1).inputs, 1) == KeyFor(s.inputs, 1);
    var r := RestartStep(s, f);
    if r.hasMore {
      assert FullPageCached(r.cache, r.inputs, 1);
      assert CachedPages(r.cache, r.inputs, 1) == [] + PageItems(r.cache, r.inputs, 1);
    }
  }

  /** `loadMore`: nothing while loading or when no more is expected; otherwise the next
      page is fetched in append mode and the page counter advances, even when the
      fetch failed. */
  function LoadMoreStep(s: PagerState, f: Fetch): PagerState
  {
    if s.isLoadingMore || !s.hasMore then s
    else FetchStep(s.(isLoadingMore := true), s.page + 1, false, f).(page := s.page + 1, isLoadingMore := false)
  }

  lemma LoadMoreAppends(s: PagerState, f: Fetch)
    ensures s.isLoadingMore || !s.hasMore ==> LoadMoreStep(s, f) == s
    ensures !s.isLoadingMore && s.hasMore ==>
      && LoadMoreStep(s, f).page == s.page + 1
      && !LoadMoreStep(s, f).isLoadingMore
      && LoadMoreStep(s, f).products ==
           match Served(s, s.page + 1, f) case Some(b) => Appended(s.products, b) case None => s.products
  {
    assert KeyFor(s.(isLoadingMore := true).inputs, s.page + 1) == KeyFor(s.inputs, s.page + 1);
  }

  /** "Load more" from a consistent state keeps it consistent: when more is still
      expected, the list shown is the cached pages 1 to the new page. */
  lemma LoadMoreKeepsPagingConsistent(s: PagerState, f: Fetch)
    requires PagingConsistent(s)
    ensures PagingConsistent(LoadMoreStep(s, f))
  {
    if !s.isLoadingMore && s.hasMore {
      LoadMoreAppends(s, f);
      var r := LoadMoreStep(s, f);
      var key := KeyFor(s.inputs, s.page + 1);
      assert key == KeyFor(s.(isLoadingMore := true).inputs, s.page + 1);
      if r.hasMore {
        var b := Served(s, s.page + 1, f).value;
        assert r.cache[key] == b && IsFullPage(b);
        CachedPagesStable(s.cache, r.cache, s.inputs, s.page);
        forall k | 1 <= k <= r.page ensures FullPageCached(r.cache, r.inputs, k) {
          if k <= s.page {
            assert FullPageCached(s.cache, s.inputs, k);
          }
        }
        assert PageItems(r.cache, r.inputs, r.page) == b.items;
      }
    }
  }

  /** `handleCategoryChange` and the effect it triggers: a new category restarts the
      listing; re-selecting the current one only sets the page counter back to 1,
      because the effect does not run again for an unchanged value. */
  function CategoryStep(s: PagerState, c: string, f: Fetch): PagerState
  {
    if c == s.inputs.selectedCategory then s.(page := 1)
    else RestartStep(s.(inputs := s.inputs.(selectedCategory := c)), f)
  }

  /** The sort control: a different value restarts the listing. */
  function SortStep(s: PagerState, v: string, f: Fetch): PagerState
  {
    if v == s.inputs.sortBy then s
    else RestartStep(s.(inputs := s.inputs.(sortBy := v)), f)
  }

  /** `handlePriceChange`: a different bound restarts the listing. */
  function PriceStep(s: PagerState, isMin: bool, v: string, f: Fetch): PagerState
  {
    if isMin then
      if v == s.inputs.priceMin then s
      else RestartStep(s.(inputs := s.inputs.(priceMin := v)), f)
    else
      if v == s.inputs.priceMax then s
      else RestartStep(s.(inputs := s.inputs.(priceMax := v)), f)
  }

  /** A search text that changed, once the debounce timer has fired. */
  function SearchStep(s: PagerState, q: string, f: Fetch): PagerState
  {
    if q == s.inputs.searchQuery then s
    else RestartStep(s.(inputs := s.inputs.(searchQuery := q)), f)
  }

  /** Every filter change that reaches the network restarts from page 1 in replace
      mode with the new value, and leaves the paging consistent. */
  lemma FilterChangesRestart(s: PagerState, c: string, v: string, isMin: bool, f: Fetch)
    requires PagingConsistent(s)
    ensures c != s.inputs.selectedCategory ==>
      CategoryStep(s, c, f).page == 1 && CategoryStep(s, c, f).inputs.selectedCategory == c
    ensures PagingConsistent(SortStep(s, v, f)) && PagingConsistent(PriceStep(s, isMin, v, f))
    ensures PagingConsistent(SearchStep(s, v, f)) && PagingConsistent(RestartStep(s, f))
    ensures c != s.inputs.selectedCategory ==> PagingConsistent(CategoryStep(s, c, f))
    ensures v != s.inputs.sortBy ==> SortStep(s, v, f).page == 1 && SortStep(s, v, f).inputs.sortBy == v
    ensures v != s.inputs.searchQuery ==> SearchStep(s, v, f).page == 1 && SearchStep(s, v, f).inputs.searchQuery == v
    ensures isMin && v != s.inputs.priceMin ==>
      PriceStep(s, isMin, v, f).page == 1 && PriceStep(s, isMin, v, f).inputs.priceMin == v
    ensures !isMin && v != s.inputs.priceMax ==>
      PriceStep(s, isMin, v, f).page == 1 && PriceStep(s, isMin, v, f).inputs.priceMax == v
  {
    RestartIsConsistent(s, f);
    RestartIsConsistent(s.(inputs := s.inputs.(selectedCategory := c)), f);
    RestartIsConsistent(s.(inputs := s.inputs.(sortBy := v)), f);
    RestartIsConsistent(s.(inputs := s.inputs.(priceMin := v)), f);
    RestartIsConsistent(s.(inputs := s.inputs.(priceMax := v)), f);
    RestartIsConsistent(s.(inputs := s.inputs.(searchQuery := v)), f);
  }

  /** Re-selecting the current category after more than one page has been loaded puts
      the counter back to 1 while the products stay, so the next "load more" adds the
      cached page 2 a second time: it is already shown at positions 10 to 19. */
  lemma ReselectingCategoryRepeatsPageTwo(s: PagerState, f1: Fetch, f2: Fetch)
    requires PagingConsistent(s) && s.hasMore && !s.isLoadingMore && s.page >= 2
    ensures !PagingConsistent(CategoryStep(s, s.inputs.selectedCategory, f1))
    ensures s.products.Listed? && |s.products.items| == ItemsPerPage * s.page
    ensures s.products.items[ItemsPerPage..2 * ItemsPerPage] == PageItems(s.cache, s.inputs, 2)
    ensures LoadMoreStep(CategoryStep(s, s.inputs.selectedCategory, f1), f2).products
            == Listed(s.products.items + PageItems(s.cache, s.inputs, 2))
  {
    var r := CategoryStep(s, s.inputs.selectedCategory, f1);
    assert r == s.(page := 1);
    CachedPagesLayout(s.cache, s.inputs, s.page, 2);
    CachedPagesLayout(s.cache, s.inputs, 1, 0);
    assert FullPageCached(s.cache, s.inputs, 1);
    assert FullPageCached(s.cache, s.inputs, 2);
    LoadMoreAppends(r, f2);
  }

  function InitialInputs(): Inputs
  {
    Inputs("", "", "", "", DefaultSort)
  }

  /** The state on mount, after the first fetch of page 1. */
  function InitialState(f: Fetch): PagerState
  {
    RestartStep(PagerState(InitialInputs(), Listed([]), 1, true, false, map[]), f)
  }

  /** On mount only `limit` is sent, the cache holds at most page 1, and paging is consistent. */
  lemma InitialStateSendsOnlyLimit(f: Fetch)
    ensures BuildFilters(InitialInputs()) == [(Limit, LimitText)]
    ensures PagingConsistent(InitialState(f))
    ensures forall k :: k in InitialState(f).cache ==> k == KeyFor(InitialInputs(), 1)
  {
    RestartIsConsistent(PagerState(InitialInputs(), Listed([]), 1, true, false, map[]), f);
    assert Trim("") == "";
  }

  /** A product as the page would read it from one row of the endpoint's `data`. */
  function ItemOf(v: CatalogQuery.ProductView): Item
  {
    Item(v.product.id, v.product.name, v.product.price, UrlsOf(v.images))
  }

  function UrlsOf(images: seq<Image>): (r: seq<string>)
    ensures |r| == |images|
    ensures forall k :: 0 <= k < |images| ==> r[k] == images[k].url
  {
    if images == [] then [] else [images[0].url] + UrlsOf(images[1..])
  }

  function ItemsOf(vs: seq<CatalogQuery.ProductView>): (r: seq<Item>)
    ensures |r| == |vs|
    ensures forall k :: 0 <= k < |vs| ==> r[k] == ItemOf(vs[k])
  {
    if vs == [] then [] else [ItemOf(vs[0])] + ItemsOf(vs[1..])
  }

  /** The listing endpoint's answer as this page receives it: the JSON object, or a failure. */
  function FetchOf(r: CatalogQuery.Response): Fetch
  {
    match r
    case Page(data, meta) => Answered(ObjectBody(ItemsOf(data), meta.total))
    case ServerError(_) => Failed
  }

  /** Against the listing endpoint, whatever the store holds and however it orders
      ties, a page that is not cached never keeps paging on, even when the endpoint
      reports a next page; every page it answers leaves a state the grid cannot list;
      and a failure empties the list in replace mode and keeps it in append mode. */
  lemma EndpointAnswerEndsPaging(t: Tables, q: CatalogQuery.Params, ord: seq<Product>, storeAvailable: bool,
                                 s: PagerState, pageNum: int, reset: bool)
    requires CatalogQuery.StoreOrder(t, q, ord)
    requires KeyFor(s.inputs, pageNum) !in s.cache
    ensures !FetchStep(s, pageNum, reset, FetchOf(CatalogQuery.Query(t, q, ord, storeAvailable))).hasMore
    ensures CatalogQuery.Query(t, q, ord, storeAvailable).Page? ==>
      FetchStep(s, pageNum, reset, FetchOf(CatalogQuery.Query(t, q, ord, storeAvailable))).products == NotAList
    ensures CatalogQuery.Query(t, q, ord, storeAvailable).ServerError? ==>
      FetchStep(s, pageNum, reset, FetchOf(CatalogQuery.Query(t, q, ord, storeAvailable))).products
        == (if reset then Listed([]) else s.products)
  {
  }

  /** The page component. Its fields are the React state and the cache `Map`; each
      method is one handler run to completion. */
  class CatalogPage {
    var selectedCategory: string
    var priceMin: string
    var priceMax: string
    var searchQuery: string
    var sortBy: string
    var products: Shown
    var page: int
    var hasMore: bool
    var isLoadingMore: bool
    var cache: map<CacheKey, Body>

    function Filters(): Inputs
      reads this
    {
      Inputs(selectedCategory, priceMin, priceMax, searchQuery, sortBy)
    }

    function State(): PagerState
      reads this
    {
      PagerState(Filters(), products, page, hasMore, isLoadingMore, cache)
    }

    /** Mounting the page: default controls, then page 1 in replace mode. */
    constructor (f: Fetch)
      ensures State() == InitialState(f)
    {
      selectedCategory, priceMin, priceMax, searchQuery, sortBy := "", "", "", "", DefaultSort;
      products, page, hasMore, isLoadingMore := Listed([]), 1, true, false;
      cache := map[];
      new;
      Restart(f);
    }

    method FetchProducts(pageNum: int, reset: bool, f: Fetch)
      modifies this
      ensures State() == FetchStep(old(State()), pageNum, reset, f)
    {
      var key := CacheKey(BuildFilters(Filters()), pageNum);
      if key in cache {
        var cached := cache[key];
        if reset {
          products := Show(cached);
        } else {
          products := Appended(products, cached);
        }
        hasMore := IsFullPage(cached);
        return;
      }
      match f {
        case Answered(body) =>
          cache := cache[key := body];
          if reset {
            products := Show(body);
          } else {
            products := Appended(products, body);
          }
          hasMore := IsFullPage(body);
        case Failed =>
          if reset {
            products := Listed([]);
          }
          hasMore := false;
      }
    }

    method Restart(f: Fetch)
      modifies this
      ensures State() == RestartStep(old(State()), f)
    {
      page := 1;
      FetchProducts(1, true, f);
    }

    method LoadMore(f: Fetch)
      modifies this
      ensures State() == LoadMoreStep(old(State()), f)
    {
      if isLoadingMore || !hasMore {
        return;
      }
      isLoadingMore := true;
      var nextPage := page + 1;
      FetchProducts(nextPage, false, f);
      page := nextPage;
      isLoadingMore := false;
    }

    method HandleCategoryChange(c: string, f: Fetch)
      modifies this
      ensures State() == CategoryStep(old(State()), c, f)
    {
      var changed := c != selectedCategory;
      selectedCategory := c;
      page := 1;
      if changed {
        Restart(f);
      }
    }

    method ChangeSort(v: string, f: Fetch)
      modifies this
      ensures State() == SortStep(old(State()), v, f)
    {
      if v != sortBy {
        sortBy := v;
        Restart(f);
      }
    }

    method HandlePriceChange(isMin: bool, v: string, f: Fetch)
      modifies this
      ensures State() == PriceStep(old(State()), isMin, v, f)
    {
      if isMin && v != priceMin {
        priceMin := v;
        Restart(f);
      } else if !isMin && v != priceMax {
        priceMax := v;
        Restart(f);
      }
    }

    method ApplyPriceFilter(f: Fetch)
      modifies this
      ensures State() == RestartStep(old(State()), f)
    {
      Restart(f);
    }

    method ChangeSearch(q: string, f: Fetch)
      modifies this
      ensures State() == SearchStep(old(State()), q, f)
    {
      if q != searchQuery {
        searchQuery := q;
        Restart(f);
      }
    }
  }
}
