/** The public catalog listing (`GET /api/products`): optional query parameters
    become a conjunction of conditions, an ordering and one page of the ordered,
    filtered products, reported together with `total`, `totalPages` and
    `hasNextPage`. The count and the page are read from one snapshot of the store. */
module CatalogQuery {
  import opened Base
  import opened Sorting

  const DefaultPage: int := 1
  const DefaultPerPage: int := 50
  const ErrorMessage: string := "Erro ao buscar produtos"

  /** The query string after parsing. A text parameter that is absent or empty is
      `None` or `Some("")`; a numeric one that is absent or empty is `None`.
      `sizeIds` holds every `sizeId` occurrence, in order. */
  datatype Params = Params(
    categoryId: Option<string>,
    minPrice: Option<int>,
    maxPrice: Option<int>,
    search: Option<string>,
    sizeIds: seq<string>,
    sort: Option<string>,
    page: Option<int>,
    perPage: Option<int>)

  /** One conjunct of the `where` object. */
  datatype Condition =
    | CategoryIs(categoryId: string)
    | PriceAtLeast(min: int)
    | PriceAtMost(max: int)
    | NameContains(term: string)
    | HasSizeIn(sizeIds: seq<string>)

  function Indicator(b: bool): nat
  {
    if b then 1 else 0
  }

  /** The `where` object: one conjunct per parameter that is given, none for the others. */
  function BuildWhere(q: Params): (w: seq<Condition>)
    ensures |w| == Indicator(Given(q.categoryId)) + Indicator(q.minPrice.Some?)
                   + Indicator(q.maxPrice.Some?) + Indicator(Given(q.search))
                   + Indicator(|q.sizeIds| > 0)
    ensures Given(q.categoryId) ==> CategoryIs(q.categoryId.value) in w
    ensures q.minPrice.Some? ==> PriceAtLeast(q.minPrice.value) in w
    ensures q.maxPrice.Some? ==> PriceAtMost(q.maxPrice.value) in w
    ensures Given(q.search) ==> NameContains(q.search.value) in w
    ensures |q.sizeIds| > 0 ==> HasSizeIn(q.sizeIds) in w
  {
    (if Given(q.categoryId) then [CategoryIs(q.categoryId.value)] else [])
    + (if q.minPrice.Some? then [PriceAtLeast(q.minPrice.value)] else [])
    + (if q.maxPrice.Some? then [PriceAtMost(q.maxPrice.value)] else [])
    + (if Given(q.search) then [NameContains(q.search.value)] else [])
    + (if |q.sizeIds| > 0 then [HasSizeIn(q.sizeIds)] else [])
  }

  /** Lower-casing of one character over Latin-1: the ASCII capitals and the accented
      capitals from 'À' to 'Þ' (all but the sign '×') move 32 code points up, which
      covers the accented letters of Portuguese product names. */
  function LowerChar(c: char): char
  {
    if 'A' <= c <= 'Z' || (0xC0 <= c as int <= 0xDE && c as int != 0xD7) then (c as int + 32) as char else c
  }

  /** Latin-1 lower-casing, the case folding the model gives to `mode: "insensitive"`. */
  function Lower(s: string): (r: string)
    ensures |r| == |s|
    ensures forall i :: 0 <= i < |s| ==> r[i] == LowerChar(s[i])
  {
    seq(|s|, i requires 0 <= i < |s| => LowerChar(s[i]))
  }

  predicate OccursAt(needle: string, hay: string, i: int)
  {
    0 <= i <= |hay| - |needle| && hay[i..i + |needle|] == needle
  }

  predicate IsSubstring(needle: string, hay: string)
  {
    exists i | 0 <= i <= |hay| - |needle| :: OccursAt(needle, hay, i)
  }

  predicate ContainsIgnoringCase(hay: string, needle: string)
  {
    IsSubstring(Lower(needle), Lower(hay))
  }

  /** The product has at least one size row whose size id is among `sizeIds`. */
  predicate HasAnySize(links: seq<ProductSize>, productId: string, sizeIds: seq<string>)
  {
    exists l :: l in links && l.productId == productId && l.sizeId in sizeIds
  }

  predicate Holds(links: seq<ProductSize>, p: Product, c: Condition)
  {
    match c
    case CategoryIs(id) => p.categoryId == id
    case PriceAtLeast(m) => p.price >= m
    case PriceAtMost(m) => p.price <= m
    case NameContains(t) => ContainsIgnoringCase(p.name, t)
    case HasSizeIn(ids) => HasAnySize(links, p.id, ids)
  }

  predicate Satisfies(links: seq<ProductSize>, p: Product, w: seq<Condition>)
  {
    forall c :: c in w ==> Holds(links, p, c)
  }

  /** The meaning of the query, parameter by parameter: a reference definition
      that the `where` object is proved against. */
  predicate Matches(links: seq<ProductSize>, q: Params, p: Product)
  {
    && (Given(q.categoryId) ==> p.categoryId == q.categoryId.value)
    && (q.minPrice.Some? ==> q.minPrice.value <= p.price)
    && (q.maxPrice.Some? ==> p.price <= q.maxPrice.value)
    && (Given(q.search) ==> ContainsIgnoringCase(p.name, q.search.value))
    && (|q.sizeIds| > 0 ==> HasAnySize(links, p.id, q.sizeIds))
  }

  /** The conditions the `where` object holds, one per given parameter. */
  predicate Wanted(q: Params, x: Condition)
  {
    || (Given(q.categoryId) && x == CategoryIs(q.categoryId.value))
    || (q.minPrice.Some? && x == PriceAtLeast(q.minPrice.value))
    || (q.maxPrice.Some? && x == PriceAtMost(q.maxPrice.value))
    || (Given(q.search) && x == NameContains(q.search.value))
    || (|q.sizeIds| > 0 && x == HasSizeIn(q.sizeIds))
  }

  lemma WhereMembers(q: Params)
    ensures forall x :: x in BuildWhere(q) <==> Wanted(q, x)
  {
    var a := if Given(q.categoryId) then [CategoryIs(q.categoryId.value)] else [];
    var b := if q.minPrice.Some? then [PriceAtLeast(q.minPrice.value)] else [];
    var c := if q.maxPrice.Some? then [PriceAtMost(q.maxPrice.value)] else [];
    var d := if Given(q.search) then [NameContains(q.search.value)] else [];
    var e := if |q.sizeIds| > 0 then [HasSizeIn(q.sizeIds)] else [];
    assert BuildWhere(q) == a + b + c + d + e;
    forall x ensures x in BuildWhere(q) <==> Wanted(q, x) {
      assert x in a + b + c + d + e <==> x in a || x in b || x in c || x in d || x in e;
    }
  }

  /** A product satisfies the `where` object exactly when it matches every given parameter. */
  lemma WhereMeansMatches(links: seq<ProductSize>, q: Params, p: Product)
    ensures Satisfies(links, p, BuildWhere(q)) <==> Matches(links, q, p)
  {
    WhereMembers(q);
    if Matches(links, q, p) {
      forall x | x in BuildWhere(q) ensures Holds(links, p, x) {
        assert Wanted(q, x);
      }
    }
    if Satisfies(links, p, BuildWhere(q)) {
      if Given(q.categoryId) { assert Wanted(q, CategoryIs(q.categoryId.value)); }
      if q.minPrice.Some? { assert Wanted(q, PriceAtLeast(q.minPrice.value)); }
      if q.maxPrice.Some? { assert Wanted(q, PriceAtMost(q.maxPrice.value)); }
      if Given(q.search) { assert Wanted(q, NameContains(q.search.value)); }
      if |q.sizeIds| > 0 { assert Wanted(q, HasSizeIn(q.sizeIds)); }
    }
  }

  datatype SortOrder = NewestFirst | PriceAscending | PriceDescending

  /** The `orderBy` chosen by the `sort` parameter. */
  function OrderFor(sort: Option<string>): (o: SortOrder)
    ensures o == PriceAscending <==> sort == Some("menor-preco")
    ensures o == PriceDescending <==> sort == Some("maior-preco")
    ensures o == NewestFirst <==> sort != Some("menor-preco") && sort != Some("maior-preco")
  {
    if sort == Some("maior-preco") then PriceDescending
    else if sort == Some("menor-preco") then PriceAscending
    else NewestFirst
  }

  function SortKey(o: SortOrder, p: Product): seq<int>
  {
    match o
    case NewestFirst => [-p.createdAt]
    case PriceAscending => [p.price]
    case PriceDescending => [-p.price]
  }

  function KeyOf(o: SortOrder): Product -> seq<int>
  {
    p => SortKey(o, p)
  }

  /** `a` may precede `b` under the ordering `o`, in the source's own terms. */
  predicate InOrder(o: SortOrder, a: Product, b: Product)
  {
    match o
    case NewestFirst => a.createdAt >= b.createdAt
    case PriceAscending => a.price <= b.price
    case PriceDescending => a.price >= b.price
  }

  predicate OrderedAs(o: SortOrder, s: seq<Product>)
  {
    forall i, j :: 0 <= i < j < |s| ==> InOrder(o, s[i], s[j])
  }

  lemma SortedByKeyIsOrdered(o: SortOrder, s: seq<Product>)
    requires SortedBy(s, KeyOf(o))
    ensures OrderedAs(o, s)
  {
    forall i, j | 0 <= i < j < |s| ensures InOrder(o, s[i], s[j]) {
      assert LexLe(SortKey(o, s[i]), SortKey(o, s[j]));
      match o
      case NewestFirst => LexLeSingle(-s[i].createdAt, -s[j].createdAt);
      case PriceAscending => LexLeSingle(s[i].price, s[j].price);
      case PriceDescending => LexLeSingle(-s[i].price, -s[j].price);
    }
  }

  function KeepWhere(links: seq<ProductSize>, w: seq<Condition>): Product -> bool
  {
    p => Satisfies(links, p, w)
  }

  /** The products that satisfy `w`, in the order `o`. */
  function OrderedBy(t: Tables, w: seq<Condition>, o: SortOrder): seq<Product>
  {
    SortBy(Filter(t.products, KeepWhere(t.productSizes, w)), KeyOf(o))
  }

  /** The whole filtered, ordered result before it is cut into pages: a
      permutation of the matching products, sorted by the requested key. */
  function Ordered(t: Tables, q: Params): (r: seq<Product>)
    ensures forall x :: multiset(r)[x] == (if Matches(t.productSizes, q, x) then multiset(t.products)[x] else 0)
    ensures forall x :: x in r <==> x in t.products && Matches(t.productSizes, q, x)
    ensures OrderedAs(OrderFor(q.sort), r)
    ensures SortedBy(r, KeyOf(OrderFor(q.sort)))
  {
    var keep := KeepWhere(t.productSizes, BuildWhere(q));
    var kept := Filter(t.products, keep);
    var r := OrderedBy(t, BuildWhere(q), OrderFor(q.sort));
    assert multiset(r) == multiset(kept);
    forall x ensures multiset(r)[x] == (if Matches(t.productSizes, q, x) then multiset(t.products)[x] else 0) {
      WhereMeansMatches(t.productSizes, q, x);
      assert keep(x) == Satisfies(t.productSizes, x, BuildWhere(q));
    }
    forall x ensures x in r <==> x in t.products && Matches(t.productSizes, q, x) {
      assert x in r <==> x in multiset(r);
      assert x in t.products <==> x in multiset(t.products);
    }
    SortedByKeyIsOrdered(OrderFor(q.sort), r);
    r
  }

  /** The products that match, counted by the separate `count` query. */
  function Total(t: Tables, q: Params): nat
  {
    Count(t.products, KeepWhere(t.productSizes, BuildWhere(q)))
  }

  lemma TotalIsOrderedLength(t: Tables, q: Params)
    ensures Total(t, q) == |Ordered(t, q)|
  {
    CountIsFilterLength(t.products, KeepWhere(t.productSizes, BuildWhere(q)));
  }

  /** `Math.ceil(total / perPage)` for a positive divisor. */
  function CeilDiv(total: nat, perPage: nat): (n: nat)
    requires perPage > 0
    ensures total <= n * perPage
    ensures n == 0 || (n - 1) * perPage < total
  {
    (total + perPage - 1) / perPage
  }

  /** A product with its category, images and sizes attached (the `include`). */
  datatype SizeLink = SizeLink(link: ProductSize, size: Option<Size>)
  datatype ProductView = ProductView(
    product: Product,
    category: Option<Category>,
    images: seq<Image>,
    sizes: seq<SizeLink>)

  function FindCategory(cs: seq<Category>, id: string): (r: Option<Category>)
    ensures r.Some? <==> exists c :: c in cs && c.id == id
    ensures r.Some? ==> r.value in cs && r.value.id == id
  {
    if cs == [] then None else if cs[0].id == id then Some(cs[0]) else FindCategory(cs[1..], id)
  }

  function FindSize(ss: seq<Size>, id: string): (r: Option<Size>)
    ensures r.Some? <==> exists s :: s in ss && s.id == id
    ensures r.Some? ==> r.value in ss && r.value.id == id
  {
    if ss == [] then None else if ss[0].id == id then Some(ss[0]) else FindSize(ss[1..], id)
  }

  function LinkOf(productId: string): ProductSize -> bool
  {
    (l: ProductSize) => l.productId == productId
  }

  function Expand(t: Tables, p: Product): (v: ProductView)
    ensures v.product == p
    ensures v.category.Some? <==> exists c :: c in t.categories && c.id == p.categoryId
    ensures v.category.Some? ==> v.category.value in t.categories && v.category.value.id == p.categoryId
    ensures forall im :: im in v.images <==> im in t.images && im.productId == p.id
    // one entry per size row of the product, in table order, each with its size when it exists
    ensures |v.sizes| == |Filter(t.productSizes, LinkOf(p.id))| == Count(t.productSizes, LinkOf(p.id))
    ensures forall k :: 0 <= k < |v.sizes| ==>
      && v.sizes[k].link == Filter(t.productSizes, LinkOf(p.id))[k]
      && v.sizes[k].link in t.productSizes && v.sizes[k].link.productId == p.id
      && (v.sizes[k].size.Some? <==> exists z :: z in t.sizes && z.id == v.sizes[k].link.sizeId)
      && (v.sizes[k].size.Some? ==> v.sizes[k].size.value in t.sizes && v.sizes[k].size.value.id == v.sizes[k].link.sizeId)
  {
    var links := Filter(t.productSizes, LinkOf(p.id));
    CountIsFilterLength(t.productSizes, LinkOf(p.id));
    ProductView(
      p,
      FindCategory(t.categories, p.categoryId),
      Filter(t.images, (im: Image) => im.productId == p.id),
      seq(|links|, k requires 0 <= k < |links| => SizeLink(links[k], FindSize(t.sizes, links[k].sizeId))))
  }

  function ExpandAll(t: Tables, s: seq<Product>): (r: seq<ProductView>)
    ensures |r| == |s|
    ensures forall k :: 0 <= k < |s| ==> r[k] == Expand(t, s[k])
  {
    seq(|s|, k requires 0 <= k < |s| => Expand(t, s[k]))
  }

  function ProductsOf(vs: seq<ProductView>): (r: seq<Product>)
    ensures |r| == |vs|
    ensures forall k :: 0 <= k < |vs| ==> r[k] == vs[k].product
  {
    seq(|vs|, k requires 0 <= k < |vs| => vs[k].product)
  }

  /** `totalPages` is `null` in the response when `perPage` is zero (the
      division yields Infinity or NaN, which JSON writes as null). */
  datatype Meta = Meta(
    total: nat,
    currentPage: int,
    perPage: int,
    totalPages: Option<nat>,
    hasNextPage: bool)

  datatype Response =
    | Page(data: seq<ProductView>, meta: Meta)
    | ServerError(error: string)

  function PageOf(q: Params): int
  {
    if q.page.Some? then q.page.value else DefaultPage
  }

  function PerPageOf(q: Params): int
  {
    if q.perPage.Some? then q.perPage.value else DefaultPerPage
  }

  /** `skip = (page - 1) * perPage`. */
  function SkipOf(q: Params): int
  {
    (PageOf(q) - 1) * PerPageOf(q)
  }

  lemma SkipSign(q: Params)
    requires PerPageOf(q) > 0
    ensures SkipOf(q) >= 0 <==> PageOf(q) >= 1
  {
    if PageOf(q) < 1 {
      assert (PageOf(q) - 1) * PerPageOf(q) < 0;
    }
  }

  lemma ProductsOfExpandAll(t: Tables, s: seq<Product>)
    ensures ProductsOf(ExpandAll(t, s)) == s
  {
  }

  /** An order the store may answer the query in: the matching products, each as
      often as in the table, sorted by the requested key. The `orderBy` names one
      column only, so products that tie on it may come in any order, and two
      requests may break the same tie differently. */
  predicate StoreOrder(t: Tables, q: Params, ord: seq<Product>)
  {
    multiset(ord) == multiset(Ordered(t, q)) && SortedBy(ord, KeyOf(OrderFor(q.sort)))
  }

  /** Every order the store may choose lists exactly the matching products, in the
      requested order, and the reference order `Ordered` is one of them. */
  lemma StoreOrderMeaning(t: Tables, q: Params, ord: seq<Product>)
    ensures StoreOrder(t, q, Ordered(t, q))
    ensures StoreOrder(t, q, ord) ==>
      && (forall x :: multiset(ord)[x] == (if Matches(t.productSizes, q, x) then multiset(t.products)[x] else 0))
      && |ord| == |Ordered(t, q)|
      && OrderedAs(OrderFor(q.sort), ord)
  {
    if StoreOrder(t, q, ord) {
      assert |ord| == |multiset(ord)| == |multiset(Ordered(t, q))| == |Ordered(t, q)|;
      SortedByKeyIsOrdered(OrderFor(q.sort), ord);
    }
  }

  /** No two different matching products share the key the query sorts by. */
  predicate KeysDistinct(t: Tables, q: Params)
  {
    forall x, y ::
      (x in t.products && y in t.products && Matches(t.productSizes, q, x) && Matches(t.productSizes, q, y)
       && SortKey(OrderFor(q.sort), x) == SortKey(OrderFor(q.sort), y)) ==> x == y
  }

  /** Without ties the store has no choice left: its order is the reference order. */
  lemma StoreOrderIsUnique(t: Tables, q: Params, ord: seq<Product>)
    requires KeysDistinct(t, q)
    requires StoreOrder(t, q, ord)
    ensures ord == Ordered(t, q)
  {
    var o := Ordered(t, q);
    var key := KeyOf(OrderFor(q.sort));
    forall x, y | x in o && y in o && key(x) == key(y) ensures x == y {
      assert x in t.products && Matches(t.productSizes, q, x);
      assert y in t.products && Matches(t.productSizes, q, y);
    }
    SortedUnique(o, ord, key);
  }

  /** The handler. `storeAvailable` stands for the store answering both queries and
      `ord` for the order it returns the matching rows in; a negative `skip` (a page
      below 1 with a positive `perPage`) is refused by the store and so ends in the
      500 answer. */
  function Query(t: Tables, q: Params, ord: seq<Product>, storeAvailable: bool): (r: Response)
    requires StoreOrder(t, q, ord)
    ensures r.Page? <==> storeAvailable && PerPageOf(q) >= 0 && SkipOf(q) >= 0
    ensures r.ServerError? ==> r.error == ErrorMessage
    ensures r.Page? ==>
      && r.meta.total == |Ordered(t, q)|
      && r.meta.currentPage == PageOf(q)
      && r.meta.perPage == PerPageOf(q)
      && |r.data| <= PerPageOf(q)
      && ProductsOf(r.data) == Slice(ord, SkipOf(q), PerPageOf(q))
      && r.data == ExpandAll(t, ProductsOf(r.data))
    ensures r.Page? && PerPageOf(q) > 0 ==>
      && PageOf(q) >= 1
      && r.meta.totalPages == Some(CeilDiv(r.meta.total, PerPageOf(q)))
      && (r.meta.hasNextPage <==> PageOf(q) < CeilDiv(r.meta.total, PerPageOf(q)))
      && (r.meta.hasNextPage <==> PageOf(q) * PerPageOf(q) < r.meta.total)
    ensures r.Page? && PerPageOf(q) == 0 ==>
      r.data == [] && r.meta.totalPages == None && (r.meta.hasNextPage <==> r.meta.total > 0)
  {
    var page := PageOf(q);
    var perPage := PerPageOf(q);
    var skip := SkipOf(q);
    if !storeAvailable || perPage < 0 || skip < 0 then
      ServerError(ErrorMessage)
    else
      var total := Total(t, q);
      TotalIsOrderedLength(t, q);
      var slice := Slice(ord, skip, perPage);
      ProductsOfExpandAll(t, slice);
      if perPage == 0 then
        Page(ExpandAll(t, slice), Meta(total, page, perPage, None, total > 0))
      else
        SkipSign(q);
        HasNextPageIff(page, perPage, total);
        var pages := CeilDiv(total, perPage);
        Page(ExpandAll(t, slice), Meta(total, page, perPage, Some(pages), page < pages))
  }

  /** `page < ceil(total / perPage)` says exactly that some product lies beyond this page. */
  lemma HasNextPageIff(page: int, perPage: nat, total: nat)
    requires perPage > 0 && page >= 1
    ensures page < CeilDiv(total, perPage) <==> page * perPage < total
  {
    var n := CeilDiv(total, perPage);
    if page < n {
      MulMonotone(page, n - 1, perPage);
    } else {
      MulMonotone(n, page, perPage);
    }
  }

  lemma MulMonotone(a: int, b: int, c: nat)
    requires a <= b
    ensures a * c <= b * c
  {
    MulNonNegative(b - a, c);
    assert b * c == a * c + (b - a) * c;
  }

  /** Two queries that differ at most in `page` and `perPage`. */
  predicate SameFilter(q1: Params, q2: Params)
  {
    q1.(page := None, perPage := None) == q2.(page := None, perPage := None)
  }

  lemma OrderedIgnoresPaging(t: Tables, q1: Params, q2: Params)
    requires SameFilter(q1, q2)
    ensures Ordered(t, q1) == Ordered(t, q2)
  {
    assert BuildWhere(q1) == BuildWhere(q2);
    assert OrderFor(q1.sort) == OrderFor(q2.sort);
  }

  /** `total` counts the whole filtered set: it depends neither on the page asked for
      nor on how the store breaks ties. */
  lemma TotalIgnoresPaging(t: Tables, q1: Params, q2: Params, ord1: seq<Product>, ord2: seq<Product>, storeAvailable: bool)
    requires SameFilter(q1, q2)
    requires StoreOrder(t, q1, ord1) && StoreOrder(t, q2, ord2)
    requires Query(t, q1, ord1, storeAvailable).Page? && Query(t, q2, ord2, storeAvailable).Page?
    ensures Query(t, q1, ord1, storeAvailable).meta.total == Query(t, q2, ord2, storeAvailable).meta.total
  {
    OrderedIgnoresPaging(t, q1, q2);
  }

  /** With no parameter given, every product is listed. */
  lemma NoParamsListsEverything(t: Tables, q: Params)
    requires !Given(q.categoryId) && q.minPrice.None? && q.maxPrice.None?
    requires !Given(q.search) && q.sizeIds == []
    ensures BuildWhere(q) == []
    ensures multiset(Ordered(t, q)) == multiset(t.products)
  {
    assert forall x :: Matches(t.productSizes, q, x);
  }

  /** Inclusive bounds with `minPrice > maxPrice` give an empty page and `total = 0`, not an error. */
  lemma InvertedPriceBoundsGiveEmptyPage(t: Tables, q: Params, ord: seq<Product>, storeAvailable: bool)
    requires q.minPrice.Some? && q.maxPrice.Some? && q.minPrice.value > q.maxPrice.value
    requires StoreOrder(t, q, ord)
    requires storeAvailable && PerPageOf(q) >= 0 && SkipOf(q) >= 0
    ensures Query(t, q, ord, storeAvailable).Page?
    ensures Query(t, q, ord, storeAvailable).data == []
    ensures Query(t, q, ord, storeAvailable).meta.total == 0
    ensures !Query(t, q, ord, storeAvailable).meta.hasNextPage
  {
    var o := Ordered(t, q);
    forall x ensures multiset(o)[x] == 0 {
      assert !Matches(t.productSizes, q, x);
    }
    assert multiset(o) == multiset{};
    assert |o| == |multiset(o)| == 0;
    assert |ord| == |multiset(ord)| == 0;
  }

  /** The bounds are inclusive: a product priced exactly at a bound is kept. */
  lemma PriceBoundsInclusive(links: seq<ProductSize>, q: Params, p: Product)
    requires q.minPrice == Some(p.price) && q.maxPrice == Some(p.price)
    requires !Given(q.categoryId) && !Given(q.search) && q.sizeIds == []
    ensures Matches(links, q, p)
  {
  }

  /** Search reads the name only: the description never changes whether a product matches. */
  lemma SearchIgnoresDescription(links: seq<ProductSize>, q: Params, p: Product, d: string)
    ensures Matches(links, q, p) <==> Matches(links, q, p.(description := d))
  {
  }

  lemma LowerIdempotent(s: string)
    ensures Lower(Lower(s)) == Lower(s)
  {
  }

  /** Search ignores letter case on both sides. */
  lemma SearchIgnoresCase(hay: string, needle: string)
    ensures ContainsIgnoringCase(hay, needle) <==> ContainsIgnoringCase(Lower(hay), needle)
    ensures ContainsIgnoringCase(hay, needle) <==> ContainsIgnoringCase(hay, Lower(needle))
  {
    LowerIdempotent(hay);
    LowerIdempotent(needle);
  }

  /** The size filter has "any of" semantics: asking for the sizes of `a` and of `b`
      together matches a product exactly when asking for either one alone would. */
  lemma SizeFilterIsUnion(links: seq<ProductSize>, q: Params, a: seq<string>, b: seq<string>, p: Product)
    requires a != [] && b != []
    ensures Matches(links, q.(sizeIds := a + b), p) <==>
            Matches(links, q.(sizeIds := a), p) || Matches(links, q.(sizeIds := b), p)
  {
    if HasAnySize(links, p.id, a + b) {
      var l :| l in links && l.productId == p.id && l.sizeId in a + b;
      assert l.sizeId in a || l.sizeId in b;
    }
    if HasAnySize(links, p.id, a) {
      var l :| l in links && l.productId == p.id && l.sizeId in a;
      assert l.sizeId in a + b;
    }
    if HasAnySize(links, p.id, b) {
      var l :| l in links && l.productId == p.id && l.sizeId in b;
      assert l.sizeId in a + b;
    }
  }

  /** The products of page `k` of the same query, answered in the store order `ord`. */
  function PageProducts(t: Tables, q: Params, ord: seq<Product>, k: int): seq<Product>
    requires StoreOrder(t, q, ord)
  {
    OrderedIgnoresPaging(t, q, q.(page := Some(k)));
    var r := Query(t, q.(page := Some(k)), ord, true);
    if r.Page? then ProductsOf(r.data) else []
  }

  /** Pages 1 to `n`, one after the other. */
  function Concat<T>(pages: nat -> seq<T>, n: nat): seq<T>
  {
    if n == 0 then [] else Concat(pages, n - 1) + pages(n)
  }

  /** Page `k` of the same query when its request is answered in the order `ords(k)`;
      each request is a separate query, so each may break ties its own way. */
  function PagesOf(t: Tables, q: Params, ords: nat -> seq<Product>): nat -> seq<Product>
  {
    (k: nat) => if StoreOrder(t, q, ords(k)) then PageProducts(t, q, ords(k), k) else []
  }

  /** Pages 1 to `n` of the same query, one after the other. */
  function PagesThrough(t: Tables, q: Params, ords: nat -> seq<Product>, n: nat): seq<Product>
  {
    Concat(PagesOf(t, q, ords), n)
  }

  function Min(a: int, b: int): int
  {
    if a < b then a else b
  }

  lemma PrefixThenSlice<T>(all: seq<T>, m: nat, pp: nat)
    ensures all[..Min(m, |all|)] + Slice(all, m, pp) == all[..Min(m + pp, |all|)]
  {
  }

  lemma MulNonNegative(a: nat, b: nat)
    ensures a * b >= 0
  {
  }

  /** Page `k` (counting from 1) of `all` when every page holds `pp` rows. */
  function PageSlice<T>(all: seq<T>, pp: nat, k: nat): seq<T>
  {
    if k == 0 then [] else MulNonNegative(k - 1, pp); Slice(all, (k - 1) * pp, pp)
  }

  lemma PageProductsIsSlice(t: Tables, q: Params, ord: seq<Product>, k: nat)
    requires PerPageOf(q) > 0
    requires StoreOrder(t, q, ord)
    ensures k >= 1 ==> PageProducts(t, q, ord, k) == PageSlice(ord, PerPageOf(q), k)
  {
    if k >= 1 {
      var qk := q.(page := Some(k));
      var pp := PerPageOf(q);
      assert PerPageOf(qk) == pp && PageOf(qk) == k;
      MulNonNegative(k - 1, pp);
      assert SkipOf(qk) == (k - 1) * pp;
      OrderedIgnoresPaging(t, q, qk);
      var r := Query(t, qk, ord, true);
      assert r.Page?;
      assert ProductsOf(r.data) == Slice(ord, SkipOf(qk), pp);
    }
  }

  /** Pages 1 to `n` of `all`, each `pp` long, one after the other. */
  function SlicesThrough<T>(all: seq<T>, pp: nat, n: nat): seq<T>
  {
    if n == 0 then [] else SlicesThrough(all, pp, n - 1) + PageSlice(all, pp, n)
  }

  lemma {:induction false} SlicesThroughIsPrefix<T>(all: seq<T>, pp: nat, n: nat)
    ensures SlicesThrough(all, pp, n) == all[..Min(n * pp, |all|)]
  {
    MulNonNegative(n, pp);
    if n > 0 {
      SlicesThroughIsPrefix(all, pp, n - 1);
      var m := (n - 1) * pp;
      assert m + pp == n * pp;
      PrefixThenSlice(all, m, pp);
    }
  }

  lemma {:induction false} ConcatOfSlices<T>(pages: nat -> seq<T>, all: seq<T>, pp: nat, n: nat)
    requires forall k: nat :: 1 <= k <= n ==> pages(k) == PageSlice(all, pp, k)
    ensures Concat(pages, n) == SlicesThrough(all, pp, n)
  {
    if n > 0 {
      ConcatOfSlices(pages, all, pp, n - 1);
    }
  }

  /** When every request of pages 1 to `n` is answered in the same order `ord`, the
      pages are consecutive slices of `ord`. */
  lemma PagesThroughIsSlices(t: Tables, q: Params, ord: seq<Product>, ords: nat -> seq<Product>, n: nat)
    requires PerPageOf(q) > 0
    requires StoreOrder(t, q, ord)
    requires forall k: nat :: 1 <= k <= n ==> ords(k) == ord
    ensures PagesThrough(t, q, ords, n) == SlicesThrough(ord, PerPageOf(q), n)
  {
    forall k: nat | 1 <= k <= n ensures PagesOf(t, q, ords)(k) == PageSlice(ord, PerPageOf(q), k) {
      PageProductsIsSlice(t, q, ord, k);
    }
    ConcatOfSlices(PagesOf(t, q, ords), ord, PerPageOf(q), n);
  }

  /** When no two matching products tie on the sort key, concatenating pages 1 to
      `totalPages` gives back the whole filtered, ordered listing, however the store
      answers each request: every matching product appears, as often as in the
      table, and nothing else. */
  lemma {:induction false} AllPagesCoverListing(t: Tables, q: Params, ords: nat -> seq<Product>)
    requires PerPageOf(q) > 0
    requires KeysDistinct(t, q)
    requires forall k: nat :: StoreOrder(t, q, ords(k))
    ensures PagesThrough(t, q, ords, CeilDiv(|Ordered(t, q)|, PerPageOf(q))) == Ordered(t, q)
    ensures forall x :: multiset(PagesThrough(t, q, ords, CeilDiv(|Ordered(t, q)|, PerPageOf(q))))[x]
                        == (if Matches(t.productSizes, q, x) then multiset(t.products)[x] else 0)
  {
    var all := Ordered(t, q);
    var n := CeilDiv(|all|, PerPageOf(q));
    forall k: nat | 1 <= k <= n ensures ords(k) == all {
      StoreOrderIsUnique(t, q, ords(k));
    }
    PagesThroughIsSlices(t, q, all, ords, n);
    SlicesThroughIsPrefix(all, PerPageOf(q), n);
    assert all[..|all|] == all;
  }

  /** With a tie the pages need not cover the listing: two matching products at the
      same key, one per page, may come back as the same product on both pages when
      the two requests break the tie differently. */
  lemma TiesLetPagesRepeat(t: Tables, q: Params, a: Product, b: Product)
    requires t.products == [a, b] && a != b
    requires Matches(t.productSizes, q, a) && Matches(t.productSizes, q, b)
    requires SortKey(OrderFor(q.sort), a) == SortKey(OrderFor(q.sort), b)
    requires q.perPage == Some(1)
    ensures StoreOrder(t, q, [a, b]) && StoreOrder(t, q, [b, a])
    ensures PageProducts(t, q, [a, b], 1) == [a]
    ensures PageProducts(t, q, [b, a], 2) == [a]
    ensures !KeysDistinct(t, q)
  {
    TiedPairOrders(t, q, a, b);
    OneRowPage(t, q, [a, b], 1);
    OneRowPage(t, q, [b, a], 2);
    assert a in t.products && b in t.products;
  }

  /** With one row per page, page `k` holds the `k`-th row of the order. */
  lemma OneRowPage(t: Tables, q: Params, ord: seq<Product>, k: nat)
    requires PerPageOf(q) == 1
    requires StoreOrder(t, q, ord)
    requires 1 <= k <= |ord|
    ensures PageProducts(t, q, ord, k) == [ord[k - 1]]
  {
    PageProductsIsSlice(t, q, ord, k);
    assert PageSlice(ord, 1, k) == [ord[k - 1]] by {
      assert (k - 1) * 1 == k - 1;
      var s := Slice(ord, k - 1, 1);
      assert |s| == 1 && s[0] == ord[k - 1];
    }
  }


  lemma TiedPairOrders(t: Tables, q: Params, a: Product, b: Product)
    requires t.products == [a, b]
    requires Matches(t.productSizes, q, a) && Matches(t.productSizes, q, b)
    requires SortKey(OrderFor(q.sort), a) == SortKey(OrderFor(q.sort), b)
    ensures StoreOrder(t, q, [a, b]) && StoreOrder(t, q, [b, a])
  {
    TiedPairMultiset(t, q, a, b);
    TiedPairSorted(OrderFor(q.sort), a, b);
    TiedPairSorted(OrderFor(q.sort), b, a);
  }

  lemma TiedPairMultiset(t: Tables, q: Params, a: Product, b: Product)
    requires t.products == [a, b]
    requires Matches(t.productSizes, q, a) && Matches(t.productSizes, q, b)
    ensures multiset(Ordered(t, q)) == multiset([a, b]) == multiset([b, a])
  {
    var o := Ordered(t, q);
    forall x ensures multiset(o)[x] == multiset([a, b])[x] {
      if x != a && x != b {
        assert multiset(t.products)[x] == 0;
      }
    }
  }

  lemma TiedPairSorted(o: SortOrder, a: Product, b: Product)
    requires SortKey(o, a) == SortKey(o, b)
    ensures SortedBy([a, b], KeyOf(o))
  {
    var ka := SortKey(o, a);
    assert ka == [ka[0]];
    LexLeSingle(ka[0], ka[0]);
  }



  /** Reversing a list sorted by ascending price gives one sorted by descending price. */
  lemma ReverseOfAscendingIsDescending(asc: seq<Product>)
    requires SortedBy(asc, KeyOf(PriceAscending))
    ensures SortedBy(Reverse(asc), KeyOf(PriceDescending))
  {
    var rev := Reverse(asc);
    var n := |asc|;
    forall i, j | 0 <= i < j < n ensures LexLe(KeyOf(PriceDescending)(rev[i]), KeyOf(PriceDescending)(rev[j])) {
      assert LexLe(KeyOf(PriceAscending)(asc[n - 1 - j]), KeyOf(PriceAscending)(asc[n - 1 - i]));
      LexLeSingle(asc[n - 1 - j].price, asc[n - 1 - i].price);
      LexLeSingle(-rev[i].price, -rev[j].price);
    }
  }

  /** Any list of products with pairwise distinct prices: sorting it by descending
      price gives exactly the reverse of sorting it by ascending price. */
  lemma DescendingIsReversedAscending(f: seq<Product>)
    requires forall x, y :: x in f && y in f && x.price == y.price ==> x == y
    ensures SortBy(f, KeyOf(PriceDescending)) == Reverse(SortBy(f, KeyOf(PriceAscending)))
  {
    var asc := SortBy(f, KeyOf(PriceAscending));
    var desc := SortBy(f, KeyOf(PriceDescending));
    var rev := Reverse(asc);
    ReverseOfAscendingIsDescending(asc);
    ReverseMultiset(asc);
    forall x, y | x in rev && y in rev && KeyOf(PriceDescending)(x) == KeyOf(PriceDescending)(y)
      ensures x == y
    {
      assert x in multiset(rev) && y in multiset(rev);
      assert x in multiset(f) && y in multiset(f);
      assert [-x.price][0] == [-y.price][0];
    }
    SortedUnique(rev, desc, KeyOf(PriceDescending));
  }

  /** With no two matching products at the same price, "lowest price first" and
      "highest price first" list the same products in exactly reversed order. */
  lemma AscendingIsReversedDescending(t: Tables, q: Params)
    requires forall x, y ::
      (x in t.products && y in t.products && Matches(t.productSizes, q, x)
       && Matches(t.productSizes, q, y) && x.price == y.price) ==> x == y
    ensures Ordered(t, q.(sort := Some("maior-preco"))) == Reverse(Ordered(t, q.(sort := Some("menor-preco"))))
  {
    var qa := q.(sort := Some("menor-preco"));
    var qd := q.(sort := Some("maior-preco"));
    assert BuildWhere(qa) == BuildWhere(qd) == BuildWhere(q);
    var f := Filter(t.products, KeepWhere(t.productSizes, BuildWhere(q)));
    forall x, y | x in f && y in f && x.price == y.price ensures x == y {
      WhereMeansMatches(t.productSizes, q, x);
      WhereMeansMatches(t.productSizes, q, y);
    }
    DescendingIsReversedAscending(f);
    assert Ordered(t, qa) == SortBy(f, KeyOf(PriceAscending));
    assert Ordered(t, qd) == SortBy(f, KeyOf(PriceDescending));
  }
}
