/** The home page's product feed (`GET /api/products/home`): the newest active and
    featured products, at most twelve, each with at most one image url and the name
    of its category. */
module HomeProducts {
  import opened Base
  import opened Sorting
  import opened CatalogQuery

  const HomeLimit: nat := 12
  const HomeFailed: string := "Erro ao buscar produtos em destaque"

  /** A product row with `images: { take: 1, select: { url } }` and
      `category: { select: { name } }`. */
  datatype HomeItem = HomeItem(product: Product, imageUrls: seq<string>, categoryName: Option<string>)

  datatype HomeResponse =
    | HomeListed(products: seq<HomeItem>)
    | HomeRejected(status: int, error: string)

  function OnHome(): Product -> bool
  {
    (p: Product) => p.isActive && p.isFeatured
  }

  function OfProduct(productId: string): Image -> bool
  {
    (im: Image) => im.productId == productId
  }

  function Urls(ims: seq<Image>): (r: seq<string>)
    ensures |r| == |ims| && forall k :: 0 <= k < |ims| ==> r[k] == ims[k].url
  {
    seq(|ims|, k requires 0 <= k < |ims| => ims[k].url)
  }

  function CategoryName(cs: seq<Category>, id: string): Option<string>
  {
    match FindCategory(cs, id)
    case None => None
    case Some(c) => Some(c.name)
  }

  function Project(t: Tables, p: Product): HomeItem
  {
    HomeItem(p, Urls(Take(Filter(t.images, OfProduct(p.id)), 1)), CategoryName(t.categories, p.categoryId))
  }

  /** The eligible products, newest first. */
  function Candidates(t: Tables): seq<Product>
  {
    SortBy(Filter(t.products, OnHome()), KeyOf(NewestFirst))
  }

  function Shown(t: Tables): seq<Product>
  {
    Take(Candidates(t), HomeLimit)
  }

  function Feed(t: Tables): (r: seq<HomeItem>)
    ensures |r| == |Shown(t)|
    ensures forall k :: 0 <= k < |r| ==> r[k] == Project(t, Shown(t)[k])
  {
    var s := Shown(t);
    seq(|s|, k requires 0 <= k < |s| => Project(t, s[k]))
  }

  /** The handler: the feed when the store answers, a 500 with an error body otherwise. */
  function HomeOutcome(t: Tables, reachable: bool): (r: HomeResponse)
    ensures r.HomeListed? <==> reachable
    ensures r.HomeListed? ==> r.products == Feed(t)
    ensures r.HomeRejected? ==> r.status == 500 && r.error == HomeFailed
  {
    if reachable then HomeListed(Feed(t)) else HomeRejected(500, HomeFailed)
  }

  /** At most twelve items, every one an active and featured product of the table,
      newest first. */
  lemma FeedRows(t: Tables)
    ensures |Feed(t)| <= HomeLimit
    ensures forall e :: e in Feed(t) ==> e.product in t.products && e.product.isActive && e.product.isFeatured
    ensures forall i, j :: 0 <= i < j < |Feed(t)| ==> Feed(t)[i].product.createdAt >= Feed(t)[j].product.createdAt
  {
    var f := Feed(t);
    var s := Shown(t);
    ShownRows(t);
    forall e | e in f ensures e.product in t.products && e.product.isActive && e.product.isFeatured {
      var k :| 0 <= k < |f| && f[k] == e;
      assert e.product == s[k];
    }
    forall i, j | 0 <= i < j < |f| ensures f[i].product.createdAt >= f[j].product.createdAt {
      assert f[i].product == s[i] && f[j].product == s[j];
    }
  }

  lemma ShownRows(t: Tables)
    ensures |Shown(t)| <= HomeLimit
    ensures forall p :: p in Shown(t) ==> p in t.products && p.isActive && p.isFeatured
    ensures OrderedAs(NewestFirst, Shown(t))
  {
    var c := Candidates(t);
    SortedByKeyIsOrdered(NewestFirst, c);
    forall p | p in Shown(t) ensures p in t.products && p.isActive && p.isFeatured {
      assert p in multiset(Filter(t.products, OnHome()));
    }
  }

  /** Each item carries at most one image url, the url of one of its own product's
      images, and its category's name exactly when that category exists. */
  lemma FeedProjection(t: Tables)
    ensures forall e :: e in Feed(t) ==> |e.imageUrls| <= 1
    ensures forall e :: e in Feed(t) ==> forall u :: u in e.imageUrls ==>
      exists im :: im in t.images && im.productId == e.product.id && im.url == u
    ensures forall e :: e in Feed(t) ==>
      (e.categoryName.Some? <==> exists c :: c in t.categories && c.id == e.product.categoryId)
  {
    forall e | e in Feed(t) ensures ProjectionHolds(t, e) {
      var k :| 0 <= k < |Feed(t)| && Feed(t)[k] == e;
      ProjectMeaning(t, Shown(t)[k]);
    }
  }

  predicate ProjectionHolds(t: Tables, e: HomeItem)
  {
    && |e.imageUrls| <= 1
    && (forall u :: u in e.imageUrls ==>
         exists im :: im in t.images && im.productId == e.product.id && im.url == u)
    && (e.categoryName.Some? <==> exists c :: c in t.categories && c.id == e.product.categoryId)
  }

  lemma ProjectMeaning(t: Tables, p: Product)
    ensures Project(t, p).product == p
    ensures ProjectionHolds(t, Project(t, p))
  {
    FirstImageUrl(Filter(t.images, OfProduct(p.id)), t.images, p.id);
  }

  /** The url kept from an image list filtered to one product belongs to an image of it. */
  lemma FirstImageUrl(ims: seq<Image>, all: seq<Image>, productId: string)
    requires forall im :: im in ims ==> im in all && im.productId == productId
    ensures |Urls(Take(ims, 1))| <= 1
    ensures forall u :: u in Urls(Take(ims, 1)) ==>
      exists im :: im in all && im.productId == productId && im.url == u
  {
    if ims != [] {
      assert Urls(Take(ims, 1)) == [ims[0].url];
    }
  }

  /** The twelve are the newest: while fewer than twelve products are eligible all of
      them are shown, and an eligible product left out is no newer than any shown. */
  lemma FeedIsNewest(t: Tables)
    ensures |Filter(t.products, OnHome())| <= HomeLimit ==>
      multiset(Shown(t)) == multiset(Filter(t.products, OnHome()))
    ensures forall p, e :: p in t.products && p.isActive && p.isFeatured && p !in Shown(t) && e in Shown(t) ==>
      p.createdAt <= e.createdAt
  {
    var c := Candidates(t);
    var s := Shown(t);
    SortedByKeyIsOrdered(NewestFirst, c);
    forall p, e | p in t.products && p.isActive && p.isFeatured && p !in s && e in s
      ensures p.createdAt <= e.createdAt
    {
      assert p in multiset(c);
      var i :| 0 <= i < |c| && c[i] == p;
      var j :| 0 <= j < |s| && s[j] == e;
      assert c[j] == e;
      assert InOrder(NewestFirst, c[j], c[i]);
    }
  }
}
