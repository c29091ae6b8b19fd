/** The read helpers of the product service: one product by id with its relations,
    the products of a category, a product with up to three related products, and
    the featured products. Each is one `findMany`/`findUnique` over the tables. */
module ProductService {
  import opened Base
  import opened CatalogQuery

  const RelatedLimit: nat := 3

  /** A product with its category and images attached (`include: { category, images }`). */
  datatype Listing = Listing(product: Product, category: Option<Category>, images: seq<Image>)

  /** A related product with only its images attached (`include: { images }`). */
  datatype Related = Related(product: Product, images: seq<Image>)

  datatype WithRelated = WithRelated(product: ProductView, relatedProducts: seq<Related>)

  function OfProduct(productId: string): Image -> bool
  {
    (im: Image) => im.productId == productId
  }

  function ImagesOf(t: Tables, p: Product): seq<Image>
  {
    Filter(t.images, OfProduct(p.id))
  }

  function ListingsOf(t: Tables, s: seq<Product>): (r: seq<Listing>)
    ensures |r| == |s|
    ensures forall k :: 0 <= k < |s| ==>
      r[k] == Listing(s[k], FindCategory(t.categories, s[k].categoryId), ImagesOf(t, s[k]))
  {
    seq(|s|, k requires 0 <= k < |s| =>
      Listing(s[k], FindCategory(t.categories, s[k].categoryId), ImagesOf(t, s[k])))
  }

  function ListedProducts(ls: seq<Listing>): (r: seq<Product>)
    ensures |r| == |ls| && forall k :: 0 <= k < |ls| ==> r[k] == ls[k].product
  {
    seq(|ls|, k requires 0 <= k < |ls| => ls[k].product)
  }

  function RelatedProducts(rs: seq<Related>): (r: seq<Product>)
    ensures |r| == |rs| && forall k :: 0 <= k < |rs| ==> r[k] == rs[k].product
  {
    seq(|rs|, k requires 0 <= k < |rs| => rs[k].product)
  }

  /** `getProductById`: the product with that id and its category, images and sizes. */
  function ProductById(t: Tables, id: string): Option<ProductView>
  {
    match FindProduct(t.products, id)
    case None => None
    case Some(p) => Some(Expand(t, p))
  }

  /** `null` exactly when no product has the id; otherwise the product with the id,
      which with unique ids is the one row carrying it. */
  lemma ProductByIdMeaning(t: Tables, id: string)
    requires UniqueProductIds(t.products)
    ensures ProductById(t, id).None? <==> forall p :: p in t.products ==> p.id != id
    ensures forall p :: p in t.products && p.id == id ==> ProductById(t, id) == Some(Expand(t, p))
  {
    forall p | p in t.products && p.id == id ensures ProductById(t, id) == Some(Expand(t, p)) {
      FindProductUnique(t.products, id, p);
    }
  }

  function InCategory(categoryId: string): Product -> bool
  {
    (p: Product) => p.categoryId == categoryId
  }

  /** `getProductsByCategory`. */
  function ProductsByCategory(t: Tables, categoryId: string): seq<Listing>
  {
    ListingsOf(t, Filter(t.products, InCategory(categoryId)))
  }

  /** Exactly the products filed under the category, each as often as in the table and
      in table order, with its own images attached. */
  lemma ProductsByCategoryMeaning(t: Tables, categoryId: string)
    ensures forall p :: p in ListedProducts(ProductsByCategory(t, categoryId)) <==>
      p in t.products && p.categoryId == categoryId
    ensures forall p: Product :: p.categoryId == categoryId ==>
      multiset(ListedProducts(ProductsByCategory(t, categoryId)))[p] == multiset(t.products)[p]
    ensures forall l :: l in ProductsByCategory(t, categoryId) ==>
      forall im :: im in l.images <==> im in t.images && im.productId == l.product.id
  {
    assert ListedProducts(ProductsByCategory(t, categoryId)) == Filter(t.products, InCategory(categoryId));
    ListingImagesAreOwn(t, Filter(t.products, InCategory(categoryId)));
  }

  /** Each listing carries exactly the images of its own product. */
  lemma ListingImagesAreOwn(t: Tables, s: seq<Product>)
    ensures forall l :: l in ListingsOf(t, s) ==>
      forall im :: im in l.images <==> im in t.images && im.productId == l.product.id
  {
    forall l | l in ListingsOf(t, s)
      ensures forall im :: im in l.images <==> im in t.images && im.productId == l.product.id
    {
      var k :| 0 <= k < |s| && ListingsOf(t, s)[k] == l;
    }
  }

  function RelatedTo(p: Product): Product -> bool
  {
    (q: Product) => q.categoryId == p.categoryId && q.id != p.id
  }

  function RelatedOf(t: Tables, p: Product): seq<Related>
  {
    var s := Take(Filter(t.products, RelatedTo(p)), RelatedLimit);
    seq(|s|, k requires 0 <= k < |s| => Related(s[k], ImagesOf(t, s[k])))
  }

  /** `getProductWithRelated`. */
  function ProductWithRelated(t: Tables, id: string): Option<WithRelated>
  {
    match ProductById(t, id)
    case None => None
    case Some(v) => Some(WithRelated(v, RelatedOf(t, v.product)))
  }

  /** `null` when the product is missing; otherwise at most three related products,
      each in the same category and none of them the product itself, none listed
      more often than the table holds it, and as many as there are such products up
      to three. Which three is not promised: the query gives no order. */
  lemma ProductWithRelatedMeaning(t: Tables, id: string)
    ensures ProductWithRelated(t, id).None? <==> forall p :: p in t.products ==> p.id != id
    ensures ProductWithRelated(t, id).Some? ==>
      var w := ProductWithRelated(t, id).value;
      var rel := RelatedProducts(w.relatedProducts);
      && w.product.product in t.products && w.product.product.id == id
      && |rel| <= RelatedLimit
      && (forall q :: q in rel ==> q in t.products && q.categoryId == w.product.product.categoryId)
      && (forall q :: q in rel ==> q.id != id)
      && |rel| == Min(RelatedLimit, Count(t.products, RelatedTo(w.product.product)))
      && multiset(rel) <= multiset(Filter(t.products, RelatedTo(w.product.product)))
  {
    if ProductWithRelated(t, id).Some? {
      var w := ProductWithRelated(t, id).value;
      var p := w.product.product;
      var candidates := Filter(t.products, RelatedTo(p));
      var rel := RelatedProducts(w.relatedProducts);
      assert rel == Take(candidates, RelatedLimit);
      CountIsFilterLength(t.products, RelatedTo(p));
      assert candidates == rel + candidates[|rel|..];
      assert multiset(candidates) == multiset(rel) + multiset(candidates[|rel|..]);
      forall q | q in rel ensures q in t.products && q.categoryId == p.categoryId && q.id != id {
        assert q in candidates;
      }
    }
  }

  function Featured(): Product -> bool
  {
    (p: Product) => p.isFeatured
  }

  /** `getProductFeatured`. */
  function FeaturedProducts(t: Tables): seq<Listing>
  {
    ListingsOf(t, Filter(t.products, Featured()))
  }

  /** Exactly the featured products, each as often as in the table; whether a product
      is active plays no part, so an inactive featured product is listed too. */
  lemma FeaturedProductsMeaning(t: Tables)
    ensures forall p :: p in ListedProducts(FeaturedProducts(t)) <==> p in t.products && p.isFeatured
    ensures forall p: Product :: p.isFeatured ==>
      multiset(ListedProducts(FeaturedProducts(t)))[p] == multiset(t.products)[p]
    ensures forall p :: p in t.products && p.isFeatured && !p.isActive ==>
      p in ListedProducts(FeaturedProducts(t))
  {
    assert ListedProducts(FeaturedProducts(t)) == Filter(t.products, Featured());
  }
}
