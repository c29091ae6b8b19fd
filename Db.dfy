/** The store as one mutable object: each table is a sequence field that the
    insert operations extend. The routes that write go through these operations. */
module Db {
  import opened Base

  class Database {
    var products: seq<Product>
    var categories: seq<Category>
    var sizes: seq<Size>
    var productSizes: seq<ProductSize>
    var images: seq<Image>
    var admins: set<string>

    /** The current contents of every table. */
    function Tables(): Tables
      reads this
    {
      Base.Tables(products, categories, sizes, productSizes, images, admins)
    }

    predicate Valid()
      reads this
    {
      WellFormed(Tables())
    }

    constructor (t: Tables)
      requires WellFormed(t)
      ensures Valid() && Tables() == t
    {
      products, categories, sizes := t.products, t.categories, t.sizes;
      productSizes, images, admins := t.productSizes, t.images, t.admins;
    }

    /** `product.create` with nested size links: one product row and its join rows. */
    method CreateProduct(p: Product, links: seq<ProductSize>)
      requires Valid()
      requires forall q :: q in products ==> q.id != p.id
      modifies this
      ensures Valid()
      ensures Tables() == old(Tables()).(products := old(products) + [p], productSizes := old(productSizes) + links)
    {
      products := products + [p];
      productSizes := productSizes + links;
    }

    /** `category.create`: one category row. */
    method CreateCategory(c: Category)
      requires Valid()
      requires c.id !in CategoryIds(categories)
      modifies this
      ensures Valid()
      ensures Tables() == old(Tables()).(categories := old(categories) + [c])
    {
      assert CategoryIds(categories + [c]) == CategoryIds(categories) + [c.id];
      categories := categories + [c];
    }
  }
}
