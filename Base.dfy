/** Records of the store and the small sequence operations that stand for the
    ORM's `where`, `count`, `skip` and `take`. Every table is a plain sequence
    of records, in the order the store happens to hold them. */
module Base {

  datatype Option<T> = None | Some(value: T)

  /** A query-string or form value that the source tests for truthiness:
      an absent value and the empty string both count as "not given". */
  predicate Given(s: Option<string>)
  {
    s.Some? && s.value != ""
  }

  /** Prices are in cents and timestamps in ticks, both as unbounded integers. */
  datatype Product = Product(
    id: string,
    name: string,
    description: string,
    price: int,
    categoryId: string,
    isActive: bool,
    isFeatured: bool,
    isReady: bool,
    createdAt: int,
    adminId: string)

  datatype Category = Category(id: string, name: string, createdAt: int, updatedAt: int)

  datatype Size = Size(id: string, name: string, description: string)

  /** The join row between a product and one of its sizes. */
  datatype ProductSize = ProductSize(productId: string, sizeId: string)

  datatype Image = Image(id: string, url: string, productId: string, createdAt: int)

  /** One consistent snapshot of the store. */
  datatype Tables = Tables(
    products: seq<Product>,
    categories: seq<Category>,
    sizes: seq<Size>,
    productSizes: seq<ProductSize>,
    images: seq<Image>,
    admins: set<string>)

  /** The rows of `s` that satisfy `keep`, in table order (the ORM's `where`). */
  function Filter<T(!new)>(s: seq<T>, keep: T -> bool): (r: seq<T>)
    ensures forall x :: x in r <==> x in s && keep(x)
    ensures forall x :: multiset(r)[x] == if keep(x) then multiset(s)[x] else 0
    ensures forall i :: 0 <= i < |r| ==> keep(r[i])
    ensures |r| <= |s|
  {
    if s == [] then []
    else
      assert s == [s[0]] + s[1..];
      (if keep(s[0]) then [s[0]] else []) + Filter(s[1..], keep)
  }

  /** Filtering distributes over concatenation, so it keeps the relative order of rows. */
  lemma {:induction false} FilterAppend<T(!new)>(a: seq<T>, b: seq<T>, keep: T -> bool)
    ensures Filter(a + b, keep) == Filter(a, keep) + Filter(b, keep)
  {
    if a == [] {
      assert a + b == b;
    } else {
      AppendTail(a, b);
      FilterAppend(a[1..], b, keep);
      AppendAssoc(if keep(a[0]) then [a[0]] else [], Filter(a[1..], keep), Filter(b, keep));
    }
  }

  // Two facts about concatenation, kept apart so that they are proved without the
  // quantified facts about `Filter` in scope.
  lemma AppendTail<T>(a: seq<T>, b: seq<T>)
    requires a != []
    ensures (a + b)[0] == a[0] && (a + b)[1..] == a[1..] + b
  {
  }

  lemma AppendAssoc<T>(x: seq<T>, y: seq<T>, z: seq<T>)
    ensures x + (y + z) == (x + y) + z
  {
  }

  /** The number of rows that satisfy `keep`, counted one row at a time (the ORM's `count`). */
  function Count<T>(s: seq<T>, keep: T -> bool): (n: nat)
    ensures n <= |s|
  {
    if s == [] then 0 else (if keep(s[0]) then 1 else 0) + Count(s[1..], keep)
  }

  /** `count` and `findMany` with the same `where` agree. */
  lemma {:induction false} CountIsFilterLength<T(!new)>(s: seq<T>, keep: T -> bool)
    ensures Count(s, keep) == |Filter(s, keep)|
  {
    if s != [] {
      CountIsFilterLength(s[1..], keep);
    }
  }

  /** The first `n` rows (the ORM's `take`). */
  function Take<T>(s: seq<T>, n: nat): (r: seq<T>)
    ensures |r| == if n < |s| then n else |s|
    ensures r == s[..|r|]
  {
    if n < |s| then s[..n] else s
  }

  /** The rows from position `skip` on, at most `take` of them (the ORM's `skip` and `take`). */
  function Slice<T>(s: seq<T>, skip: nat, take: nat): (r: seq<T>)
    ensures |r| <= take
    ensures skip >= |s| ==> r == []
    ensures skip < |s| ==> |r| == if skip + take < |s| then take else |s| - skip
    ensures forall i :: 0 <= i < |r| ==> skip + i < |s| && r[i] == s[skip + i]
  {
    if skip >= |s| then [] else Take(s[skip..], take)
  }

  /** Every product id occurs at most once in the table. */
  predicate UniqueProductIds(ps: seq<Product>)
  {
    forall i, j :: 0 <= i < j < |ps| ==> ps[i].id != ps[j].id
  }

  /** No value occurs twice. */
  predicate Distinct<T(==)>(s: seq<T>)
  {
    forall i, j :: 0 <= i < j < |s| ==> s[i] != s[j]
  }

  /** The id column of a table, row by row. */
  function Ids<T>(rows: seq<T>, idOf: T -> string): (r: seq<string>)
    ensures |r| == |rows| && forall i :: 0 <= i < |rows| ==> r[i] == idOf(rows[i])
  {
    if rows == [] then [] else [idOf(rows[0])] + Ids(rows[1..], idOf)
  }

  function CategoryIds(cs: seq<Category>): seq<string>
  {
    Ids(cs, (c: Category) => c.id)
  }

  function SizeIds(ss: seq<Size>): seq<string>
  {
    Ids(ss, (z: Size) => z.id)
  }

  /** What the store's primary keys guarantee: no two rows of a table share an id. */
  predicate WellFormed(t: Tables)
  {
    UniqueProductIds(t.products) && Distinct(CategoryIds(t.categories)) && Distinct(SizeIds(t.sizes))
  }

  /** The first product with the given id (the ORM's `findUnique`). */
  function FindProduct(ps: seq<Product>, id: string): (r: Option<Product>)
    ensures r.Some? <==> exists p :: p in ps && p.id == id
    ensures r.Some? ==> r.value in ps && r.value.id == id
  {
    if ps == [] then None
    else if ps[0].id == id then Some(ps[0])
    else FindProduct(ps[1..], id)
  }

  /** With unique ids, the product found is the only one with that id. */
  lemma FindProductUnique(ps: seq<Product>, id: string, p: Product)
    requires UniqueProductIds(ps)
    requires p in ps && p.id == id
    ensures FindProduct(ps, id) == Some(p)
  {
    var r := FindProduct(ps, id);
    var i :| 0 <= i < |ps| && ps[i] == r.value;
    var j :| 0 <= j < |ps| && ps[j] == p;
    assert i == j;
  }
}
