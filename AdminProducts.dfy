/** Product creation by an administrator (`POST /api/admin/products`): the form is
    checked in a fixed order (admin, categories, sizes) and the first failing check
    decides the response; a request that passes creates one product, filed under the
    first category sent, with one size link per size sent. */
module AdminProducts {
  import opened Base
  import opened Db

  const AdminNotFound: string := "Admin não encontrado"
  const NoCategory: string := "É necessário selecionar pelo menos uma categoria"
  const UnknownCategory: string := "Uma ou mais categorias não foram encontradas"
  const NoSize: string := "É necessário selecionar pelo menos um tamanho"
  const UnknownSize: string := "Um ou mais tamanhos não foram encontrados"
  const RequestFailed: string := "Erro ao processar requisição"

  /** A form field holding a JSON-encoded list of ids, as `JSON.parse` reads it. */
  datatype IdList =
    | Malformed          // not JSON: `JSON.parse` throws
    | NotAnArray         // valid JSON, but not an array (a missing field parses as `null`)
    | NonTextArray       // an array with an element that is not a string: the store rejects the lookup
    | Ids(ids: seq<string>)

  /** The multipart form. An absent text field is `None`; the price is already parsed
      (`None` when it is not a number). */
  datatype ProductForm = ProductForm(
    adminId: Option<string>,
    name: Option<string>,
    description: Option<string>,
    price: Option<int>,
    categories: IdList,
    sizes: IdList)

  /** The values the store's schema fills in for a new product, and its creation time. */
  datatype StoreDefaults = StoreDefaults(isActive: bool, isFeatured: bool, isReady: bool, now: int)

  datatype Response =
    | Created(product: Product)
    | Failed(status: int, error: string)

  /** The outcome of the checks that run before anything is written. */
  datatype Check =
    | Passed(adminId: string, categoryId: string, sizeIds: seq<string>)
    | Rejected(status: int, error: string)

  function InIds(ids: seq<string>): string -> bool
  {
    id => id in ids
  }

  /** How many rows `findMany({ where: { id: { in: ids } } })` returns. */
  function Found(rowIds: seq<string>, ids: seq<string>): nat
  {
    Count(rowIds, InIds(ids))
  }

  /** The size checks, which run once the categories have passed. */
  function CheckSizes(t: Tables, adminId: string, categoryId: string, sizes: IdList): Check
  {
    match sizes
    case Malformed => Rejected(500, RequestFailed)
    case NotAnArray => Rejected(400, NoSize)
    case NonTextArray => Rejected(500, RequestFailed)
    case Ids(sids) =>
      if |sids| == 0 then Rejected(400, NoSize)
      else if Found(SizeIds(t.sizes), sids) != |sids| then Rejected(404, UnknownSize)
      else Passed(adminId, categoryId, sids)
  }

  /** The checks of lines 36-92, in their order. A missing admin id makes the lookup
      itself fail. */
  function Validate(t: Tables, f: ProductForm): Check
  {
    if f.adminId.None? then Rejected(500, RequestFailed)
    else if f.adminId.value !in t.admins then Rejected(404, AdminNotFound)
    else
      match f.categories
      case Malformed => Rejected(500, RequestFailed)
      case NotAnArray => Rejected(400, NoCategory)
      case NonTextArray => Rejected(500, RequestFailed)
      case Ids(cids) =>
        if |cids| == 0 then Rejected(400, NoCategory)
        else if Found(CategoryIds(t.categories), cids) != |cids| then Rejected(404, UnknownCategory)
        else CheckSizes(t, f.adminId.value, cids[0], f.sizes)
  }

  /** One join row per size id, in the order sent. */
  function Links(productId: string, sizeIds: seq<string>): (r: seq<ProductSize>)
    ensures |r| == |sizeIds|
    ensures forall i :: 0 <= i < |r| ==> r[i] == ProductSize(productId, sizeIds[i])
  {
    if sizeIds == [] then [] else [ProductSize(productId, sizeIds[0])] + Links(productId, sizeIds[1..])
  }

  /** The response of the route. `accepted` says whether the store takes the insert;
      a missing name, description or price makes the insert fail as well. */
  function PostOutcome(t: Tables, f: ProductForm, newId: string, d: StoreDefaults, accepted: bool): Response
  {
    match Validate(t, f)
    case Rejected(status, error) => Failed(status, error)
    case Passed(adminId, categoryId, _) =>
      if f.name.None? || f.description.None? || f.price.None? || !accepted then Failed(500, RequestFailed)
      else Created(Product(newId, f.name.value, f.description.value, f.price.value, categoryId,
                           d.isActive, d.isFeatured, d.isReady, d.now, adminId))
  }

  /** The tables after the route has answered `r`. */
  function After(t: Tables, f: ProductForm, r: Response): Tables
  {
    if r.Failed? || Validate(t, f).Rejected? then t
    else t.(products := t.products + [r.product],
            productSizes := t.productSizes + Links(r.product.id, Validate(t, f).sizeIds))
  }

  /** The route handler: the checks, then one insert. */
  method Post(db: Database, f: ProductForm, newId: string, d: StoreDefaults, accepted: bool) returns (r: Response)
    requires db.Valid()
    requires forall q :: q in db.products ==> q.id != newId
    modifies db
    ensures db.Valid()
    ensures r == PostOutcome(old(db.Tables()), f, newId, d, accepted)
    ensures db.Tables() == After(old(db.Tables()), f, r)
  {
    var check := Validate(db.Tables(), f);
    if check.Rejected? {
      return Failed(check.status, check.error);
    }
    if f.name.None? || f.description.None? || f.price.None? || !accepted {
      return Failed(500, RequestFailed);
    }
    var p := Product(newId, f.name.value, f.description.value, f.price.value, check.categoryId,
                     d.isActive, d.isFeatured, d.isReady, d.now, check.adminId);
    db.CreateProduct(p, Links(newId, check.sizeIds));
    r := Created(p);
  }

  // ---- counting rows found by id ----

  function SetOf(s: seq<string>): set<string>
  {
    set x | x in s
  }

  /** With unique row ids, the rows found are as many as the distinct requested ids
      that exist. */
  lemma {:induction false} FoundIsExistingIds(rowIds: seq<string>, ids: seq<string>)
    requires Distinct(rowIds)
    ensures Found(rowIds, ids) == |SetOf(rowIds) * SetOf(ids)|
  {
    if rowIds == [] {
      assert SetOf(rowIds) == {};
    } else {
      var x, rest := rowIds[0], rowIds[1..];
      DistinctTail(rowIds);
      FoundIsExistingIds(rest, ids);
      var both := SetOf(rest) * SetOf(ids);
      assert Found(rowIds, ids) == (if x in ids then 1 else 0) + Found(rest, ids);
      assert x !in both;
      if x in ids {
        assert SetOf(rowIds) * SetOf(ids) == both + {x};
      } else {
        assert SetOf(rowIds) * SetOf(ids) == both;
      }
    }
  }

  /** Without repeats, the first entry does not come back and the rest has no repeats. */
  lemma DistinctTail(s: seq<string>)
    requires s != [] && Distinct(s)
    ensures Distinct(s[1..]) && s[0] !in s[1..]
  {
    forall i, j | 0 <= i < j < |s| - 1 ensures s[1..][i] != s[1..][j] {
      assert s[1..][i] == s[i + 1] && s[1..][j] == s[j + 1];
    }
    forall j | 0 <= j < |s| - 1 ensures s[1..][j] != s[0] {
      assert s[1..][j] == s[j + 1];
    }
  }

  /** A list has as many distinct values as entries exactly when none repeats. */
  lemma {:induction false} SetOfSize(s: seq<string>)
    ensures |SetOf(s)| <= |s|
    ensures |SetOf(s)| == |s| <==> Distinct(s)
  {
    if s == [] {
      assert SetOf(s) == {};
    } else {
      var rest := s[1..];
      SetOfSize(rest);
      assert SetOf(s) == {s[0]} + SetOf(rest);
      if s[0] in rest {
        assert SetOf(s) == SetOf(rest);
        var j :| 0 <= j < |rest| && rest[j] == s[0];
        assert s[0] == s[j + 1];
      } else {
        assert Distinct(s) <==> Distinct(rest) by {
          if Distinct(rest) {
            forall i, j | 0 <= i < j < |s| ensures s[i] != s[j] {
              if i == 0 {
                assert s[j] == rest[j - 1];
              } else {
                assert s[i] == rest[i - 1] && s[j] == rest[j - 1];
              }
            }
          }
          if Distinct(s) {
            forall i, j | 0 <= i < j < |rest| ensures rest[i] != rest[j] {
              assert rest[i] == s[i + 1] && rest[j] == s[j + 1];
            }
          }
        }
      }
    }
  }

  /** A subset is at most as large, and as large only when it is the whole set. */
  lemma SubsetSize(a: set<string>, b: set<string>)
    requires a <= b
    ensures |a| <= |b|
    ensures |a| == |b| ==> a == b
  {
    assert b == a + (b - a);
    assert a * (b - a) == {};
    if |a| == |b| {
      assert |b - a| == 0;
    }
  }

  /** The count comparison of lines 64 and 87 passes exactly when the ids sent are
      pairwise different and every one of them exists: a repeated id fails it. */
  lemma FoundAllIff(rowIds: seq<string>, ids: seq<string>)
    requires Distinct(rowIds)
    ensures Found(rowIds, ids) == |ids| <==> Distinct(ids) && forall x :: x in ids ==> x in rowIds
  {
    FoundIsExistingIds(rowIds, ids);
    SetOfSize(ids);
    var both := SetOf(rowIds) * SetOf(ids);
    assert both <= SetOf(ids);
    SubsetSize(both, SetOf(ids));
    if Found(rowIds, ids) == |ids| {
      SubsetSize(both, SetOf(ids));
      forall x | x in ids ensures x in rowIds {
        assert x in SetOf(ids);
        assert x in both;
      }
    }
    if Distinct(ids) && forall x :: x in ids ==> x in rowIds {
      assert both == SetOf(ids);
    }
  }

  // ---- what the route promises ----

  /** A request passes every check exactly when the admin exists, both lists are
      non-empty arrays of strings without repeats, and every id in them exists; the
      product is then filed under the first category sent. */
  lemma PassesIff(t: Tables, f: ProductForm)
    requires WellFormed(t)
    ensures Validate(t, f).Passed? <==>
      && f.adminId.Some? && f.adminId.value in t.admins
      && f.categories.Ids? && |f.categories.ids| > 0 && Distinct(f.categories.ids)
      && (forall c :: c in f.categories.ids ==> c in CategoryIds(t.categories))
      && f.sizes.Ids? && |f.sizes.ids| > 0 && Distinct(f.sizes.ids)
      && (forall s :: s in f.sizes.ids ==> s in SizeIds(t.sizes))
    ensures Validate(t, f).Passed? ==>
      && Validate(t, f).adminId == f.adminId.value
      && Validate(t, f).categoryId == f.categories.ids[0]
      && Validate(t, f).sizeIds == f.sizes.ids
  {
    if f.categories.Ids? {
      FoundAllIff(CategoryIds(t.categories), f.categories.ids);
    }
    if f.sizes.Ids? {
      FoundAllIff(SizeIds(t.sizes), f.sizes.ids);
    }
  }

  /** The first failing check decides: an unknown admin is reported whatever the rest
      of the form holds, an empty or non-array category list before any size problem,
      and unknown or repeated categories before any size problem. */
  lemma FirstFailureDecides(t: Tables, f: ProductForm, g: ProductForm)
    requires WellFormed(t)
    ensures f.adminId.Some? && f.adminId.value !in t.admins ==> Validate(t, f) == Rejected(404, AdminNotFound)
    ensures f.adminId.Some? && f.adminId.value in t.admins && (f.categories.NotAnArray? || f.categories == Ids([]))
            ==> Validate(t, f) == Rejected(400, NoCategory)
    ensures (f.adminId.Some? && f.adminId.value in t.admins && f.categories.Ids? && f.categories.ids != []
             && !Distinct(f.categories.ids)) ==> Validate(t, f) == Rejected(404, UnknownCategory)
    ensures (f.adminId.Some? && f.adminId.value in t.admins && f.categories.Ids? && f.categories.ids != []
             && exists c :: c in f.categories.ids && c !in CategoryIds(t.categories))
            ==> Validate(t, f) == Rejected(404, UnknownCategory)
    ensures (f.adminId == g.adminId && f.categories == g.categories && Validate(t, f).Rejected?
             && Validate(t, f).error != NoSize && Validate(t, f).error != UnknownSize
             && Validate(t, f) != Rejected(500, RequestFailed)) ==> Validate(t, g) == Validate(t, f)
  {
    if f.categories.Ids? {
      FoundAllIff(CategoryIds(t.categories), f.categories.ids);
    }
  }

  /** Once the admin and the categories have passed, the sizes decide: a non-array or
      empty list is refused with 400, and a repeated or unknown size with 404. */
  lemma SizeChecksFollowCategories(t: Tables, f: ProductForm)
    requires WellFormed(t)
    requires f.adminId.Some? && f.adminId.value in t.admins
    requires f.categories.Ids? && f.categories.ids != [] && Distinct(f.categories.ids)
    requires forall c :: c in f.categories.ids ==> c in CategoryIds(t.categories)
    ensures f.sizes.NotAnArray? || f.sizes == Ids([]) ==> Validate(t, f) == Rejected(400, NoSize)
    ensures (f.sizes.Ids? && f.sizes.ids != []
             && (!Distinct(f.sizes.ids) || exists z :: z in f.sizes.ids && z !in SizeIds(t.sizes)))
            ==> Validate(t, f) == Rejected(404, UnknownSize)
  {
    FoundAllIff(CategoryIds(t.categories), f.categories.ids);
    if f.sizes.Ids? {
      FoundAllIff(SizeIds(t.sizes), f.sizes.ids);
    }
  }

  /** A created product is the one the form describes, under the first category sent,
      with one size link per size sent, in order, and none repeated. */
  lemma CreatedProduct(t: Tables, f: ProductForm, newId: string, d: StoreDefaults, accepted: bool)
    requires WellFormed(t)
    ensures PostOutcome(t, f, newId, d, accepted).Created? <==>
            Validate(t, f).Passed? && f.name.Some? && f.description.Some? && f.price.Some? && accepted
    ensures PostOutcome(t, f, newId, d, accepted).Created? ==>
      var p := PostOutcome(t, f, newId, d, accepted).product;
      var links := After(t, f, PostOutcome(t, f, newId, d, accepted)).productSizes[|t.productSizes|..];
      && p.id == newId && p.categoryId == f.categories.ids[0] && p.adminId == f.adminId.value
      && p.name == f.name.value && p.description == f.description.value && p.price == f.price.value
      && |links| == |f.sizes.ids| > 0
      && (forall i :: 0 <= i < |links| ==> links[i] == ProductSize(newId, f.sizes.ids[i]))
      && Distinct(links)
  {
    PassesIff(t, f);
    var r := PostOutcome(t, f, newId, d, accepted);
    if r.Created? {
      var links := Links(newId, f.sizes.ids);
      assert After(t, f, r).productSizes[|t.productSizes|..] == links;
      forall i, j | 0 <= i < j < |links| ensures links[i] != links[j] {
        assert f.sizes.ids[i] != f.sizes.ids[j];
      }
    }
  }

  /** A rejected or failed request leaves every table as it was. */
  lemma FailureWritesNothing(t: Tables, f: ProductForm, newId: string, d: StoreDefaults, accepted: bool)
    requires PostOutcome(t, f, newId, d, accepted).Failed?
    ensures After(t, f, PostOutcome(t, f, newId, d, accepted)) == t
    ensures PostOutcome(t, f, newId, d, accepted).status in {400, 404, 500}
  {
  }
}
