/** The category routes of the admin area (`/api/admin/categories`): `GET` lists every
    category in name order with the number of products filed under it; `POST`
    creates one category from a name. */
module AdminCategories {
  import opened Base
  import opened Sorting
  import opened Db

  const NameRequired: string := "Nome é obrigatório"
  const CreateFailed: string := "Erro ao criar categoria"
  const ListFailed: string := "Erro ao buscar categorias"

  /** One entry of the listing: the category's own columns and its product count. */
  datatype CategorySummary = CategorySummary(
    id: string,
    name: string,
    createdAt: int,
    updatedAt: int,
    productsCount: nat)

  /** The code points of a text, the key the names are ordered by. */
  function Codes(s: string): (r: seq<int>)
    ensures |r| == |s| && forall i :: 0 <= i < |s| ==> r[i] == s[i] as int
  {
    if s == [] then [] else [s[0] as int] + Codes(s[1..])
  }

  function NameKey(): Category -> seq<int>
  {
    (c: Category) => Codes(c.name)
  }

  function FiledUnder(categoryId: string): Product -> bool
  {
    (p: Product) => p.categoryId == categoryId
  }

  /** `_count.products`: the products whose category is `categoryId`. */
  function ProductsCount(ps: seq<Product>, categoryId: string): nat
  {
    Count(ps, FiledUnder(categoryId))
  }

  function Summary(ps: seq<Product>, c: Category): CategorySummary
  {
    CategorySummary(c.id, c.name, c.createdAt, c.updatedAt, ProductsCount(ps, c.id))
  }

  /** The `map` of lines 19-25 over the ordered rows. */
  function Summaries(ps: seq<Product>, cs: seq<Category>): (r: seq<CategorySummary>)
    ensures |r| == |cs| && forall i :: 0 <= i < |cs| ==> r[i] == Summary(ps, cs[i])
  {
    if cs == [] then [] else [Summary(ps, cs[0])] + Summaries(ps, cs[1..])
  }

  /** The `GET` handler on a snapshot of the store. */
  function List(t: Tables): seq<CategorySummary>
  {
    Summaries(t.products, SortBy(t.categories, NameKey()))
  }

  datatype ListResponse =
    | Listed(categories: seq<CategorySummary>)
    | ListRejected(status: int, error: string)

  /** The `GET` handler: the listing when the store answers, a 500 otherwise. */
  function ListOutcome(t: Tables, reachable: bool): (r: ListResponse)
    ensures r.Listed? <==> reachable
    ensures r.Listed? ==> r.categories == List(t)
    ensures r.ListRejected? ==> r.status == 500 && r.error == ListFailed
  {
    if reachable then Listed(List(t)) else ListRejected(500, ListFailed)
  }

  /** The listing has one entry per row of the table: every category appears, with
      its own columns and the number of its products, and nothing else does; the
      entries are in ascending code-point order of their names. */
  lemma ListingIsSortedCensus(t: Tables)
    ensures |List(t)| == |t.categories|
    ensures forall c :: c in t.categories ==> Summary(t.products, c) in List(t)
    ensures forall e :: e in List(t) ==>
      exists c :: c in t.categories && e == Summary(t.products, c)
    ensures forall i, j :: 0 <= i < j < |List(t)| ==> LexLe(Codes(List(t)[i].name), Codes(List(t)[j].name))
    ensures forall e :: e in List(t) ==> e.productsCount == |Filter(t.products, FiledUnder(e.id))|
  {
    var sorted := SortBy(t.categories, NameKey());
    var r := List(t);
    forall c | c in t.categories ensures Summary(t.products, c) in r {
      assert c in multiset(sorted);
      var i :| 0 <= i < |sorted| && sorted[i] == c;
      assert r[i] == Summary(t.products, c);
    }
    forall e | e in r ensures exists c :: c in t.categories && e == Summary(t.products, c) {
      var i :| 0 <= i < |r| && r[i] == e;
      assert sorted[i] in multiset(t.categories);
    }
    forall i, j | 0 <= i < j < |r| ensures LexLe(Codes(r[i].name), Codes(r[j].name)) {
      assert NameKey()(sorted[i]) == Codes(r[i].name);
    }
    forall e | e in r ensures e.productsCount == |Filter(t.products, FiledUnder(e.id))| {
      CountIsFilterLength(t.products, FiledUnder(e.id));
    }
  }

  /** The JSON body of a `POST`. */
  datatype CreateBody =
    | MalformedBody                // `request.json()` throws
    | CreateBody(name: Option<string>)

  datatype CreateResponse =
    | CategoryCreated(category: Category)
    | CreateRejected(status: int, error: string)

  /** The response of `POST`: a missing or empty name is refused with 400; a body
      that cannot be read, or a store that refuses the insert (`accepted` false), gives
      500; otherwise the created category carries the name sent. */
  function CreateOutcome(body: CreateBody, newId: string, now: int, accepted: bool): (r: CreateResponse)
    ensures r.CategoryCreated? <==> body.CreateBody? && Given(body.name) && accepted
    ensures body.CreateBody? && !Given(body.name) ==> r == CreateRejected(400, NameRequired)
    ensures r.CreateRejected? && r.status != 400 ==> r == CreateRejected(500, CreateFailed)
    ensures r.CategoryCreated? ==> r.category == Category(newId, body.name.value, now, now)
  {
    match body
    case MalformedBody => CreateRejected(500, CreateFailed)
    case CreateBody(name) =>
      if !Given(name) then CreateRejected(400, NameRequired)
      else if !accepted then CreateRejected(500, CreateFailed)
      else CategoryCreated(Category(newId, name.value, now, now))
  }

  method Create(db: Database, body: CreateBody, newId: string, now: int, accepted: bool) returns (r: CreateResponse)
    requires db.Valid()
    requires newId !in CategoryIds(db.categories)
    modifies db
    ensures db.Valid()
    ensures r == CreateOutcome(body, newId, now, accepted)
    ensures r.CreateRejected? ==> db.Tables() == old(db.Tables())
    ensures r.CategoryCreated? ==> db.Tables() == old(db.Tables()).(categories := old(db.categories) + [r.category])
  {
    if body.MalformedBody? {
      return CreateRejected(500, CreateFailed);
    }
    if !Given(body.name) {
      return CreateRejected(400, NameRequired);
    }
    if !accepted {
      return CreateRejected(500, CreateFailed);
    }
    var c := Category(newId, body.name.value, now, now);
    db.CreateCategory(c);
    r := CategoryCreated(c);
  }
}
