/** The shared product schema: the fields a product must carry, their bounds and the
    defaults filled in for absent ones. */
module ProductValidation {
  import opened Base
  import opened Schema

  const NameRequired: string := "Nome é obrigatório"
  const DescriptionRequired: string := "Descrição é obrigatória"
  const PriceNegative: string := "Preço deve ser maior ou igual a 0"
  const CategoryRequired: string := "Categoria é obrigatória"
  const SizeRequired: string := "Selecione pelo menos um tamanho"

  /** The object handed to the schema, field by field (`None` when absent). */
  datatype ProductInput = ProductInput(
    name: Option<Json>,
    description: Option<Json>,
    price: Option<Json>,
    categoryId: Option<Json>,
    isActive: Option<Json>,
    isReady: Option<Json>,
    images: Option<Json>,
    sizeIds: Option<Json>)

  datatype ProductFormData = ProductFormData(
    name: string,
    description: string,
    price: int,
    categoryId: string,
    isActive: bool,
    isReady: bool,
    images: Option<seq<Json>>,
    sizeIds: seq<string>)

  datatype Parsed = Valid(data: ProductFormData) | Invalid(issues: seq<Issue>)

  function NameOf(i: ProductInput): Field<string> { NonEmptyText(i.name, NameRequired) }
  function DescriptionOf(i: ProductInput): Field<string> { NonEmptyText(i.description, DescriptionRequired) }
  function PriceOf(i: ProductInput): Field<int> { NumberAtLeast(i.price, 0, PriceNegative, 0) }
  function CategoryIdOf(i: ProductInput): Field<string> { NonEmptyText(i.categoryId, CategoryRequired) }
  function IsActiveOf(i: ProductInput): Field<bool> { Flag(i.isActive, Some(true)) }
  function IsReadyOf(i: ProductInput): Field<bool> { Flag(i.isReady, Some(false)) }
  function ImagesOf(i: ProductInput): Field<Option<seq<Json>>> { OptionalList(i.images) }
  function SizeIdsOf(i: ProductInput): Field<seq<string>> { NonEmptyTextList(i.sizeIds, SizeRequired) }

  const ProductPaths: seq<Path> :=
    [NamePath, DescriptionPath, PricePath, CategoryIdPath, IsActivePath, IsReadyPath, ImagesPath, SizeIdsPath]

  /** The issue one field of the schema reports (none for a field it does not declare). */
  function FieldIssue(i: ProductInput, p: Path): (r: seq<Issue>)
    ensures forall e :: e in r ==> e.path == p && r == [e]
  {
    match p
    case NamePath => IssueOf(p, NameOf(i))
    case DescriptionPath => IssueOf(p, DescriptionOf(i))
    case PricePath => IssueOf(p, PriceOf(i))
    case CategoryIdPath => IssueOf(p, CategoryIdOf(i))
    case IsActivePath => IssueOf(p, IsActiveOf(i))
    case IsReadyPath => IssueOf(p, IsReadyOf(i))
    case ImagesPath => IssueOf(p, ImagesOf(i))
    case SizeIdsPath => IssueOf(p, SizeIdsOf(i))
    case _ => []
  }

  /** The issues of all fields, in declaration order. */
  function Issues(i: ProductInput): seq<Issue>
  {
    FieldIssue(i, NamePath) + FieldIssue(i, DescriptionPath) + FieldIssue(i, PricePath)
    + FieldIssue(i, CategoryIdPath) + FieldIssue(i, IsActivePath) + FieldIssue(i, IsReadyPath)
    + FieldIssue(i, ImagesPath) + FieldIssue(i, SizeIdsPath)
  }

  predicate AllFieldsPass(i: ProductInput)
  {
    && NameOf(i).Ok? && DescriptionOf(i).Ok? && PriceOf(i).Ok? && CategoryIdOf(i).Ok?
    && IsActiveOf(i).Ok? && IsReadyOf(i).Ok? && ImagesOf(i).Ok? && SizeIdsOf(i).Ok?
  }

  /** The input the schema accepts, field by field. */
  predicate Acceptable(i: ProductInput)
  {
    && i.name.Some? && i.name.value.JString? && i.name.value.s != ""
    && i.description.Some? && i.description.value.JString? && i.description.value.s != ""
    && (i.price.None? || (i.price.value.JNumber? && i.price.value.n >= 0))
    && i.categoryId.Some? && i.categoryId.value.JString? && i.categoryId.value.s != ""
    && (i.isActive.None? || i.isActive.value.JBool?)
    && (i.isReady.None? || i.isReady.value.JBool?)
    && (i.images.None? || i.images.value.JArray?)
    && i.sizeIds.Some? && i.sizeIds.value.JArray? && AllText(i.sizeIds.value.items)
    && i.sizeIds.value.items != []
  }

  /** `productSchema.safeParse`. The schema accepts exactly the acceptable inputs, and
      then the price defaults to 0, `isActive` to true and `isReady` to false, `images`
      may stay absent, and at least one size id is kept; otherwise every failing
      field is reported. */
  function ParseProduct(i: ProductInput): (r: Parsed)
    ensures r.Valid? <==> Acceptable(i)
    ensures r.Valid? ==>
      && r.data.name == i.name.value.s && r.data.description == i.description.value.s
      && r.data.categoryId == i.categoryId.value.s
      && r.data.price == (if i.price.None? then 0 else i.price.value.n)
      && r.data.isActive == (if i.isActive.None? then true else i.isActive.value.b)
      && r.data.isReady == (if i.isReady.None? then false else i.isReady.value.b)
      && r.data.images == (if i.images.None? then None else Some(i.images.value.items))
      && |r.data.sizeIds| >= 1 && r.data.sizeIds == Texts(i.sizeIds.value.items)
    ensures r.Invalid? ==> r.issues == Issues(i)
  {
    if AllFieldsPass(i) then
      Valid(ProductFormData(NameOf(i).value, DescriptionOf(i).value, PriceOf(i).value,
                            CategoryIdOf(i).value, IsActiveOf(i).value, IsReadyOf(i).value,
                            ImagesOf(i).value, SizeIdsOf(i).value))
    else Invalid(Issues(i))
  }

  /** A refused input reports one issue for each field that fails, that field's own,
      and nothing else, in declaration order: an absent name comes first. */
  lemma ParseProductReportsEachField(i: ProductInput)
    ensures ParseProduct(i).Invalid? ==> ParseProduct(i).issues != []
    ensures ParseProduct(i).Invalid? ==> forall e :: e in ParseProduct(i).issues <==>
      e.path in ProductPaths && FieldIssue(i, e.path) == [e]
  {
    forall e ensures e in Issues(i) <==> e.path in ProductPaths && FieldIssue(i, e.path) == [e] {
      if e in Issues(i) {
        FoundInSomeField(i, e);
      }
      if e.path in ProductPaths && FieldIssue(i, e.path) == [e] {
        ListedFromItsField(i, e);
      }
    }
  }

  lemma ListedFromItsField(i: ProductInput, e: Issue)
    requires e.path in ProductPaths && FieldIssue(i, e.path) == [e]
    ensures e in Issues(i)
  {
    assert e in FieldIssue(i, e.path);
    match e.path
    case NamePath =>
    case DescriptionPath =>
    case PricePath =>
    case CategoryIdPath =>
    case IsActivePath =>
    case IsReadyPath =>
    case ImagesPath =>
    case SizeIdsPath =>
    case _ =>
  }

  lemma FoundInSomeField(i: ProductInput, e: Issue)
    requires e in Issues(i)
    ensures e.path in ProductPaths && FieldIssue(i, e.path) == [e]
  {
    var p :| p in ProductPaths && e in FieldIssue(i, p);
  }

  /** Two refusals as the schema reports them: an absent name is the first issue, and
      an empty size list is reported with the schema's message. */
  lemma ParseProductExamples(i: ProductInput)
    ensures i.name.None? ==> ParseProduct(i).Invalid? && ParseProduct(i).issues[0] == Issue(NamePath, Required)
    ensures i.sizeIds == Some(JArray([])) ==>
      ParseProduct(i).Invalid? && Issue(SizeIdsPath, TooSmall(SizeRequired)) in ParseProduct(i).issues
  {
    if i.name.None? {
      assert FieldIssue(i, NamePath) == [Issue(NamePath, Required)];
    }
    if i.sizeIds == Some(JArray([])) {
      assert Issue(SizeIdsPath, TooSmall(SizeRequired)) in FieldIssue(i, SizeIdsPath);
    }
  }
}
