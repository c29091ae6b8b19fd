/** The administrator's form for editing a product: its schema, the values it starts
    from, the size selection it keeps, and what a submission sends and shows. */
module EditProductForm {
  import opened Base
  import opened Schema
  import NewProductForm

  const NameRequired: string := "Nome é obrigatório"
  const DescriptionRequired: string := "Descrição é obrigatória"
  const PriceRequired: string := "Preço é obrigatório"
  const CategoryRequired: string := "Selecione uma categoria"
  const SizeRequired: string := "Selecione pelo menos um tamanho"

  const AdminMissing: string := "Admin não autenticado"
  const CategoryMissing: string := "É necessário selecionar uma categoria"
  const UpdateFailed: string := "Erro ao atualizar produto"

  /** The product being edited, with its size links and the sizes they point to. */
  datatype SizeRow = SizeRow(link: ProductSize, size: Size)
  datatype Editing = Editing(product: Product, sizes: seq<SizeRow>)

  datatype FormInput = FormInput(
    name: Option<Json>,
    description: Option<Json>,
    price: Option<Json>,
    category: Option<Json>,
    sizes: Option<Json>,
    isActive: Option<Json>,
    isReady: Option<Json>,
    isFeatured: Option<Json>)

  datatype FormData = FormData(
    name: string,
    description: string,
    price: string,
    category: string,
    sizes: seq<string>,
    isActive: bool,
    isReady: bool,
    isFeatured: bool)

  datatype Parsed = Valid(data: FormData) | Invalid(issues: seq<Issue>)

  function NameOf(i: FormInput): Field<string> { NonEmptyText(i.name, NameRequired) }
  function DescriptionOf(i: FormInput): Field<string> { NonEmptyText(i.description, DescriptionRequired) }
  function PriceOf(i: FormInput): Field<string> { NonEmptyText(i.price, PriceRequired) }
  function CategoryOf(i: FormInput): Field<string> { NonEmptyText(i.category, CategoryRequired) }
  function SizesOf(i: FormInput): Field<seq<string>> { NonEmptyTextList(i.sizes, SizeRequired) }
  function IsActiveOf(i: FormInput): Field<bool> { Flag(i.isActive, None) }
  function IsReadyOf(i: FormInput): Field<bool> { Flag(i.isReady, None) }
  function IsFeaturedOf(i: FormInput): Field<bool> { Flag(i.isFeatured, None) }

  function Issues(i: FormInput): seq<Issue>
  {
    IssueOf(NamePath, NameOf(i)) + IssueOf(DescriptionPath, DescriptionOf(i))
    + IssueOf(PricePath, PriceOf(i)) + IssueOf(CategoryPath, CategoryOf(i))
    + IssueOf(SizesPath, SizesOf(i)) + IssueOf(IsActivePath, IsActiveOf(i))
    + IssueOf(IsReadyPath, IsReadyOf(i)) + IssueOf(IsFeaturedPath, IsFeaturedOf(i))
  }

  /** The form's schema: non-empty name, description, price text and category, at
      least one size, and the three switches present as booleans (no defaults). */
  function ParseForm(i: FormInput): (r: Parsed)
    ensures r.Valid? <==>
      && i.name.Some? && i.name.value.JString? && i.name.value.s != ""
      && i.description.Some? && i.description.value.JString? && i.description.value.s != ""
      && i.price.Some? && i.price.value.JString? && i.price.value.s != ""
      && i.category.Some? && i.category.value.JString? && i.category.value.s != ""
      && i.sizes.Some? && i.sizes.value.JArray? && AllText(i.sizes.value.items) && i.sizes.value.items != []
      && i.isActive.Some? && i.isActive.value.JBool?
      && i.isReady.Some? && i.isReady.value.JBool?
      && i.isFeatured.Some? && i.isFeatured.value.JBool?
    ensures r.Valid? ==>
      r.data == FormData(i.name.value.s, i.description.value.s, i.price.value.s, i.category.value.s,
                         Texts(i.sizes.value.items), i.isActive.value.b, i.isReady.value.b, i.isFeatured.value.b)
    ensures r.Invalid? ==> r.issues == Issues(i) && r.issues != []
  {
    if && NameOf(i).Ok? && DescriptionOf(i).Ok? && PriceOf(i).Ok? && CategoryOf(i).Ok?
       && SizesOf(i).Ok? && IsActiveOf(i).Ok? && IsReadyOf(i).Ok? && IsFeaturedOf(i).Ok?
    then
      Valid(FormData(NameOf(i).value, DescriptionOf(i).value, PriceOf(i).value, CategoryOf(i).value,
                     SizesOf(i).value, IsActiveOf(i).value, IsReadyOf(i).value, IsFeaturedOf(i).value))
    else Invalid(Issues(i))
  }

  /** `product.sizes.map(s => s.size.id)`. */
  function InitialSizes(rows: seq<SizeRow>): (r: seq<string>)
    ensures |r| == |rows| && forall k :: 0 <= k < |rows| ==> r[k] == rows[k].size.id
  {
    if rows == [] then [] else [rows[0].size.id] + InitialSizes(rows[1..])
  }

  /** The multipart request of a submission (`PUT /api/admin/products/:id`). */
  datatype EditRequest = EditRequest(
    productId: string,
    adminId: string,
    data: FormData)

  /** How the request ends: accepted, answered with an error status and maybe an
      `error` field, or thrown by `fetch` with a message. */
  datatype Reply = Accepted | Refused(error: Option<string>) | Unreachable(message: string)

  datatype SubmitResult = SubmitResult(sent: Option<EditRequest>, error: Option<string>)

  /** What `onSubmit` does with data the schema has passed: no request without an
      administrator, then none without a category; otherwise the request is sent and
      the error shown is the route's `error` field, or a fixed message when the route
      gives none. */
  function SubmitOutcome(productId: string, d: FormData, admin: Option<string>, reply: Reply): (r: SubmitResult)
    ensures r.sent.None? <==> admin.None? || d.category == ""
    ensures admin.None? ==> r.error == Some(AdminMissing)
    ensures admin.Some? && d.category == "" ==> r.error == Some(CategoryMissing)
    ensures r.sent.Some? ==> r.sent.value == EditRequest(productId, admin.value, d)
    ensures r.error.None? <==> r.sent.Some? && reply.Accepted?
    ensures r.sent.Some? && reply.Refused? ==>
      r.error == Some(if Given(reply.error) then reply.error.value else UpdateFailed)
  {
    if admin.None? then SubmitResult(None, Some(AdminMissing))
    else if d.category == "" then SubmitResult(None, Some(CategoryMissing))
    else
      var req := EditRequest(productId, admin.value, d);
      match reply
      case Accepted => SubmitResult(Some(req), None)
      case Refused(e) => SubmitResult(Some(req), Some(if Given(e) then e.value else UpdateFailed))
      case Unreachable(m) => SubmitResult(Some(req), Some(m))
  }

  datatype Switch = ActiveSwitch | ReadySwitch | FeaturedSwitch

  /** Every field of the form that a handler may change. */
  datatype FormState = FormState(
    category: string,
    sizesValue: seq<string>,
    isActive: bool,
    isReady: bool,
    isFeatured: bool,
    selectedSizes: seq<string>,
    isSubmitting: bool,
    submitError: Option<string>)

  /** The form's state: the values the schema reads (name, description and price are
      text inputs given at submission), the size selection shown, the error shown,
      and whether a submission is in flight. */
  class Form {
    const productId: string
    var category: string
    var sizesValue: seq<string>
    var isActive: bool
    var isReady: bool
    var isFeatured: bool
    var selectedSizes: seq<string>
    var isSubmitting: bool
    var submitError: Option<string>

    predicate Valid()
      reads this
    {
      sizesValue == selectedSizes
    }

    function State(): FormState
      reads this
    {
      FormState(category, sizesValue, isActive, isReady, isFeatured, selectedSizes, isSubmitting, submitError)
    }

    /** The form starts from the product: its category, its flags and its sizes in
        link order. */
    constructor(e: Editing)
      ensures Valid()
      ensures productId == e.product.id && category == e.product.categoryId
      ensures selectedSizes == InitialSizes(e.sizes)
      ensures isActive == e.product.isActive && isReady == e.product.isReady
      ensures isFeatured == e.product.isFeatured
      ensures !isSubmitting && submitError.None?
    {
      productId := e.product.id;
      category := e.product.categoryId;
      sizesValue := InitialSizes(e.sizes);
      selectedSizes := InitialSizes(e.sizes);
      isActive := e.product.isActive;
      isReady := e.product.isReady;
      isFeatured := e.product.isFeatured;
      isSubmitting := false;
      submitError := None;
    }

    method SelectCategory(value: string)
      requires Valid()
      modifies this
      ensures Valid()
      ensures State() == old(State()).(category := value)
    {
      category := value;
    }

    method SetSwitch(s: Switch, checked: bool)
      requires Valid()
      modifies this
      ensures Valid()
      ensures s == ActiveSwitch ==> State() == old(State()).(isActive := checked)
      ensures s == ReadySwitch ==> State() == old(State()).(isReady := checked)
      ensures s == FeaturedSwitch ==> State() == old(State()).(isFeatured := checked)
    {
      match s
      case ActiveSwitch => isActive := checked;
      case ReadySwitch => isReady := checked;
      case FeaturedSwitch => isFeatured := checked;
    }

    /** The checkbox of a size: checking appends it, unchecking removes it. */
    method ToggleSize(sizeId: string, checked: bool)
      requires Valid()
      modifies this
      ensures Valid()
      ensures selectedSizes == if checked then old(selectedSizes) + [sizeId]
                               else NewProductForm.Without(old(selectedSizes), sizeId)
      ensures State() == old(State()).(selectedSizes := selectedSizes, sizesValue := selectedSizes)
    {
      var newSizes := if checked then selectedSizes + [sizeId] else NewProductForm.Without(selectedSizes, sizeId);
      selectedSizes := newSizes;
      sizesValue := newSizes;
    }

    function Input(name: Option<Json>, description: Option<Json>, price: Option<Json>): FormInput
      reads this
    {
      FormInput(name, description, price, Some(JString(category)),
                Some(JArray(NewProductForm.TextList(sizesValue))),
                Some(JBool(isActive)), Some(JBool(isReady)), Some(JBool(isFeatured)))
    }

    /** A submission: when the schema refuses, nothing happens; otherwise the outcome
        of `onSubmit` is shown and the form is no longer submitting. */
    method Submit(name: Option<Json>, description: Option<Json>, price: Option<Json>,
                  admin: Option<string>, reply: Reply)
      returns (sent: Option<EditRequest>)
      requires Valid()
      modifies this
      ensures Valid()
      ensures ParseForm(old(Input(name, description, price))).Invalid? ==>
        sent.None? && State() == old(State())
      ensures ParseForm(old(Input(name, description, price))).Valid? ==>
        var r := SubmitOutcome(productId, ParseForm(old(Input(name, description, price))).data, admin, reply);
        sent == r.sent && State() == old(State()).(isSubmitting := false, submitError := r.error)
    {
      var parsed := ParseForm(Input(name, description, price));
      if parsed.Invalid? {
        return None;
      }
      isSubmitting := true;
      submitError := None;
      var r := SubmitOutcome(productId, parsed.data, admin, reply);
      sent := r.sent;
      submitError := r.error;
      isSubmitting := false;
    }
  }

  /** A request that reaches the route always carries a category and at least one size:
      the schema has already refused the form otherwise, so the category check of
      `onSubmit` never fires after it. */
  lemma SentRequestsAreComplete(i: FormInput, productId: string, admin: Option<string>, reply: Reply)
    requires ParseForm(i).Valid?
    ensures SubmitOutcome(productId, ParseForm(i).data, admin, reply).sent.Some? <==> admin.Some?
    ensures SubmitOutcome(productId, ParseForm(i).data, admin, reply).sent.Some? ==>
      var req := SubmitOutcome(productId, ParseForm(i).data, admin, reply).sent.value;
      req.data.category != "" && |req.data.sizes| >= 1
  {
    var d := ParseForm(i).data;
    assert d.category == i.category.value.s;
  }

  /** An untouched form passes the schema's size check exactly when the product has a
      size, and keeps the product's sizes in link order. */
  lemma InitialSizesPass(e: Editing)
    ensures NonEmptyTextList(Some(JArray(NewProductForm.TextList(InitialSizes(e.sizes)))), SizeRequired).Ok?
            <==> e.sizes != []
    ensures e.sizes != [] ==>
      NonEmptyTextList(Some(JArray(NewProductForm.TextList(InitialSizes(e.sizes)))), SizeRequired).value
      == InitialSizes(e.sizes)
  {
  }
}
