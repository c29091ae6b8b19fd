/** The administrator's form for a new product: its schema, the category and size
    selections it keeps, and the request it sends to the product-creation route. */
module NewProductForm {
  import opened Base
  import opened Schema
  import AdminProducts

  const NameRequired: string := "Nome é obrigatório"
  const DescriptionRequired: string := "Descrição é obrigatória"
  const PriceRequired: string := "Preço é obrigatório"
  const CategoryRequired: string := "Selecione pelo menos uma categoria"
  const SizeRequired: string := "Selecione pelo menos um tamanho"

  /** The form's values as the schema sees them (`None` when never set). */
  datatype FormInput = FormInput(
    name: Option<Json>,
    description: Option<Json>,
    price: Option<Json>,
    categories: Option<Json>,
    sizes: Option<Json>)

  datatype FormData = FormData(
    name: string,
    description: string,
    price: string,
    categories: seq<string>,
    sizes: seq<string>)

  datatype Parsed = Valid(data: FormData) | Invalid(issues: seq<Issue>)

  function NameOf(i: FormInput): Field<string> { NonEmptyText(i.name, NameRequired) }
  function DescriptionOf(i: FormInput): Field<string> { NonEmptyText(i.description, DescriptionRequired) }
  function PriceOf(i: FormInput): Field<string> { NonEmptyText(i.price, PriceRequired) }
  function CategoriesOf(i: FormInput): Field<seq<string>> { NonEmptyTextList(i.categories, CategoryRequired) }
  function SizesOf(i: FormInput): Field<seq<string>> { NonEmptyTextList(i.sizes, SizeRequired) }

  function Issues(i: FormInput): seq<Issue>
  {
    IssueOf(NamePath, NameOf(i)) + IssueOf(DescriptionPath, DescriptionOf(i))
    + IssueOf(PricePath, PriceOf(i)) + IssueOf(CategoriesPath, CategoriesOf(i))
    + IssueOf(SizesPath, SizesOf(i))
  }

  /** The form's schema: name, description and price are non-empty texts (the price
      is kept as typed), and at least one category and one size are selected. */
  function ParseForm(i: FormInput): (r: Parsed)
    ensures r.Valid? <==>
      && i.name.Some? && i.name.value.JString? && i.name.value.s != ""
      && i.description.Some? && i.description.value.JString? && i.description.value.s != ""
      && i.price.Some? && i.price.value.JString? && i.price.value.s != ""
      && i.categories.Some? && i.categories.value.JArray? && AllText(i.categories.value.items)
      && i.categories.value.items != []
      && i.sizes.Some? && i.sizes.value.JArray? && AllText(i.sizes.value.items)
      && i.sizes.value.items != []
    ensures r.Valid? ==>
      && r.data == FormData(i.name.value.s, i.description.value.s, i.price.value.s,
                            Texts(i.categories.value.items), Texts(i.sizes.value.items))
    ensures r.Invalid? ==> r.issues == Issues(i) && r.issues != []
    ensures i.categories == Some(JArray([])) ==>
      r.Invalid? && Issue(CategoriesPath, TooSmall(CategoryRequired)) in r.issues
  {
    if NameOf(i).Ok? && DescriptionOf(i).Ok? && PriceOf(i).Ok? && CategoriesOf(i).Ok? && SizesOf(i).Ok? then
      Valid(FormData(NameOf(i).value, DescriptionOf(i).value, PriceOf(i).value,
                     CategoriesOf(i).value, SizesOf(i).value))
    else Invalid(Issues(i))
  }

  function TextList(ids: seq<string>): (r: seq<Json>)
    ensures |r| == |ids| && forall k :: 0 <= k < |ids| ==> r[k] == JString(ids[k])
    ensures AllText(r) && Texts(r) == ids
  {
    if ids == [] then [] else [JString(ids[0])] + TextList(ids[1..])
  }

  /** The multipart request the form posts. */
  datatype Request = Request(
    adminId: string,
    name: string,
    description: string,
    price: string,
    categories: seq<string>,
    sizes: seq<string>)

  /** The form as the route reads it; `price` is the route's reading of the price text. */
  function Received(req: Request, price: Option<int>): AdminProducts.ProductForm
  {
    AdminProducts.ProductForm(Some(req.adminId), Some(req.name), Some(req.description), price,
                              AdminProducts.Ids(req.categories), AdminProducts.Ids(req.sizes))
  }

  function IsNot(x: string): string -> bool
  {
    (y: string) => y != x
  }

  /** `ids.filter(id => id !== x)`. */
  function Without(ids: seq<string>, x: string): seq<string>
  {
    Filter(ids, IsNot(x))
  }

  /** Removing an id drops every occurrence of it and keeps every other id as often as
      it occurred; an id that is not there leaves the list as it is. */
  lemma {:induction false} WithoutMeaning(ids: seq<string>, x: string)
    ensures x !in Without(ids, x)
    ensures forall y :: y != x ==> multiset(Without(ids, x))[y] == multiset(ids)[y]
    ensures x !in ids ==> Without(ids, x) == ids
  {
    if ids != [] && x !in ids {
      WithoutMeaning(ids[1..], x);
      assert ids == [ids[0]] + ids[1..];
    }
  }

  /** Checking a box and unchecking it again leaves the selection as it was before
      when the id was not selected, and without that id otherwise. */
  lemma CheckThenUncheck(s: seq<string>, x: string)
    ensures Without(s + [x], x) == Without(s, x)
    ensures x !in s ==> Without(s + [x], x) == s
  {
    FilterAppend(s, [x], IsNot(x));
    assert Filter([x], IsNot(x)) == [];
    WithoutMeaning(s, x);
  }

  /** The form's state: the selections shown to the administrator, the list values the
      schema reads (kept equal to the selections by every handler), and whether a
      submission is in flight. */
  class Form {
    var selectedCategories: seq<string>
    var selectedSizes: seq<string>
    var categoriesValue: seq<string>
    var sizesValue: seq<string>
    var isLoading: bool

    predicate Valid()
      reads this
    {
      categoriesValue == selectedCategories && sizesValue == selectedSizes
    }

    constructor()
      ensures Valid()
      ensures selectedCategories == [] && selectedSizes == [] && !isLoading
    {
      selectedCategories := [];
      selectedSizes := [];
      categoriesValue := [];
      sizesValue := [];
      isLoading := false;
    }

    /** Choosing a category in the select appends it, even when it is already chosen. */
    method SelectCategory(value: string)
      requires Valid()
      modifies this
      ensures Valid()
      ensures selectedCategories == old(selectedCategories) + [value]
      ensures selectedSizes == old(selectedSizes) && isLoading == old(isLoading)
    {
      var newCategories := selectedCategories + [value];
      selectedCategories := newCategories;
      categoriesValue := newCategories;
    }

    /** The remove button of a chosen category. */
    method RemoveCategory(catId: string)
      requires Valid()
      modifies this
      ensures Valid()
      ensures selectedCategories == Without(old(selectedCategories), catId)
      ensures selectedSizes == old(selectedSizes) && isLoading == old(isLoading)
    {
      var newCategories := Without(selectedCategories, catId);
      selectedCategories := newCategories;
      categoriesValue := newCategories;
    }

    /** The checkbox of a size: checking appends it, unchecking removes it. */
    method ToggleSize(sizeId: string, checked: bool)
      requires Valid()
      modifies this
      ensures Valid()
      ensures selectedSizes == if checked then old(selectedSizes) + [sizeId] else Without(old(selectedSizes), sizeId)
      ensures selectedCategories == old(selectedCategories) && isLoading == old(isLoading)
    {
      var newSizes := if checked then selectedSizes + [sizeId] else Without(selectedSizes, sizeId);
      selectedSizes := newSizes;
      sizesValue := newSizes;
    }

    function Input(name: Option<Json>, description: Option<Json>, price: Option<Json>): FormInput
      reads this
    {
      FormInput(name, description, price, Some(JArray(TextList(categoriesValue))), Some(JArray(TextList(sizesValue))))
    }

    /** A submission. The schema runs first and, when it refuses, nothing else happens;
        otherwise the request is sent only when an administrator is signed in, carrying
        the chosen categories and sizes as they are; the loading flag is down again
        once the submission is over. */
    method Submit(name: Option<Json>, description: Option<Json>, price: Option<Json>, admin: Option<string>)
      returns (sent: Option<Request>)
      requires Valid()
      modifies this
      ensures Valid()
      ensures selectedCategories == old(selectedCategories) && selectedSizes == old(selectedSizes)
      ensures ParseForm(old(Input(name, description, price))).Invalid? ==> sent.None? && isLoading == old(isLoading)
      ensures ParseForm(old(Input(name, description, price))).Valid? ==> !isLoading
      ensures sent.Some? <==> ParseForm(old(Input(name, description, price))).Valid? && admin.Some?
      ensures sent.Some? ==>
        var d := ParseForm(old(Input(name, description, price))).data;
        sent.value == Request(admin.value, d.name, d.description, d.price, selectedCategories, selectedSizes)
    {
      var parsed := ParseForm(Input(name, description, price));
      if parsed.Invalid? {
        return None;
      }
      isLoading := true;
      if admin.None? {
        isLoading := false;
        return None;
      }
      var d := parsed.data;
      sent := Some(Request(admin.value, d.name, d.description, d.price, d.categories, d.sizes));
      isLoading := false;
    }
  }

  /** A category chosen twice stays twice in the selection. */
  lemma SelectingTwiceRepeats(s: seq<string>, c: string)
    ensures !Distinct(s + [c] + [c])
  {
    var r := s + [c] + [c];
    assert r[|s|] == c && r[|s| + 1] == c;
  }

  /** The form sends repeated categories as they are, and the route then answers 404
      for a signed-in administrator, whatever the sizes: the form lets through what
      the route refuses. */
  lemma RepeatedCategoryIsRefused(t: Tables, req: Request, price: Option<int>)
    requires WellFormed(t)
    requires req.adminId in t.admins && req.categories != [] && !Distinct(req.categories)
    ensures AdminProducts.Validate(t, Received(req, price)) == AdminProducts.Rejected(404, AdminProducts.UnknownCategory)
  {
    AdminProducts.FirstFailureDecides(t, Received(req, price), Received(req, price));
  }
}
