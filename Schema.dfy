/** The field validators the forms and the product schema are built from, as the
    schema library applies them to one field of an object: a missing field is
    `Required` unless it is optional or has a default, a value of the wrong type is
    `InvalidType`, and a `min` bound that fails reports the message the schema gives
    it. An object schema checks every field and reports one issue per failing field,
    in the order the fields are declared. */
module Schema {
  import opened Base

  /** A JSON-like input value. Numbers are integers (prices in cents). */
  datatype Json =
    | JNull
    | JBool(b: bool)
    | JNumber(n: int)
    | JString(s: string)
    | JArray(items: seq<Json>)

  /** Every field name that any of the schemas declares. */
  datatype Path =
    | NamePath | DescriptionPath | PricePath | CategoryIdPath | CategoryPath | CategoriesPath
    | SizesPath | SizeIdsPath | IsActivePath | IsReadyPath | IsFeaturedPath | ImagesPath

  datatype Problem = Required | InvalidType | TooSmall(message: string)

  datatype Issue = Issue(path: Path, problem: Problem)

  datatype Field<T> = Ok(value: T) | Bad(problem: Problem)

  /** The issue a field contributes to the object's list: none when it passed. */
  function IssueOf<T>(path: Path, f: Field<T>): (r: seq<Issue>)
    ensures r == [] <==> f.Ok?
    ensures forall e :: e in r <==> f.Bad? && e == Issue(path, f.problem)
  {
    if f.Ok? then [] else [Issue(path, f.problem)]
  }

  predicate IsText(v: Json)
  {
    v.JString?
  }

  /** `z.string().min(1, message)`. */
  function NonEmptyText(v: Option<Json>, message: string): (r: Field<string>)
    ensures r.Ok? <==> v.Some? && v.value.JString? && v.value.s != ""
    ensures r.Ok? ==> r.value == v.value.s
    ensures v.None? ==> r == Bad(Required)
    ensures v.Some? && v.value.JString? && v.value.s == "" ==> r == Bad(TooSmall(message))
  {
    match v
    case None => Bad(Required)
    case Some(JString(s)) => if s == "" then Bad(TooSmall(message)) else Ok(s)
    case Some(_) => Bad(InvalidType)
  }

  predicate AllText(items: seq<Json>)
  {
    forall k :: 0 <= k < |items| ==> IsText(items[k])
  }

  function Texts(items: seq<Json>): (r: seq<string>)
    requires AllText(items)
    ensures |r| == |items| && forall k :: 0 <= k < |items| ==> JString(r[k]) == items[k]
  {
    if items == [] then [] else [items[0].s] + Texts(items[1..])
  }

  /** `z.array(z.string()).min(1, message)`. */
  function NonEmptyTextList(v: Option<Json>, message: string): (r: Field<seq<string>>)
    ensures r.Ok? <==> v.Some? && v.value.JArray? && AllText(v.value.items) && v.value.items != []
    ensures r.Ok? ==> r.value == Texts(v.value.items) && |r.value| >= 1
    ensures v.None? ==> r == Bad(Required)
    ensures v == Some(JArray([])) ==> r == Bad(TooSmall(message))
  {
    match v
    case None => Bad(Required)
    case Some(JArray(items)) =>
      if !AllText(items) then Bad(InvalidType)
      else if items == [] then Bad(TooSmall(message))
      else Ok(Texts(items))
    case Some(_) => Bad(InvalidType)
  }

  /** `z.boolean()`, and with `.default(d)` when `default` is given. */
  function Flag(v: Option<Json>, default: Option<bool>): (r: Field<bool>)
    ensures r.Ok? <==> (v.None? && default.Some?) || (v.Some? && v.value.JBool?)
    ensures v.None? && default.Some? ==> r == Ok(default.value)
    ensures v.Some? && v.value.JBool? ==> r == Ok(v.value.b)
  {
    match v
    case None => if default.Some? then Ok(default.value) else Bad(Required)
    case Some(JBool(b)) => Ok(b)
    case Some(_) => Bad(InvalidType)
  }

  /** `z.number().min(least, message).default(d)`. */
  function NumberAtLeast(v: Option<Json>, least: int, message: string, default: int): (r: Field<int>)
    ensures r.Ok? <==> v.None? || (v.value.JNumber? && v.value.n >= least)
    ensures r.Ok? ==> r.value == if v.None? then default else v.value.n
    ensures v.Some? && v.value.JNumber? && v.value.n < least ==> r == Bad(TooSmall(message))
  {
    match v
    case None => Ok(default)
    case Some(JNumber(n)) => if n < least then Bad(TooSmall(message)) else Ok(n)
    case Some(_) => Bad(InvalidType)
  }

  /** `z.array(z.any()).optional()`. */
  function OptionalList(v: Option<Json>): (r: Field<Option<seq<Json>>>)
    ensures r.Ok? <==> v.None? || v.value.JArray?
    ensures r.Ok? ==> r.value == if v.None? then None else Some(v.value.items)
  {
    match v
    case None => Ok(None)
    case Some(JArray(items)) => Ok(Some(items))
    case Some(_) => Bad(InvalidType)
  }
}
