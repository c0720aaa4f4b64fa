/**
  The product record schema of the catalog widget, restated as an explicit
  decoder. The schema object declares five fields -- `id` and `price` numbers,
  `title`, `description` and `thumbnail` strings -- and parsing an untyped
  record either yields a `Product` carrying exactly those five values or fails
  with the list of issues found, one per offending field, in declaration order.
  Fields the schema does not declare are ignored.
*/
module ProductSchema {
  import opened Wrappers

  /** An untyped JSON value, as produced by parsing a response body. Numbers are
      integers here: the widget never does arithmetic on them. */
  datatype JsonValue =
    | JNull
    | JBool(b: bool)
    | JNumber(n: int)
    | JString(s: string)
    | JArray(items: seq<JsonValue>)
    | JObject(fields: map<string, JsonValue>)

  /** A validated product record. */
  datatype Product = Product(id: int, title: string, description: string, price: int, thumbnail: string)

  /** The two primitive types the schema asks for. */
  datatype FieldType = NumberType | StringType

  /** One problem reported by the parser. A missing field is reported as
      `Required`, a present field of the wrong type as `InvalidType`, and a
      value that is not an object at all as `NotAnObject`. */
  datatype SchemaIssue =
    | NotAnObject
    | Required(field: string)
    | InvalidType(field: string, expected: FieldType)

  /** The declared fields, in declaration order. */
  const Schema: seq<(string, FieldType)> :=
    [("id", NumberType), ("title", StringType), ("description", StringType),
     ("price", NumberType), ("thumbnail", StringType)]

  predicate HasType(v: JsonValue, t: FieldType) {
    match t
    case NumberType => v.JNumber?
    case StringType => v.JString?
  }

  /** The field `name` is present in `m` and has type `t`. */
  predicate FieldOk(m: map<string, JsonValue>, name: string, t: FieldType) {
    name in m && HasType(m[name], t)
  }

  /** The issues (none or one) that field `name` of type `t` raises in `m`. */
  function CheckField(m: map<string, JsonValue>, name: string, t: FieldType): (issues: seq<SchemaIssue>)
    ensures issues == [] <==> FieldOk(m, name, t)
    ensures |issues| <= 1
  {
    if name !in m then [Required(name)]
    else if HasType(m[name], t) then []
    else [InvalidType(name, t)]
  }

  /** Every declared field is present with its declared type. */
  predicate WellTyped(m: map<string, JsonValue>) {
    && FieldOk(m, "id", NumberType)
    && FieldOk(m, "title", StringType)
    && FieldOk(m, "description", StringType)
    && FieldOk(m, "price", NumberType)
    && FieldOk(m, "thumbnail", StringType)
  }

  /** `WellTyped` agrees with the declared field list. */
  lemma WellTypedMatchesSchema(m: map<string, JsonValue>)
    ensures WellTyped(m) <==> forall k | 0 <= k < |Schema| :: FieldOk(m, Schema[k].0, Schema[k].1)
  {
    assert Schema[0] == ("id", NumberType) && Schema[1] == ("title", StringType);
    assert Schema[2] == ("description", StringType) && Schema[3] == ("price", NumberType);
    assert Schema[4] == ("thumbnail", StringType);
  }

  /** All issues of an object, in declaration order of the fields. */
  function ObjectIssues(m: map<string, JsonValue>): seq<SchemaIssue> {
    CheckField(m, "id", NumberType) + CheckField(m, "title", StringType)
      + CheckField(m, "description", StringType) + CheckField(m, "price", NumberType)
      + CheckField(m, "thumbnail", StringType)
  }

  /** An issue is genuine for `m` when the field it names is really missing or
      really has another type than the one the schema declares for it. */
  predicate IssueHolds(m: map<string, JsonValue>, issue: SchemaIssue) {
    match issue
    case NotAnObject => false
    case Required(f) => ((f, NumberType) in Schema || (f, StringType) in Schema) && f !in m
    case InvalidType(f, t) => (f, t) in Schema && f in m && !HasType(m[f], t)
  }

  /** Parses an untyped record into a `Product`. */
  function Decode(v: JsonValue): (r: Result<Product, seq<SchemaIssue>>)
    // success exactly when every declared field is present with its declared type
    ensures r.Success? <==> (v.JObject? && forall k | 0 <= k < |Schema| :: FieldOk(v.fields, Schema[k].0, Schema[k].1))
    // the product carries the input's values unchanged
    ensures r.Success? ==>
      && v.JObject? && WellTyped(v.fields)
      && v.fields["id"] == JNumber(r.value.id)
      && v.fields["title"] == JString(r.value.title)
      && v.fields["description"] == JString(r.value.description)
      && v.fields["price"] == JNumber(r.value.price)
      && v.fields["thumbnail"] == JString(r.value.thumbnail)
    // a failure reports at least one issue, and every reported issue is genuine
    ensures r.Failure? ==> |r.error| > 0
    ensures r.Failure? && !v.JObject? ==> r.error == [NotAnObject]
    ensures r.Failure? && v.JObject? ==> forall i | 0 <= i < |r.error| :: IssueHolds(v.fields, r.error[i])
    // every offending field is reported
    ensures r.Failure? && v.JObject? ==>
      forall k | 0 <= k < |Schema| && !FieldOk(v.fields, Schema[k].0, Schema[k].1) ::
        (if Schema[k].0 in v.fields then InvalidType(Schema[k].0, Schema[k].1) else Required(Schema[k].0)) in r.error
  {
    match v
    case JObject(m) =>
      WellTypedMatchesSchema(m);
      if WellTyped(m) then
        Success(Product(m["id"].n, m["title"].s, m["description"].s, m["price"].n, m["thumbnail"].s))
      else
        Failure(ObjectIssues(m))
    case _ => Failure([NotAnObject])
  }

  /** The names of the declared fields. */
  const DeclaredNames: set<string> := {"id", "title", "description", "price", "thumbnail"}

  /** The record a product is parsed from: exactly its five fields. */
  function Encode(p: Product): (v: JsonValue)
    ensures v.JObject? && v.fields.Keys == DeclaredNames
  {
    JObject(map["id" := JNumber(p.id), "title" := JString(p.title),
                "description" := JString(p.description), "price" := JNumber(p.price),
                "thumbnail" := JString(p.thumbnail)])
  }

  /** Parsing the record of a product gives that product back. */
  lemma DecodeEncode(p: Product)
    ensures Decode(Encode(p)) == Success(p)
  {
    assert WellTyped(Encode(p).fields);
  }

  /** Conversely, a successful parse loses nothing but undeclared fields: the
      record of the parsed product is the input restricted to the declared names. */
  lemma EncodeDecode(v: JsonValue, p: Product)
    requires Decode(v) == Success(p)
    ensures v.JObject?
    ensures Encode(p).fields == map k | k in v.fields && k in DeclaredNames :: v.fields[k]
  {
  }

  /** The parse result depends only on the declared fields: two records that
      agree on the presence and value of each declared field parse alike. */
  lemma DecodeReadsOnlyDeclaredFields(m1: map<string, JsonValue>, m2: map<string, JsonValue>)
    requires forall k | k in DeclaredNames :: (k in m1 <==> k in m2)
    requires forall k | k in DeclaredNames && k in m1 :: m1[k] == m2[k]
    ensures Decode(JObject(m1)) == Decode(JObject(m2))
  {
    assert "id" in DeclaredNames && "title" in DeclaredNames && "description" in DeclaredNames;
    assert "price" in DeclaredNames && "thumbnail" in DeclaredNames;
  }

  /** Adding or overwriting an undeclared field does not change the parse result. */
  lemma ExtraFieldIgnored(m: map<string, JsonValue>, name: string, x: JsonValue)
    requires name !in DeclaredNames
    ensures Decode(JObject(m[name := x])) == Decode(JObject(m))
  {
    DecodeReadsOnlyDeclaredFields(m[name := x], m);
  }

  /** A record missing any declared field fails, and the failure names that field. */
  lemma MissingFieldFails(m: map<string, JsonValue>, k: nat)
    requires k < |Schema| && Schema[k].0 !in m
    ensures Decode(JObject(m)).Failure?
    ensures Required(Schema[k].0) in Decode(JObject(m)).error
  {
  }

  /** A record whose declared field has the wrong type fails, and the failure
      names that field and the expected type. */
  lemma WrongTypeFails(m: map<string, JsonValue>, k: nat)
    requires k < |Schema| && Schema[k].0 in m && !HasType(m[Schema[k].0], Schema[k].1)
    ensures Decode(JObject(m)).Failure?
    ensures InvalidType(Schema[k].0, Schema[k].1) in Decode(JObject(m)).error
  {
  }
}
