/** The consistency check between an OpenAPI document and a handler: the
    request-body schema of one operation (the Paths, Path Item, Operation,
    Request Body and Media Type objects of the OpenAPI Specification 3.0,
    down to the Schema Object's `required` and `properties`), and its
    comparison with the fields the handler reads. */
module OpenapiValidator {
  import opened Common
  import opened Text
  import opened Json
  import opened LambdaAnalyzer
  import opened FieldNames

  /** The metadata `extract_request_fields` keeps per property. A Python
      `None` is `JNull`. */
  datatype FieldInfo = FieldInfo(typ: Json, description: Json, required: bool, format: Json, example: Json)

  /** The dict `extract_request_fields` returns. `required` is whatever the
      schema holds under `required`, copied as it is. */
  datatype FieldsInfo = FieldsInfo(
    required: Json,
    optional: seq<string>,
    allFields: map<string, FieldInfo>,
    endpoint: string)

  /** The keys leading from the document to the operation's JSON schema. */
  function SchemaPath(endpoint: string, httpMethod: string): seq<string>
  {
    ["paths", endpoint, httpMethod, "requestBody", "content", "application/json", "schema"]
  }

  /** The entry for property `name` with schema `spec`, or `None` where the
      source raises: `spec` is not a dict, or `name in required` is a type
      error (`required` is null, a boolean or a number). */
  function EntryOf(name: string, spec: Json, required: Json): (r: Option<FieldInfo>)
    ensures r.Some? <==> spec.JObject? && PyIn(name, required).Some?
    ensures r.Some? ==> r.value.required == PyIn(name, required).value
    ensures r.Some? && !HasKey(spec.members, "type") ==> r.value.typ == JStr("unknown")
    ensures r.Some? && !HasKey(spec.members, "description") ==> r.value.description == JStr("")
    ensures r.Some? && !HasKey(spec.members, "format") ==> r.value.format == JNull
    ensures r.Some? && !HasKey(spec.members, "example") ==> r.value.example == JNull
    ensures r.Some? && HasKey(spec.members, "type") ==> ("type", r.value.typ) in spec.members
  {
    if spec.JObject? && PyIn(name, required).Some? then
      var m := spec.members;
      Some(FieldInfo(
        GetOr(m, "type", JStr("unknown")),
        GetOr(m, "description", JStr("")),
        PyIn(name, required).value,
        GetOr(m, "format", JNull),
        GetOr(m, "example", JNull)))
    else None
  }

  /** How many properties the loop handles before one raises. */
  function Handled(props: seq<(string, Json)>, required: Json): (n: nat)
    ensures n <= |props|
    ensures forall k :: 0 <= k < n ==> EntryOf(props[k].0, props[k].1, required).Some?
    ensures n < |props| ==> EntryOf(props[n].0, props[n].1, required).None?
  {
    if props == [] then 0
    else if EntryOf(props[0].0, props[0].1, required).None? then 0
    else 1 + Handled(props[1..], required)
  }

  /** `all_fields` after handling `props` in order. */
  function AllFieldsOf(props: seq<(string, Json)>, required: Json): map<string, FieldInfo>
  {
    if props == [] then map[]
    else
      var last := props[|props| - 1];
      var before := AllFieldsOf(props[..|props| - 1], required);
      match EntryOf(last.0, last.1, required)
      case Some(e) => before[last.0 := e]
      case None => before
  }

  /** `optional` after handling `props` in order. */
  function OptionalOf(props: seq<(string, Json)>, required: Json): seq<string>
  {
    if props == [] then []
    else
      var last := props[|props| - 1];
      var before := OptionalOf(props[..|props| - 1], required);
      match EntryOf(last.0, last.1, required)
      case Some(e) => if e.required then before else before + [last.0]
      case None => before
  }

  /** Handling one more property updates `all_fields` and `optional` as the
      loop body does. */
  lemma HandleStep(props: seq<(string, Json)>, required: Json, i: nat)
    requires i < |props| && EntryOf(props[i].0, props[i].1, required).Some?
    ensures var e := EntryOf(props[i].0, props[i].1, required).value;
      AllFieldsOf(props[..i + 1], required) == AllFieldsOf(props[..i], required)[props[i].0 := e]
      && OptionalOf(props[..i + 1], required)
         == OptionalOf(props[..i], required) + (if e.required then [] else [props[i].0])
  {
    assert props[..i + 1][..i] == props[..i];
  }

  function EmptyFields(endpoint: string): FieldsInfo
  {
    FieldsInfo(JArray([]), [], map[], endpoint)
  }

  /** What `extract_request_fields` returns: the defaults when a node on
      the way to the schema is not a dict, `required` alone when
      `properties` is not one, and otherwise the properties handled before
      the first one that raises. */
  function RequestFields(spec: Json, endpoint: string, httpMethod: string): FieldsInfo
  {
    var schema := Descend(spec, SchemaPath(endpoint, httpMethod));
    if schema.Some? && schema.value.JObject? then
      var m := schema.value.members;
      var required := GetOr(m, "required", JArray([]));
      var properties := GetOr(m, "properties", JObject([]));
      if properties.JObject? then
        var props := properties.members;
        var n := Handled(props, required);
        FieldsInfo(required, OptionalOf(props[..n], required), AllFieldsOf(props[..n], required), endpoint)
      else FieldsInfo(required, [], map[], endpoint)
    else EmptyFields(endpoint)
  }

  /** `extract_request_fields`: descend to the schema, copy `required`,
      then fill `all_fields` and `optional` property by property. */
  method ExtractRequestFields(spec: Json, endpoint: string, httpMethod: string) returns (info: FieldsInfo)
    ensures info == RequestFields(spec, endpoint, httpMethod)
  {
    info := EmptyFields(endpoint);
    var schema := Descend(spec, SchemaPath(endpoint, httpMethod));
    if schema.Some? && schema.value.JObject? {
      var m := schema.value.members;
      var required := GetOr(m, "required", JArray([]));
      info := info.(required := required);
      var properties := GetOr(m, "properties", JObject([]));
      if properties.JObject? {
        var optional, allFields := HandleProperties(properties.members, required);
        info := info.(optional := optional, allFields := allFields);
      }
    }
  }

  /** The loop over `properties.items()`: until the end or until a property
      raises, keeping what was filled in before. */
  method HandleProperties(props: seq<(string, Json)>, required: Json)
    returns (optional: seq<string>, allFields: map<string, FieldInfo>)
    ensures optional == OptionalOf(props[..Handled(props, required)], required)
    ensures allFields == AllFieldsOf(props[..Handled(props, required)], required)
  {
    optional, allFields := [], map[];
    var i := 0;
    while i < |props|
      invariant i <= Handled(props, required)
      invariant optional == OptionalOf(props[..i], required)
      invariant allFields == AllFieldsOf(props[..i], required)
    {
      var entry := EntryOf(props[i].0, props[i].1, required);
      if entry.None? {
        break;
      }
      HandleStep(props, required, i);
      allFields := allFields[props[i].0 := entry.value];
      if !entry.value.required {
        optional := optional + [props[i].0];
      }
      i := i + 1;
    }
  }

  // ---------------------------------------------------------------------
  // Properties of the extracted fields

  /** A node on the way to the schema that is a dict without the next key. */
  ghost predicate AbsentAt(spec: Json, keys: seq<string>, i: nat)
  {
    i < |keys| && Descend(spec, keys[..i]).Some? && Descend(spec, keys[..i]).value.JObject?
    && !HasKey(Descend(spec, keys[..i]).value.members, keys[i])
  }

  /** When `paths`, the route, the method, `requestBody`, `content`,
      `application/json` or `schema` is missing, the result is empty and
      only echoes the endpoint. */
  lemma MissingNodeGivesEmpty(spec: Json, endpoint: string, httpMethod: string, i: nat)
    requires AbsentAt(spec, SchemaPath(endpoint, httpMethod), i)
    ensures RequestFields(spec, endpoint, httpMethod) == EmptyFields(endpoint)
  {
    var keys := SchemaPath(endpoint, httpMethod);
    DescendSplit(spec, keys, i);
    var mid := Descend(spec, keys[..i]).value;
    assert keys[i..] == [keys[i]] + keys[i + 1..];
    assert keys[i..][1..] == keys[i + 1..];
    DescendEmpty(keys[i + 1..]);
    assert Descend(spec, keys) == Some(JObject([]));
  }

  lemma {:induction false} AllFieldsKeys(props: seq<(string, Json)>, required: Json)
    requires forall k :: 0 <= k < |props| ==> EntryOf(props[k].0, props[k].1, required).Some?
    ensures forall n :: n in AllFieldsOf(props, required) <==> HasKey(props, n)
  {
    if props != [] {
      var init := props[..|props| - 1];
      AllFieldsKeys(init, required);
      forall n ensures HasKey(props, n) <==> HasKey(init, n) || n == props[|props| - 1].0 {
        HasKeyLast(props, n);
      }
    }
  }

  /** Each entry of `all_fields` says whether its name is in `required`. */
  lemma {:induction false} AllFieldsRequired(props: seq<(string, Json)>, required: Json, n: string)
    requires n in AllFieldsOf(props, required)
    ensures PyIn(n, required).Some? && AllFieldsOf(props, required)[n].required == PyIn(n, required).value
  {
    var last := props[|props| - 1];
    var init := props[..|props| - 1];
    if !(EntryOf(last.0, last.1, required).Some? && last.0 == n) {
      AllFieldsRequired(init, required, n);
    }
  }

  /** Distinct names: no two members share a name, as in a Python dict. */
  ghost predicate DistinctNames(props: seq<(string, Json)>)
  {
    forall i, j :: 0 <= i < j < |props| ==> props[i].0 != props[j].0
  }

  /** With distinct property names, each entry is built from the schema of
      its own property. */
  lemma {:induction false} AllFieldsEntry(props: seq<(string, Json)>, required: Json, k: nat)
    requires DistinctNames(props) && k < |props|
    requires forall j :: 0 <= j < |props| ==> EntryOf(props[j].0, props[j].1, required).Some?
    ensures props[k].0 in AllFieldsOf(props, required)
    ensures AllFieldsOf(props, required)[props[k].0] == EntryOf(props[k].0, props[k].1, required).value
  {
    var init := props[..|props| - 1];
    var last := props[|props| - 1];
    AllFieldsLast(props, required);
    if k < |init| {
      assert init[k] == props[k];
      assert props[k].0 != last.0;
      DistinctNamesInit(props);
      assert forall j :: 0 <= j < |init| ==> init[j] == props[j];
      AllFieldsEntry(init, required, k);
    }
  }

  /** Handling the last property adds its entry under its name. */
  lemma AllFieldsLast(props: seq<(string, Json)>, required: Json)
    requires props != []
    requires EntryOf(props[|props| - 1].0, props[|props| - 1].1, required).Some?
    ensures AllFieldsOf(props, required) == AllFieldsOf(props[..|props| - 1], required)[props[|props| - 1].0 :=
      EntryOf(props[|props| - 1].0, props[|props| - 1].1, required).value]
  {
  }

  lemma DistinctNamesInit(props: seq<(string, Json)>)
    requires DistinctNames(props) && props != []
    ensures DistinctNames(props[..|props| - 1])
  {
    var init := props[..|props| - 1];
    forall i, j | 0 <= i < j < |init| ensures init[i].0 != init[j].0 {
      assert init[i] == props[i] && init[j] == props[j];
    }
  }

  lemma {:induction false} OptionalMembers(props: seq<(string, Json)>, required: Json, n: string)
    requires forall k :: 0 <= k < |props| ==> EntryOf(props[k].0, props[k].1, required).Some?
    ensures n in OptionalOf(props, required) <==> HasKey(props, n) && PyIn(n, required) == Some(false)
  {
    if props != [] {
      var init := props[..|props| - 1];
      OptionalMembers(init, required, n);
      HasKeyLast(props, n);
    }
  }

  /** `optional` lists names in the order of their properties. */
  lemma {:induction false} OptionalInOrder(props: seq<(string, Json)>, required: Json, i: nat, j: nat)
    requires i < j < |OptionalOf(props, required)|
    ensures InPropertyOrder(props, OptionalOf(props, required)[i], OptionalOf(props, required)[j])
  {
    var init := props[..|props| - 1];
    var last := props[|props| - 1];
    var before := OptionalOf(init, required);
    if j < |before| {
      OptionalInOrder(init, required, i, j);
      var a, b :| 0 <= a < b < |init| && init[a].0 == before[i] && init[b].0 == before[j];
      assert props[a] == init[a] && props[b] == init[b];
    } else {
      OptionalFromProps(init, required, i);
      var a :| 0 <= a < |init| && init[a].0 == before[i];
      assert props[a] == init[a];
      assert OptionalOf(props, required)[j] == last.0;
    }
  }

  lemma {:induction false} OptionalFromProps(props: seq<(string, Json)>, required: Json, i: nat)
    requires i < |OptionalOf(props, required)|
    ensures exists a :: 0 <= a < |props| && props[a].0 == OptionalOf(props, required)[i]
  {
    var init := props[..|props| - 1];
    var before := OptionalOf(init, required);
    if i < |before| {
      OptionalFromProps(init, required, i);
      var a :| 0 <= a < |init| && init[a].0 == before[i];
      assert props[a] == init[a];
    } else {
      assert OptionalOf(props, required)[i] == props[|props| - 1].0;
    }
  }

  /** When no property raises, every property is handled. */
  lemma RequestFieldsAllHandled(spec: Json, endpoint: string, httpMethod: string, m: seq<(string, Json)>, props: seq<(string, Json)>)
    requires Descend(spec, SchemaPath(endpoint, httpMethod)) == Some(JObject(m))
    requires GetOr(m, "properties", JObject([])) == JObject(props)
    requires forall k :: 0 <= k < |props| ==> EntryOf(props[k].0, props[k].1, GetOr(m, "required", JArray([]))).Some?
    ensures var required := GetOr(m, "required", JArray([]));
      RequestFields(spec, endpoint, httpMethod)
        == FieldsInfo(required, OptionalOf(props, required), AllFieldsOf(props, required), endpoint)
  {
    var required := GetOr(m, "required", JArray([]));
    assert Handled(props, required) == |props|;
    assert props[..|props|] == props;
  }

  /** When the schema is a dict whose `properties` is a dict of dicts and
      whose `required` supports `in`: `required` is copied verbatim, the
      keys of `all_fields` are exactly the property names, each entry says
      whether its name is in `required`, and `optional` holds exactly the
      property names not in `required`, in property order. */
  lemma RequestFieldsComplete(spec: Json, endpoint: string, httpMethod: string, m: seq<(string, Json)>, props: seq<(string, Json)>)
    requires Descend(spec, SchemaPath(endpoint, httpMethod)) == Some(JObject(m))
    requires GetOr(m, "properties", JObject([])) == JObject(props)
    requires forall k :: 0 <= k < |props| ==> EntryOf(props[k].0, props[k].1, GetOr(m, "required", JArray([]))).Some?
    ensures var info := RequestFields(spec, endpoint, httpMethod);
      var required := GetOr(m, "required", JArray([]));
      info.required == required && info.endpoint == endpoint
      && Describes(info.allFields, info.optional, props, required)
  {
    var required := GetOr(m, "required", JArray([]));
    RequestFieldsAllHandled(spec, endpoint, httpMethod, m, props);
    PropertiesFields(props, required);
  }

  /** `all_fields` and `optional` describe the properties `props`: the keys
      of `all_fields` are exactly the property names, each entry says
      whether its name is in `required`, and `optional` holds exactly the
      names not in `required`, in property order. */
  ghost predicate Describes(all: map<string, FieldInfo>, optional: seq<string>, props: seq<(string, Json)>, required: Json)
  {
    (forall n :: n in all <==> HasKey(props, n))
    && (forall n :: n in all ==> PyIn(n, required).Some? && all[n].required == PyIn(n, required).value)
    && (forall n :: n in optional <==> HasKey(props, n) && PyIn(n, required) == Some(false))
    && (forall i, j :: 0 <= i < j < |optional| ==> InPropertyOrder(props, optional[i], optional[j]))
  }

  /** Some property named `x` comes before some property named `y`. */
  ghost predicate InPropertyOrder(props: seq<(string, Json)>, x: string, y: string)
  {
    exists a, b :: 0 <= a < b < |props| && props[a].0 == x && props[b].0 == y
  }

  /** The fields of properties none of which raises: the keys of
      `all_fields` are the property names, each entry says whether its name
      is in `required`, and `optional` holds the names not in `required`,
      in property order. */
  lemma PropertiesFields(props: seq<(string, Json)>, required: Json)
    requires forall k :: 0 <= k < |props| ==> EntryOf(props[k].0, props[k].1, required).Some?
    ensures Describes(AllFieldsOf(props, required), OptionalOf(props, required), props, required)
  {
    AllFieldsKeys(props, required);
    AllFieldsFlags(props, required);
    OptionalExact(props, required);
    OptionalOrdered(props, required);
  }

  lemma AllFieldsFlags(props: seq<(string, Json)>, required: Json)
    ensures var all := AllFieldsOf(props, required);
      forall n :: n in all ==> PyIn(n, required).Some? && all[n].required == PyIn(n, required).value
  {
    var all := AllFieldsOf(props, required);
    forall n | n in all ensures PyIn(n, required).Some? && all[n].required == PyIn(n, required).value {
      AllFieldsRequired(props, required, n);
    }
  }

  lemma OptionalExact(props: seq<(string, Json)>, required: Json)
    requires forall k :: 0 <= k < |props| ==> EntryOf(props[k].0, props[k].1, required).Some?
    ensures forall n :: n in OptionalOf(props, required) <==> HasKey(props, n) && PyIn(n, required) == Some(false)
  {
    forall n ensures n in OptionalOf(props, required) <==> HasKey(props, n) && PyIn(n, required) == Some(false) {
      OptionalMembers(props, required, n);
    }
  }

  lemma OptionalOrdered(props: seq<(string, Json)>, required: Json)
    ensures var optional := OptionalOf(props, required);
      forall i, j :: 0 <= i < j < |optional| ==> InPropertyOrder(props, optional[i], optional[j])
  {
    var optional := OptionalOf(props, required);
    forall i, j | 0 <= i < j < |optional|
      ensures InPropertyOrder(props, optional[i], optional[j])
    {
      OptionalInOrder(props, required, i, j);
    }
  }

  // ---------------------------------------------------------------------
  // The consistency report

  datatype FieldDiscrepancy = FieldDiscrepancy(
    fieldName: string,
    inOpenapi: bool,
    inLambda: bool,
    openapiType: Json,
    lambdaProcessing: string)

  datatype ConsistencyReport = ConsistencyReport(
    endpoint: string,
    lambdaName: string,
    isConsistent: bool,
    discrepancies: seq<FieldDiscrepancy>,
    missingInLambda: seq<string>,
    missingInOpenapi: seq<string>,
    recommendations: seq<string>)

  /** The record for `field`, or `None` when both sides hold it. */
  function DiscrepancyFor(field: string, allFields: map<string, FieldInfo>, lambdaFields: set<string>): (r: Option<FieldDiscrepancy>)
    ensures r.Some? <==> (field in allFields) != (field in lambdaFields)
    ensures r.Some? ==> (r.value.fieldName == field && r.value.inOpenapi == (field in allFields)
      && r.value.inLambda == (field in lambdaFields)
      && (r.value.openapiType != JNull ==> r.value.inOpenapi)
      && (r.value.lambdaProcessing == "processed" <==> r.value.inLambda))
  {
    var inOpenapi := field in allFields;
    var inLambda := field in lambdaFields;
    if inOpenapi != inLambda then
      Some(FieldDiscrepancy(field, inOpenapi, inLambda,
        if inOpenapi then allFields[field].typ else JNull,
        if inLambda then "processed" else "not_processed"))
    else None
  }

  /** The records for `fields`, in order. */
  function DiscrepanciesOf(fields: seq<string>, allFields: map<string, FieldInfo>, lambdaFields: set<string>): seq<FieldDiscrepancy>
  {
    if fields == [] then []
    else
      var before := DiscrepanciesOf(fields[..|fields| - 1], allFields, lambdaFields);
      match DiscrepancyFor(fields[|fields| - 1], allFields, lambdaFields)
      case Some(d) => before + [d]
      case None => before
  }

  /** The loop over the union of both name sets. */
  method CollectDiscrepancies(fields: seq<string>, allFields: map<string, FieldInfo>, lambdaFields: set<string>)
    returns (ds: seq<FieldDiscrepancy>)
    ensures ds == DiscrepanciesOf(fields, allFields, lambdaFields)
  {
    ds := [];
    var i := 0;
    while i < |fields|
      invariant i <= |fields|
      invariant ds == DiscrepanciesOf(fields[..i], allFields, lambdaFields)
    {
      assert fields[..i + 1][..i] == fields[..i];
      var d := DiscrepancyFor(fields[i], allFields, lambdaFields);
      if d.Some? {
        ds := ds + [d.value];
      }
      i := i + 1;
    }
    assert fields[..i] == fields;
  }

  /** Every record comes from `DiscrepancyFor` on one of `fields`, and each
      field of the symmetric difference that `fields` lists has a record. */
  lemma {:induction false} DiscrepanciesMembers(fields: seq<string>, allFields: map<string, FieldInfo>, lambdaFields: set<string>, f: string)
    ensures (exists d :: d in DiscrepanciesOf(fields, allFields, lambdaFields) && d.fieldName == f)
      <==> f in fields && (f in allFields) != (f in lambdaFields)
  {
    if fields != [] {
      var init := fields[..|fields| - 1];
      var last := fields[|fields| - 1];
      DiscrepanciesMembers(init, allFields, lambdaFields, f);
      var before := DiscrepanciesOf(init, allFields, lambdaFields);
      match DiscrepancyFor(last, allFields, lambdaFields)
      case Some(d) =>
        assert DiscrepanciesOf(fields, allFields, lambdaFields) == before + [d];
        if f == last {
          assert d in before + [d];
        }
      case None =>
        assert DiscrepanciesOf(fields, allFields, lambdaFields) == before;
      assert f in fields <==> f in init || f == last by {
        if f in fields && f != last {
          var k :| 0 <= k < |fields| && fields[k] == f;
          assert init[k] == f;
        }
      }
    }
  }

  lemma {:induction false} DiscrepanciesWellFormed(fields: seq<string>, allFields: map<string, FieldInfo>, lambdaFields: set<string>, d: FieldDiscrepancy)
    requires d in DiscrepanciesOf(fields, allFields, lambdaFields)
    ensures DiscrepancyFor(d.fieldName, allFields, lambdaFields) == Some(d)
  {
    var init := fields[..|fields| - 1];
    if d in DiscrepanciesOf(init, allFields, lambdaFields) {
      DiscrepanciesWellFormed(init, allFields, lambdaFields, d);
    }
  }

  /** Distinct fields give records with distinct names. */
  lemma {:induction false} DiscrepanciesDistinct(fields: seq<string>, allFields: map<string, FieldInfo>, lambdaFields: set<string>)
    requires NoDuplicates(fields)
    ensures var ds := DiscrepanciesOf(fields, allFields, lambdaFields);
      forall i, j :: 0 <= i < j < |ds| ==> ds[i].fieldName != ds[j].fieldName
  {
    if fields != [] {
      var init := fields[..|fields| - 1];
      var last := fields[|fields| - 1];
      assert NoDuplicates(init) by {
        forall i, j | 0 <= i < j < |init| ensures init[i] != init[j] {
          assert init[i] == fields[i] && init[j] == fields[j];
        }
      }
      DiscrepanciesDistinct(init, allFields, lambdaFields);
      var before := DiscrepanciesOf(init, allFields, lambdaFields);
      forall i | 0 <= i < |before| ensures before[i].fieldName != last {
        DiscrepanciesMembers(init, allFields, lambdaFields, before[i].fieldName);
        var k :| 0 <= k < |init| && init[k] == before[i].fieldName;
        assert fields[k] == init[k];
      }
    }
  }

  const MissingInLambdaText := "Campos definidos" + " en OpenAPI pero no procesados en lambda: "
  const MissingInLambdaAdvice := ". Considerar agregar procesamiento o remover de OpenAPI si no son necesarios."
  const MissingInOpenapiText := "Campos procesados" + " en lambda pero no definidos en OpenAPI: "
  const MissingInOpenapiAdvice := ". Considerar agregar a OpenAPI para documentación completa."
  const CriticalDateText := "\U{26A0}\U{FE0F} CRÍTICO: OpenAPI define campos de fecha "
  const CriticalTimeText := "\U{26A0}\U{FE0F} CRÍTICO: OpenAPI define campos de hora "
  const CriticalAdvice := " pero la lambda no los procesa."

  /** The recommendations, in the order the checks append them. */
  function Recommendations(
    missingInLambda: seq<string>, missingInOpenapi: seq<string>,
    dateInOpenapi: seq<string>, timeInOpenapi: seq<string>,
    dateInLambda: seq<string>, timeInLambda: seq<string>): (recs: seq<string>)
    ensures |recs| == (if missingInLambda != [] then 1 else 0) + (if missingInOpenapi != [] then 1 else 0)
      + (if dateInOpenapi != [] && dateInLambda == [] then 1 else 0)
      + (if timeInOpenapi != [] && timeInLambda == [] then 1 else 0)
  {
    (if missingInLambda != [] then [MissingInLambdaText + ListRepr(missingInLambda) + MissingInLambdaAdvice] else [])
    + (if missingInOpenapi != [] then [MissingInOpenapiText + ListRepr(missingInOpenapi) + MissingInOpenapiAdvice] else [])
    + (if dateInOpenapi != [] && dateInLambda == [] then [CriticalDateText + ListRepr(dateInOpenapi) + CriticalAdvice] else [])
    + (if timeInOpenapi != [] && timeInLambda == [] then [CriticalTimeText + ListRepr(timeInOpenapi) + CriticalAdvice] else [])
  }

  /** Each recommendation is present exactly when its check fires. */
  lemma RecommendationsIff(
    missingInLambda: seq<string>, missingInOpenapi: seq<string>,
    dateInOpenapi: seq<string>, timeInOpenapi: seq<string>,
    dateInLambda: seq<string>, timeInLambda: seq<string>)
    ensures var recs := Recommendations(missingInLambda, missingInOpenapi, dateInOpenapi, timeInOpenapi, dateInLambda, timeInLambda);
      (MissingInLambdaText + ListRepr(missingInLambda) + MissingInLambdaAdvice in recs <==> missingInLambda != [])
      && (MissingInOpenapiText + ListRepr(missingInOpenapi) + MissingInOpenapiAdvice in recs <==> missingInOpenapi != [])
      && (CriticalDateText + ListRepr(dateInOpenapi) + CriticalAdvice in recs <==> dateInOpenapi != [] && dateInLambda == [])
      && (CriticalTimeText + ListRepr(timeInOpenapi) + CriticalAdvice in recs <==> timeInOpenapi != [] && timeInLambda == [])
  {
    var lam := MissingInLambdaText + ListRepr(missingInLambda) + MissingInLambdaAdvice;
    var oas := MissingInOpenapiText + ListRepr(missingInOpenapi) + MissingInOpenapiAdvice;
    var date := CriticalDateText + ListRepr(dateInOpenapi) + CriticalAdvice;
    var time := CriticalTimeText + ListRepr(timeInOpenapi) + CriticalAdvice;
    RecommendationTextsDiffer(ListRepr(missingInLambda), ListRepr(missingInOpenapi), ListRepr(dateInOpenapi), ListRepr(timeInOpenapi));
    var recs := Recommendations(missingInLambda, missingInOpenapi, dateInOpenapi, timeInOpenapi, dateInLambda, timeInLambda);
    InFourOptional(lam, missingInLambda != [], oas, missingInOpenapi != [],
      date, dateInOpenapi != [] && dateInLambda == [], time, timeInOpenapi != [] && timeInLambda == []);
  }

  /** The four recommendation texts differ from each other whatever lists
      they name. */
  lemma RecommendationTextsDiffer(ml: string, mo: string, d: string, t: string)
    ensures var lam := MissingInLambdaText + ml + MissingInLambdaAdvice;
      var oas := MissingInOpenapiText + mo + MissingInOpenapiAdvice;
      var date := CriticalDateText + d + CriticalAdvice;
      var time := CriticalTimeText + t + CriticalAdvice;
      lam != oas && lam != date && lam != time && oas != date && oas != time && date != time
  {
    assert MissingInLambdaText[7] == 'd' && MissingInOpenapiText[7] == 'p';
    assert MissingInLambdaText[0] == 'C' && MissingInOpenapiText[0] == 'C';
    assert CriticalDateText[0] == '\U{26A0}' && CriticalTimeText[0] == '\U{26A0}';
    assert CriticalDateText[37] == 'f' && CriticalTimeText[37] == 'h';
    PrefixesDiffer(MissingInLambdaText, MissingInOpenapiText, ml, mo, MissingInLambdaAdvice, MissingInOpenapiAdvice, 7);
    PrefixesDiffer(MissingInLambdaText, CriticalDateText, ml, d, MissingInLambdaAdvice, CriticalAdvice, 0);
    PrefixesDiffer(MissingInLambdaText, CriticalTimeText, ml, t, MissingInLambdaAdvice, CriticalAdvice, 0);
    PrefixesDiffer(MissingInOpenapiText, CriticalDateText, mo, d, MissingInOpenapiAdvice, CriticalAdvice, 0);
    PrefixesDiffer(MissingInOpenapiText, CriticalTimeText, mo, t, MissingInOpenapiAdvice, CriticalAdvice, 0);
    PrefixesDiffer(CriticalDateText, CriticalTimeText, d, t, CriticalAdvice, CriticalAdvice, 37);
  }

  /** In a list of four distinct optional entries, each is present exactly
      when its condition holds. */
  lemma InFourOptional(a: string, pa: bool, b: string, pb: bool, c: string, pc: bool, d: string, pd: bool)
    requires a != b && a != c && a != d && b != c && b != d && c != d
    ensures var xs := (if pa then [a] else []) + (if pb then [b] else []) + (if pc then [c] else []) + (if pd then [d] else []);
      (a in xs <==> pa) && (b in xs <==> pb) && (c in xs <==> pc) && (d in xs <==> pd)
  {
  }

  /** The recommendations for two difference lists and the two name sets:
      the date and time checks look at the names that mention `fecha` or
      `hora`, ignoring case. */
  method DateTimeRecommendations(missingInLambda: seq<string>, missingInOpenapi: seq<string>,
                                 openapiNames: set<string>, lambdaNames: set<string>) returns (recs: seq<string>)
    ensures |recs| == (if missingInLambda != [] then 1 else 0)
      + (if missingInOpenapi != [] then 1 else 0)
      + (if Mentioning(openapiNames, "fecha") != {} && Mentioning(lambdaNames, "fecha") == {} then 1 else 0)
      + (if Mentioning(openapiNames, "hora") != {} && Mentioning(lambdaNames, "hora") == {} then 1 else 0)
    ensures exists dateInOpenapi, timeInOpenapi, dateInLambda, timeInLambda ::
      recs == Recommendations(missingInLambda, missingInOpenapi, dateInOpenapi, timeInOpenapi, dateInLambda, timeInLambda)
      && AsSet(dateInOpenapi) == Mentioning(openapiNames, "fecha") && AsSet(timeInOpenapi) == Mentioning(openapiNames, "hora")
      && AsSet(dateInLambda) == Mentioning(lambdaNames, "fecha") && AsSet(timeInLambda) == Mentioning(lambdaNames, "hora")
  {
    var openapiList := ListOfSet(openapiNames);
    var lambdaList := ListOfSet(lambdaNames);
    var dateInOpenapi := Variants(openapiList, "fecha");
    var timeInOpenapi := Variants(openapiList, "hora");
    var dateInLambda := Variants(lambdaList, "fecha");
    var timeInLambda := Variants(lambdaList, "hora");
    recs := Recommendations(missingInLambda, missingInOpenapi, dateInOpenapi, timeInOpenapi, dateInLambda, timeInLambda);
    VariantsOfSet(openapiList, "fecha");
    VariantsOfSet(openapiList, "hora");
    VariantsOfSet(lambdaList, "fecha");
    VariantsOfSet(lambdaList, "hora");
    VariantsAsSet(openapiList, "fecha");
    VariantsAsSet(openapiList, "hora");
    VariantsAsSet(lambdaList, "fecha");
    VariantsAsSet(lambdaList, "hora");
  }

  /** The report `validate_openapi_lambda_consistency` builds from the
      field names of the POST request body and the fields the handler
      reads. */
  method ValidateOpenapiLambdaConsistency(spec: Json, code: string, endpoint: string, lambdaName: string)
    returns (report: ConsistencyReport, ghost openapiNames: set<string>, ghost lambdaNames: set<string>)
    ensures openapiNames == RequestFields(spec, endpoint, "post").allFields.Keys
    ensures lambdaNames == ProcessedFieldSet(code)
    ensures report.endpoint == endpoint && report.lambdaName == lambdaName
    ensures NoDuplicates(report.missingInLambda) && AsSet(report.missingInLambda) == openapiNames - lambdaNames
    ensures NoDuplicates(report.missingInOpenapi) && AsSet(report.missingInOpenapi) == lambdaNames - openapiNames
    ensures forall f :: ((exists d :: d in report.discrepancies && d.fieldName == f)
      <==> (f in openapiNames) != (f in lambdaNames))
    ensures forall i, j :: 0 <= i < j < |report.discrepancies| ==>
      report.discrepancies[i].fieldName != report.discrepancies[j].fieldName
    ensures forall d :: d in report.discrepancies ==>
      DiscrepancyFor(d.fieldName, RequestFields(spec, endpoint, "post").allFields, lambdaNames) == Some(d)
    ensures report.isConsistent <==> report.discrepancies == []
    ensures report.isConsistent <==> report.missingInLambda == [] && report.missingInOpenapi == []
    ensures |report.recommendations| <= 4
    ensures |report.recommendations| == (if report.missingInLambda != [] then 1 else 0)
      + (if report.missingInOpenapi != [] then 1 else 0)
      + (if Mentioning(openapiNames, "fecha") != {} && Mentioning(lambdaNames, "fecha") == {} then 1 else 0)
      + (if Mentioning(openapiNames, "hora") != {} && Mentioning(lambdaNames, "hora") == {} then 1 else 0)
    ensures exists dateInOpenapi, timeInOpenapi, dateInLambda, timeInLambda ::
      report.recommendations == Recommendations(report.missingInLambda, report.missingInOpenapi,
        dateInOpenapi, timeInOpenapi, dateInLambda, timeInLambda)
      && AsSet(dateInOpenapi) == Mentioning(openapiNames, "fecha") && AsSet(timeInOpenapi) == Mentioning(openapiNames, "hora")
      && AsSet(dateInLambda) == Mentioning(lambdaNames, "fecha") && AsSet(timeInLambda) == Mentioning(lambdaNames, "hora")
  {
    var info := ExtractRequestFields(spec, endpoint, "post");
    var lambdaList := ExtractProcessedFields(code);
    openapiNames, lambdaNames := info.allFields.Keys, AsSet(lambdaList);
    var lambdaSet := AsSet(lambdaList);
    var discrepancies, missingInLambda, missingInOpenapi := CompareFields(info.allFields, lambdaSet);
    var recs := DateTimeRecommendations(missingInLambda, missingInOpenapi, info.allFields.Keys, lambdaSet);
    report := ConsistencyReport(endpoint, lambdaName, |discrepancies| == 0, discrepancies, missingInLambda, missingInOpenapi, recs);
  }

  /** The comparison of the OpenAPI fields with the handler's names: a
      record per name on one side only, each with distinct names, and the
      two difference lists. */
  method CompareFields(allFields: map<string, FieldInfo>, lambdaSet: set<string>)
    returns (discrepancies: seq<FieldDiscrepancy>, missingInLambda: seq<string>, missingInOpenapi: seq<string>)
    ensures NoDuplicates(missingInLambda) && AsSet(missingInLambda) == allFields.Keys - lambdaSet
    ensures NoDuplicates(missingInOpenapi) && AsSet(missingInOpenapi) == lambdaSet - allFields.Keys
    ensures forall f :: ((exists d :: d in discrepancies && d.fieldName == f)
      <==> (f in allFields.Keys) != (f in lambdaSet))
    ensures forall i, j :: 0 <= i < j < |discrepancies| ==>
      discrepancies[i].fieldName != discrepancies[j].fieldName
    ensures forall d :: d in discrepancies ==> DiscrepancyFor(d.fieldName, allFields, lambdaSet) == Some(d)
    ensures discrepancies == [] <==> missingInLambda == [] && missingInOpenapi == []
  {
    var union := ListOfSet(allFields.Keys + lambdaSet);
    discrepancies := CollectDiscrepancies(union, allFields, lambdaSet);
    missingInLambda := ListOfSet(allFields.Keys - lambdaSet);
    missingInOpenapi := ListOfSet(lambdaSet - allFields.Keys);
    forall f ensures (exists d :: d in discrepancies && d.fieldName == f) <==> (f in allFields.Keys) != (f in lambdaSet) {
      DiscrepanciesMembers(union, allFields, lambdaSet, f);
    }
    DiscrepanciesDistinct(union, allFields, lambdaSet);
    forall d | d in discrepancies
      ensures DiscrepancyFor(d.fieldName, allFields, lambdaSet) == Some(d)
    {
      DiscrepanciesWellFormed(union, allFields, lambdaSet, d);
    }
    ConsistentIff(allFields.Keys, lambdaSet, discrepancies, missingInLambda, missingInOpenapi);
  }

  /** No record exactly when both difference lists are empty. */
  lemma ConsistentIff(openapiNames: set<string>, lambdaNames: set<string>, ds: seq<FieldDiscrepancy>,
                      missingInLambda: seq<string>, missingInOpenapi: seq<string>)
    requires forall f :: (exists d :: d in ds && d.fieldName == f) <==> (f in openapiNames) != (f in lambdaNames)
    requires AsSet(missingInLambda) == openapiNames - lambdaNames
    requires AsSet(missingInOpenapi) == lambdaNames - openapiNames
    ensures ds == [] <==> missingInLambda == [] && missingInOpenapi == []
  {
    if ds != [] {
      var f := ds[0].fieldName;
      assert ds[0] in ds;
      if f in openapiNames {
        assert f in AsSet(missingInLambda);
      } else {
        assert f in AsSet(missingInOpenapi);
      }
    }
    if openapiNames - lambdaNames != {} {
      var f :| f in openapiNames - lambdaNames;
      assert exists d :: d in ds && d.fieldName == f;
    }
    if lambdaNames - openapiNames != {} {
      var f :| f in lambdaNames - openapiNames;
      assert exists d :: d in ds && d.fieldName == f;
    }
    if missingInLambda != [] {
      assert missingInLambda[0] in AsSet(missingInLambda);
    }
    if missingInOpenapi != [] {
      assert missingInOpenapi[0] in AsSet(missingInOpenapi);
    }
  }
}
