/** What `_make_class_definitions` (generator.py:209-318) builds for one
    (path, verb) pair: the payload that the views and stubs templates read.
    Parameters are sorted by their `in` location, the success response
    chooses the response schema, and `secure` records whether the
    operation asks for security. The payload's embedded schemas are typed
    trees here rather than the `json.loads("""...""")` text of the source. */
module Descriptor {
  import opened Results
  import opened Strings
  import opened Json
  import opened Resolver

  /** The schema a payload names: `"schemas.__UNSPECIFIED__"`, a
      `"schemas." + name` reference, or a resolved inline definition. */
  datatype SchemaRef = Unspecified | Named(name: string) | Inline(schema: Fields)

  /** The body parameter: a copy of its definition whose `schema` entry the
      payload replaces by `schema`. */
  datatype Body = Body(detail: Fields, schema: SchemaRef)

  datatype Payload = Payload(
    operation: string,
    requiredArgs: seq<Fields>,
    optionalArgs: seq<Fields>,
    formData: seq<Fields>,
    body: Option<Body>,
    responseSchema: SchemaRef,
    secure: bool)

  /** The message printed for a parameter whose location has no code
      generation: the location, the operation and the parameter's name. */
  datatype Report = Report(location: Json, operation: string, name: string)

  /** The payload before any parameter or response is looked at. */
  function EmptyPayload(operation: string): (p: Payload)
    ensures p.operation == operation
    ensures p.requiredArgs == [] && p.optionalArgs == [] && p.formData == []
    ensures p.body.None? && p.responseSchema.Unspecified? && !p.secure
  {
    Payload(operation, [], [], [], None, Unspecified, false)
  }

  // ----- Schemas -----

  /** A body or response schema: a truthy `$ref` names its last
      `/`-segment (a non-string one cannot be split), anything else is
      resolved and embedded. A schema that is not a dict has no `get`. */
  function SchemaChoice(doc: Fields, schema: Json, fuel: nat): (r: Result<SchemaRef>)
    ensures !schema.JObj? ==> r == Err(WrongType("schema"))
    ensures r.Ok? ==> !r.value.Unspecified?
    ensures forall s :: schema.JObj? && Get(schema.fields, RefKey) == Some(JStr(s)) && s != "" ==>
              r == Ok(Named(Last(Split(s, '/')))) && '/' !in r.value.name
    ensures r.Ok? && r.value.Inline? ==> schema.JObj? && ResolveObject(doc, schema.fields, fuel) == Ok(r.value.schema)
    ensures forall reference ::
              (schema.JObj? && Get(schema.fields, RefKey) == Some(reference) && Truthy(reference) && !reference.JStr?) ==>
              r == Err(WrongType(RefKey))
    ensures schema.JObj? && !(HasKey(schema.fields, RefKey) && Truthy(Get(schema.fields, RefKey).value)) ==>
              && (ResolveObject(doc, schema.fields, fuel).Ok? ==> r == Ok(Inline(ResolveObject(doc, schema.fields, fuel).value)))
              && (ResolveObject(doc, schema.fields, fuel).Err? ==> r == Err(ResolveObject(doc, schema.fields, fuel).error))
  {
    match schema
    case JObj(fs) =>
      var reference := Get(fs, RefKey);
      if reference.Some? && Truthy(reference.value) then
        match reference.value
        case JStr(s) =>
          SplitPartsLackSeparator(s, '/');
          Ok(Named(Last(Split(s, '/'))))
        case _ => Err(WrongType(RefKey))
      else
        var resolved :- ResolveObject(doc, fs, fuel);
        Ok(Inline(resolved))
    case _ => Err(WrongType("schema"))
  }

  // ----- Parameters -----

  /** Where the loop over parameters puts one parameter definition. */
  datatype Placement = RequiredArg | OptionalArg | FormField | BodyField(schema: Json) | Unsupported(location: Json)

  /** The branches on `detail["in"]`: path and query parameters go by their
      `required` flag, a body parameter brings its `schema`, every other
      location, `header` among them, is unsupported. */
  function Place(detail: Fields): (r: Result<Placement>)
    ensures !HasKey(detail, "in") ==> r == Err(MissingKey("in"))
    ensures Get(detail, "in") == Some(JStr("path")) || Get(detail, "in") == Some(JStr("query")) ==>
              && (!HasKey(detail, "required") ==> r == Err(MissingKey("required")))
              && (HasKey(detail, "required") ==>
                    r == Ok(if Truthy(Get(detail, "required").value) then RequiredArg else OptionalArg))
    ensures Get(detail, "in") == Some(JStr("body")) ==>
              && (!HasKey(detail, "schema") ==> r == Err(MissingKey("schema")))
              && (HasKey(detail, "schema") ==> r == Ok(BodyField(Get(detail, "schema").value)))
    ensures Get(detail, "in") == Some(JStr("formData")) ==> r == Ok(FormField)
    ensures forall location ::
              (Get(detail, "in") == Some(location) && location !in {JStr("path"), JStr("query"), JStr("body"), JStr("formData")}) ==>
              r == Ok(Unsupported(location))
    ensures r.Ok? && r.value.Unsupported? ==>
              Get(detail, "in") == Some(r.value.location)
              && r.value.location !in {JStr("path"), JStr("query"), JStr("body"), JStr("formData")}
    ensures r.Ok? && (r.value.RequiredArg? || r.value.OptionalArg?) ==>
              (Get(detail, "in") == Some(JStr("path")) || Get(detail, "in") == Some(JStr("query")))
              && Get(detail, "required").Some?
              && (r.value.RequiredArg? <==> Truthy(Get(detail, "required").value))
  {
    match Get(detail, "in")
    case None => Err(MissingKey("in"))
    case Some(location) =>
      if location == JStr("path") || location == JStr("query") then
        match Get(detail, "required")
        case None => Err(MissingKey("required"))
        case Some(required) => Ok(if Truthy(required) then RequiredArg else OptionalArg)
      else if location == JStr("body") then
        match Get(detail, "schema")
        case None => Err(MissingKey("schema"))
        case Some(schema) => Ok(BodyField(schema))
      else if location == JStr("formData") then Ok(FormField)
      else Ok(Unsupported(location))
  }

  /** A `header` parameter is valid Swagger but has no branch of its own. */
  lemma {:induction false} HeaderUnsupported(detail: Fields)
    requires Get(detail, "in") == Some(JStr("header"))
    ensures Place(detail) == Ok(Unsupported(JStr("header")))
  {
  }

  /** One turn of the loop over `io["parameters"]`. */
  function AddParameter(doc: Fields, fuel: nat, acc: (Payload, seq<Report>), name: string, detail: Json)
    : (r: Result<(Payload, seq<Report>)>)
  {
    var (p, reports) := acc;
    if !detail.JObj? then Err(WrongType(name))
    else
      var placement :- Place(detail.fields);
      match placement
      case RequiredArg => Ok((p.(requiredArgs := p.requiredArgs + [detail.fields]), reports))
      case OptionalArg => Ok((p.(optionalArgs := p.optionalArgs + [detail.fields]), reports))
      case FormField => Ok((p.(formData := p.formData + [detail.fields]), reports))
      case BodyField(schema) =>
        var choice :- SchemaChoice(doc, schema, fuel);
        Ok((p.(body := Some(Body(detail.fields, choice))), reports))
      case Unsupported(location) => Ok((p, reports + [Report(location, p.operation, name)]))
  }

  /** The loop over `io["parameters"]`, after the first `|params|` entries. */
  function Arguments(doc: Fields, fuel: nat, p: Payload, params: Fields): Result<(Payload, seq<Report>)>
  {
    if |params| == 0 then Ok((p, []))
    else
      var acc :- Arguments(doc, fuel, p, params[..|params| - 1]);
      AddParameter(doc, fuel, acc, params[|params| - 1].0, params[|params| - 1].1)
  }

  /** The loop itself. */
  method AddArguments(doc: Fields, fuel: nat, p: Payload, params: Fields) returns (r: Result<(Payload, seq<Report>)>)
    ensures r == Arguments(doc, fuel, p, params)
  {
    var payload, reports := p, [];
    var i := 0;
    while i < |params|
      invariant 0 <= i <= |params|
      invariant Arguments(doc, fuel, p, params[..i]) == Ok((payload, reports))
    {
      assert params[..i + 1][..i] == params[..i];
      var step := AddParameter(doc, fuel, (payload, reports), params[i].0, params[i].1);
      if step.Err? {
        NoRecoveryAfterArgument(doc, fuel, p, params, i + 1);
        return Err(step.error);
      }
      payload, reports := step.value.0, step.value.1;
      i := i + 1;
    }
    assert params[..i] == params;
    return Ok((payload, reports));
  }

  /** Once a parameter fails, the whole loop fails with that error. */
  lemma {:induction false} NoRecoveryAfterArgument(doc: Fields, fuel: nat, p: Payload, params: Fields, i: nat)
    requires i <= |params|
    requires Arguments(doc, fuel, p, params[..i]).Err?
    ensures Arguments(doc, fuel, p, params) == Arguments(doc, fuel, p, params[..i])
    decreases |params| - i
  {
    if i < |params| {
      assert params[..i + 1][..i] == params[..i];
      NoRecoveryAfterArgument(doc, fuel, p, params, i + 1);
    } else {
      assert params[..i] == params;
    }
  }

  /** The definition of one parameter if it is placed as `kind`. */
  function PlacedOne(detail: Json, kind: Placement): seq<Fields>
  {
    if detail.JObj? && Place(detail.fields) == Ok(kind) then [detail.fields] else []
  }

  /** The definitions of the parameters placed as `kind`, in order: the
      independent description of the three argument lists. */
  function PlacedAs(params: Fields, kind: Placement): seq<Fields>
  {
    if |params| == 0 then []
    else PlacedAs(params[..|params| - 1], kind) + PlacedOne(params[|params| - 1].1, kind)
  }

  /** The report of one parameter if its location is unsupported. */
  function ReportOne(name: string, detail: Json, operation: string): seq<Report>
  {
    if detail.JObj? && Place(detail.fields).Ok? && Place(detail.fields).value.Unsupported?
    then [Report(Place(detail.fields).value.location, operation, name)] else []
  }

  /** The reports, in order, of the parameters with an unsupported location. */
  function UnsupportedReports(params: Fields, operation: string): seq<Report>
  {
    if |params| == 0 then []
    else
      UnsupportedReports(params[..|params| - 1], operation)
      + ReportOne(params[|params| - 1].0, params[|params| - 1].1, operation)
  }

  /** The last body parameter, with its schema: the one the payload keeps. */
  function LastBody(params: Fields): (r: Option<(Fields, Json)>)
  {
    if |params| == 0 then None
    else
      var detail := params[|params| - 1].1;
      if detail.JObj? && Place(detail.fields).Ok? && Place(detail.fields).value.BodyField? then
        Some((detail.fields, Place(detail.fields).value.schema))
      else LastBody(params[..|params| - 1])
  }

  /** The argument lists are the path/query parameters split by their
      `required` flag and the form fields, each in declaration order, and
      the operation, response schema and security flag do not change. */
  lemma {:induction false} ArgumentListsMeaning(doc: Fields, fuel: nat, p: Payload, params: Fields)
    requires Arguments(doc, fuel, p, params).Ok?
    ensures var q := Arguments(doc, fuel, p, params).value.0;
            && q.requiredArgs == p.requiredArgs + PlacedAs(params, RequiredArg)
            && q.optionalArgs == p.optionalArgs + PlacedAs(params, OptionalArg)
            && q.formData == p.formData + PlacedAs(params, FormField)
            && q.operation == p.operation && q.responseSchema == p.responseSchema && q.secure == p.secure
  {
    if |params| > 0 {
      var init := params[..|params| - 1];
      ArgumentListsMeaning(doc, fuel, p, init);
      var acc := Arguments(doc, fuel, p, init).value;
      var (name, detail) := params[|params| - 1];
      assert Arguments(doc, fuel, p, params) == AddParameter(doc, fuel, acc, name, detail);
      AddParameterLists(doc, fuel, acc, name, detail);
      var a, q := acc.0, Arguments(doc, fuel, p, params).value.0;
      assert q.requiredArgs == p.requiredArgs + PlacedAs(params, RequiredArg) by {
        assert PlacedAs(params, RequiredArg) == PlacedAs(init, RequiredArg) + PlacedOne(detail, RequiredArg);
        assert q.requiredArgs == (p.requiredArgs + PlacedAs(init, RequiredArg)) + PlacedOne(detail, RequiredArg);
      }
      assert q.optionalArgs == p.optionalArgs + PlacedAs(params, OptionalArg) by {
        assert PlacedAs(params, OptionalArg) == PlacedAs(init, OptionalArg) + PlacedOne(detail, OptionalArg);
        assert q.optionalArgs == (p.optionalArgs + PlacedAs(init, OptionalArg)) + PlacedOne(detail, OptionalArg);
      }
      assert q.formData == p.formData + PlacedAs(params, FormField) by {
        assert PlacedAs(params, FormField) == PlacedAs(init, FormField) + PlacedOne(detail, FormField);
        assert q.formData == (p.formData + PlacedAs(init, FormField)) + PlacedOne(detail, FormField);
      }
    }
  }

  lemma {:induction false} AddParameterLists(doc: Fields, fuel: nat, acc: (Payload, seq<Report>), name: string, detail: Json)
    requires AddParameter(doc, fuel, acc, name, detail).Ok?
    ensures var (p, q) := (acc.0, AddParameter(doc, fuel, acc, name, detail).value.0);
            && q.requiredArgs == p.requiredArgs + PlacedOne(detail, RequiredArg)
            && q.optionalArgs == p.optionalArgs + PlacedOne(detail, OptionalArg)
            && q.formData == p.formData + PlacedOne(detail, FormField)
            && q.operation == p.operation && q.responseSchema == p.responseSchema && q.secure == p.secure
  {
  }

  /** Unsupported locations are reported in declaration order. */
  lemma {:induction false} ArgumentReports(doc: Fields, fuel: nat, p: Payload, params: Fields)
    requires Arguments(doc, fuel, p, params).Ok?
    ensures Arguments(doc, fuel, p, params).value.1 == UnsupportedReports(params, p.operation)
  {
    if |params| > 0 {
      var init := params[..|params| - 1];
      ArgumentReports(doc, fuel, p, init);
      ArgumentListsMeaning(doc, fuel, p, init);
      var acc := Arguments(doc, fuel, p, init).value;
      AddParameterReports(doc, fuel, acc, params[|params| - 1].0, params[|params| - 1].1);
    }
  }

  lemma {:induction false} AddParameterReports(doc: Fields, fuel: nat, acc: (Payload, seq<Report>), name: string, detail: Json)
    requires AddParameter(doc, fuel, acc, name, detail).Ok?
    ensures AddParameter(doc, fuel, acc, name, detail).value.1 == acc.1 + ReportOne(name, detail, acc.0.operation)
  {
  }

  /** The last body parameter wins, with its schema chosen; without one
      the body stays what it was. */
  lemma {:induction false} ArgumentBody(doc: Fields, fuel: nat, p: Payload, params: Fields)
    requires Arguments(doc, fuel, p, params).Ok?
    ensures var q := Arguments(doc, fuel, p, params).value.0;
            && (LastBody(params).None? ==> q.body == p.body)
            && (LastBody(params).Some? ==>
                  SchemaChoice(doc, LastBody(params).value.1, fuel).Ok?
                  && q.body == Some(Body(LastBody(params).value.0, SchemaChoice(doc, LastBody(params).value.1, fuel).value)))
  {
    if |params| > 0 {
      ArgumentBody(doc, fuel, p, params[..|params| - 1]);
    }
  }

  // ----- Responses -----

  predicate IsDigit(c: char)
  {
    '0' <= c <= '9'
  }

  /** The value of a string of decimal digits. */
  function DigitsValue(s: string): nat
    requires forall i :: 0 <= i < |s| ==> IsDigit(s[i])
  {
    if |s| == 0 then 0
    else
      assert IsDigit(s[|s| - 1]);
      DigitsValue(s[..|s| - 1]) * 10 + (s[|s| - 1] as int - '0' as int)
  }

  /** At least one character, and every one a decimal digit. */
  predicate AllDigits(s: string)
  {
    |s| > 0 && forall i :: 0 <= i < |s| ==> IsDigit(s[i])
  }

  /** `int(code)` for an optional sign followed by decimal digits. */
  function PyInt(code: string): (r: Result<int>)
    ensures r.Err? ==> r.error == NotAnInteger(code)
    ensures AllDigits(code) ==> r == Ok(DigitsValue(code))
    ensures |code| > 0 && code[0] == '+' && AllDigits(code[1..]) ==> r == Ok(DigitsValue(code[1..]))
    ensures |code| > 0 && code[0] == '-' && AllDigits(code[1..]) ==> r == Ok(-(DigitsValue(code[1..]) as int))
    ensures r.Ok? ==> AllDigits(code) || (|code| > 0 && (code[0] == '+' || code[0] == '-') && AllDigits(code[1..]))
  {
    var signed := |code| > 0 && (code[0] == '+' || code[0] == '-');
    var digits := if signed then code[1..] else code;
    if |digits| > 0 && forall i :: 0 <= i < |digits| ==> IsDigit(digits[i]) then
      var magnitude: int := DigitsValue(digits);
      Ok(if signed && code[0] == '-' then -magnitude else magnitude)
    else Err(NotAnInteger(code))
  }

  /** The decimal digits of `n`, as `str(n)` writes them. */
  function Decimal(n: nat): (s: string)
    ensures |s| > 0 && forall i :: 0 <= i < |s| ==> IsDigit(s[i])
  {
    if n < 10 then [('0' as int + n) as char]
    else Decimal(n / 10) + [('0' as int + n % 10) as char]
  }

  /** `int` reads back what `str` writes for every status code. */
  lemma {:induction false} PyIntOfDecimal(n: nat)
    ensures PyInt(Decimal(n)) == Ok(n)
  {
    DigitsOfDecimal(n);
  }

  lemma {:induction false} DigitsOfDecimal(n: nat)
    ensures DigitsValue(Decimal(n)) == n
  {
    var s := Decimal(n);
    if n >= 10 {
      DigitsOfDecimal(n / 10);
      assert s[..|s| - 1] == Decimal(n / 10);
    } else {
      assert s[..0] == [];
    }
  }

  /** Python's `key in container` for a string key. */
  function PyIn(key: string, container: Json): (r: Result<bool>)
    ensures container.JObj? ==> r == Ok(HasKey(container.fields, key))
    ensures container.JNum? || container.JBool? || container.JNull? ==> r.Err?
  {
    match container
    case JObj(fs) => Ok(HasKey(fs, key))
    case JArr(xs) => Ok(JStr(key) in xs)
    case JStr(s) => Ok(Contains(s, key))
    case _ => Err(WrongType(key))
  }

  /** One turn of the loop over `io["responses"]`: "default" is skipped,
      every other code is read with `int`, and a code in [200, 300) whose
      definition has a `schema` sets the response schema. */
  function AddResponse(doc: Fields, fuel: nat, p: Payload, code: string, detail: Json): (r: Result<Payload>)
  {
    if code == "default" then Ok(p)
    else
      var n :- PyInt(code);
      if 200 <= n < 300 then
        var hasSchema :- PyIn("schema", detail);
        if !hasSchema then Ok(p)
        else if !detail.JObj? then Err(WrongType(code))
        else
          var choice :- SchemaChoice(doc, Get(detail.fields, "schema").value, fuel);
          Ok(p.(responseSchema := choice))
      else Ok(p)
  }

  /** The loop over `io["responses"]`, after the first `|responses|` entries. */
  function Responses(doc: Fields, fuel: nat, p: Payload, responses: Fields): Result<Payload>
  {
    if |responses| == 0 then Ok(p)
    else
      var q :- Responses(doc, fuel, p, responses[..|responses| - 1]);
      AddResponse(doc, fuel, q, responses[|responses| - 1].0, responses[|responses| - 1].1)
  }

  method AddResponses(doc: Fields, fuel: nat, p: Payload, responses: Fields) returns (r: Result<Payload>)
    ensures r == Responses(doc, fuel, p, responses)
  {
    var payload := p;
    var i := 0;
    while i < |responses|
      invariant 0 <= i <= |responses|
      invariant Responses(doc, fuel, p, responses[..i]) == Ok(payload)
    {
      assert responses[..i + 1][..i] == responses[..i];
      var step := AddResponse(doc, fuel, payload, responses[i].0, responses[i].1);
      if step.Err? {
        NoRecoveryAfterResponse(doc, fuel, p, responses, i + 1);
        return Err(step.error);
      }
      payload := step.value;
      i := i + 1;
    }
    assert responses[..i] == responses;
    return Ok(payload);
  }

  lemma {:induction false} NoRecoveryAfterResponse(doc: Fields, fuel: nat, p: Payload, responses: Fields, i: nat)
    requires i <= |responses|
    requires Responses(doc, fuel, p, responses[..i]).Err?
    ensures Responses(doc, fuel, p, responses) == Responses(doc, fuel, p, responses[..i])
    decreases |responses| - i
  {
    if i < |responses| {
      assert responses[..i + 1][..i] == responses[..i];
      NoRecoveryAfterResponse(doc, fuel, p, responses, i + 1);
    } else {
      assert responses[..i] == responses;
    }
  }

  /** A success response that sets the schema: a numeric code in
      [200, 300) whose definition is a dict with a `schema` entry. */
  predicate Qualifies(code: string, detail: Json)
  {
    code != "default" && PyInt(code).Ok? && 200 <= PyInt(code).value < 300
    && detail.JObj? && HasKey(detail.fields, "schema")
  }

  /** The schema of the last qualifying response. */
  function LastQualifying(responses: Fields): (r: Option<Json>)
  {
    if |responses| == 0 then None
    else
      var (code, detail) := responses[|responses| - 1];
      if Qualifies(code, detail) then Get(detail.fields, "schema")
      else LastQualifying(responses[..|responses| - 1])
  }

  /** The last qualifying response decides the response schema; with none
      it stays what it was; nothing else of the payload changes. */
  lemma {:induction false} ResponsesMeaning(doc: Fields, fuel: nat, p: Payload, responses: Fields)
    requires Responses(doc, fuel, p, responses).Ok?
    ensures var q := Responses(doc, fuel, p, responses).value;
            && (LastQualifying(responses).None? ==> q == p)
            && (LastQualifying(responses).Some? ==>
                  SchemaChoice(doc, LastQualifying(responses).value, fuel).Ok?
                  && q == p.(responseSchema := SchemaChoice(doc, LastQualifying(responses).value, fuel).value))
  {
    if |responses| > 0 {
      ResponsesMeaning(doc, fuel, p, responses[..|responses| - 1]);
    }
  }

  /** A response code other than "default" that is not a number stops the
      loop, whatever comes before or after it. */
  lemma {:induction false} NonNumericCodeFails(doc: Fields, fuel: nat, p: Payload, responses: Fields, i: nat)
    requires i < |responses|
    requires responses[i].0 != "default" && PyInt(responses[i].0).Err?
    ensures Responses(doc, fuel, p, responses).Err?
  {
    var n := |responses|;
    if i < n - 1 {
      assert responses[..n - 1][i] == responses[i];
      NonNumericCodeFails(doc, fuel, p, responses[..n - 1], i);
    }
  }

  // ----- Security -----

  /** The `secure` flag: a top-level `security` entry secures everything;
      otherwise `specification["paths"].get(relative_url, {}).get(verb, {})`
      is asked whether it holds "security". */
  function Secure(doc: Fields, relativeUrl: string, verb: string): (r: Result<bool>)
    ensures HasKey(doc, "security") ==> r == Ok(true)
    ensures !HasKey(doc, "security") && !HasKey(doc, "paths") ==> r == Err(MissingKey("paths"))
  {
    if HasKey(doc, "security") then Ok(true)
    else
      match Get(doc, "paths")
      case None => Err(MissingKey("paths"))
      case Some(JObj(paths)) =>
        (match (match Get(paths, relativeUrl) case Some(item) => item case None => JObj([]))
         case JObj(verbs) =>
           var operation := match Get(verbs, verb) case Some(o) => o case None => JObj([]);
           PyIn("security", operation)
         case _ => Err(WrongType(relativeUrl)))
      case Some(_) => Err(WrongType("paths"))
  }

  /** Without a global entry, `secure` holds exactly when the path's verb
      entry has "security"; a path or verb that is not there is not secure. */
  lemma {:induction false} SecureOfOperation(doc: Fields, paths: Fields, relativeUrl: string, verb: string)
    requires !HasKey(doc, "security") && Get(doc, "paths") == Some(JObj(paths))
    ensures !HasKey(paths, relativeUrl) ==> Secure(doc, relativeUrl, verb) == Ok(false)
    ensures forall verbs :: Get(paths, relativeUrl) == Some(JObj(verbs)) && !HasKey(verbs, verb) ==>
              Secure(doc, relativeUrl, verb) == Ok(false)
    ensures forall verbs, o :: Get(paths, relativeUrl) == Some(JObj(verbs)) && Get(verbs, verb) == Some(JObj(o)) ==>
              Secure(doc, relativeUrl, verb) == Ok(HasKey(o, "security"))
  {
    assert !HasKey([], "security");
  }

  // ----- The whole payload -----

  /** The payload of one (path, verb): the empty payload, then the
      parameters, then the responses, then the security flag. */
  function BuildPayload(doc: Fields, fuel: nat, operation: string, relativeUrl: string, verb: string,
                        parameters: Fields, responses: Fields): Result<(Payload, seq<Report>)>
  {
    var (p, reports) :- Arguments(doc, fuel, EmptyPayload(operation), parameters);
    var q :- Responses(doc, fuel, p, responses);
    var secure :- Secure(doc, relativeUrl, verb);
    Ok((q.(secure := secure), reports))
  }

  /** A built payload keeps the operation name, holds the parameters as
      sorted, the schema of the last qualifying response or
      `Unspecified`, and the security flag. */
  lemma {:induction false} BuildPayloadMeaning(doc: Fields, fuel: nat, operation: string, relativeUrl: string, verb: string,
                            parameters: Fields, responses: Fields)
    requires BuildPayload(doc, fuel, operation, relativeUrl, verb, parameters, responses).Ok?
    ensures var (q, reports) := BuildPayload(doc, fuel, operation, relativeUrl, verb, parameters, responses).value;
            && q.operation == operation
            && q.requiredArgs == PlacedAs(parameters, RequiredArg)
            && q.optionalArgs == PlacedAs(parameters, OptionalArg)
            && q.formData == PlacedAs(parameters, FormField)
            && reports == UnsupportedReports(parameters, operation)
            && (LastBody(parameters).None? <==> q.body.None?)
            && (LastQualifying(responses).None? <==> q.responseSchema == Unspecified)
            && (LastBody(parameters).Some? ==>
                  SchemaChoice(doc, LastBody(parameters).value.1, fuel).Ok?
                  && q.body == Some(Body(LastBody(parameters).value.0, SchemaChoice(doc, LastBody(parameters).value.1, fuel).value)))
            && (LastQualifying(responses).Some? ==>
                  SchemaChoice(doc, LastQualifying(responses).value, fuel).Ok?
                  && q.responseSchema == SchemaChoice(doc, LastQualifying(responses).value, fuel).value)
            && Secure(doc, relativeUrl, verb) == Ok(q.secure)
  {
    var p0 := EmptyPayload(operation);
    ArgumentListsMeaning(doc, fuel, p0, parameters);
    ArgumentReports(doc, fuel, p0, parameters);
    ArgumentBody(doc, fuel, p0, parameters);
    var p := Arguments(doc, fuel, p0, parameters).value.0;
    ResponsesMeaning(doc, fuel, p, responses);
  }
}
