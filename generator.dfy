/** The `Generator` object of generator.py: choosing the specification
    format, the (path, verb) → operation id table, the class → verb →
    payload table of `_make_class_definitions`, and the two tables
    `generate_urls` and `generate_schemas` hand to their templates.

    The Swagger parser is not part of this model: what it produces from the
    specification file is the `ParsedSpec` value `LoadSpecification` is
    given. */
module GeneratorModel {
  import opened Results
  import opened Strings
  import opened Json
  import opened Canonical
  import opened Resolver
  import opened Descriptor

  /** One (path, verb) as the parser gives it: the parameters by name and
      the responses by status code. */
  datatype Operation = Operation(parameters: Fields, responses: Fields)

  /** An entry of the parser's `operation` table: operation id →
      (path, verb, tag). */
  type OperationEntry = (string, (string, string, string))

  /** The parser's output as the generator reads it: `base_path`, `paths`
      (path → verb → operation), `operation` and the raw `specification`. */
  datatype ParsedSpec = ParsedSpec(
    basePath: string,
    paths: seq<(string, seq<(string, Operation)>)>,
    operations: seq<OperationEntry>,
    specification: Fields)

  // ----- Format inference -----

  const SpecJson: string := "json"
  const SpecYaml: string := "yaml"

  /** `os.path.basename(path).rsplit(".", 1)[-1]`: the text after the last
      "." of the last path segment, or that whole segment without a ".". */
  function Extension(path: string): (ext: string)
    ensures '.' !in ext
  {
    var filename := Last(Split(path, '/'));
    SplitPartsLackSeparator(filename, '.');
    Last(Split(filename, '.'))
  }

  /** The format `load_specification` settles on: a given, non-empty format
      is taken as it is; otherwise the extension decides, compared without
      case folding, and an extension that is neither YAML nor JSON is the
      `RuntimeError`. */
  function InferFormat(path: string, specFormat: Option<string>): (r: Result<string>)
    ensures specFormat.Some? && specFormat.value != "" ==> r == Ok(specFormat.value)
    ensures r.Err? ==> r.error == UnknownFormat(Extension(path))
  {
    if specFormat.Some? && specFormat.value != "" then Ok(specFormat.value)
    else
      var ext := Extension(path);
      if ext == "yaml" || ext == "yml" then Ok(SpecYaml)
      else if ext == "json" then Ok(SpecJson)
      else Err(UnknownFormat(ext))
  }

  /** The extension of a file name is what follows its last ".". */
  lemma {:induction false} ExtensionOfFileName(base: string, ext: string)
    requires '/' !in ext && '.' !in ext
    ensures Extension(base + "." + ext) == ext
  {
    LastSplitAppend(base, "." + ext, '/');
    var filename := Last(Split(base, '/'));
    assert "." + ext == ['.'] + ext;
    assert base + "." + ext == base + ("." + ext);
    assert filename + ("." + ext) == filename + ['.'] + ext;
    SplitAtSeparator(filename, ext, '.');
    SplitWithoutSeparator(ext, '.');
  }

  /** Without a given format, ".yaml" and ".yml" files are read as YAML,
      ".json" files as JSON, and every other extension is refused. */
  lemma {:induction false} FormatOfFileName(base: string, ext: string)
    requires '/' !in ext && '.' !in ext
    ensures InferFormat(base + "." + ext, None) ==
            if ext == "yaml" || ext == "yml" then Ok(SpecYaml)
            else if ext == "json" then Ok(SpecJson)
            else Err(UnknownFormat(ext))
  {
    ExtensionOfFileName(base, ext);
  }

  /** The comparison is case-sensitive: "swagger.YML" is refused. */
  lemma {:induction false} UpperCaseExtensionRefused(base: string)
    ensures InferFormat(base + ".YML", None) == Err(UnknownFormat("YML"))
  {
    assert "YML"[0] != "yaml"[0] && "YML"[0] != "yml"[0] && |"YML"| != |"json"|;
    assert base + "." + "YML" == base + ".YML";
    FormatOfFileName(base, "YML");
  }

  // ----- Operation names -----

  function PathVerb(entry: OperationEntry): (string, string)
  {
    (entry.1.0, entry.1.1)
  }

  /** A dict comprehension over `pairs`: each value under its key, a
      later pair replacing an earlier one with the same key. */
  function DictOf<K(==), V>(pairs: seq<(K, V)>): (m: map<K, V>)
    ensures forall i :: 0 <= i < |pairs| ==> pairs[i].0 in m
    ensures forall k :: k in m ==> exists i :: 0 <= i < |pairs| && pairs[i].0 == k && m[k] == pairs[i].1
  {
    if |pairs| == 0 then map[]
    else
      var init := pairs[..|pairs| - 1];
      assert forall i :: 0 <= i < |init| ==> init[i] == pairs[i];
      DictOf(init)[pairs[|pairs| - 1].0 := pairs[|pairs| - 1].1]
  }

  /** A key holds the value of its last pair. */
  lemma {:induction false} DictOfLastWins<K, V>(pairs: seq<(K, V)>, i: nat)
    requires i < |pairs|
    requires forall j :: i < j < |pairs| ==> pairs[j].0 != pairs[i].0
    ensures DictOf(pairs)[pairs[i].0] == pairs[i].1
  {
    if i < |pairs| - 1 {
      var init := pairs[..|pairs| - 1];
      assert forall j :: i <= j < |init| ==> init[j] == pairs[j];
      DictOfLastWins(init, i);
    }
  }

  /** The pairs of `PATH_VERB_OPERATION_MAP`'s comprehension. */
  function OperationPairs(ops: seq<OperationEntry>): (pairs: seq<((string, string), string)>)
    ensures |pairs| == |ops| && forall i :: 0 <= i < |ops| ==> pairs[i] == (PathVerb(ops[i]), ops[i].0)
  {
    seq(|ops|, i requires 0 <= i < |ops| => (PathVerb(ops[i]), ops[i].0))
  }

  /** `PATH_VERB_OPERATION_MAP`: every declared operation id under its
      (path, verb); a later id for the same pair replaces an earlier one. */
  function OperationMap(ops: seq<OperationEntry>): (m: map<(string, string), string>)
    ensures forall i :: 0 <= i < |ops| ==> PathVerb(ops[i]) in m
    ensures forall k :: k in m ==> exists i :: 0 <= i < |ops| && PathVerb(ops[i]) == k && m[k] == ops[i].0
  {
    DictOf(OperationPairs(ops))
  }

  /** The id a pair gets is that of the last entry declaring it. */
  lemma {:induction false} OperationMapLastWins(ops: seq<OperationEntry>, i: nat)
    requires i < |ops|
    requires forall j :: i < j < |ops| ==> PathVerb(ops[j]) != PathVerb(ops[i])
    ensures OperationMap(ops)[PathVerb(ops[i])] == ops[i].0
  {
    DictOfLastWins(OperationPairs(ops), i);
  }

  /** Line 217: the declared operation id, else `path_to_operation`. */
  function ChosenOperation(opMap: map<(string, string), string>, path: string, verb: string): string
  {
    if (path, verb) in opMap then opMap[(path, verb)] else OperationName(path, verb)
  }

  /** An operation nobody declared is named after its path and verb. */
  lemma {:induction false} UndeclaredOperation(ops: seq<OperationEntry>, path: string, verb: string)
    requires forall i :: 0 <= i < |ops| ==> PathVerb(ops[i]) != (path, verb)
    ensures ChosenOperation(OperationMap(ops), path, verb) == OperationName(path, verb)
    ensures StartsWith(ChosenOperation(OperationMap(ops), path, verb), verb + "_")
  {
    OperationNameShape(path, verb);
  }

  // ----- Class definitions -----

  /** Line 212: the path with every occurrence of `base_path` deleted. */
  function RelativeUrl(spec: ParsedSpec, path: string): string
  {
    PyReplace(path, spec.basePath, "")
  }

  function PathClass(spec: ParsedSpec, path: string): string
  {
    ClassName(RelativeUrl(spec, path))
  }

  /** A dict filled by a loop over `entries`: each computed value is
      stored under its key, a later one replacing an earlier one, and the
      reports the values carry are gathered in order. The first failure
      ends the loop. */
  function Collect<V>(entries: seq<(string, Result<(V, seq<Report>)>)>): (r: Result<(map<string, V>, seq<Report>)>)
    ensures r.Ok? ==> forall i :: 0 <= i < |entries| ==> entries[i].1.Ok? && entries[i].0 in r.value.0
    ensures r.Ok? ==> forall k :: k in r.value.0 ==>
              exists i :: 0 <= i < |entries| && entries[i].0 == k && entries[i].1.Ok? && r.value.0[k] == entries[i].1.value.0
    ensures r.Err? ==>
              exists i :: 0 <= i < |entries| && entries[i].1 == Err(r.error) && forall j :: 0 <= j < i ==> entries[j].1.Ok?
  {
    if |entries| == 0 then Ok((map[], []))
    else
      var init := entries[..|entries| - 1];
      assert forall i :: 0 <= i < |init| ==> init[i] == entries[i];
      var (m, reports) :- Collect(init);
      var (value, more) :- entries[|entries| - 1].1;
      Ok((m[entries[|entries| - 1].0 := value], reports + more))
  }

  /** Once the loop has failed, the later entries change nothing. */
  lemma {:induction false} CollectNoRecovery<V>(entries: seq<(string, Result<(V, seq<Report>)>)>, i: nat)
    requires i <= |entries|
    requires Collect(entries[..i]).Err?
    ensures Collect(entries) == Collect(entries[..i])
    decreases |entries| - i
  {
    if i < |entries| {
      assert entries[..i + 1][..i] == entries[..i];
      CollectNoRecovery(entries, i + 1);
    } else {
      assert entries[..i] == entries;
    }
  }

  /** One more successful turn of the loop. */
  lemma {:induction false} CollectStored<V>(entries: seq<(string, Result<(V, seq<Report>)>)>, i: nat,
                         m: map<string, V>, reports: seq<Report>, value: V, more: seq<Report>)
    requires i < |entries|
    requires Collect(entries[..i]) == Ok((m, reports))
    requires entries[i].1 == Ok((value, more))
    ensures Collect(entries[..i + 1]) == Ok((m[entries[i].0 := value], reports + more))
  {
    assert entries[..i + 1][..i] == entries[..i];
  }

  /** A key stored twice holds the second value. */
  lemma {:induction false} UpdateTwice<K, V>(m: map<K, V>, k: K, a: V, b: V)
    ensures m[k := a][k := b] == m[k := b]
  {
  }

  /** Reports gathered in two steps are the same as gathered in one. */
  lemma {:induction false} AppendAssociates<T>(a: seq<T>, b: seq<T>, c: seq<T>)
    ensures (a + b) + c == a + (b + c)
  {
  }

  /** A failing entry after successful ones is the failure of the loop. */
  lemma {:induction false} CollectFailsAt<V>(entries: seq<(string, Result<(V, seq<Report>)>)>, i: nat, e: Error)
    requires i < |entries|
    requires Collect(entries[..i]).Ok?
    requires entries[i].1 == Err(e)
    ensures Collect(entries) == Err(e)
  {
    assert entries[..i + 1][..i] == entries[..i];
    CollectNoRecovery(entries, i + 1);
  }

  /** The keys of the dict are the keys of the entries. */
  lemma {:induction false} CollectKeys<V>(entries: seq<(string, Result<(V, seq<Report>)>)>)
    requires Collect(entries).Ok?
    ensures Collect(entries).value.0.Keys == set i | 0 <= i < |entries| :: entries[i].0
  {
    var m := Collect(entries).value.0;
    var keys := set i | 0 <= i < |entries| :: entries[i].0;
    forall k | k in m
      ensures k in keys
    {
      var i :| 0 <= i < |entries| && entries[i].0 == k && entries[i].1.Ok? && m[k] == entries[i].1.value.0;
    }
    forall k | k in keys
      ensures k in m
    {
      var i :| 0 <= i < |entries| && entries[i].0 == k;
    }
  }

  /** The reports of successful entries, in entry order. */
  function ReportsOf<V>(entries: seq<(string, Result<(V, seq<Report>)>)>): seq<Report>
    requires forall i :: 0 <= i < |entries| ==> entries[i].1.Ok?
  {
    if |entries| == 0 then []
    else
      var init := entries[..|entries| - 1];
      assert forall i :: 0 <= i < |init| ==> init[i] == entries[i];
      ReportsOf(init) + entries[|entries| - 1].1.value.1
  }

  /** The reports the loop gathers are every entry's reports, in order. */
  lemma {:induction false} CollectReports<V>(entries: seq<(string, Result<(V, seq<Report>)>)>)
    requires Collect(entries).Ok?
    ensures Collect(entries).value.1 == ReportsOf(entries)
  {
    if |entries| > 0 {
      var init := entries[..|entries| - 1];
      assert forall i :: 0 <= i < |init| ==> init[i] == entries[i];
      CollectReports(init);
    }
  }

  /** A key holds the value of its last entry. */
  lemma {:induction false} CollectLastWins<V>(entries: seq<(string, Result<(V, seq<Report>)>)>, i: nat)
    requires Collect(entries).Ok?
    requires i < |entries|
    requires forall k :: i < k < |entries| ==> entries[k].0 != entries[i].0
    ensures entries[i].1.Ok? && Collect(entries).value.0[entries[i].0] == entries[i].1.value.0
  {
    if i < |entries| - 1 {
      var init := entries[..|entries| - 1];
      assert forall k :: i <= k < |init| ==> init[k] == entries[k];
      CollectLastWins(init, i);
    }
  }

  /** The payload of one verb of `path`. */
  function VerbPayload(spec: ParsedSpec, opMap: map<(string, string), string>, fuel: nat, path: string,
                       verb: string, io: Operation): Result<(Payload, seq<Report>)>
  {
    BuildPayload(spec.specification, fuel, ChosenOperation(opMap, path, verb), RelativeUrl(spec, path),
                 verb, io.parameters, io.responses)
  }

  /** The entries of the inner loop: each verb with its payload. */
  function VerbEntries(spec: ParsedSpec, opMap: map<(string, string), string>, fuel: nat, path: string,
                       verbs: seq<(string, Operation)>): (r: seq<(string, Result<(Payload, seq<Report>)>)>)
    ensures |r| == |verbs|
  {
    seq(|verbs|, j requires 0 <= j < |verbs| => (verbs[j].0, VerbPayload(spec, opMap, fuel, path, verbs[j].0, verbs[j].1)))
  }

  /** The `j`-th entry of the inner loop is the `j`-th verb's payload. */
  lemma {:induction false} VerbEntryAt(spec: ParsedSpec, opMap: map<(string, string), string>, fuel: nat, path: string,
                                       verbs: seq<(string, Operation)>, j: nat)
    requires j < |verbs|
    ensures VerbEntries(spec, opMap, fuel, path, verbs)[j] == (verbs[j].0, VerbPayload(spec, opMap, fuel, path, verbs[j].0, verbs[j].1))
  { }

  /** The inner loop: every verb's payload under the verb, and the reports
      of unsupported parameters in order. */
  function VerbPayloads(spec: ParsedSpec, opMap: map<(string, string), string>, fuel: nat, path: string,
                        verbs: seq<(string, Operation)>): Result<(map<string, Payload>, seq<Report>)>
  {
    Collect(VerbEntries(spec, opMap, fuel, path, verbs))
  }

  /** The entries of the outer loop: each path's class name with the
      path's verbs. */
  function PathEntries(spec: ParsedSpec, opMap: map<(string, string), string>, fuel: nat)
    : (r: seq<(string, Result<(map<string, Payload>, seq<Report>)>)>)
    ensures |r| == |spec.paths|
  {
    seq(|spec.paths|, i requires 0 <= i < |spec.paths| =>
          (PathClass(spec, spec.paths[i].0), VerbPayloads(spec, opMap, fuel, spec.paths[i].0, spec.paths[i].1)))
  }

  /** `_make_class_definitions`: each path's class is reset, then filled
      with the path's verbs. */
  function ClassDefinitions(spec: ParsedSpec, opMap: map<(string, string), string>, fuel: nat)
    : Result<(map<string, map<string, Payload>>, seq<Report>)>
  {
    Collect(PathEntries(spec, opMap, fuel))
  }

  /** Every class is the class name of one of the paths. */
  lemma {:induction false} ClassesAreNamed(spec: ParsedSpec, opMap: map<(string, string), string>, fuel: nat)
    requires ClassDefinitions(spec, opMap, fuel).Ok?
    ensures forall c :: c in ClassDefinitions(spec, opMap, fuel).value.0 ==>
              exists k :: 0 <= k < |spec.paths| && c == PathClass(spec, spec.paths[k].0)
  {
    var classes := ClassDefinitions(spec, opMap, fuel).value.0;
    var entries := PathEntries(spec, opMap, fuel);
    forall c | c in classes
      ensures exists k :: 0 <= k < |spec.paths| && c == PathClass(spec, spec.paths[k].0)
    {
      var k :| 0 <= k < |entries| && entries[k].0 == c && entries[k].1.Ok? && classes[c] == entries[k].1.value.0;
      assert c == PathClass(spec, spec.paths[k].0);
    }
  }

  /** Every path's class name is a class. */
  lemma {:induction false} NamesAreClasses(spec: ParsedSpec, opMap: map<(string, string), string>, fuel: nat)
    requires ClassDefinitions(spec, opMap, fuel).Ok?
    ensures forall k :: 0 <= k < |spec.paths| ==> PathClass(spec, spec.paths[k].0) in ClassDefinitions(spec, opMap, fuel).value.0
  {
    var entries := PathEntries(spec, opMap, fuel);
    forall k | 0 <= k < |spec.paths|
      ensures PathClass(spec, spec.paths[k].0) in ClassDefinitions(spec, opMap, fuel).value.0
    {
      assert entries[k].0 == PathClass(spec, spec.paths[k].0);
    }
  }

  /** Each class holds the payloads of the last path with that class name,
      keyed by that path's verbs. */
  lemma {:induction false} ClassOfPath(spec: ParsedSpec, opMap: map<(string, string), string>, fuel: nat, i: nat)
    requires ClassDefinitions(spec, opMap, fuel).Ok?
    requires i < |spec.paths|
    requires forall k :: i < k < |spec.paths| ==> PathClass(spec, spec.paths[k].0) != PathClass(spec, spec.paths[i].0)
    ensures VerbPayloads(spec, opMap, fuel, spec.paths[i].0, spec.paths[i].1).Ok?
    ensures PathClass(spec, spec.paths[i].0) in ClassDefinitions(spec, opMap, fuel).value.0
    ensures ClassDefinitions(spec, opMap, fuel).value.0[PathClass(spec, spec.paths[i].0)] ==
            VerbPayloads(spec, opMap, fuel, spec.paths[i].0, spec.paths[i].1).value.0
  {
    CollectLastWins(PathEntries(spec, opMap, fuel), i);
  }

  /** The verbs of a path's class are the path's verbs. */
  lemma {:induction false} VerbsOfPath(spec: ParsedSpec, opMap: map<(string, string), string>, fuel: nat, path: string,
                    verbs: seq<(string, Operation)>)
    requires VerbPayloads(spec, opMap, fuel, path, verbs).Ok?
    ensures VerbPayloads(spec, opMap, fuel, path, verbs).value.0.Keys == set j | 0 <= j < |verbs| :: verbs[j].0
  {
    var inner := VerbEntries(spec, opMap, fuel, path, verbs);
    CollectKeys(inner);
    assert forall j :: 0 <= j < |inner| ==> inner[j].0 == verbs[j].0;
  }

  /** A verb's payload is the one built from its last entry under the path. */
  lemma {:induction false} PayloadOfVerb(spec: ParsedSpec, opMap: map<(string, string), string>, fuel: nat, path: string,
                      verbs: seq<(string, Operation)>, j: nat)
    requires VerbPayloads(spec, opMap, fuel, path, verbs).Ok?
    requires j < |verbs|
    requires forall k :: j < k < |verbs| ==> verbs[k].0 != verbs[j].0
    ensures VerbPayload(spec, opMap, fuel, path, verbs[j].0, verbs[j].1).Ok?
    ensures verbs[j].0 in VerbPayloads(spec, opMap, fuel, path, verbs).value.0
    ensures VerbPayloads(spec, opMap, fuel, path, verbs).value.0[verbs[j].0] ==
            VerbPayload(spec, opMap, fuel, path, verbs[j].0, verbs[j].1).value.0
  {
    CollectLastWins(VerbEntries(spec, opMap, fuel, path, verbs), j);
  }

  /** With a top-level `security` entry every payload is secure. */
  lemma {:induction false} SecureEverywhere(spec: ParsedSpec, opMap: map<(string, string), string>, fuel: nat)
    requires HasKey(spec.specification, "security")
    requires ClassDefinitions(spec, opMap, fuel).Ok?
    ensures var classes := ClassDefinitions(spec, opMap, fuel).value.0;
            forall c, v :: c in classes && v in classes[c] ==> classes[c][v].secure
  {
    var classes: map<string, map<string, Payload>> := ClassDefinitions(spec, opMap, fuel).value.0;
    var entries := PathEntries(spec, opMap, fuel);
    forall c: string | c in classes
      ensures forall v :: v in classes[c] ==> classes[c][v].secure
    {
      var i :| 0 <= i < |entries| && entries[i].0 == c && entries[i].1.Ok? && classes[c] == entries[i].1.value.0;
      ClassSecure(spec, opMap, fuel, spec.paths[i].0, spec.paths[i].1);
    }
  }

  lemma {:induction false} ClassSecure(spec: ParsedSpec, opMap: map<(string, string), string>, fuel: nat, path: string,
                      verbs: seq<(string, Operation)>)
    requires HasKey(spec.specification, "security")
    requires VerbPayloads(spec, opMap, fuel, path, verbs).Ok?
    ensures var payloads := VerbPayloads(spec, opMap, fuel, path, verbs).value.0;
            forall v :: v in payloads ==> payloads[v].secure
  {
    var payloads := VerbPayloads(spec, opMap, fuel, path, verbs).value.0;
    var inner := VerbEntries(spec, opMap, fuel, path, verbs);
    forall v | v in payloads
      ensures payloads[v].secure
    {
      var j :| 0 <= j < |inner| && inner[j].0 == v && inner[j].1.Ok? && payloads[v] == inner[j].1.value.0;
      PayloadSecure(spec, opMap, fuel, path, verbs[j].0, verbs[j].1);
    }
  }

  lemma {:induction false} PayloadSecure(spec: ParsedSpec, opMap: map<(string, string), string>, fuel: nat, path: string,
                      verb: string, io: Operation)
    requires HasKey(spec.specification, "security")
    requires VerbPayload(spec, opMap, fuel, path, verb, io).Ok?
    ensures VerbPayload(spec, opMap, fuel, path, verb, io).value.0.secure
  {
    BuildPayloadMeaning(spec.specification, fuel, ChosenOperation(opMap, path, verb), RelativeUrl(spec, path),
                        verb, io.parameters, io.responses);
  }

  // ----- Schemas -----

  /** A dict filled by a loop that stores each computed value under its
      key, a later one replacing an earlier one; the first failure ends the
      loop. */
  function Gather<V>(entries: seq<(string, Result<V>)>): (r: Result<map<string, V>>)
    ensures r.Ok? ==> forall i :: 0 <= i < |entries| ==> entries[i].1.Ok? && entries[i].0 in r.value
    ensures r.Ok? ==> forall k :: k in r.value ==>
              exists i :: 0 <= i < |entries| && entries[i].0 == k && entries[i].1.Ok? && r.value[k] == entries[i].1.value
    ensures r.Err? ==>
              exists i :: 0 <= i < |entries| && entries[i].1 == Err(r.error) && forall j :: 0 <= j < i ==> entries[j].1.Ok?
  {
    if |entries| == 0 then Ok(map[])
    else
      var init := entries[..|entries| - 1];
      assert forall i :: 0 <= i < |init| ==> init[i] == entries[i];
      var m :- Gather(init);
      var value :- entries[|entries| - 1].1;
      Ok(m[entries[|entries| - 1].0 := value])
  }

  lemma {:induction false} GatherNoRecovery<V>(entries: seq<(string, Result<V>)>, i: nat)
    requires i <= |entries|
    requires Gather(entries[..i]).Err?
    ensures Gather(entries) == Gather(entries[..i])
    decreases |entries| - i
  {
    if i < |entries| {
      assert entries[..i + 1][..i] == entries[..i];
      GatherNoRecovery(entries, i + 1);
    } else {
      assert entries[..i] == entries;
    }
  }

  lemma {:induction false} GatherStored<V>(entries: seq<(string, Result<V>)>, i: nat, m: map<string, V>, value: V)
    requires i < |entries|
    requires Gather(entries[..i]) == Ok(m)
    requires entries[i].1 == Ok(value)
    ensures Gather(entries[..i + 1]) == Ok(m[entries[i].0 := value])
  {
    assert entries[..i + 1][..i] == entries[..i];
  }

  lemma {:induction false} GatherFailsAt<V>(entries: seq<(string, Result<V>)>, i: nat, e: Error)
    requires i < |entries|
    requires Gather(entries[..i]).Ok?
    requires entries[i].1 == Err(e)
    ensures Gather(entries) == Err(e)
  {
    assert entries[..i + 1][..i] == entries[..i];
    GatherNoRecovery(entries, i + 1);
  }

  lemma {:induction false} GatherKeys<V>(entries: seq<(string, Result<V>)>)
    requires Gather(entries).Ok?
    ensures Gather(entries).value.Keys == set i | 0 <= i < |entries| :: entries[i].0
  {
    var m := Gather(entries).value;
    var keys := set i | 0 <= i < |entries| :: entries[i].0;
    forall k | k in m
      ensures k in keys
    {
      var i :| 0 <= i < |entries| && entries[i].0 == k && entries[i].1.Ok? && m[k] == entries[i].1.value;
    }
    forall k | k in keys
      ensures k in m
    {
      var i :| 0 <= i < |entries| && entries[i].0 == k;
    }
  }

  lemma {:induction false} GatherLastWins<V>(entries: seq<(string, Result<V>)>, i: nat)
    requires Gather(entries).Ok?
    requires i < |entries|
    requires forall k :: i < k < |entries| ==> entries[k].0 != entries[i].0
    ensures entries[i].1.Ok? && Gather(entries).value[entries[i].0] == entries[i].1.value
  {
    if i < |entries| - 1 {
      var init := entries[..|entries| - 1];
      assert forall k :: i <= k < |init| ==> init[k] == entries[k];
      GatherLastWins(init, i);
    }
  }

  /** One definition of `generate_schemas`: a copy resolved in place; a
      value that is not a dict cannot be resolved. */
  function ResolveDefinition(doc: Fields, fuel: nat, name: string, definition: Json): (r: Result<Fields>)
    ensures !definition.JObj? ==> r == Err(WrongType(name))
    ensures definition.JObj? ==> r == ResolveObject(doc, definition.fields, fuel)
  {
    if definition.JObj? then ResolveObject(doc, definition.fields, fuel) else Err(WrongType(name))
  }

  function SchemaEntries(doc: Fields, fuel: nat, defs: Fields): (r: seq<(string, Result<Fields>)>)
    ensures |r| == |defs|
  {
    seq(|defs|, i requires 0 <= i < |defs| => (defs[i].0, ResolveDefinition(doc, fuel, defs[i].0, defs[i].1)))
  }

  /** The loop of `generate_schemas`: every definition resolved, under its
      name. */
  function Schemas(doc: Fields, fuel: nat, defs: Fields): Result<map<string, Fields>>
  {
    Gather(SchemaEntries(doc, fuel, defs))
  }

  /** `specification.get("definitions", {})` walked by `Schemas`. */
  function SchemaMap(doc: Fields, fuel: nat): Result<map<string, Fields>>
  {
    match Get(doc, "definitions")
    case None => Ok(map[])
    case Some(JObj(defs)) => Schemas(doc, fuel, defs)
    case Some(_) => Err(WrongType("definitions"))
  }

  /** Every definition has a schema, under the definition's name. */
  lemma {:induction false} SchemasKeys(doc: Fields, fuel: nat, defs: Fields)
    requires Schemas(doc, fuel, defs).Ok?
    ensures Schemas(doc, fuel, defs).value.Keys == set i | 0 <= i < |defs| :: defs[i].0
  {
    var entries := SchemaEntries(doc, fuel, defs);
    GatherKeys(entries);
    assert forall i :: 0 <= i < |entries| ==> entries[i].0 == defs[i].0;
  }

  /** A schema is its definition with the references resolved. */
  lemma {:induction false} SchemaIsResolvedDefinition(doc: Fields, fuel: nat, defs: Fields, i: nat)
    requires Schemas(doc, fuel, defs).Ok?
    requires i < |defs|
    requires forall k :: i < k < |defs| ==> defs[k].0 != defs[i].0
    ensures defs[i].1.JObj? && defs[i].0 in Schemas(doc, fuel, defs).value
    ensures ResolveObject(doc, defs[i].1.fields, fuel) == Ok(Schemas(doc, fuel, defs).value[defs[i].0])
  {
    GatherLastWins(SchemaEntries(doc, fuel, defs), i);
  }

  /** When no definition starts with a `$ref` of its own, no schema keeps a
      `$ref` in any dict reachable through dict values. */
  lemma {:induction false} SchemasHaveNoRef(doc: Fields, fuel: nat, defs: Fields)
    requires NoChainedRefs(doc)
    requires Schemas(doc, fuel, defs).Ok?
    ensures forall n :: n in Schemas(doc, fuel, defs).value ==> RefFree(Schemas(doc, fuel, defs).value[n])
  {
    var m := Schemas(doc, fuel, defs).value;
    var entries := SchemaEntries(doc, fuel, defs);
    forall n | n in m
      ensures RefFree(m[n])
    {
      var i :| 0 <= i < |entries| && entries[i].0 == n && entries[i].1.Ok? && m[n] == entries[i].1.value;
      ResolveLeavesNoRef(doc, defs[i].1.fields, fuel);
    }
  }

  lemma {:induction false} SchemaMapHasNoRef(doc: Fields, fuel: nat)
    requires NoChainedRefs(doc)
    requires SchemaMap(doc, fuel).Ok?
    ensures forall n :: n in SchemaMap(doc, fuel).value ==> RefFree(SchemaMap(doc, fuel).value[n])
  {
    if Get(doc, "definitions").Some? {
      SchemasHaveNoRef(doc, fuel, Get(doc, "definitions").value.fields);
    }
  }

  // ----- URL entries -----

  /** Line 326: the path with every occurrence of `base_path + "/"`
      deleted, which is not what line 212 deletes. */
  function UrlPath(basePath: string, path: string): string
  {
    PyReplace(path, basePath + "/", "")
  }

  /** The pairs of the `entries` comprehension: each path's URL pattern
      with the class name of the same relative URL. */
  function UrlPairs(basePath: string, paths: seq<string>, backend: string): (pairs: seq<(string, string)>)
    ensures |pairs| == |paths|
    ensures forall i :: 0 <= i < |paths| ==>
              pairs[i] == (FixupParameters(UrlPath(basePath, paths[i]), backend), ClassName(UrlPath(basePath, paths[i])))
  {
    seq(|paths|, i requires 0 <= i < |paths| =>
          (FixupParameters(UrlPath(basePath, paths[i]), backend), ClassName(UrlPath(basePath, paths[i]))))
  }

  /** The `entries` of `generate_urls`: each path's URL pattern mapped to
      the class name of the same relative URL; a later path with the same
      pattern replaces an earlier one. */
  function UrlEntries(basePath: string, paths: seq<string>, backend: string): (m: map<string, string>)
    ensures forall i :: 0 <= i < |paths| ==> FixupParameters(UrlPath(basePath, paths[i]), backend) in m
    ensures forall k :: k in m ==>
              exists i :: 0 <= i < |paths| && k == FixupParameters(UrlPath(basePath, paths[i]), backend) &&
                          m[k] == ClassName(UrlPath(basePath, paths[i]))
  {
    DictOf(UrlPairs(basePath, paths, backend))
  }

  /** The paths of the parser's `paths` table, in order. */
  function PathNames(spec: ParsedSpec): (names: seq<string>)
    ensures |names| == |spec.paths| && forall i :: 0 <= i < |names| ==> names[i] == spec.paths[i].0
  {
    seq(|spec.paths|, i requires 0 <= i < |spec.paths| => spec.paths[i].0)
  }

  /** A pattern names the class of the last path that produced it. */
  lemma {:induction false} UrlEntryLastWins(basePath: string, paths: seq<string>, backend: string, i: nat)
    requires i < |paths|
    requires forall k :: i < k < |paths| ==>
               FixupParameters(UrlPath(basePath, paths[k]), backend) != FixupParameters(UrlPath(basePath, paths[i]), backend)
    ensures UrlEntries(basePath, paths, backend)[FixupParameters(UrlPath(basePath, paths[i]), backend)] ==
            ClassName(UrlPath(basePath, paths[i]))
  {
    DictOfLastWins(UrlPairs(basePath, paths, backend), i);
  }

  /** For Django every pattern is free of braces and names a class that is
      never empty and free of `{`, `}`, `_` and `/`. */
  lemma {:induction false} DjangoEntries(basePath: string, paths: seq<string>)
    ensures forall k :: k in UrlEntries(basePath, paths, Django) ==>
              '{' !in k && '}' !in k && UrlEntries(basePath, paths, Django)[k] != ""
  {
    var m := UrlEntries(basePath, paths, Django);
    forall k | k in m
      ensures '{' !in k && '}' !in k && m[k] != ""
    {
      var i :| 0 <= i < |paths| && k == FixupParameters(UrlPath(basePath, paths[i]), Django) &&
               m[k] == ClassName(UrlPath(basePath, paths[i]));
      FixupParametersMeaning(UrlPath(basePath, paths[i]), Django);
      ClassNameShape(UrlPath(basePath, paths[i]));
    }
  }

  /** The specification of the worked example below: base path "/" and
      one path "/a/b" without operations. */
  const RootBased: ParsedSpec := ParsedSpec("/", [("/a/b", [])], [], [])

  /** Line 212 deletes every "/" of "/a/b": its class is "Ab". */
  lemma {:induction false} RootBasedClasses()
    ensures ClassDefinitions(RootBased, map[], 0) == Ok((map["Ab" := map[]], []))
  {
    var spec := RootBased;
    ReplaceAllOneChar("/a/b", '/', "");
    assert RelativeUrl(spec, "/a/b") == "ab";
    ClassOfWord();
    var inner := VerbEntries(spec, map[], 0, "/a/b", []);
    assert inner == [];
    var entries := PathEntries(spec, map[], 0);
    assert entries[0] == ("Ab", Ok((map[], [])));
    assert entries[..0] == [] && entries[..1] == entries;
    var none: map<string, Payload> := map[];
    var empty: map<string, map<string, Payload>> := map[];
    CollectStored(entries, 0, empty, [], none, []);
    assert empty["Ab" := none] == map["Ab" := none];
    var noReports: seq<Report> := [];
    assert noReports + noReports == noReports;
    assert Collect(entries[..1]) == Ok((map["Ab" := none], noReports));
    assert Collect(entries) == Ok((map["Ab" := none], noReports));
    assert ClassDefinitions(spec, map[], 0) == Collect(entries);
  }

  /** Line 326 deletes "//", which "/a/b" does not hold: its route names
      the class "AB". */
  lemma {:induction false} RootBasedRoutes(backend: string)
    ensures UrlEntries(RootBased.basePath, PathNames(RootBased), backend) == map["/a/b" := "AB"]
  {
    var spec := RootBased;
    ReplaceAbsentDoubleSlash();
    assert "/" + "/" == "//";
    assert UrlPath("/", "/a/b") == "/a/b";
    ClassOfTwoWords();
    FixupOfPlainUrl("/a/b", backend);
    var names := PathNames(spec);
    assert |names| == 1 && names[0] == "/a/b";
    var pairs := UrlPairs(spec.basePath, names, backend);
    assert pairs[0] == ("/a/b", "AB");
    assert |pairs| == 1 && pairs[..0] == [];
    var empty: map<string, string> := map[];
    assert DictOf(pairs) == empty["/a/b" := "AB"];
  }

  /** Line 326 deletes `base_path + "/"` where line 212 deletes
      `base_path`. With the base path "/" the class made for "/a/b" is
      "Ab", and the route of "/a/b" names "AB", a class the views module
      does not define. */
  lemma {:induction false} RouteToUndefinedClass(backend: string)
    ensures ClassDefinitions(RootBased, map[], 0).Ok?
    ensures "/a/b" in UrlEntries(RootBased.basePath, PathNames(RootBased), backend)
    ensures UrlEntries(RootBased.basePath, PathNames(RootBased), backend)["/a/b"]
              !in ClassDefinitions(RootBased, map[], 0).value.0
  {
    RootBasedClasses();
    RootBasedRoutes(backend);
  }

  /** The pairs of the `entries` comprehension as evidently intended: each
      path's URL pattern with the class line 212 names for the path. */
  function RoutedUrlPairs(spec: ParsedSpec, backend: string): (pairs: seq<(string, string)>)
    ensures |pairs| == |spec.paths|
    ensures forall i :: 0 <= i < |spec.paths| ==>
              pairs[i] == (FixupParameters(UrlPath(spec.basePath, spec.paths[i].0), backend), PathClass(spec, spec.paths[i].0))
  {
    seq(|spec.paths|, i requires 0 <= i < |spec.paths| =>
          (FixupParameters(UrlPath(spec.basePath, spec.paths[i].0), backend), PathClass(spec, spec.paths[i].0)))
  }

  /** The `entries` of `generate_urls` as evidently intended: each path's
      URL pattern mapped to the class made for that path. */
  function RoutedUrlEntries(spec: ParsedSpec, backend: string): (m: map<string, string>)
    ensures forall i :: 0 <= i < |spec.paths| ==> FixupParameters(UrlPath(spec.basePath, spec.paths[i].0), backend) in m
    ensures forall k :: k in m ==>
              exists i :: 0 <= i < |spec.paths| && k == FixupParameters(UrlPath(spec.basePath, spec.paths[i].0), backend) &&
                          m[k] == PathClass(spec, spec.paths[i].0)
  {
    DictOf(RoutedUrlPairs(spec, backend))
  }

  /** Every route names a class of the class table. */
  lemma {:induction false} RoutesNameDefinedClasses(spec: ParsedSpec, opMap: map<(string, string), string>, fuel: nat, backend: string)
    requires ClassDefinitions(spec, opMap, fuel).Ok?
    ensures forall k :: k in RoutedUrlEntries(spec, backend) ==>
              RoutedUrlEntries(spec, backend)[k] in ClassDefinitions(spec, opMap, fuel).value.0
  {
    NamesAreClasses(spec, opMap, fuel);
    var m := RoutedUrlEntries(spec, backend);
    forall k | k in m
      ensures m[k] in ClassDefinitions(spec, opMap, fuel).value.0
    {
      var i :| 0 <= i < |spec.paths| && k == FixupParameters(UrlPath(spec.basePath, spec.paths[i].0), backend) &&
               m[k] == PathClass(spec, spec.paths[i].0);
    }
  }

  // ----- The generator object -----

  /** `Generator`: the backend, the parsed specification once loaded, the
      operation table and the class table. */
  class Generator {
    /** The backend the generated code is for. */
    const backend: string
    /** Python's recursion limit, as the number of nested dicts reference
        resolution may enter. */
    const depthLimit: nat
    /** `parser`: nothing until a specification is loaded. */
    var parser: Option<ParsedSpec>
    /** `PATH_VERB_OPERATION_MAP`. */
    var operationMap: map<(string, string), string>
    /** `_classes`: class name → verb → payload. */
    var classes: map<string, map<string, Payload>>
    /** The messages about unsupported parameters, in the order they are
        printed. */
    var reports: seq<Report>

    constructor(backend: string, depthLimit: nat)
      ensures this.backend == backend && this.depthLimit == depthLimit
      ensures parser == None && operationMap == map[] && classes == map[] && reports == []
    {
      this.backend := backend;
      this.depthLimit := depthLimit;
      parser := None;
      operationMap := map[];
      classes := map[];
      reports := [];
    }

    /** `load_specification`: the format is settled first, and a format
        that cannot be inferred changes nothing; then `parsed`, what the
        parser read from the file, is stored, the operation table is built
        from it and the class table is made. */
    method LoadSpecification(specificationPath: string, specFormat: Option<string>, parsed: ParsedSpec)
      returns (r: Result<string>)
      modifies this
      ensures InferFormat(specificationPath, specFormat).Err? ==>
                r == InferFormat(specificationPath, specFormat) && unchanged(this)
      ensures InferFormat(specificationPath, specFormat).Ok? ==>
                && parser == Some(parsed)
                && operationMap == OperationMap(parsed.operations)
                && var d := ClassDefinitions(parsed, operationMap, depthLimit);
                   && (d.Err? ==> r == Err(d.error))
                   && (d.Ok? ==> r == InferFormat(specificationPath, specFormat) && classes == d.value.0 && reports == d.value.1)
    {
      var format := InferFormat(specificationPath, specFormat);
      if format.Err? {
        return Err(format.error);
      }
      parser := Some(parsed);
      operationMap := OperationMap(parsed.operations);
      var made := MakeClassDefinitions();
      if made.Err? {
        return Err(made.error);
      }
      return format;
    }

    /** The body of the inner loop of `_make_class_definitions` for one
        verb: the empty payload, then the parameters, the responses and the
        security flag. */
    method MakePayload(spec: ParsedSpec, path: string, relativeUrl: string, verb: string, io: Operation)
      returns (r: Result<(Payload, seq<Report>)>)
      requires relativeUrl == RelativeUrl(spec, path)
      ensures r == VerbPayload(spec, operationMap, depthLimit, path, verb, io)
    {
      var operation := ChosenOperation(operationMap, path, verb);
      var args := AddArguments(spec.specification, depthLimit, EmptyPayload(operation), io.parameters);
      if args.Err? {
        return Err(args.error);
      }
      var responded := AddResponses(spec.specification, depthLimit, args.value.0, io.responses);
      if responded.Err? {
        return Err(responded.error);
      }
      var secure := Secure(spec.specification, relativeUrl, verb);
      if secure.Err? {
        return Err(secure.error);
      }
      return Ok((responded.value.(secure := secure.value), args.value.1));
    }

    /** `_make_class_definitions`: the class table is emptied, then every
        path's class is made in turn. On failure the error is returned;
        what the table then holds is not stated. */
    method MakeClassDefinitions() returns (r: Result<()>)
      requires parser.Some?
      modifies this
      ensures parser == old(parser) && operationMap == old(operationMap)
      ensures var d := ClassDefinitions(parser.value, operationMap, depthLimit);
              && (d.Err? ==> r == Err(d.error))
              && (d.Ok? ==> r.Ok? && classes == d.value.0 && reports == d.value.1)
    {
      var spec := parser.value;
      ghost var entries := PathEntries(spec, operationMap, depthLimit);
      classes := map[];
      reports := [];
      var i := 0;
      while i < |spec.paths|
        invariant 0 <= i <= |spec.paths|
        invariant parser == old(parser) && operationMap == old(operationMap)
        invariant Collect(entries[..i]) == Ok((classes, reports))
      {
        ghost var classesBefore, reportsBefore := classes, reports;
        var made := MakeClass(spec, spec.paths[i].0, spec.paths[i].1);
        if made.Err? {
          CollectFailsAt(entries, i, made.error);
          return Err(made.error);
        }
        CollectStored(entries, i, classesBefore, reportsBefore, classes[PathClass(spec, spec.paths[i].0)],
                      reports[|reportsBefore|..]);
        i := i + 1;
      }
      assert entries[..i] == entries;
      return Ok(());
    }

    /** One turn of the outer loop of `_make_class_definitions`: the path's
        class is reset, then every verb's payload is stored in it. */
    method MakeClass(spec: ParsedSpec, path: string, verbs: seq<(string, Operation)>) returns (r: Result<()>)
      modifies this
      ensures parser == old(parser) && operationMap == old(operationMap)
      ensures var d := VerbPayloads(spec, operationMap, depthLimit, path, verbs);
              && (d.Err? ==> r == Err(d.error))
              && (d.Ok? ==> r.Ok? && classes == old(classes)[PathClass(spec, path) := d.value.0]
                                  && reports == old(reports) + d.value.1)
    {
      var relativeUrl := PyReplace(path, spec.basePath, "");
      var className := ClassName(relativeUrl);
      assert className == PathClass(spec, path);
      ghost var entries := VerbEntries(spec, operationMap, depthLimit, path, verbs);
      classes := classes[className := map[]];
      var j := 0;
      while j < |verbs|
        invariant 0 <= j <= |verbs|
        invariant parser == old(parser) && operationMap == old(operationMap)
        invariant Collect(entries[..j]).Ok?
        invariant classes == old(classes)[className := Collect(entries[..j]).value.0]
        invariant reports == old(reports) + Collect(entries[..j]).value.1
      {
        VerbEntryAt(spec, operationMap, depthLimit, path, verbs, j);
        r := StoreVerb(spec, path, relativeUrl, className, verbs, j, entries, old(classes), old(reports));
        if r.Err? {
          return;
        }
        j := j + 1;
      }
      assert entries[..j] == entries;
      return Ok(());
    }

    /** One turn of the inner loop of `_make_class_definitions`: the
        payload of the `j`-th verb is built and stored in the path's class
        (`self._classes[class_name][verb] = payload`). The ghost parameters
        are the entries of the whole inner loop and the table and reports
        as they were before the class was reset. */
    method StoreVerb(spec: ParsedSpec, path: string, relativeUrl: string, className: string,
                     verbs: seq<(string, Operation)>, j: nat,
                     ghost entries: seq<(string, Result<(Payload, seq<Report>)>)>,
                     ghost base: map<string, map<string, Payload>>, ghost baseReports: seq<Report>)
      returns (r: Result<()>)
      requires relativeUrl == RelativeUrl(spec, path)
      requires j < |verbs| && j < |entries|
      requires entries[j] == (verbs[j].0, VerbPayload(spec, operationMap, depthLimit, path, verbs[j].0, verbs[j].1))
      requires Collect(entries[..j]).Ok?
      requires classes == base[className := Collect(entries[..j]).value.0]
      requires reports == baseReports + Collect(entries[..j]).value.1
      modifies this
      ensures parser == old(parser) && operationMap == old(operationMap)
      ensures r.Err? ==> Collect(entries) == Err(r.error)
      ensures r.Ok? ==> (Collect(entries[..j + 1]).Ok?
                     && classes == base[className := Collect(entries[..j + 1]).value.0]
                     && reports == baseReports + Collect(entries[..j + 1]).value.1)
    {
      var built := MakePayload(spec, path, relativeUrl, verbs[j].0, verbs[j].1);
      if built.Err? {
        CollectFailsAt(entries, j, built.error);
        return Err(built.error);
      }
      ghost var before := Collect(entries[..j]).value;
      CollectStored(entries, j, before.0, before.1, built.value.0, built.value.1);
      UpdateTwice(base, className, before.0, before.0[verbs[j].0 := built.value.0]);
      classes := classes[className := classes[className][verbs[j].0 := built.value.0]];
      AppendAssociates(baseReports, before.1, built.value.1);
      reports := reports + built.value.1;
      return Ok(());
    }

    /** The `schemas` of `generate_schemas`: every definition of the loaded
        specification resolved in turn. */
    method GenerateSchemas() returns (r: Result<map<string, Fields>>)
      requires parser.Some?
      ensures r == SchemaMap(parser.value.specification, depthLimit)
    {
      var doc := parser.value.specification;
      var defs: Fields;
      match Get(doc, "definitions") {
        case None =>
          defs := [];
        case Some(JObj(fs)) =>
          defs := fs;
        case Some(_) =>
          return Err(WrongType("definitions"));
      }
      ghost var entries := SchemaEntries(doc, depthLimit, defs);
      var schemas: map<string, Fields> := map[];
      var i := 0;
      while i < |defs|
        invariant 0 <= i <= |defs|
        invariant Gather(entries[..i]) == Ok(schemas)
      {
        var name, definition := defs[i].0, defs[i].1;
        if !definition.JObj? {
          GatherFailsAt(entries, i, WrongType(name));
          return Err(WrongType(name));
        }
        var schema := ResolveSchemaReferences(doc, definition.fields, depthLimit);
        if schema.Err? {
          GatherFailsAt(entries, i, schema.error);
          return Err(schema.error);
        }
        GatherStored(entries, i, schemas, schema.value);
        schemas := schemas[name := schema.value];
        i := i + 1;
      }
      assert entries[..i] == entries;
      return Ok(schemas);
    }

    /** The `entries` of `generate_urls`, as line 326 computes them: each
        path, with `base_path + "/"` deleted, gives its URL pattern and the
        class name of the same text. `RouteToUndefinedClass` shows that such
        a route can name a class `MakeClassDefinitions` did not make. */
    method GenerateUrls() returns (entries: map<string, string>)
      requires parser.Some?
      ensures entries == UrlEntries(parser.value.basePath, PathNames(parser.value), backend)
      ensures forall i :: 0 <= i < |parser.value.paths| ==>
                FixupParameters(UrlPath(parser.value.basePath, parser.value.paths[i].0), backend) in entries
      ensures forall k :: k in entries ==>
                exists i :: 0 <= i < |parser.value.paths| &&
                            k == FixupParameters(UrlPath(parser.value.basePath, parser.value.paths[i].0), backend) &&
                            entries[k] == ClassName(UrlPath(parser.value.basePath, parser.value.paths[i].0))
    {
      var spec := parser.value;
      var names := PathNames(spec);
      entries := UrlEntries(spec.basePath, names, backend);
      forall k | k in entries
        ensures exists i :: 0 <= i < |spec.paths| &&
                  k == FixupParameters(UrlPath(spec.basePath, spec.paths[i].0), backend) &&
                  entries[k] == ClassName(UrlPath(spec.basePath, spec.paths[i].0))
      {
        var i :| 0 <= i < |names| && k == FixupParameters(UrlPath(spec.basePath, names[i]), backend) &&
                 entries[k] == ClassName(UrlPath(spec.basePath, names[i]));
        assert names[i] == spec.paths[i].0;
      }
    }
  }
}
