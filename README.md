# django-generator: the Swagger-to-Django compiler core, in Dafny

django-generator reads a Swagger 2.0 specification and writes a Django
application: `urls.py`, `views.py`, `schemas.py` and stubs. Before any file
is rendered, `generator.py` compiles the specification into an
intermediate form. This project models that compiler core and proves
properties of it:

- the path canonicalisers: `path_to_class_name`, `path_to_operation` and
  `fixup_parameters`;
- the two template filters: `clean_schema` and `parse_array`;
- the `Generator` object:
  - `load_specification` infers the specification format from the file
    name and builds the `(path, verb) -> operationId` table;
  - `_make_class_definitions` builds one class per path, holding one
    payload per verb. A payload has the operation name, the argument
    lists, the body schema, the response schema and the `secure` flag;
  - `resolve_schema_references` expands `$ref` pointers;
  - `generate_schemas` builds the definition table;
  - `generate_urls` builds the URL-pattern-to-class table.

The modules are:

| module | file | models |
|---|---|---|
| `Results` | results.dfy | Python exceptions, as an `Err` value naming the failed lookup |
| `Strings` | strings.dfy | `split`, `join`, `replace`, `startswith`, `in`, ASCII case mapping |
| `Json` | json.dfy | a parsed JSON/YAML object: an ordered list of entries, where a later entry wins, like a dict built by parsing |
| `Canonical` | canonical.dfy | the three canonicalisers and their reference definitions |
| `Filters` | filters.dfy | `clean_schema`, `SEPARATORS`, `parse_array` |
| `Resolver` | resolver.dfy | `resolve_schema_references` |
| `Descriptor` | descriptor.dfy | the payload of one verb: parameters, responses and security |
| `GeneratorModel` | generator.dfy | format inference, the operation table, the class table, the schema table, the URL table, and the `Generator` class |

`Generator` is a class. Its `parser`, `operationMap`, `classes` and
`reports` fields are updated in place, as the Python object's attributes
are. Each of its methods is proved equal to a function of the parsed
specification, and the lemmas beside those functions state what the
tables mean:

- which keys they have;
- which entry wins when keys repeat;
- when they fail;
- that resolved schemas hold no `$ref`;
- that the URL table, as written, can route a path to a class that was
  never made (see "## Findings"), and that with the correction every route
  names a class.

## Model

| member | source | states |
|---|---|---|
| Json.Get | generator.py:313-315 | `dict.get`: a value is found exactly when the key occurs, and the value found is stored under that key |
| Json.Remove | generator.py:200 | `dict.pop`: the key is gone and every other key keeps its value |
| Json.Update | generator.py:203 | `dict.update`: a key of the argument takes the argument's value; every other key keeps its own |
| Canonical.ClassNameShape | generator.py:84-104 | the class name is never empty and holds no `/`, `_`, `{` or `}`; it is "Root" when the path has no word characters; otherwise it equals the path's word characters up to case, and its first letter is upper case |
| Canonical.ClassNameOfRoot | generator.py:84-104 | "/" and paths made only of separators, such as "/_/{}/", give "Root" |
| Canonical.BracesAndUnderscores | generator.py:93-98 | braces do not affect the class name, and `_` separates words exactly as `/` does |
| Canonical.ClassNameOfSlashes | generator.py:99-103 | a leading, a trailing or a doubled `/` does not change the class name, because empty words are skipped; with `BracesAndUnderscores` this brings every path to the form `ClassNameOfWords` covers |
| Canonical.ClassNameOfWords | generator.py:99-103 | a path "/w1/w2/.../" of non-empty words without separators gives the words, each with its first letter upper-cased, concatenated; no words gives "Root" |
| Canonical.ClassOfWord | generator.py:84-104 | "ab" gives "Ab" |
| Canonical.ClassOfTwoWords | generator.py:84-104 | "/a/b" gives "AB" |
| Canonical.OperationNameShape | generator.py:107-131 | the operation name is the verb, "_" and then either "root" (the path is exactly "/") or the path with braces deleted and `/` and `_` turned into `_` |
| Canonical.OperationNameOfParameter | generator.py:125-131 | "/w/{p}" with verb v gives "v__w_p": the empty part before the leading slash is kept |
| Canonical.OperationNameOfDocumentedShape | generator.py:116-131 | a path shaped like the documented example "/some/path/{id}/foo/{bar}/" gives "get__some_path_id_foo_bar_" for `get`, not the documented "get_some_path_id_foo_bar": the empty parts at both ends are kept |
| Canonical.FixupParametersMeaning | generator.py:134-147 | for the Django backend, every `{` becomes `(?P<` and every `}` becomes `>.+)`, and no brace is left; any other backend leaves the URL unchanged |
| Canonical.FixupOfPlaceholder | generator.py:144-145 | "a{n}b" becomes "a(?P<n>.+)b" for Django |
| Canonical.FixupOfPlainUrl | generator.py:143-147 | a URL without braces is unchanged for every backend |
| Filters.CleanSchema | generator.py:36-44 | a key keeps its value exactly when it is neither a Swagger field nor a vendor extension; every other key is absent; the result is no longer than the input |
| Filters.CleanSchemaIdempotent | generator.py:36-44 | cleaning twice is the same as cleaning once |
| Filters.VendorExtensionDropped | generator.py:44 | keys starting with "x-" or "X-" are dropped |
| Filters.Separator | generator.py:47-52 | each known collection format splits on exactly one character |
| Filters.SeparatorsDistinct | generator.py:47-52 | two formats share a separator only when they are the same format |
| Filters.ParseArray | generator.py:55-60 | a missing `name` fails first; the statement is written exactly when `name` is a string and `collectionFormat` is a table key; it splits the name on that format's separator |
| Filters.ParseArrayDefaultFails | generator.py:59 | without `collectionFormat`, the default "," is not a table key, so the filter fails with a missing-key error for "," |
| Resolver.Pointer | generator.py:201 | the pointer is split exactly when it contains `/`; the section and name hold no `/`, and the pointer ends with `section/name` |
| Resolver.LastTwoSegments | generator.py:201 | the section and name are the last two parts of the pointer's split |
| Resolver.Lookup | generator.py:202 | the lookup succeeds exactly when the document defines `section/name` as an object; a missing section or name fails with a missing-key error |
| Resolver.Expand | generator.py:199-203 | an object without `$ref` is left unchanged; a `$ref` that is not a string, or has no `/`, fails |
| Resolver.ExpandPrecedence | generator.py:199-203 | after expansion the target's keys win, `$ref` is gone unless the target has one, and sibling keys are kept |
| Resolver.ResolveValues | generator.py:205-207 | the keys and non-object values are kept in order; object values are resolved |
| Resolver.ResolveValue | generator.py:205-207 | resolving keeps a value an object exactly when it was one, and leaves non-objects unchanged |
| Resolver.ResolvedChild | generator.py:205-207 | each nested object is replaced by its own resolution |
| Resolver.ResolveSchemaReferences | generator.py:189-207 | the method computes the resolution function, expansion first and then the values |
| Resolver.ResolveEntries | generator.py:205-207 | the loop over the values computes the per-value resolution |
| Resolver.ResolveLeavesNoRef | generator.py:189-207 | when no definition is itself a `$ref`, a resolved schema holds no `$ref` in itself or in any object reached through object values; objects inside lists, such as `allOf` items, are not visited and keep theirs |
| Resolver.ResolveRefFreeIsIdentity | generator.py:189-207 | a schema without `$ref` in any object reached through object values, within the depth limit, resolves to itself |
| Resolver.ResolveMoreFuel | generator.py:189-207 | a resolution that does not hit the depth limit gives the same result with a higher limit |
| Resolver.ChainedRefKept | generator.py:199-203 | when the target is itself a `$ref`, the second `$ref` is left in the result unexpanded |
| Resolver.ResolveFailures | generator.py:199-202 | a non-string `$ref`, a pointer without `/`, and an undefined target each fail with their own error |
| Descriptor.EmptyPayload | generator.py:220-227 | a fresh payload has the operation, empty argument lists, no body, an unspecified response schema, and is not secure |
| Descriptor.SchemaChoice | generator.py:243-265 | a schema that is not an object fails; a truthy string `$ref` names its last segment; a truthy `$ref` of another type fails; an object without a truthy `$ref` is inlined as its resolution, or fails with the resolution's error |
| Descriptor.Place | generator.py:230-272 | a missing `in` fails; `path` and `query` parameters go to the required or optional list according to their truthy `required`, and fail without one; `formData` parameters are form fields; a `body` parameter brings its `schema`, and fails without one; any other location is unsupported and reported |
| Descriptor.HeaderUnsupported | generator.py:268-272 | a `header` parameter is reported, not placed |
| Descriptor.AddArguments | generator.py:229-272 | the loop over the parameters computes the argument function |
| Descriptor.NoRecoveryAfterArgument | generator.py:229-272 | after a parameter fails, the later parameters do not change the failure |
| Descriptor.ArgumentListsMeaning | generator.py:230-239 | the required, optional and form-data lists are the old lists followed by the parameters placed there, in order |
| Descriptor.ArgumentReports | generator.py:268-272 | one report is made per unsupported parameter, in order |
| Descriptor.ArgumentBody | generator.py:240-265 | the body is the last body parameter's, with its schema chosen; without one the body is unchanged |
| Descriptor.PyInt | generator.py:278 | `int()` of a response code succeeds exactly for an optional `+` or `-` followed by decimal digits, with the signed value of the digits; otherwise it fails with the code named |
| Descriptor.PyIntOfDecimal | generator.py:278 | `int()` of a number's decimal text gives the number |
| Descriptor.PyIn | generator.py:278 | `"schema" in detail` is the key test on an object and fails on numbers, booleans and null |
| Descriptor.AddResponses | generator.py:274-302 | the loop over the responses computes the response function |
| Descriptor.NoRecoveryAfterResponse | generator.py:274-302 | after a response fails, the later responses do not change the failure |
| Descriptor.ResponsesMeaning | generator.py:274-302 | the response schema is chosen from the last response with a 2xx code and a schema; without one it is unchanged |
| Descriptor.NonNumericCodeFails | generator.py:276-278 | a response code that is neither "default" nor a decimal makes the payload fail |
| Descriptor.Secure | generator.py:308-316 | global security makes every operation secure; otherwise a missing `paths` section fails |
| Descriptor.SecureOfOperation | generator.py:311-316 | an operation is secure exactly when its own entry in `paths` (looked up under the relative URL) has `security`; a missing path or verb is not secure |
| Descriptor.BuildPayloadMeaning | generator.py:216-316 | a built payload has the operation; the parameters placed in each argument list, in order; the last body parameter with its chosen schema, or no body; the chosen schema of the last qualifying response, or `Unspecified`; and the `secure` flag |
| GeneratorModel.Extension | generator.py:163-164 | the extension holds no `.` |
| GeneratorModel.InferFormat | generator.py:159-171 | a non-empty explicit format is used as given; inference fails only with the extension named |
| GeneratorModel.ExtensionOfFileName | generator.py:163-164 | the extension of `dir/base.ext` is `ext` |
| GeneratorModel.FormatOfFileName | generator.py:162-171 | "yaml" and "yml" give yaml, "json" gives json, any other extension fails |
| GeneratorModel.UpperCaseExtensionRefused | generator.py:165-171 | ".YML" is not recognised: the comparison is case-sensitive |
| GeneratorModel.DictOf | generator.py:181-185 | a dict comprehension has every key of its pairs, and each key holds a value paired with it |
| GeneratorModel.DictOfLastWins | generator.py:181-185 | the last pair for a key decides its value |
| GeneratorModel.OperationMap | generator.py:181-185 | the table has every `(path, verb)` of the operations, each mapped to an operationId declared for it |
| GeneratorModel.OperationMapLastWins | generator.py:181-185 | the last operation declared for a `(path, verb)` wins |
| GeneratorModel.UndeclaredOperation | generator.py:217-219 | a `(path, verb)` without an operationId gets the canonical operation name, which starts with `verb_` |
| GeneratorModel.Collect | generator.py:209-318 | the table has an entry per path or verb, each holding one of its values; it fails with the first failure |
| GeneratorModel.CollectNoRecovery | generator.py:209-318 | once building fails, the later entries do not change the failure |
| GeneratorModel.CollectFailsAt | generator.py:209-318 | an entry that fails, after entries that succeed, makes the whole table fail with its error |
| GeneratorModel.CollectKeys | generator.py:209-318 | the table's keys are exactly the entries' keys |
| GeneratorModel.CollectReports | generator.py:268-272 | the reports gathered are those of every entry, in entry order |
| GeneratorModel.CollectLastWins | generator.py:209-318 | the last entry for a key decides its value |
| GeneratorModel.ClassesAreNamed | generator.py:209-214 | every class in the table is the class name of one of the paths, relative to the base path |
| GeneratorModel.NamesAreClasses | generator.py:209-214 | the class name of every path, relative to the base path, is a class in the table |
| GeneratorModel.ClassOfPath | generator.py:211-214 | the class of the last path with a given class name holds that path's verb payloads |
| GeneratorModel.VerbsOfPath | generator.py:215-318 | a class's keys are exactly the verbs of its path |
| GeneratorModel.PayloadOfVerb | generator.py:215-318 | the last entry for a verb decides its payload |
| GeneratorModel.SecureEverywhere | generator.py:308-310 | with global security, every payload of every class is secure |
| GeneratorModel.Gather | generator.py:344-349 | the schema table has an entry per definition, each holding one of its values; it fails with the first failure |
| GeneratorModel.ResolveDefinition | generator.py:347-348 | a definition that is an object is resolved; any other value fails |
| GeneratorModel.SchemasKeys | generator.py:344-349 | the schema table's keys are exactly the definition names |
| GeneratorModel.SchemaIsResolvedDefinition | generator.py:345-349 | each schema is the resolution of the last definition with its name |
| GeneratorModel.SchemasHaveNoRef | generator.py:344-349 | when no definition is itself a `$ref`, no schema holds a `$ref` |
| GeneratorModel.SchemaMapHasNoRef | generator.py:344-349 | the same for the `definitions` section of the document |
| GeneratorModel.UrlEntries | generator.py:326-331 | there is one URL pattern per path, after `base_path + "/"` is deleted and the parameters are fixed up; each pattern names the class of its relative URL |
| GeneratorModel.PathNames | generator.py:326-327 | the paths, in order |
| GeneratorModel.UrlEntryLastWins | generator.py:328-331 | the last path giving a pattern decides its class |
| GeneratorModel.DjangoEntries | generator.py:326-331 | for Django, no pattern holds a brace and every class name is non-empty |
| GeneratorModel.RootBasedClasses | generator.py:209-214 | with base path "/", path "/a/b" makes the class "Ab" |
| GeneratorModel.RootBasedRoutes | generator.py:326-331 | with base path "/", path "/a/b" is routed to "AB" |
| GeneratorModel.RouteToUndefinedClass | generator.py:326-331 | the route of that specification names a class that was never made |
| GeneratorModel.RoutedUrlPairs | generator.py:326-331 | there is one pair per path, and each pairs its fixed-up pattern with the class made for that path |
| GeneratorModel.RoutedUrlEntries | generator.py:326-331 | every path has a pattern, and each pattern names the class made for one of its paths |
| GeneratorModel.RoutesNameDefinedClasses | generator.py:209-214 | every route names a class in the class table |
| GeneratorModel.Generator.constructor | generator.py:153-157 | the backend and depth limit are stored; no specification, no operation table, no classes, no reports |
| GeneratorModel.Generator.LoadSpecification | generator.py:159-187 | a format that cannot be inferred fails and changes nothing; otherwise the parsed specification, its operation table, and its classes and reports are stored, and a failure while building classes is returned |
| GeneratorModel.Generator.MakePayload | generator.py:216-316 | the payload built for one verb is the payload function's |
| GeneratorModel.Generator.MakeClassDefinitions | generator.py:209-214 | the class table and reports are those of the class-definition function, or its error is returned |
| GeneratorModel.Generator.MakeClass | generator.py:211-318 | one path's class is stored as its verb table, and that path's reports are appended |
| GeneratorModel.Generator.StoreVerb | generator.py:215-318 | one verb's payload is stored in its class, and its reports are appended |
| GeneratorModel.Generator.GenerateSchemas | generator.py:344-349 | the schema table is the resolution of each definition |
| GeneratorModel.Generator.GenerateUrls | generator.py:320-331 | the URL table is the one line 326 builds: every path, with `base_path + "/"` deleted, gives a pattern, and each pattern names the class name of that same text, which need not be a class that was made (see "## Findings") |

## Left out

- Rendering is not modelled: the Jinja2 templates, `render_to_string`, and the `json.dumps` text of schemas. Schemas stay trees, and an inline schema stays the resolved tree rather than a `json.loads("""...""")` string.
- The `swagger_parser` library and file reading are not modelled. `ParsedSpec` is what the parser produced, and it is a parameter of `LoadSpecification`.
- `click.secho` output is not modelled. Unsupported-parameter messages are kept as the `reports` sequence, with the location, operation and parameter name.
- `generate`, `generate_views`, `generate_stubs`, `generate_utils`, `file_versioning` and the command-line entry point only render or write files, so they are not modelled.
- `module_name` only reaches templates, so it is not modelled.
- Resolver.ResolveSchemaReferences: it returns a new tree instead of changing the definition in place. The aliasing this misses is that `update` copies references to the target's nested dicts, so later resolution changes the shared definition.
- Resolver.ResolveObject: a depth limit (`fuel`, the generator's `depthLimit`) stands for Python's recursion limit. Running out gives `DepthExceeded`, where Python raises `RecursionError` for a cyclic reference.
- Resolver.ResolveLeavesNoRef: this holds only when no definition is itself a `$ref`, because a chained `$ref` is left in place (`Resolver.ChainedRefKept`).
- Filters.ParseArray: a `name` that is not a string is refused, although `str.format` would print it. A number or boolean `collectionFormat` gives a missing-key error for "collectionFormat" rather than for the value.
- JSON numbers are integers here: a fraction, such as `minimum: 0.5` in a schema, cannot be represented, so schemas holding one are outside the model.
- Resolver.ResolveLeavesNoRef: like the source, resolution follows object values only, so a `$ref` inside a list, such as an `allOf` item, is left in place.
- Json.Get: an object with repeated keys is read as the parser would read it, with the last entry winning. Key order and duplicates beyond that are not modelled.
- Strings.Upper: case mapping covers ASCII letters only, not Python's full Unicode `upper` and `lower`.
- Descriptor.PyInt: it accepts an optional `+` or `-` followed by ASCII digits. `int()` also allows surrounding whitespace, underscores between digits and non-ASCII digits.
- GeneratorModel.InferFormat: a missing format and an empty one are both "not given" (`None` or `Some("")`), as Python's `not spec_format` treats them.
- GeneratorModel.Generator.LoadSpecification: the model's `classes` starts as an empty map, where Python's `_classes` starts as `None`. When building classes fails part way, the partly built class table left behind is not stated.
- GeneratorModel.Generator.MakeClassDefinitions: when it fails, its ensures states only the error, not the partly built table.
- Canonical.OperationName: the code's behaviour is followed. The docstring's example "/some/path/{id}/foo/{bar}/" with `get` gives "get__some_path_id_foo_bar_" (`Canonical.OperationNameOfDocumentedShape`), where the docstring gives "get_some_path_id_foo_bar": the code keeps the empty parts before the leading and after the trailing slash.

## Findings

| source | as written | input that shows it | evidently intended | confidence | as-written member | corrected member |
|---|---|---|---|---|---|---|
| generator.py:326 | `generate_urls` deletes `base_path + "/"` from each path, while `_make_class_definitions` (line 212) deletes `base_path`, so the two compute different class names for the same path | base path "/" with path "/a/b": the class table has "Ab", but the route names "AB". An empty base path also makes them differ. | every route names the class made for its path | high, not executed | GeneratorModel.RouteToUndefinedClass | GeneratorModel.RoutedUrlEntries |
