/** The two template filters of generator.py: `clean_schema`, which turns a
    Swagger parameter definition into a JSON Schema, and `parse_array`,
    which writes the statement that splits a collection-valued argument. */
module Filters {
  import opened Results
  import opened Strings
  import opened Json

  /** `_SWAGGER_FIELDS`: parameter keys that JSON Schema does not know. */
  predicate IsSwaggerField(k: string)
  {
    k == "name" || k == "in" || k == "required" || k == "collectionFormat" || k == "description"
  }

  /** A key `clean_schema` drops: a Swagger field, or a vendor extension
      whose lower-cased key starts with "x-". */
  predicate Dropped(k: string)
  {
    IsSwaggerField(k) || StartsWith(LowerString(k), "x-")
  }

  /** `clean_schema`: the entries whose key is kept, in their order. */
  function CleanSchema(schema: Fields): (r: Fields)
    ensures |r| <= |schema|
    ensures forall k :: Get(r, k) == if Dropped(k) then None else Get(schema, k)
  {
    if |schema| == 0 then []
    else
      var init := CleanSchema(schema[..|schema| - 1]);
      var last := schema[|schema| - 1];
      assert schema == schema[..|schema| - 1] + [last];
      forall k ensures Get(schema, k) == if k == last.0 then Some(last.1) else Get(schema[..|schema| - 1], k) {
        GetAppend(schema[..|schema| - 1], last.0, last.1, k);
      }
      if Dropped(last.0) then init
      else
        forall k ensures Get(init + [last], k) == if k == last.0 then Some(last.1) else Get(init, k) {
          GetAppend(init, last.0, last.1, k);
        }
        init + [last]
  }

  /** Cleaning twice is cleaning once. */
  lemma {:induction false} CleanSchemaIdempotent(schema: Fields)
    ensures CleanSchema(CleanSchema(schema)) == CleanSchema(schema)
  {
    if |schema| > 0 {
      var init := schema[..|schema| - 1];
      var last := schema[|schema| - 1];
      CleanSchemaIdempotent(init);
      if !Dropped(last.0) {
        var c := CleanSchema(init) + [last];
        assert c[..|c| - 1] == CleanSchema(init);
      }
    }
  }

  /** Upper-case vendor extensions are dropped too: "X-Foo" is lower-cased
      before the prefix test. */
  lemma {:induction false} VendorExtensionDropped(rest: string)
    ensures Dropped("X-" + rest) && Dropped("x-" + rest)
  {
    var u, l := LowerString("X-" + rest), LowerString("x-" + rest);
    assert u[0] == Lower('X') == 'x' && u[1] == Lower('-') == '-';
    assert l[0] == Lower('x') == 'x' && l[1] == Lower('-') == '-';
    assert u[..2] == "x-" && l[..2] == "x-";
  }

  /** `SEPARATORS`: the character a `collectionFormat` splits on. */
  function Separator(format: string): (r: Option<string>)
    ensures r.Some? ==> |r.value| == 1
  {
    if format == "pipes" then Some("|")
    else if format == "tsv" then Some("\t")
    else if format == "ssv" then Some(" ")
    else if format == "csv" then Some(",")
    else None
  }

  /** The four formats split on four different characters. */
  lemma {:induction false} SeparatorsDistinct(f: string, g: string)
    requires Separator(f).Some? && Separator(g).Some?
    ensures Separator(f) == Separator(g) <==> f == g
  {
  }

  /** The statement `parse_array` writes. */
  function SplitStatement(name: string, separator: string): string
  {
    name + " = " + name + ".split(\"" + separator + "\")"
  }

  /** `parse_array`: the name is looked up first, then `collectionFormat`
      (default ",") is looked up in `SEPARATORS`. A value that is not a key
      of the table, the default "," among them, is a `KeyError`; a dict or
      list value cannot be a key at all. */
  function ParseArray(schema: Fields): (r: Result<string>)
    ensures !HasKey(schema, "name") ==> r == Err(MissingKey("name"))
    ensures r.Ok? <==>
              (Get(schema, "name").Some? && Get(schema, "name").value.JStr?
               && Get(schema, "collectionFormat").Some? && Get(schema, "collectionFormat").value.JStr?
               && Separator(Get(schema, "collectionFormat").value.str).Some?)
    ensures r.Ok? ==> r.value == SplitStatement(Get(schema, "name").value.str,
                                                Separator(Get(schema, "collectionFormat").value.str).value)
  {
    match Get(schema, "name")
    case None => Err(MissingKey("name"))
    case Some(JStr(name)) =>
      var format := match Get(schema, "collectionFormat") case Some(f) => f case None => JStr(",");
      (match format
       case JStr(f) =>
         (match Separator(f)
          case Some(sep) => Ok(SplitStatement(name, sep))
          case None => Err(MissingKey(f)))
       case JObj(_) => Err(WrongType("collectionFormat"))
       case JArr(_) => Err(WrongType("collectionFormat"))
       case _ => Err(MissingKey("collectionFormat")))
    case Some(_) => Err(WrongType("name"))
  }

  /** Without a `collectionFormat` the default "," is not a key of the
      table, so a named parameter without one fails. */
  lemma {:induction false} ParseArrayDefaultFails(schema: Fields)
    requires Get(schema, "name").Some? && Get(schema, "name").value.JStr?
    requires !HasKey(schema, "collectionFormat")
    ensures ParseArray(schema) == Err(MissingKey(","))
  {
  }
}
