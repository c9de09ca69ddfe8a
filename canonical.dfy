/** Path canonicalisation: the class name and the fallback operation name a
    path template is given, and the rewriting of `{name}` placeholders into
    Django named-capture groups (generator.py, `path_to_class_name`,
    `path_to_operation`, `fixup_parameters`). */
module Canonical {
  import opened Strings

  /** The names used for the path "/". */
  const RootClassName: string := "Root"
  const RootOperation: string := "root"

  /** The one backend that rewrites placeholders. */
  const Django: string := "django"

  /** The characters a class name never keeps. */
  predicate IsSeparator(c: char)
  {
    c == '{' || c == '}' || c == '_' || c == '/'
  }

  /** `path.translate(character_map)`: braces deleted, `_` made a `/`. */
  function Sanitise(path: string): (r: string)
  {
    if |path| == 0 then ""
    else
      (if path[0] == '{' || path[0] == '}' then "" else [if path[0] == '_' then '/' else path[0]])
      + Sanitise(path[1..])
  }

  /** `p[0].upper() + p[1:]` for every non-empty part `p`, in order. */
  function CapitaliseWords(parts: seq<string>): seq<string>
  {
    if |parts| == 0 then []
    else
      (if parts[0] == "" then [] else [[Upper(parts[0][0])] + parts[0][1..]])
      + CapitaliseWords(parts[1..])
  }

  /** `path_to_class_name`. */
  function ClassName(path: string): string
  {
    var name := Concat(CapitaliseWords(Split(Sanitise(path), '/')));
    if name == "" then RootClassName else name
  }

  /** `path_to_operation`: empty parts are kept, so "/foo" gives "get__foo". */
  function OperationName(path: string, verb: string): string
  {
    var operation :=
      if path == "/" then RootOperation
      else Join(Split(Sanitise(path), '/'), "_");
    verb + "_" + operation
  }

  /** `fixup_parameters`. */
  function FixupParameters(url: string, backend: string): string
  {
    if backend == Django then PyReplace(PyReplace(url, "{", "(?P<"), "}", ">.+)")
    else url
  }

  // ----- Reference definitions, one character at a time -----

  /** The characters of a path that survive into its class name. */
  function Kept(path: string): (r: string)
  {
    if |path| == 0 then ""
    else (if IsSeparator(path[0]) then "" else [path[0]]) + Kept(path[1..])
  }

  /** The same characters, up to upper-casing some of them. */
  predicate SameUpToCase(a: string, b: string)
  {
    |a| == |b| && forall i :: 0 <= i < |a| ==> a[i] == b[i] || a[i] == Upper(b[i])
  }

  /** A path as an operation name spells it: braces deleted, `/` and `_`
      both written `_`. */
  function OperationChars(path: string): (r: string)
  {
    if |path| == 0 then ""
    else
      (if path[0] == '{' || path[0] == '}' then ""
       else [if path[0] == '/' then '_' else path[0]])
      + OperationChars(path[1..])
  }

  /** A URL as a Django route spells it: `{` opens a named group, `}`
      closes it with a non-empty match. */
  function DjangoPattern(url: string): (r: string)
  {
    if |url| == 0 then ""
    else
      (if url[0] == '{' then "(?P<" else if url[0] == '}' then ">.+)" else [url[0]])
      + DjangoPattern(url[1..])
  }

  // ----- Class names -----

  lemma {:induction false} WithoutSlashOfSanitise(path: string)
    ensures Without(Sanitise(path), '/') == Kept(path)
  {
    if |path| > 0 {
      WithoutSlashOfSanitise(path[1..]);
      var head := if path[0] == '{' || path[0] == '}' then "" else [if path[0] == '_' then '/' else path[0]];
      WithoutAppend(head, Sanitise(path[1..]), '/');
    }
  }

  lemma {:induction false} WithoutAppend(a: string, b: string, c: char)
    ensures Without(a + b, c) == Without(a, c) + Without(b, c)
  {
    if |a| > 0 {
      WithoutAppend(a[1..], b, c);
      assert (a + b)[1..] == a[1..] + b;
    } else {
      assert a + b == b;
    }
  }

  lemma {:induction false} SameUpToCaseAppend(a1: string, b1: string, a2: string, b2: string)
    requires SameUpToCase(a1, b1) && SameUpToCase(a2, b2)
    ensures SameUpToCase(a1 + a2, b1 + b2)
  {
    forall i | 0 <= i < |a1 + a2|
      ensures (a1 + a2)[i] == (b1 + b2)[i] || (a1 + a2)[i] == Upper((b1 + b2)[i])
    {
      if i >= |a1| {
        assert (a1 + a2)[i] == a2[i - |a1|] && (b1 + b2)[i] == b2[i - |a1|];
      }
    }
  }

  /** Capitalising words changes the case of some letters and nothing else;
      the first letter of the result is the upper case of the first letter. */
  lemma {:induction false} CapitaliseWordsUpToCase(parts: seq<string>)
    ensures SameUpToCase(Concat(CapitaliseWords(parts)), Concat(parts))
    ensures Concat(parts) != "" ==> Concat(CapitaliseWords(parts))[0] == Upper(Concat(parts)[0])
  {
    if |parts| > 0 {
      CapitaliseWordsUpToCase(parts[1..]);
      var w := parts[0];
      var head := if w == "" then [] else [[Upper(w[0])] + w[1..]];
      assert CapitaliseWords(parts) == head + CapitaliseWords(parts[1..]);
      ConcatAppend(head, CapitaliseWords(parts[1..]));
      if w == "" {
        assert Concat(head) == "";
      } else {
        assert Concat(head) == [Upper(w[0])] + w[1..];
        assert SameUpToCase([Upper(w[0])] + w[1..], w);
      }
      SameUpToCaseAppend(Concat(head), w, Concat(CapitaliseWords(parts[1..])), Concat(parts[1..]));
    }
  }

  lemma {:induction false} ConcatAppend(a: seq<string>, b: seq<string>)
    ensures Concat(a + b) == Concat(a) + Concat(b)
  {
    if |a| > 0 {
      ConcatAppend(a[1..], b);
      assert (a + b)[1..] == a[1..] + b;
    } else {
      assert a + b == b;
    }
  }

  lemma {:induction false} KeptHasNoSeparator(path: string)
    ensures forall i :: 0 <= i < |Kept(path)| ==> !IsSeparator(Kept(path)[i])
  {
    if |path| > 0 {
      KeptHasNoSeparator(path[1..]);
    }
  }

  /** What `path_to_class_name` promises: a non-empty name without `{`, `}`,
      `_` or `/`; "Root" for a path made only of those characters; otherwise
      exactly the other characters of the path, in order, with the first
      letter of every word upper-cased. */
  lemma {:induction false} ClassNameShape(path: string)
    ensures ClassName(path) != ""
    ensures forall i :: 0 <= i < |ClassName(path)| ==> !IsSeparator(ClassName(path)[i])
    ensures Kept(path) == "" ==> ClassName(path) == RootClassName
    ensures Kept(path) != "" ==> SameUpToCase(ClassName(path), Kept(path))
    ensures Kept(path) != "" ==> ClassName(path)[0] == Upper(Kept(path)[0])
  {
    var parts := Split(Sanitise(path), '/');
    ConcatSplit(Sanitise(path), '/');
    WithoutSlashOfSanitise(path);
    CapitaliseWordsUpToCase(parts);
    KeptHasNoSeparator(path);
    var name := Concat(CapitaliseWords(parts));
    assert Concat(parts) == Kept(path);
    if name != "" {
      forall i | 0 <= i < |name| ensures !IsSeparator(name[i]) {
        UpperKeepsPunctuation(Kept(path)[i]);
      }
    }
  }

  lemma {:induction false} ClassNameOfRoot()
    ensures ClassName("/") == "Root"
    ensures ClassName("/_/{}/") == "Root"
  {
    ClassNameShape("/");
    ClassNameShape("/_/{}/");
  }

  lemma {:induction false} SanitiseAppend(a: string, b: string)
    ensures Sanitise(a + b) == Sanitise(a) + Sanitise(b)
  {
    if |a| > 0 {
      SanitiseAppend(a[1..], b);
      assert (a + b)[1..] == a[1..] + b;
    } else {
      assert a + b == b;
    }
  }

  lemma {:induction false} SanitisePlain(w: string)
    requires '{' !in w && '}' !in w && '_' !in w
    ensures Sanitise(w) == w
  {
    if |w| > 0 {
      SanitisePlain(w[1..]);
      assert [w[0]] + w[1..] == w;
    }
  }

  lemma {:induction false} CapitaliseWordsAppend(a: seq<string>, b: seq<string>)
    ensures CapitaliseWords(a + b) == CapitaliseWords(a) + CapitaliseWords(b)
  {
    if |a| > 0 {
      CapitaliseWordsAppend(a[1..], b);
      assert (a + b)[1..] == a[1..] + b;
    } else {
      assert a + b == b;
    }
  }

  lemma {:induction false} SanitiseAround(a: string, c: char, b: string)
    ensures Sanitise(a + [c] + b) == Sanitise(a) + Sanitise([c]) + Sanitise(b)
  {
    SanitiseAppend(a + [c], b);
    SanitiseAppend(a, [c]);
  }

  /** Deleting a brace from a path, or writing `_` as `/`, does not change
      its class name. */
  lemma {:induction false} BracesAndUnderscores(a: string, b: string)
    ensures ClassName(a + "{" + b) == ClassName(a + b)
    ensures ClassName(a + "}" + b) == ClassName(a + b)
    ensures ClassName(a + "_" + b) == ClassName(a + "/" + b)
  {
    SanitiseDropsBrace(a, '{', b);
    SanitiseDropsBrace(a, '}', b);
    SanitiseUnderscore(a, b);
  }

  lemma {:induction false} SanitiseDropsBrace(a: string, c: char, b: string)
    requires c == '{' || c == '}'
    ensures Sanitise(a + [c] + b) == Sanitise(a + b)
  {
    SanitiseAround(a, c, b);
    SanitiseAppend(a, b);
    assert Sanitise([c]) == "";
    assert Sanitise(a) + "" + Sanitise(b) == Sanitise(a) + Sanitise(b);
  }

  lemma {:induction false} SanitiseUnderscore(a: string, b: string)
    ensures Sanitise(a + "_" + b) == Sanitise(a + "/" + b)
  {
    SanitiseAround(a, '_', b);
    SanitiseAround(a, '/', b);
    assert Sanitise("_") == "/" == Sanitise("/");
  }

  /** The words of a path, capitalised and joined: the class name before
      the fallback to "Root". */
  function CapitalisedWords(path: string): string
  {
    Concat(CapitaliseWords(Split(Sanitise(path), '/')))
  }

  /** A `/` splits a path's words into those before it and those after. */
  lemma {:induction false} CapitalisedWordsAroundSlash(a: string, b: string)
    ensures CapitalisedWords(a + "/" + b) == CapitalisedWords(a) + CapitalisedWords(b)
  {
    SanitiseAround(a, '/', b);
    assert Sanitise("/") == "/";
    assert Sanitise(a + "/" + b) == Sanitise(a) + ['/'] + Sanitise(b);
    SplitAtSeparator(Sanitise(a), Sanitise(b), '/');
    var x, y := Split(Sanitise(a), '/'), Split(Sanitise(b), '/');
    CapitaliseWordsAppend(x, y);
    ConcatAppend(CapitaliseWords(x), CapitaliseWords(y));
  }

  /** Leading, trailing and repeated slashes do not change a class name,
      because `split("/")` gives empty parts for them and empty parts are
      skipped. With `BracesAndUnderscores` every path thus has the class
      name of a "/w1/.../wn/" path, given by `ClassNameOfWords`. */
  lemma {:induction false} ClassNameOfSlashes(a: string, b: string)
    ensures ClassName(a + "/") == ClassName(a)
    ensures ClassName("/" + a) == ClassName(a)
    ensures ClassName(a + "//" + b) == ClassName(a + "/" + b)
  {
    ClassNameTrailingSlash(a);
    ClassNameLeadingSlash(a);
    ClassNameDoubledSlash(a, b);
  }

  lemma {:induction false} ClassNameTrailingSlash(a: string)
    ensures ClassName(a + "/") == ClassName(a)
  {
    assert CapitalisedWords(a + "/") == CapitalisedWords(a) by {
      CapitalisedWordsOfEmpty();
      CapitalisedWordsAroundSlash(a, "");
      assert a + "/" + "" == a + "/";
    }
    ClassNameOfCapitalised(a);
    ClassNameOfCapitalised(a + "/");
  }

  lemma {:induction false} ClassNameLeadingSlash(a: string)
    ensures ClassName("/" + a) == ClassName(a)
  {
    assert CapitalisedWords("/" + a) == CapitalisedWords(a) by {
      CapitalisedWordsOfEmpty();
      CapitalisedWordsAroundSlash("", a);
      assert "" + "/" + a == "/" + a;
    }
    ClassNameOfCapitalised(a);
    ClassNameOfCapitalised("/" + a);
  }

  lemma {:induction false} ClassNameDoubledSlash(a: string, b: string)
    ensures ClassName(a + "//" + b) == ClassName(a + "/" + b)
  {
    CapitalisedWordsDoubledSlash(a, b);
    ClassNameOfCapitalised(a + "/" + b);
    ClassNameOfCapitalised(a + "//" + b);
  }

  lemma {:induction false} CapitalisedWordsDoubledSlash(a: string, b: string)
    ensures CapitalisedWords(a + "//" + b) == CapitalisedWords(a + "/" + b)
  {
    assert CapitalisedWords("/" + b) == CapitalisedWords(b) by {
      CapitalisedWordsOfEmpty();
      CapitalisedWordsAroundSlash("", b);
      assert "" + "/" + b == "/" + b;
    }
    assert a + "/" + ("/" + b) == a + "//" + b;
    CapitalisedWordsAroundSlash(a, "/" + b);
    CapitalisedWordsAroundSlash(a, b);
  }

  lemma {:induction false} CapitalisedWordsOfEmpty()
    ensures CapitalisedWords("") == ""
  {
    assert Split("", '/') == [""];
    assert CapitaliseWords([""]) == [];
  }

  lemma {:induction false} ClassNameOfCapitalised(path: string)
    ensures ClassName(path) == if CapitalisedWords(path) == "" then RootClassName else CapitalisedWords(path)
  { }

  /** A word a class name keeps whole. */
  predicate PlainWord(w: string)
  {
    w != "" && forall i :: 0 <= i < |w| ==> !IsSeparator(w[i])
  }

  /** The words followed by `/` each: "a/b/" for "a", "b". */
  function SlashTerminated(ws: seq<string>): string
  {
    if |ws| == 0 then "" else ws[0] + "/" + SlashTerminated(ws[1..])
  }

  lemma {:induction false} SplitSlashTerminated(ws: seq<string>)
    requires forall i :: 0 <= i < |ws| ==> PlainWord(ws[i])
    ensures Split(SlashTerminated(ws), '/') == ws + [""]
  {
    if |ws| > 0 {
      SplitSlashTerminated(ws[1..]);
      SplitAtSeparator(ws[0], SlashTerminated(ws[1..]), '/');
      SplitWithoutSeparator(ws[0], '/');
      assert [ws[0]] + (ws[1..] + [""]) == ws + [""];
    }
  }

  lemma {:induction false} WordsPathIsSanitised(ws: seq<string>)
    requires forall i :: 0 <= i < |ws| ==> PlainWord(ws[i])
    ensures Sanitise("/" + SlashTerminated(ws)) == "/" + SlashTerminated(ws)
  {
    SlashTerminatedChars(ws);
    SanitisePlain(SlashTerminated(ws));
    SanitiseAppend("/", SlashTerminated(ws));
    assert Sanitise("/") == "/";
  }

  lemma {:induction false} SplitOfWordsPath(ws: seq<string>)
    requires forall i :: 0 <= i < |ws| ==> PlainWord(ws[i])
    ensures Split(Sanitise("/" + SlashTerminated(ws)), '/') == [""] + (ws + [""])
  {
    WordsPathIsSanitised(ws);
    SplitSlashTerminated(ws);
    SplitAtSeparator("", SlashTerminated(ws), '/');
    assert "" + "/" + SlashTerminated(ws) == "/" + SlashTerminated(ws);
  }

  lemma {:induction false} CapitaliseFramedWords(ws: seq<string>)
    ensures CapitaliseWords([""] + (ws + [""])) == CapitaliseWords(ws)
  {
    CapitaliseWordsAppend([""], ws + [""]);
    CapitaliseWordsAppend(ws, [""]);
    assert CapitaliseWords([""]) == [];
  }

  lemma {:induction false} CapitalisedWordsNonEmpty(ws: seq<string>)
    requires ws != [] && PlainWord(ws[0])
    ensures Concat(CapitaliseWords(ws)) != ""
  {
    assert [ws[0]] + ws[1..] == ws;
    CapitaliseWordsAppend([ws[0]], ws[1..]);
    ConcatAppend(CapitaliseWords([ws[0]]), CapitaliseWords(ws[1..]));
    assert CapitaliseWords([ws[0]]) == [[Upper(ws[0][0])] + ws[0][1..]];
  }

  /** A path "/w1/w2/.../wn/" of plain words is named by its words, each
      with its first letter upper-cased, in order. */
  lemma {:induction false} ClassNameOfWords(ws: seq<string>)
    requires forall i :: 0 <= i < |ws| ==> PlainWord(ws[i])
    ensures ClassName("/" + SlashTerminated(ws)) ==
            if ws == [] then RootClassName else Concat(CapitaliseWords(ws))
  {
    SplitOfWordsPath(ws);
    CapitaliseFramedWords(ws);
    if ws != [] {
      CapitalisedWordsNonEmpty(ws);
    }
  }

  lemma {:induction false} SlashTerminatedChars(ws: seq<string>)
    requires forall i :: 0 <= i < |ws| ==> PlainWord(ws[i])
    ensures forall i :: 0 <= i < |SlashTerminated(ws)| ==>
              SlashTerminated(ws)[i] != '{' && SlashTerminated(ws)[i] != '}' && SlashTerminated(ws)[i] != '_'
  {
    if |ws| > 0 {
      SlashTerminatedChars(ws[1..]);
      var w := ws[0];
      var r := SlashTerminated(ws);
      assert r == w + "/" + SlashTerminated(ws[1..]);
      forall i | 0 <= i < |r| ensures r[i] != '{' && r[i] != '}' && r[i] != '_' {
        if i < |w| {
          assert r[i] == w[i];
        } else if i > |w| {
          assert r[i] == SlashTerminated(ws[1..])[i - |w| - 1];
        }
      }
    }
  }

  // ----- Operation names -----

  lemma {:induction false} OperationCharsOfSanitise(path: string)
    ensures MapChar(Sanitise(path), '/', '_') == OperationChars(path)
  {
    if |path| > 0 {
      OperationCharsOfSanitise(path[1..]);
      var head := if path[0] == '{' || path[0] == '}' then "" else [if path[0] == '_' then '/' else path[0]];
      MapCharAppend(head, Sanitise(path[1..]), '/', '_');
    }
  }

  lemma {:induction false} MapCharAppend(a: string, b: string, c: char, d: char)
    ensures MapChar(a + b, c, d) == MapChar(a, c, d) + MapChar(b, c, d)
  {
    if |a| > 0 {
      MapCharAppend(a[1..], b, c, d);
      assert (a + b)[1..] == a[1..] + b;
    } else {
      assert a + b == b;
    }
  }

  /** What `path_to_operation` does: the verb and `_`, then "root" for the
      path "/" and otherwise the path with its braces deleted and every `/`
      written `_`, empty parts kept. */
  lemma {:induction false} OperationNameShape(path: string, verb: string)
    ensures OperationName(path, verb) ==
            verb + "_" + (if path == "/" then RootOperation else OperationChars(path))
    ensures StartsWith(OperationName(path, verb), verb + "_")
  {
    JoinSplit(Sanitise(path), '/', '_');
    OperationCharsOfSanitise(path);
    var r := OperationName(path, verb);
    assert r[..|verb + "_"|] == verb + "_";
  }

  lemma {:induction false} OperationCharsAppend(a: string, b: string)
    ensures OperationChars(a + b) == OperationChars(a) + OperationChars(b)
  {
    if |a| > 0 {
      OperationCharsAppend(a[1..], b);
      assert (a + b)[1..] == a[1..] + b;
    } else {
      assert a + b == b;
    }
  }

  lemma {:induction false} OperationCharsPlain(w: string)
    requires forall i :: 0 <= i < |w| ==> !IsSeparator(w[i])
    ensures OperationChars(w) == w
  {
    if |w| > 0 {
      OperationCharsPlain(w[1..]);
      assert [w[0]] + w[1..] == w;
    }
  }

  /** The operation characters of "/w/{p}" are "_w_p". */
  lemma {:induction false} OperationCharsOfParameterPath(w: string, p: string)
    requires PlainWord(w) && PlainWord(p)
    ensures OperationChars("/" + w + "/{" + p + "}") == "_" + w + "_" + p
  {
    var a := "/" + w;
    var b := a + "/";
    var c := b + "{";
    var d := c + p;
    assert OperationChars(a) == "_" + w by {
      OperationCharsAppend("/", w);
      OperationCharsPlain(w);
      assert OperationChars("/") == "_";
    }
    assert OperationChars(b) == "_" + w + "_" by {
      OperationCharsAppend(a, "/");
      assert OperationChars("/") == "_";
    }
    assert OperationChars(c) == OperationChars(b) by {
      OperationCharsAppend(b, "{");
      assert OperationChars("{") == "";
    }
    assert OperationChars(d) == "_" + w + "_" + p by {
      OperationCharsAppend(c, p);
      OperationCharsPlain(p);
    }
    assert OperationChars(d + "}") == OperationChars(d) by {
      OperationCharsAppend(d, "}");
      assert OperationChars("}") == "";
    }
    assert d + "}" == "/" + w + "/{" + p + "}";
  }

  /** A path "/w/{p}" is named "verb__w_p": the empty part before the first
      `/` is kept, so the operation name has two underscores after the verb. */
  lemma {:induction false} OperationNameOfParameter(verb: string, w: string, p: string)
    requires PlainWord(w) && PlainWord(p)
    ensures OperationName("/" + w + "/{" + p + "}", verb) == verb + "__" + w + "_" + p
  {
    var path := "/" + w + "/{" + p + "}";
    OperationCharsOfParameterPath(w, p);
    assert path != "/" by { assert |path| > 1; }
    OperationNameShape(path, verb);
    assert verb + "_" + ("_" + w + "_" + p) == verb + "__" + w + "_" + p;
  }

  /** Paths shaped like the example of `path_to_operation`'s own
      documentation, "/some/path/{id}/foo/{bar}/": the documentation
      expects "get_some_path_id_foo_bar", but the code keeps the empty parts
      before the first and after the last `/`, giving
      "get__some_path_id_foo_bar_". */
  lemma {:induction false} OperationNameOfDocumentedShape(verb: string, w1: string, w2: string, p1: string,
                                                         w3: string, p2: string)
    requires PlainWord(w1) && PlainWord(w2) && PlainWord(p1) && PlainWord(w3) && PlainWord(p2)
    ensures OperationName("/" + w1 + "/" + w2 + "/{" + p1 + "}/" + w3 + "/{" + p2 + "}/", verb) ==
            verb + "__" + w1 + "_" + w2 + "_" + p1 + "_" + w3 + "_" + p2 + "_"
  {
    var path := "/" + w1 + "/" + w2 + "/{" + p1 + "}/" + w3 + "/{" + p2 + "}/";
    var tail := w1 + "_" + w2 + "_" + p1 + "_" + w3 + "_" + p2 + "_";
    assert OperationName(path, verb) == verb + "_" + ("_" + tail) by {
      DocumentedShapeChars(w1, w2, p1, w3, p2);
      assert path != "/" by { assert |path| > 1; }
      OperationNameShape(path, verb);
    }
    SplitUnderscore(verb, w1, w2, p1, w3, p2);
  }

  lemma {:induction false} SplitUnderscore(verb: string, w1: string, w2: string, p1: string, w3: string, p2: string)
    ensures verb + "_" + ("_" + (w1 + "_" + w2 + "_" + p1 + "_" + w3 + "_" + p2 + "_")) ==
            verb + "__" + w1 + "_" + w2 + "_" + p1 + "_" + w3 + "_" + p2 + "_"
  { }

  lemma {:induction false} DocumentedShapeChars(w1: string, w2: string, p1: string, w3: string, p2: string)
    requires PlainWord(w1) && PlainWord(w2) && PlainWord(p1) && PlainWord(w3) && PlainWord(p2)
    ensures OperationChars("/" + w1 + "/" + w2 + "/{" + p1 + "}/" + w3 + "/{" + p2 + "}/") ==
            "_" + (w1 + "_" + w2 + "_" + p1 + "_" + w3 + "_" + p2 + "_")
  {
    var a, b, c := "/" + w1, "/" + w2 + "/{" + p1 + "}", "/" + w3 + "/{" + p2 + "}";
    var x, y, z := "_" + w1, "_" + w2 + "_" + p1, "_" + w3 + "_" + p2;
    assert OperationChars(a) == x by {
      OperationCharsAppend("/", w1);
      OperationCharsPlain(w1);
      assert OperationChars("/") == "_";
    }
    assert OperationChars(a + b) == x + y by {
      OperationCharsOfParameterPath(w2, p1);
      OperationCharsAppend(a, b);
    }
    assert OperationChars(a + b + c) == x + y + z by {
      OperationCharsOfParameterPath(w3, p2);
      OperationCharsAppend(a + b, c);
    }
    assert OperationChars(a + b + c + "/") == x + y + z + "_" by {
      OperationCharsAppend(a + b + c, "/");
      assert OperationChars("/") == "_";
    }
    DocumentedShapePieces(w1, w2, p1, w3, p2);
  }

  /** The pieces the proof above splits the documented shape into. */
  lemma {:induction false} DocumentedShapePieces(w1: string, w2: string, p1: string, w3: string, p2: string)
    ensures ("/" + w1) + ("/" + w2 + "/{" + p1 + "}") + ("/" + w3 + "/{" + p2 + "}") + "/" ==
            "/" + w1 + "/" + w2 + "/{" + p1 + "}/" + w3 + "/{" + p2 + "}/"
    ensures ("_" + w1) + ("_" + w2 + "_" + p1) + ("_" + w3 + "_" + p2) + "_" ==
            "_" + (w1 + "_" + w2 + "_" + p1 + "_" + w3 + "_" + p2 + "_")
  { }

  // ----- Placeholder rewriting -----

  lemma {:induction false} DjangoPatternAppend(a: string, b: string)
    ensures DjangoPattern(a + b) == DjangoPattern(a) + DjangoPattern(b)
  {
    if |a| > 0 {
      DjangoPatternAppend(a[1..], b);
      assert (a + b)[1..] == a[1..] + b;
    } else {
      assert a + b == b;
    }
  }

  lemma {:induction false} DjangoPatternHasNoBraces(url: string)
    ensures '{' !in DjangoPattern(url) && '}' !in DjangoPattern(url)
  {
    if |url| > 0 {
      DjangoPatternHasNoBraces(url[1..]);
    }
  }

  lemma {:induction false} TwoReplacesAreDjangoPattern(url: string)
    ensures ReplaceChar(ReplaceChar(url, '{', "(?P<"), '}', ">.+)") == DjangoPattern(url)
  {
    if |url| > 0 {
      TwoReplacesAreDjangoPattern(url[1..]);
      var head := if url[0] == '{' then "(?P<" else [url[0]];
      assert ReplaceChar(url, '{', "(?P<") == head + ReplaceChar(url[1..], '{', "(?P<");
      ReplaceCharAppend(head, ReplaceChar(url[1..], '{', "(?P<"), '}', ">.+)");
      if url[0] == '{' {
        ReplaceCharAbsent("(?P<", '}', ">.+)");
      } else {
        assert ReplaceChar(head, '}', ">.+)") == (if url[0] == '}' then ">.+)" else [url[0]]);
      }
    }
  }

  /** What `fixup_parameters` does: for Django every `{` becomes `(?P<` and
      every `}` becomes `>.+)`, so no brace is left; any other backend gets
      the URL back unchanged. */
  lemma {:induction false} FixupParametersMeaning(url: string, backend: string)
    ensures backend == Django ==> FixupParameters(url, backend) == DjangoPattern(url)
    ensures backend == Django ==>
              '{' !in FixupParameters(url, backend) && '}' !in FixupParameters(url, backend)
    ensures backend != Django ==> FixupParameters(url, backend) == url
  {
    ReplaceAllOneChar(url, '{', "(?P<");
    ReplaceAllOneChar(ReplaceChar(url, '{', "(?P<"), '}', ">.+)");
    TwoReplacesAreDjangoPattern(url);
    DjangoPatternHasNoBraces(url);
  }

  /** A URL "a{n}b" with no other brace is routed by Django as
      "a(?P<n>.+)b": the placeholder becomes a named group. */
  lemma {:induction false} FixupOfPlaceholder(a: string, n: string, b: string)
    requires '{' !in a && '}' !in a && '{' !in n && '}' !in n && '{' !in b && '}' !in b
    ensures FixupParameters(a + "{" + n + "}" + b, Django) == a + "(?P<" + n + ">.+)" + b
  {
    FixupParametersMeaning(a + "{" + n + "}" + b, Django);
    DjangoPatternAppend(a + "{" + n + "}", b);
    DjangoPatternAppend(a + "{" + n, "}");
    DjangoPatternAppend(a + "{", n);
    DjangoPatternAppend(a, "{");
    DjangoPatternPlain(a);
    DjangoPatternPlain(n);
    DjangoPatternPlain(b);
    assert DjangoPattern("{") == "(?P<" && DjangoPattern("}") == ">.+)";
  }

  lemma {:induction false} DjangoPatternPlain(w: string)
    requires '{' !in w && '}' !in w
    ensures DjangoPattern(w) == w
  {
    if |w| > 0 {
      DjangoPatternPlain(w[1..]);
      assert [w[0]] + w[1..] == w;
    }
  }

  /** A URL without braces is its own route for every backend. */
  lemma {:induction false} FixupOfPlainUrl(url: string, backend: string)
    requires '{' !in url && '}' !in url
    ensures FixupParameters(url, backend) == url
  {
    FixupParametersMeaning(url, backend);
    DjangoPatternPlain(url);
  }

  // ----- Two worked examples -----

  /** A path of one word: "ab" is the class "Ab". */
  lemma {:induction false} ClassOfWord()
    ensures ClassName("ab") == "Ab"
  {
    SplitWithoutSeparator("ab", '/');
    assert Sanitise("ab") == "ab";
    assert Upper('a') == 'A' && "ab"[1..] == "b";
  }

  lemma {:induction false} CapitaliseTwoWords()
    ensures CapitaliseWords(["", "a", "b"]) == ["A", "B"]
  {
    assert [Upper('a')] + "a"[1..] == "A";
    assert [Upper('b')] + "b"[1..] == "B";
    assert ["b"][1..] == [] && ["a", "b"][1..] == ["b"] && ["", "a", "b"][1..] == ["a", "b"];
    var b := CapitaliseWords(["b"]);
    assert b == ["B"];
    assert CapitaliseWords(["a", "b"]) == ["A"] + b;
  }

  lemma {:induction false} SplitTwoWords()
    ensures Split("/a/b", '/') == ["", "a", "b"]
  {
    SplitAtSeparator("a", "b", '/');
    SplitAtSeparator("", "a/b", '/');
    SplitWithoutSeparator("a", '/');
    SplitWithoutSeparator("b", '/');
    assert "" + "/" + "a/b" == "/a/b" && "a" + "/" + "b" == "a/b";
  }

  /** The same words with their slashes: "/a/b" is the class "AB". */
  lemma {:induction false} ClassOfTwoWords()
    ensures ClassName("/a/b") == "AB"
  {
    assert Sanitise("/a/b") == "/a/b";
    SplitTwoWords();
    CapitaliseTwoWords();
    assert ["A", "B"][1..] == ["B"] && ["B"][1..] == [];
    assert Concat(["A", "B"]) == "AB";
  }
}
