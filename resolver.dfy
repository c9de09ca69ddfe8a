/** `Generator.resolve_schema_references` (generator.py:189-207): a `$ref`
    entry of a dict is popped, the last two `/`-segments of its pointer name
    a definition of the specification, the definition's entries are stored
    over the dict's own, and then every dict-valued entry is resolved in
    turn. Lists are not entered, and a `$ref` that the definition itself
    brings in is not looked at again.

    The Python code mutates the dict in place; here resolution maps a value
    to a value. Python's recursion limit is the `fuel` parameter: each level
    of nested dicts uses one unit, and running out is `DepthExceeded`. */
module Resolver {
  import opened Results
  import opened Strings
  import opened Json

  const RefKey: string := "$ref"

  // ----- Pointers and lookups -----

  /** `pointer.split("/")[-2:]` unpacked into (section, name): the text
      between the last two `/` (or from the start) and the text after the
      last `/`. Without any `/` there is only one segment to unpack. */
  function Pointer(pointer: string): (r: Result<(string, string)>)
    ensures r.Ok? <==> '/' in pointer
    ensures r.Err? ==> r.error == BadPointer(pointer)
    ensures r.Ok? ==> '/' !in r.value.0 && '/' !in r.value.1
    ensures r.Ok? ==> EndsWith(pointer, r.value.0 + "/" + r.value.1)
    ensures r.Ok? ==> |r.value.0| + 1 + |r.value.1| == |pointer|
                      || EndsWith(pointer, "/" + r.value.0 + "/" + r.value.1)
  {
    var parts := Split(pointer, '/');
    SplitHasOnePart(pointer, '/');
    if |parts| < 2 then Err(BadPointer(pointer))
    else
      LastTwoSegments(pointer);
      SplitPartsLackSeparator(pointer, '/');
      Ok((parts[|parts| - 2], parts[|parts| - 1]))
  }

  lemma {:induction false} LastTwoSegments(pointer: string)
    requires |Split(pointer, '/')| >= 2
    ensures var parts := Split(pointer, '/');
            var x, y := parts[|parts| - 2], parts[|parts| - 1];
            if |parts| == 2 then pointer == x + "/" + y
            else EndsWith(pointer, "/" + x + "/" + y)
  {
    var parts := Split(pointer, '/');
    var n := |parts|;
    var x, y := parts[n - 2], parts[n - 1];
    JoinSplit(pointer, '/', '/');
    MapCharIdentity(pointer, '/');
    assert Join(parts, "/") == pointer;
    if n == 2 {
      assert parts == [x, y];
      assert Join(parts, "/") == x + "/" + Join([y], "/");
    } else {
      var init := parts[..n - 2];
      assert parts == init + [x] + [y];
      JoinLastTwo(init, x, y);
      var suffix := "/" + x + "/" + y;
      var front := Join(init, "/");
      assert pointer == front + suffix;
      assert (front + suffix)[|front|..] == suffix;
    }
  }

  /** Joining with "/" puts the last two parts after the rest. */
  lemma {:induction false} JoinLastTwo(init: seq<string>, x: string, y: string)
    requires |init| >= 1
    ensures Join(init + [x] + [y], "/") == Join(init, "/") + ("/" + x + "/" + y)
  {
    var front, xs := Join(init, "/"), init + [x];
    JoinSnoc(init, x, "/");
    JoinSnoc(xs, y, "/");
    assert Join(xs, "/") == front + "/" + x;
    assert Join(xs + [y], "/") == (front + "/" + x) + "/" + y;
    assert (front + "/" + x) + "/" + y == front + ("/" + x + "/" + y);
  }

  /** The specification's `specification[section][name]`, when the section
      is a dict and the definition is a dict. */
  predicate Defines(doc: Fields, section: string, name: string, target: Fields)
  {
    match Get(doc, section)
    case Some(JObj(entries)) => Get(entries, name) == Some(JObj(target))
    case _ => false
  }

  /** `specification[section][name]`, which `update` needs to be a dict. */
  function Lookup(doc: Fields, section: string, name: string): (r: Result<Fields>)
    ensures r.Ok? ==> Defines(doc, section, name, r.value)
    ensures r.Err? ==> forall t :: !Defines(doc, section, name, t)
    ensures !HasKey(doc, section) ==> r == Err(MissingKey(section))
    ensures (Get(doc, section).Some? && Get(doc, section).value.JObj?
             && !HasKey(Get(doc, section).value.fields, name)) ==> r == Err(MissingTarget(section, name))
  {
    match Get(doc, section)
    case None => Err(MissingKey(section))
    case Some(JObj(entries)) =>
      (match Get(entries, name)
       case None => Err(MissingTarget(section, name))
       case Some(JObj(target)) => Ok(target)
       case Some(_) => Err(WrongType(name)))
    case Some(_) => Err(WrongType(section))
  }

  // ----- One node -----

  /** The first half of the function: `pop("$ref")`, look the pointer up and
      `update` the dict with the definition. A dict without `$ref` is left
      as it is; a `$ref` that is not a string cannot be split. */
  function Expand(doc: Fields, fs: Fields): (r: Result<Fields>)
    ensures !HasKey(fs, RefKey) ==> r == Ok(fs)
    ensures Get(fs, RefKey).Some? && !Get(fs, RefKey).value.JStr? ==> r == Err(WrongType(RefKey))
    ensures forall p :: Get(fs, RefKey) == Some(JStr(p)) && '/' !in p ==> r == Err(BadPointer(p))
  {
    match Get(fs, RefKey)
    case None => Ok(fs)
    case Some(JStr(pointer)) =>
      var at :- Pointer(pointer);
      var target :- Lookup(doc, at.0, at.1);
      Ok(Update(Remove(fs, RefKey), target))
    case Some(_) => Err(WrongType(RefKey))
  }

  /** At a `$ref` node every key of the definition takes the definition's
      value, `$ref` is gone unless the definition has one, and every other
      sibling keeps its own value. */
  lemma {:induction false} ExpandPrecedence(doc: Fields, fs: Fields, pointer: string, section: string, name: string, target: Fields)
    requires Get(fs, RefKey) == Some(JStr(pointer))
    requires Pointer(pointer) == Ok((section, name))
    requires Defines(doc, section, name, target)
    ensures Expand(doc, fs).Ok?
    ensures forall k :: Get(Expand(doc, fs).value, k) ==
              if HasKey(target, k) then Get(target, k)
              else if k == RefKey then None
              else Get(fs, k)
  {
    var looked := Lookup(doc, section, name);
    assert looked.Ok?;
    assert looked.value == target by {
      assert Defines(doc, section, name, looked.value);
    }
  }

  /** Fields whose keys are those of `fs`, in the same positions, whose
      dict values are still dicts and whose other values are untouched. */
  predicate SameShape(fs: Fields, rs: Fields)
  {
    |rs| == |fs| &&
    forall i :: 0 <= i < |fs| ==>
      rs[i].0 == fs[i].0 && (if fs[i].1.JObj? then rs[i].1.JObj? else rs[i].1 == fs[i].1)
  }

  // ----- The whole tree -----

  /** `resolve_schema_references(definition)` on the dict `fs`. */
  function ResolveObject(doc: Fields, fs: Fields, fuel: nat): (r: Result<Fields>)
    decreases fuel, 0, 0
  {
    if fuel == 0 then Err(DepthExceeded)
    else
      var expanded :- Expand(doc, fs);
      ResolveValues(doc, expanded, fuel - 1)
  }

  /** The loop over `definition.values()`: dict values are resolved in
      order, the first failure ends the loop, everything else is kept. */
  function ResolveValues(doc: Fields, fs: Fields, fuel: nat): (r: Result<Fields>)
    ensures r.Ok? ==> SameShape(fs, r.value)
    decreases fuel, 1, |fs|
  {
    if |fs| == 0 then Ok([])
    else
      var head :- ResolveValue(doc, fs[0].1, fuel);
      var tail :- ResolveValues(doc, fs[1..], fuel);
      var r := [(fs[0].0, head)] + tail;
      assert forall i :: 1 <= i < |fs| ==> r[i] == tail[i - 1] && fs[i] == fs[1..][i - 1];
      Ok(r)
  }

  /** One value of the loop: a dict is resolved, anything else is kept. */
  function ResolveValue(doc: Fields, j: Json, fuel: nat): (r: Result<Json>)
    ensures r.Ok? ==> (j.JObj? <==> r.value.JObj?)
    ensures r.Ok? && !j.JObj? ==> r.value == j
    decreases fuel, 0, 1
  {
    match j
    case JObj(children) =>
      var resolved :- ResolveObject(doc, children, fuel);
      Ok(JObj(resolved))
    case _ => Ok(j)
  }

  /** Each dict value of the result is that value resolved on its own. */
  lemma {:induction false} ResolvedChild(doc: Fields, fs: Fields, fuel: nat, i: nat)
    requires ResolveValues(doc, fs, fuel).Ok?
    requires i < |fs| && fs[i].1.JObj?
    ensures ResolveObject(doc, fs[i].1.fields, fuel) == Ok(ResolveValues(doc, fs, fuel).value[i].1.fields)
  {
    var r := ResolveValues(doc, fs, fuel).value;
    var tail := ResolveValues(doc, fs[1..], fuel);
    if i > 0 {
      assert fs[1..][i - 1] == fs[i];
      ResolvedChild(doc, fs[1..], fuel, i - 1);
      assert r[i] == tail.value[i - 1];
    }
  }

  /** The Ok result `done + rest`, or the failure `r` unchanged. */
  function Prefixed(done: Fields, r: Result<Fields>): Result<Fields>
  {
    if r.Ok? then Ok(done + r.value) else r
  }

  lemma {:induction false} PrefixedAppend(done: Fields, more: Fields, r: Result<Fields>)
    ensures Prefixed(done, Prefixed(more, r)) == Prefixed(done + more, r)
  {
    if r.Ok? {
      assert done + (more + r.value) == (done + more) + r.value;
    }
  }

  /** One turn of the loop over the values, from position `i` on. */
  lemma {:induction false} ResolveValuesAt(doc: Fields, fs: Fields, fuel: nat, i: nat)
    requires i < |fs|
    ensures ResolveValues(doc, fs[i..], fuel) ==
            match ResolveValue(doc, fs[i].1, fuel)
            case Err(e) => Err(e)
            case Ok(v) => Prefixed([(fs[i].0, v)], ResolveValues(doc, fs[i + 1..], fuel))
  {
    assert fs[i..][0] == fs[i];
    assert fs[i..][1..] == fs[i + 1..];
  }

  /** The loop's invariant carried over one more resolved value. */
  lemma {:induction false} ResolvedOneMore(doc: Fields, fs: Fields, fuel: nat, i: nat, done: Fields, resolved: Json)
    requires i < |fs|
    requires ResolveValues(doc, fs, fuel) == Prefixed(done, ResolveValues(doc, fs[i..], fuel))
    requires ResolveValue(doc, fs[i].1, fuel) == Ok(resolved)
    ensures ResolveValues(doc, fs, fuel) == Prefixed(done + [(fs[i].0, resolved)], ResolveValues(doc, fs[i + 1..], fuel))
  {
    ResolveValuesAt(doc, fs, fuel, i);
    PrefixedAppend(done, [(fs[i].0, resolved)], ResolveValues(doc, fs[i + 1..], fuel));
  }

  /** The function as the source runs it: the node is expanded, then its
      values are walked in place by `ResolveEntries`. */
  method ResolveSchemaReferences(doc: Fields, definition: Fields, fuel: nat) returns (r: Result<Fields>)
    ensures r == ResolveObject(doc, definition, fuel)
    decreases fuel, 0
  {
    if fuel == 0 {
      return Err(DepthExceeded);
    }
    var expanded := Expand(doc, definition);
    if expanded.Err? {
      return Err(expanded.error);
    }
    r := ResolveEntries(doc, expanded.value, fuel - 1);
  }

  /** The loop over the expanded node's values: every dict among them is
      resolved by the recursive call, the first failure is raised at once. */
  method ResolveEntries(doc: Fields, fs: Fields, fuel: nat) returns (r: Result<Fields>)
    ensures r == ResolveValues(doc, fs, fuel)
    decreases fuel, 1
  {
    var done: Fields := [];
    var i := 0;
    assert fs[0..] == fs;
    assert Prefixed([], ResolveValues(doc, fs, fuel)) == ResolveValues(doc, fs, fuel) by {
      var x := ResolveValues(doc, fs, fuel);
      if x.Ok? {
        assert [] + x.value == x.value;
      }
    }
    while i < |fs|
      invariant 0 <= i <= |fs|
      invariant ResolveValues(doc, fs, fuel) == Prefixed(done, ResolveValues(doc, fs[i..], fuel))
    {
      var key, value := fs[i].0, fs[i].1;
      var resolved := value;
      if value.JObj? {
        var child := ResolveSchemaReferences(doc, value.fields, fuel);
        if child.Err? {
          assert ResolveValue(doc, value, fuel) == Err(child.error);
          ResolveValuesAt(doc, fs, fuel, i);
          return Err(child.error);
        }
        resolved := JObj(child.value);
      }
      assert ResolveValue(doc, value, fuel) == Ok(resolved);
      ResolvedOneMore(doc, fs, fuel, i, done, resolved);
      done := done + [(key, resolved)];
      i := i + 1;
    }
    assert fs[i..] == [];
    assert done + [] == done;
    return Ok(done);
  }

  // ----- What resolution promises -----

  /** No dict reachable through dict values holds a `$ref` key; lists are
      not looked into, as the resolver does not enter them. */
  predicate RefFree(fs: Fields)
    decreases JObj(fs)
  {
    !HasKey(fs, RefKey) &&
    forall i :: 0 <= i < |fs| && fs[i].1.JObj? ==> RefFree(fs[i].1.fields)
  }

  /** No definition of the specification has a `$ref` key of its own. */
  ghost predicate NoChainedRefs(doc: Fields)
  {
    forall section, name, t :: Defines(doc, section, name, t) ==> !HasKey(t, RefKey)
  }

  /** The dicts nest at most `levels` deep: a dict without dict values
      needs one level. */
  predicate NestsWithin(fs: Fields, levels: nat)
    decreases levels
  {
    levels >= 1 &&
    forall i :: 0 <= i < |fs| && fs[i].1.JObj? ==> NestsWithin(fs[i].1.fields, levels - 1)
  }

  lemma {:induction false} HasKeyOfSameShape(fs: Fields, rs: Fields, k: string)
    requires SameShape(fs, rs)
    ensures HasKey(rs, k) <==> HasKey(fs, k)
  {
    if HasKey(rs, k) {
      var i :| 0 <= i < |rs| && rs[i].0 == k;
      assert fs[i].0 == k;
    }
    if HasKey(fs, k) {
      var i :| 0 <= i < |fs| && fs[i].0 == k;
      assert rs[i].0 == k;
    }
  }

  lemma {:induction false} RefFreeIntro(fs: Fields)
    requires !HasKey(fs, RefKey)
    requires forall i :: 0 <= i < |fs| && fs[i].1.JObj? ==> RefFree(fs[i].1.fields)
    ensures RefFree(fs)
  {
  }

  lemma {:induction false} ExpandedHasNoRef(doc: Fields, fs: Fields)
    requires NoChainedRefs(doc)
    requires Expand(doc, fs).Ok?
    ensures !HasKey(Expand(doc, fs).value, RefKey)
  {
    if HasKey(fs, RefKey) {
      var pointer := Get(fs, RefKey).value.str;
      var at := Pointer(pointer).value;
      var target := Lookup(doc, at.0, at.1).value;
      ExpandPrecedence(doc, fs, pointer, at.0, at.1, target);
      assert Get(Expand(doc, fs).value, RefKey).None?;
    }
  }

  /** A successful resolution is the resolution of the expanded dict's values. */
  lemma {:induction false} ResolvedObjectOfExpanded(doc: Fields, fs: Fields, fuel: nat)
    requires ResolveObject(doc, fs, fuel).Ok?
    ensures fuel > 0 && Expand(doc, fs).Ok?
    ensures ResolveObject(doc, fs, fuel) == ResolveValues(doc, Expand(doc, fs).value, fuel - 1)
  {
  }

  /** With definitions that bring in no `$ref` of their own, a successful
      resolution leaves no `$ref` in any dict it reaches. */
  lemma {:induction false} ResolveLeavesNoRef(doc: Fields, fs: Fields, fuel: nat)
    requires NoChainedRefs(doc)
    ensures ResolveObject(doc, fs, fuel).Ok? ==> RefFree(ResolveObject(doc, fs, fuel).value)
    decreases fuel, 0, 0
  {
    var r := ResolveObject(doc, fs, fuel);
    if r.Ok? {
      ResolvedObjectOfExpanded(doc, fs, fuel);
      var expanded := Expand(doc, fs).value;
      assert !HasKey(expanded, RefKey) by {
        ExpandedHasNoRef(doc, fs);
      }
      ResolveValuesLeaveNoRef(doc, expanded, fuel - 1);
    }
  }

  lemma {:induction false} ResolveValuesLeaveNoRef(doc: Fields, fs: Fields, fuel: nat)
    requires NoChainedRefs(doc)
    requires !HasKey(fs, RefKey)
    ensures ResolveValues(doc, fs, fuel).Ok? ==> RefFree(ResolveValues(doc, fs, fuel).value)
    decreases fuel, 1, |fs|
  {
    var r := ResolveValues(doc, fs, fuel);
    if r.Ok? {
      forall i | 0 <= i < |r.value| && r.value[i].1.JObj? ensures RefFree(r.value[i].1.fields) {
        assert fs[i].1.JObj?;
        ResolvedChild(doc, fs, fuel, i);
        ResolveLeavesNoRef(doc, fs[i].1.fields, fuel);
      }
      HasKeyOfSameShape(fs, r.value, RefKey);
      RefFreeIntro(r.value);
    }
  }

  /** A tree without `$ref` comes back unchanged, given enough depth:
      resolving twice is resolving once. */
  lemma {:induction false} ResolveRefFreeIsIdentity(doc: Fields, fs: Fields, fuel: nat)
    requires RefFree(fs) && NestsWithin(fs, fuel)
    ensures ResolveObject(doc, fs, fuel) == Ok(fs)
    decreases fuel, 0, 0
  {
    ResolveValuesIdentity(doc, fs, fuel - 1);
  }

  lemma {:induction false} ResolveValuesIdentity(doc: Fields, fs: Fields, fuel: nat)
    requires forall i :: 0 <= i < |fs| && fs[i].1.JObj? ==> RefFree(fs[i].1.fields)
    requires forall i :: 0 <= i < |fs| && fs[i].1.JObj? ==> NestsWithin(fs[i].1.fields, fuel)
    ensures ResolveValues(doc, fs, fuel) == Ok(fs)
    decreases fuel, 1, |fs|
  {
    if |fs| > 0 {
      if fs[0].1.JObj? {
        ResolveRefFreeIsIdentity(doc, fs[0].1.fields, fuel);
      }
      assert forall i :: 1 <= i < |fs| ==> fs[i] == fs[1..][i - 1];
      ResolveValuesIdentity(doc, fs[1..], fuel);
      assert [(fs[0].0, fs[0].1)] + fs[1..] == fs;
    }
  }

  /** Fuel only bounds the depth: a result that is not `DepthExceeded`
      stays the same with more fuel. */
  lemma {:induction false} ResolveMoreFuel(doc: Fields, fs: Fields, fuel: nat)
    requires ResolveObject(doc, fs, fuel) != Err(DepthExceeded)
    ensures ResolveObject(doc, fs, fuel + 1) == ResolveObject(doc, fs, fuel)
    decreases fuel, 0, 0
  {
    var e := Expand(doc, fs);
    if e.Ok? {
      ResolveValuesMoreFuel(doc, e.value, fuel - 1);
    }
  }

  lemma {:induction false} ResolveValuesMoreFuel(doc: Fields, fs: Fields, fuel: nat)
    requires ResolveValues(doc, fs, fuel) != Err(DepthExceeded)
    ensures ResolveValues(doc, fs, fuel + 1) == ResolveValues(doc, fs, fuel)
    decreases fuel, 1, |fs|
  {
    if |fs| > 0 {
      var head := ResolveValue(doc, fs[0].1, fuel);
      if fs[0].1.JObj? {
        if head.Ok? || head != Err(DepthExceeded) {
          ResolveMoreFuel(doc, fs[0].1.fields, fuel);
        }
      }
      if head.Ok? {
        ResolveValuesMoreFuel(doc, fs[1..], fuel);
      }
    }
  }

  lemma {:induction false} GetOfSameShape(fs: Fields, rs: Fields, k: string)
    requires SameShape(fs, rs)
    requires Get(fs, k).Some? && !Get(fs, k).value.JObj?
    ensures Get(rs, k) == Get(fs, k)
  {
    var n := |fs|;
    if fs[n - 1].0 != k {
      assert SameShape(fs[..n - 1], rs[..n - 1]);
      GetOfSameShape(fs[..n - 1], rs[..n - 1], k);
    }
  }

  /** A definition that has a `$ref` of its own keeps it in the result: the
      `update` brings it in after the pop and nothing looks at it again. */
  lemma {:induction false} ChainedRefKept(doc: Fields, fs: Fields, fuel: nat, pointer: string, section: string, name: string,
                       target: Fields, inner: string)
    requires Get(fs, RefKey) == Some(JStr(pointer))
    requires Pointer(pointer) == Ok((section, name))
    requires Defines(doc, section, name, target)
    requires Get(target, RefKey) == Some(JStr(inner))
    requires ResolveObject(doc, fs, fuel).Ok?
    ensures Get(ResolveObject(doc, fs, fuel).value, RefKey) == Some(JStr(inner))
  {
    ExpandPrecedence(doc, fs, pointer, section, name, target);
    var e := Expand(doc, fs).value;
    GetOfSameShape(e, ResolveValues(doc, e, fuel - 1).value, RefKey);
  }

  /** A pointer without `/`, a missing section or definition, or a `$ref`
      that is not a string stops the resolution with that failure. */
  lemma {:induction false} ResolveFailures(doc: Fields, fs: Fields, fuel: nat)
    requires fuel > 0
    ensures Get(fs, RefKey).Some? && !Get(fs, RefKey).value.JStr? ==>
              ResolveObject(doc, fs, fuel) == Err(WrongType(RefKey))
    ensures forall p :: Get(fs, RefKey) == Some(JStr(p)) && '/' !in p ==>
              ResolveObject(doc, fs, fuel) == Err(BadPointer(p))
    ensures forall p, section, name ::
              (Get(fs, RefKey) == Some(JStr(p)) && Pointer(p) == Ok((section, name)) && !HasKey(doc, section)) ==>
              ResolveObject(doc, fs, fuel) == Err(MissingKey(section))
  {
  }
}
