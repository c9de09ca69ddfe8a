/** JSON values as the Swagger parser hands them to the generator. A Python
    dict is an ordered sequence of (key, value) entries: its iteration order
    decides which of two body parameters or two success responses wins. */
module Json {
  import opened Results

  datatype Json =
    | JObj(fields: seq<(string, Json)>)
    | JArr(items: seq<Json>)
    | JStr(str: string)
    | JNum(num: int)
    | JBool(b: bool)
    | JNull

  /** The entries of a dict, in iteration order. */
  type Fields = seq<(string, Json)>

  predicate HasKey(fs: Fields, k: string)
  {
    exists i :: 0 <= i < |fs| && fs[i].0 == k
  }

  function Keys(fs: Fields): (ks: set<string>)
    ensures forall k :: k in ks <==> HasKey(fs, k)
  {
    set i | 0 <= i < |fs| :: fs[i].0
  }

  /** `d.get(k)`: the value of the last entry with key `k`, which is the one
      a dict display or a sequence of `d[k] = v` leaves in place. */
  function Get(fs: Fields, k: string): (r: Option<Json>)
    ensures r.Some? <==> HasKey(fs, k)
    ensures r.Some? ==> exists i :: 0 <= i < |fs| && fs[i] == (k, r.value)
  {
    if |fs| == 0 then None
    else if fs[|fs| - 1].0 == k then
      assert fs[|fs| - 1] == (k, fs[|fs| - 1].1);
      Some(fs[|fs| - 1].1)
    else
      var r := Get(fs[..|fs| - 1], k);
      assert HasKey(fs, k) ==> HasKey(fs[..|fs| - 1], k) by {
        if HasKey(fs, k) {
          var i :| 0 <= i < |fs| && fs[i].0 == k;
          assert fs[..|fs| - 1][i].0 == k;
        }
      }
      assert r.Some? ==> exists i :: 0 <= i < |fs| && fs[i] == (k, r.value) by {
        if r.Some? {
          var i :| 0 <= i < |fs| - 1 && fs[..|fs| - 1][i] == (k, r.value);
          assert fs[i] == (k, r.value);
        }
      }
      r
  }

  lemma {:induction false} GetAppend(fs: Fields, k: string, v: Json, k': string)
    ensures Get(fs + [(k, v)], k') == if k' == k then Some(v) else Get(fs, k')
  {
    assert (fs + [(k, v)])[..|fs|] == fs;
  }

  /** `d.pop(k)` on the entries, dropping every entry with key `k`. */
  function Remove(fs: Fields, k: string): (r: Fields)
    ensures !HasKey(r, k)
    ensures forall k' :: k' != k ==> Get(r, k') == Get(fs, k')
    ensures |r| <= |fs|
  {
    if |fs| == 0 then []
    else
      var init := Remove(fs[..|fs| - 1], k);
      var last := fs[|fs| - 1];
      assert fs == fs[..|fs| - 1] + [last];
      forall k' | k' != k ensures Get(fs, k') == (if k' == last.0 then Some(last.1) else Get(fs[..|fs| - 1], k')) {
        GetAppend(fs[..|fs| - 1], last.0, last.1, k');
      }
      if last.0 == k then init
      else
        forall k' ensures Get(init + [last], k') == (if k' == last.0 then Some(last.1) else Get(init, k')) {
          GetAppend(init, last.0, last.1, k');
        }
        assert !HasKey(init + [last], k) by {
          assert Get(init + [last], k) == Get(init, k);
        }
        init + [last]
  }

  /** Every entry with key `k` given the value `v`, in place. */
  function Overwrite(fs: Fields, k: string, v: Json): (r: Fields)
    ensures |r| == |fs|
    ensures forall i :: 0 <= i < |fs| ==> r[i].0 == fs[i].0
    ensures forall k' :: Get(r, k') == if k' == k && HasKey(fs, k) then Some(v) else Get(fs, k')
  {
    if |fs| == 0 then []
    else
      var init := Overwrite(fs[..|fs| - 1], k, v);
      var last := fs[|fs| - 1];
      var e := if last.0 == k then (k, v) else last;
      assert fs == fs[..|fs| - 1] + [last];
      forall k' ensures Get(init + [e], k') == (if k' == e.0 then Some(e.1) else Get(init, k'))
                && Get(fs, k') == (if k' == last.0 then Some(last.1) else Get(fs[..|fs| - 1], k')) {
        GetAppend(init, e.0, e.1, k');
        GetAppend(fs[..|fs| - 1], last.0, last.1, k');
      }
      assert HasKey(fs, k) <==> (last.0 == k || HasKey(fs[..|fs| - 1], k)) by {
        assert Get(fs, k).Some? <==> (last.0 == k || Get(fs[..|fs| - 1], k).Some?);
      }
      init + [e]
  }

  /** `d[k] = v`: an existing key keeps its position, a new one goes last. */
  function Set(fs: Fields, k: string, v: Json): (r: Fields)
    ensures forall k' :: Get(r, k') == if k' == k then Some(v) else Get(fs, k')
  {
    if HasKey(fs, k) then Overwrite(fs, k, v)
    else
      forall k' ensures Get(fs + [(k, v)], k') == if k' == k then Some(v) else Get(fs, k') {
        GetAppend(fs, k, v, k');
      }
      fs + [(k, v)]
  }

  /** `d.update(t)`: the entries of `t` are stored one after another, so a
      key of `t` takes `t`'s value and every other key keeps its own. */
  function Update(fs: Fields, t: Fields): (r: Fields)
    ensures forall k :: Get(r, k) == if HasKey(t, k) then Get(t, k) else Get(fs, k)
  {
    if |t| == 0 then fs
    else
      var last := t[|t| - 1];
      assert t == t[..|t| - 1] + [last];
      forall k ensures Get(t, k) == (if k == last.0 then Some(last.1) else Get(t[..|t| - 1], k)) {
        GetAppend(t[..|t| - 1], last.0, last.1, k);
      }
      Set(Update(fs, t[..|t| - 1]), last.0, last.1)
  }

  /** Python's truth value of a JSON value: empty containers and strings,
      zero, `false` and `null` are false. */
  predicate Truthy(j: Json)
  {
    match j
    case JObj(fs) => |fs| > 0
    case JArr(xs) => |xs| > 0
    case JStr(s) => |s| > 0
    case JNum(n) => n != 0
    case JBool(b) => b
    case JNull => false
  }
}
