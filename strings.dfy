/** The few Python `str` operations the generator relies on, over
    sequences of characters: `split` on one character, `join`, `replace`,
    `startswith`, the `in` substring test, and ASCII case mapping. */
module Strings {

  /** Python's `s.split(sep)` for a one-character separator: every
      occurrence cuts, so empty parts are kept ("a//b" gives "a", "", "b"). */
  function Split(s: string, sep: char): (parts: seq<string>)
    ensures |parts| >= 1
  {
    if |s| == 0 then [""]
    else if s[0] == sep then [""] + Split(s[1..], sep)
    else
      var rest := Split(s[1..], sep);
      [[s[0]] + rest[0]] + rest[1..]
  }

  /** Python's `sep.join(parts)`. */
  function Join(parts: seq<string>, sep: string): string
  {
    if |parts| == 0 then ""
    else if |parts| == 1 then parts[0]
    else parts[0] + sep + Join(parts[1..], sep)
  }

  /** Python's `"".join(parts)`. */
  function Concat(parts: seq<string>): string
  {
    if |parts| == 0 then "" else parts[0] + Concat(parts[1..])
  }

  /** Python's `parts[-1]`. */
  function Last(parts: seq<string>): string
    requires |parts| > 0
  {
    parts[|parts| - 1]
  }

  /** `s` with every occurrence of `c` deleted. */
  function Without(s: string, c: char): (r: string)
  {
    if |s| == 0 then ""
    else (if s[0] == c then "" else [s[0]]) + Without(s[1..], c)
  }

  /** `s` with every occurrence of `c` changed to `d`. */
  function MapChar(s: string, c: char, d: char): (r: string)
  {
    if |s| == 0 then ""
    else [if s[0] == c then d else s[0]] + MapChar(s[1..], c, d)
  }

  /** `s` with every occurrence of the character `c` changed to `rep`, one
      character at a time: the reference meaning of a one-character replace. */
  function ReplaceChar(s: string, c: char, rep: string): (r: string)
  {
    if |s| == 0 then ""
    else (if s[0] == c then rep else [s[0]]) + ReplaceChar(s[1..], c, rep)
  }

  /** Python's `s.replace(pat, rep)` for a non-empty `pat`: the
      occurrences of `pat` found scanning left to right, without overlap,
      are replaced. */
  function ReplaceAll(s: string, pat: string, rep: string): string
    requires |pat| > 0
  {
    if |s| < |pat| then s
    else if s[..|pat|] == pat then rep + ReplaceAll(s[|pat|..], pat, rep)
    else [s[0]] + ReplaceAll(s[1..], pat, rep)
  }

  /** `rep` inserted before every character of `s` and at its end: what
      Python's `s.replace("", rep)` does. */
  function Interleave(s: string, rep: string): string
  {
    if |s| == 0 then rep else rep + [s[0]] + Interleave(s[1..], rep)
  }

  /** Python's `s.replace(pat, rep)`, the empty `pat` included. */
  function PyReplace(s: string, pat: string, rep: string): string
  {
    if |pat| == 0 then Interleave(s, rep) else ReplaceAll(s, pat, rep)
  }

  predicate StartsWith(s: string, prefix: string)
  {
    |prefix| <= |s| && s[..|prefix|] == prefix
  }

  /** Python's `sub in s` for two strings. */
  predicate Contains(s: string, sub: string)
    decreases |s|
  {
    StartsWith(s, sub) || (|s| > 0 && Contains(s[1..], sub))
  }

  /** `str.upper` and `str.lower` restricted to ASCII letters. */
  function Upper(c: char): char
  {
    if 'a' <= c <= 'z' then (c as int - 32) as char else c
  }

  function Lower(c: char): char
  {
    if 'A' <= c <= 'Z' then (c as int + 32) as char else c
  }

  function LowerString(s: string): (r: string)
    ensures |r| == |s|
    ensures forall i :: 0 <= i < |s| ==> r[i] == Lower(s[i])
  {
    if |s| == 0 then "" else [Lower(s[0])] + LowerString(s[1..])
  }

  /** No part of a split holds the separator. */
  lemma {:induction false} SplitPartsLackSeparator(s: string, sep: char)
    ensures forall i :: 0 <= i < |Split(s, sep)| ==> sep !in Split(s, sep)[i]
  {
    if |s| > 0 {
      SplitPartsLackSeparator(s[1..], sep);
    }
  }

  /** Joining the parts of a split with the one-character string `[d]`
      changes each separator into `d`: with `d == sep` this is the round
      trip `Join(Split(s, c), [c]) == s`. */
  lemma {:induction false} JoinSplit(s: string, sep: char, d: char)
    ensures Join(Split(s, sep), [d]) == MapChar(s, sep, d)
  {
    if |s| > 0 {
      var rest := Split(s[1..], sep);
      JoinSplit(s[1..], sep, d);
      if s[0] == sep {
        assert Split(s, sep) == [""] + rest;
        assert ([""] + rest)[1..] == rest;
      } else {
        var parts := [[s[0]] + rest[0]] + rest[1..];
        assert Split(s, sep) == parts;
        if |rest| == 1 {
          assert Join(rest, [d]) == rest[0];
        } else {
          assert parts[1..] == rest[1..];
          assert Join(rest, [d]) == rest[0] + [d] + Join(rest[1..], [d]);
        }
      }
    }
  }

  lemma {:induction false} MapCharIdentity(s: string, c: char)
    ensures MapChar(s, c, c) == s
  {
    if |s| > 0 {
      MapCharIdentity(s[1..], c);
    }
  }

  /** Concatenating the parts of a split deletes the separators. */
  lemma {:induction false} ConcatSplit(s: string, sep: char)
    ensures Concat(Split(s, sep)) == Without(s, sep)
  {
    if |s| > 0 {
      var rest := Split(s[1..], sep);
      ConcatSplit(s[1..], sep);
      if s[0] == sep {
        assert Split(s, sep) == [""] + rest;
        assert ([""] + rest)[1..] == rest;
      } else {
        var parts := [[s[0]] + rest[0]] + rest[1..];
        assert Split(s, sep) == parts;
        assert parts[1..] == rest[1..];
        assert Concat(rest) == rest[0] + Concat(rest[1..]);
      }
    }
  }

  lemma {:induction false} SplitCons(c: char, s: string, sep: char)
    ensures Split([c] + s, sep) ==
            if c == sep then [""] + Split(s, sep)
            else [[c] + Split(s, sep)[0]] + Split(s, sep)[1..]
  {
    assert ([c] + s)[0] == c && ([c] + s)[1..] == s;
  }

  lemma {:induction false} ConsParts(c: char, left: seq<string>, right: seq<string>)
    requires |left| >= 1
    ensures [[c] + (left + right)[0]] + (left + right)[1..] == ([[c] + left[0]] + left[1..]) + right
    ensures [""] + (left + right) == ([""] + left) + right
  {
    assert (left + right)[1..] == left[1..] + right;
  }

  /** Splitting at one occurrence of the separator and then splitting
      both sides gives the same parts as splitting the whole. */
  lemma {:induction false} SplitAtSeparator(a: string, b: string, sep: char)
    ensures Split(a + [sep] + b, sep) == Split(a, sep) + Split(b, sep)
  {
    if |a| == 0 {
      assert a + [sep] + b == [sep] + b;
      SplitCons(sep, b, sep);
    } else {
      var c, t := a[0], a[1..];
      var w := t + [sep] + b;
      SplitAtSeparator(t, b, sep);
      assert a + [sep] + b == [c] + w;
      assert a == [c] + t;
      SplitCons(c, w, sep);
      SplitCons(c, t, sep);
      ConsParts(c, Split(t, sep), Split(b, sep));
    }
  }

  lemma {:induction false} SplitWithoutSeparator(w: string, sep: char)
    requires sep !in w
    ensures Split(w, sep) == [w]
  {
    if |w| > 0 {
      SplitWithoutSeparator(w[1..], sep);
      assert [w[0]] + w[1..] == w;
    }
  }

  /** Python's `replace` of one character is the one-character-at-a-time
      replacement. */
  lemma {:induction false} ReplaceAllOneChar(s: string, c: char, rep: string)
    ensures ReplaceAll(s, [c], rep) == ReplaceChar(s, c, rep)
  {
    if |s| > 0 {
      ReplaceAllOneChar(s[1..], c, rep);
      if s[0] == c {
        assert s[..1] == [c];
      } else {
        assert s[..1] != [c];
      }
    }
  }

  lemma {:induction false} ReplaceCharAppend(a: string, b: string, c: char, rep: string)
    ensures ReplaceChar(a + b, c, rep) == ReplaceChar(a, c, rep) + ReplaceChar(b, c, rep)
  {
    if |a| > 0 {
      ReplaceCharAppend(a[1..], b, c, rep);
      assert (a + b)[1..] == a[1..] + b;
    } else {
      assert a + b == b;
    }
  }

  lemma {:induction false} ReplaceCharAbsent(s: string, c: char, rep: string)
    requires c !in s
    ensures ReplaceChar(s, c, rep) == s
  {
    if |s| > 0 {
      ReplaceCharAbsent(s[1..], c, rep);
    }
  }

  /** A split gives more than one part exactly when the separator occurs. */
  lemma {:induction false} SplitHasOnePart(s: string, sep: char)
    ensures |Split(s, sep)| == 1 <==> sep !in s
  {
    if sep in s {
      var i :| 0 <= i < |s| && s[i] == sep;
      assert s == s[..i] + [sep] + s[i + 1..];
      SplitAtSeparator(s[..i], s[i + 1..], sep);
    } else {
      SplitWithoutSeparator(s, sep);
    }
  }

  lemma {:induction false} JoinSnoc(parts: seq<string>, p: string, sep: string)
    requires |parts| >= 1
    ensures Join(parts + [p], sep) == Join(parts, sep) + sep + p
  {
    if |parts| > 1 {
      JoinSnoc(parts[1..], p, sep);
      assert (parts + [p])[1..] == parts[1..] + [p];
    } else {
      assert (parts + [p])[1..] == [p];
    }
  }

  /** Text without the separator, added at the end, lengthens the last
      part and leaves the number of parts as it was. */
  lemma {:induction false} LastSplitAppend(a: string, b: string, sep: char)
    requires sep !in b
    ensures |Split(a + b, sep)| == |Split(a, sep)|
    ensures Last(Split(a + b, sep)) == Last(Split(a, sep)) + b
  {
    if |a| == 0 {
      assert a + b == b;
      SplitWithoutSeparator(b, sep);
    } else {
      var c, t := a[0], a[1..];
      LastSplitAppend(t, b, sep);
      assert a + b == [c] + (t + b);
      assert a == [c] + t;
      SplitCons(c, t + b, sep);
      SplitCons(c, t, sep);
      var x, y := Split(t + b, sep), Split(t, sep);
      if c == sep {
        LastOfCons([""], x, y, b);
      } else {
        LastOfFirstExtended(c, x, y, b);
      }
    }
  }

  lemma {:induction false} LastOfCons(front: seq<string>, x: seq<string>, y: seq<string>, b: string)
    requires |x| == |y| >= 1 && Last(x) == Last(y) + b
    ensures |front + x| == |front + y| && Last(front + x) == Last(front + y) + b
  {
  }

  lemma {:induction false} LastOfFirstExtended(c: char, x: seq<string>, y: seq<string>, b: string)
    requires |x| == |y| >= 1 && Last(x) == Last(y) + b
    ensures |[[c] + x[0]] + x[1..]| == |[[c] + y[0]] + y[1..]|
    ensures Last([[c] + x[0]] + x[1..]) == Last([[c] + y[0]] + y[1..]) + b
  {
    if |x| == 1 {
      assert ([c] + y[0]) + b == [c] + (y[0] + b);
    }
  }

  predicate EndsWith(s: string, suffix: string)
  {
    |suffix| <= |s| && s[|s| - |suffix|..] == suffix
  }

  /** Upper-casing never produces or removes the punctuation the path
      canonicaliser treats as separators. */
  lemma {:induction false} UpperKeepsPunctuation(c: char)
    ensures Upper(c) in "{}_/" <==> c in "{}_/"
  {
  }

  /** "//" does not occur in "/a/b", so replacing it changes nothing. */
  lemma {:induction false} ReplaceAbsentDoubleSlash()
    ensures PyReplace("/a/b", "//", "") == "/a/b"
  {
    assert "/a/b"[..2][1] == 'a' && "/a/b"[1..] == "a/b";
    assert "a/b"[..2][0] == 'a' && "a/b"[1..] == "/b";
    assert "/b"[..2][1] == 'b' && "/b"[1..] == "b";
    assert ReplaceAll("b", "//", "") == "b";
    assert ReplaceAll("/b", "//", "") == "/b";
    assert ReplaceAll("a/b", "//", "") == "a/b";
  }
}
