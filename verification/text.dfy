/**
 * The few Python string operations the installer relies on, on `seq<char>`:
 * `str.isspace` per character, `str.startswith`, substring `in`,
 * `str.strip()` and the argument-less `str.split()`.
 */
module Text {

  /** Python's `str.isspace` on one character: the whitespace set that
      `split()` and `strip()` (both without arguments) use. */
  predicate IsSpace(c: char)
  {
    c as int in SpaceCodes
  }

  /** The code points of Python's whitespace characters. */
  const SpaceCodes: set<int> := {
    0x09, 0x0a, 0x0b, 0x0c, 0x0d, 0x1c, 0x1d, 0x1e, 0x1f, 0x20, 0x85, 0xa0, 0x1680,
    0x2000, 0x2001, 0x2002, 0x2003, 0x2004, 0x2005, 0x2006, 0x2007, 0x2008, 0x2009, 0x200a,
    0x2028, 0x2029, 0x202f, 0x205f, 0x3000}

  predicate AllSpace(s: string)
  {
    forall k :: 0 <= k < |s| ==> IsSpace(s[k])
  }

  predicate NoSpace(s: string)
  {
    forall k :: 0 <= k < |s| ==> !IsSpace(s[k])
  }

  /** `s.startswith(prefix)` */
  predicate StartsWith(s: string, prefix: string)
  {
    |prefix| <= |s| && s[..|prefix|] == prefix
  }

  /** The window of `s` starting at `i` spells `needle`. */
  predicate OccursAt(s: string, needle: string, i: int)
  {
    0 <= i <= |s| - |needle| && s[i..i + |needle|] == needle
  }

  /** `needle in s` for two strings. */
  predicate Contains(s: string, needle: string)
  {
    exists i | 0 <= i <= |s| - |needle| :: OccursAt(s, needle, i)
  }

  /** The first index at or after `i` that does not hold whitespace, or `|s|`. */
  function SkipSpace(s: string, i: nat): (j: nat)
    requires i <= |s|
    ensures i <= j <= |s|
    ensures forall k :: i <= k < j ==> IsSpace(s[k])
    ensures j < |s| ==> !IsSpace(s[j])
    decreases |s| - i
  {
    if i == |s| || !IsSpace(s[i]) then i else SkipSpace(s, i + 1)
  }

  /** The end of the run of non-whitespace characters that starts at `i`. */
  function WordEnd(s: string, i: nat): (j: nat)
    requires i <= |s|
    ensures i <= j <= |s|
    ensures forall k :: i <= k < j ==> !IsSpace(s[k])
    ensures j < |s| ==> IsSpace(s[j])
    decreases |s| - i
  {
    if i == |s| || IsSpace(s[i]) then i else WordEnd(s, i + 1)
  }

  /** The start of the run of whitespace that ends at `j`, not going below `lo`. */
  function TrimEnd(s: string, lo: nat, j: nat): (b: nat)
    requires lo <= j <= |s|
    ensures lo <= b <= j
    ensures forall k :: b <= k < j ==> IsSpace(s[k])
    ensures lo < b ==> !IsSpace(s[b - 1])
    decreases j - lo
  {
    if j == lo || !IsSpace(s[j - 1]) then j else TrimEnd(s, lo, j - 1)
  }

  /** Where `s.strip()` starts: after the leading whitespace. */
  function StripStart(s: string): (a: nat)
    ensures a <= |s|
    ensures forall k :: 0 <= k < a ==> IsSpace(s[k])
    ensures a < |s| ==> !IsSpace(s[a])
  {
    SkipSpace(s, 0)
  }

  /** Where `s.strip()` ends: before the trailing whitespace. */
  function StripEnd(s: string): (b: nat)
    ensures StripStart(s) <= b <= |s|
    ensures forall k :: b <= k < |s| ==> IsSpace(s[k])
    ensures StripStart(s) < b ==> !IsSpace(s[b - 1])
  {
    TrimEnd(s, StripStart(s), |s|)
  }

  /** `s.strip()`: leading and trailing whitespace removed. */
  function Strip(s: string): (r: string)
    ensures r == [] <==> AllSpace(s)
    ensures r != [] ==> !IsSpace(r[0]) && !IsSpace(r[|r| - 1])
  {
    s[StripStart(s)..StripEnd(s)]
  }

  /** A string with non-whitespace ends is its own stripped form. */
  lemma StripUnchanged(s: string)
    requires s != [] && !IsSpace(s[0]) && !IsSpace(s[|s| - 1])
    ensures Strip(s) == s
  {
    assert StripStart(s) == 0;
    assert StripEnd(s) == |s|;
  }

  /** Stripping twice strips nothing more. */
  lemma StripIdempotent(s: string)
    ensures Strip(Strip(s)) == Strip(s)
  {
    var r := Strip(s);
    if r != [] {
      StripUnchanged(r);
    }
  }

  /** `s[i..].split()` */
  function FieldsFrom(s: string, i: nat): (r: seq<string>)
    requires i <= |s|
    ensures forall f :: f in r ==> f != [] && NoSpace(f)
    ensures r == [] <==> forall k :: i <= k < |s| ==> IsSpace(s[k])
    decreases |s| - i
  {
    var a := SkipSpace(s, i);
    if a == |s| then []
    else
      var e := WordEnd(s, a);
      assert forall k :: 0 <= k < e - a ==> s[a..e][k] == s[a + k];
      [s[a..e]] + FieldsFrom(s, e)
  }

  /** `s.split()`: the maximal runs of non-whitespace characters, in order. */
  function Fields(s: string): (r: seq<string>)
    ensures forall f :: f in r ==> f != [] && NoSpace(f)
    ensures r == [] <==> AllSpace(s)
  {
    FieldsFrom(s, 0)
  }

  /** `w` is the first field of `s`, starting at index `a`: only whitespace
      before it, and it ends at the end of `s` or at a whitespace character. */
  predicate FirstFieldAt(s: string, a: nat, w: string)
  {
    && a + |w| <= |s|
    && (forall k :: 0 <= k < a ==> IsSpace(s[k]))
    && w != [] && NoSpace(w)
    && s[a..a + |w|] == w
    && (a + |w| == |s| || IsSpace(s[a + |w|]))
  }

  /** A string has at most one first field. */
  lemma FirstFieldUnique(s: string, a: nat, w: string, a': nat, w': string)
    requires FirstFieldAt(s, a, w) && FirstFieldAt(s, a', w')
    ensures a == a' && w == w'
  {
    assert s[a] == w[0] && s[a'] == w'[0];
    assert a == a';
    forall k | a <= k < a + |w|
      ensures !IsSpace(s[k])
    {
      assert s[k] == w[k - a];
    }
    forall k | a' <= k < a' + |w'|
      ensures !IsSpace(s[k])
    {
      assert s[k] == w'[k - a'];
    }
    assert |w| == |w'|;
  }

  /** `s.strip().split()[0]`, when it exists, is the first field of `s`. */
  lemma FirstFieldOfStripped(s: string) returns (a: nat)
    requires !AllSpace(s)
    ensures Fields(Strip(s)) != []
    ensures FirstFieldAt(s, a, Fields(Strip(s))[0])
  {
    a := StripStart(s);
    var b := StripEnd(s);
    var u := Strip(s);
    assert u[0] == s[a];
    assert SkipSpace(u, 0) == 0;
    var e := WordEnd(u, 0);
    var w := Fields(u)[0];
    assert w == u[0..e];
    assert s[a..a + e] == w;
    if e < |u| {
      assert s[a + e] == u[e];
    }
  }

  lemma SliceOfSlice(s: string, a: nat, b: nat, i: nat, j: nat)
    requires a <= b <= |s| && i <= j <= b - a
    ensures s[a..b][i..j] == s[a + i..a + j]
  {
    var inner := s[a..b];
    forall k | 0 <= k < j - i
      ensures inner[i..j][k] == s[a + i..a + j][k]
    {
      assert inner[i..j][k] == inner[i + k] == s[a + i + k];
    }
  }

  /** An occurrence in the stripped string is an occurrence in the original,
      shifted by the leading whitespace. */
  lemma OccurrenceOfStripped(s: string, needle: string, i: int)
    requires OccursAt(Strip(s), needle, i)
    ensures OccursAt(s, needle, i + StripStart(s))
  {
    var a := StripStart(s);
    var b := StripEnd(s);
    var m := |needle|;
    SliceOfSlice(s, a, b, i, i + m);
  }

  lemma ContainsOfStripped(s: string, needle: string)
    requires Contains(Strip(s), needle)
    ensures Contains(s, needle)
  {
    var i :| 0 <= i <= |Strip(s)| - |needle| && OccursAt(Strip(s), needle, i);
    OccurrenceOfStripped(s, needle, i);
  }

  /** An occurrence of a needle with non-whitespace ends starts after the
      leading whitespace and ends before the trailing whitespace. */
  lemma OccurrenceInsideStrip(s: string, needle: string, i: int)
    requires needle != [] && !IsSpace(needle[0]) && !IsSpace(needle[|needle| - 1])
    requires OccursAt(s, needle, i)
    ensures StripStart(s) <= i && i + |needle| <= StripEnd(s)
  {
    var m := |needle|;
    assert s[i] == s[i..i + m][0];
    assert s[i + m - 1] == s[i..i + m][m - 1];
  }

  /** The same occurrence, read in the stripped string. */
  lemma OccurrenceInStripped(s: string, needle: string, i: int)
    requires needle != [] && !IsSpace(needle[0]) && !IsSpace(needle[|needle| - 1])
    requires OccursAt(s, needle, i)
    ensures OccursAt(Strip(s), needle, i - StripStart(s))
  {
    var a := StripStart(s);
    var b := StripEnd(s);
    var m := |needle|;
    OccurrenceInsideStrip(s, needle, i);
    SliceOfSlice(s, a, b, i - a, i - a + m);
  }

  /** An occurrence of a needle with non-whitespace ends lies inside the
      stripped string. */
  lemma ContainsSurvivesStrip(s: string, needle: string)
    requires needle != [] && !IsSpace(needle[0]) && !IsSpace(needle[|needle| - 1])
    requires Contains(s, needle)
    ensures Contains(Strip(s), needle)
  {
    var i :| 0 <= i <= |s| - |needle| && OccursAt(s, needle, i);
    OccurrenceInStripped(s, needle, i);
  }

  /** Whitespace around `s` can neither hide nor reveal a needle that neither
      starts nor ends with whitespace. */
  lemma ContainsIgnoresStrip(s: string, needle: string)
    requires needle != [] && !IsSpace(needle[0]) && !IsSpace(needle[|needle| - 1])
    ensures Contains(Strip(s), needle) <==> Contains(s, needle)
  {
    if Contains(Strip(s), needle) {
      ContainsOfStripped(s, needle);
    }
    if Contains(s, needle) {
      ContainsSurvivesStrip(s, needle);
    }
  }
}
