/**
 * File-name extensions: POSIX `os.path.splitext`, ASCII lower-casing and the
 * set of extensions the viewer opens.
 */
module Paths {

  /** The extensions the viewer opens, lower case with the leading dot. */
  const SupportedExtensions: set<string> :=
    {".tif", ".tiff", ".gif", ".png", ".jpeg", ".jpg", ".bmp", ".npz", ".itk"}

  function LowerChar(c: char): (r: char)
  {
    if 'A' <= c <= 'Z' then (c as int - 'A' as int + 'a' as int) as char else c
  }

  /**
   * `str.lower()` restricted to ASCII letters: the result has no upper-case
   * ASCII letter, and every other character is kept where it stands.
   */
  function Lower(s: string): (r: string)
    ensures |r| == |s|
  {
    seq(|s|, i requires 0 <= i < |s| => LowerChar(s[i]))
  }

  /** Lower-casing leaves no upper-case ASCII letter and keeps every other character. */
  lemma LowerFacts(s: string)
    ensures forall i :: 0 <= i < |s| ==> !('A' <= Lower(s)[i] <= 'Z')
    ensures forall i :: 0 <= i < |s| && !('A' <= s[i] <= 'Z') ==> Lower(s)[i] == s[i]
  {
  }

  /**
   * Index of the last occurrence of `c` among the first `n` characters of `s`,
   * or -1; with n = |s| this is `s.rfind(c)`.
   */
  function LastIndexBefore(s: string, c: char, n: nat): int
    requires n <= |s|
  {
    if n == 0 then -1
    else if s[n - 1] == c then n - 1
    else LastIndexBefore(s, c, n - 1)
  }

  /** The index found holds `c`, and no later one among the first `n` does. */
  lemma {:induction false} LastIndexFacts(s: string, c: char, n: nat)
    requires n <= |s|
    ensures -1 <= LastIndexBefore(s, c, n) < n
    ensures LastIndexBefore(s, c, n) >= 0 ==> s[LastIndexBefore(s, c, n)] == c
    ensures forall i :: LastIndexBefore(s, c, n) < i < n ==> s[i] != c
  {
    if n > 0 && s[n - 1] != c {
      LastIndexFacts(s, c, n - 1);
    }
  }

  /** Number of characters of `s` other than '.'. */
  function NonDotCount(s: string): nat {
    if s == [] then 0 else (if s[0] != '.' then 1 else 0) + NonDotCount(s[1..])
  }

  /**
   * The extension `os.path.splitext(p)[-1]` gives on POSIX: from the last dot
   * after the last '/', provided the name before that dot is not made of dots
   * only (so '.bashrc' and '..' have no extension).
   */
  function Extension(p: string): (r: string)
    ensures |r| <= |p|
    ensures r == [] || r[0] == '.'
  {
    LastIndexFacts(p, '/', |p|);
    LastIndexFacts(p, '.', |p|);
    var sep := LastIndexBefore(p, '/', |p|);
    var dot := LastIndexBefore(p, '.', |p|);
    if dot > sep && NonDotCount(p[sep + 1..dot]) > 0 then p[dot..] else p[|p|..]
  }

  /** The extension is a suffix of the path, starts with its dot and lies within the last path component. */
  lemma ExtensionSuffix(p: string)
    ensures |Extension(p)| <= |p| && Extension(p) == p[|p| - |Extension(p)|..]
    ensures Extension(p) == [] || Extension(p)[0] == '.'
    ensures forall i :: 0 <= i < |Extension(p)| ==> Extension(p)[i] != '/'
  {
    LastIndexFacts(p, '/', |p|);
    LastIndexFacts(p, '.', |p|);
    var sep := LastIndexBefore(p, '/', |p|);
    var dot := LastIndexBefore(p, '.', |p|);
    if dot > sep && NonDotCount(p[sep + 1..dot]) > 0 {
      assert Extension(p) == p[dot..];
      forall i | 0 <= i < |Extension(p)| ensures Extension(p)[i] != '/' {
        assert Extension(p)[i] == p[dot + i];
      }
    }
  }

  /** `os.path.splitext(p)[-1].lower() in SUPPORTED_EXTENSIONS`: only a path with an extension passes. */
  predicate IsSupported(p: string)
  {
    Lower(Extension(p)) in SupportedExtensions
  }

  /** Only a path with an extension of at least a dot and three characters passes the test. */
  lemma SupportedHasExtension(p: string)
    requires IsSupported(p)
    ensures |Extension(p)| >= 4 && Extension(p)[0] == '.'
  {
  }

  /**
   * The extension test ignores case; a name made of dots only has no
   * extension; and a dot before the last '/' does not start one.
   */
  lemma SupportedExamples()
    ensures IsSupported("d/s.TIF")
    ensures !IsSupported("d/.tif")
    ensures !IsSupported("x.tif/y")
  {
    var a := "d/s.TIF";
    assert LastIndexBefore(a, '/', 2) == 1;
    assert LastIndexBefore(a, '/', 3) == 1;
    assert LastIndexBefore(a, '/', 4) == 1;
    assert LastIndexBefore(a, '/', 5) == 1;
    assert LastIndexBefore(a, '/', 6) == 1;
    assert LastIndexBefore(a, '/', 7) == 1;
    assert LastIndexBefore(a, '.', 4) == 3;
    assert LastIndexBefore(a, '.', 5) == 3;
    assert LastIndexBefore(a, '.', 6) == 3;
    assert LastIndexBefore(a, '.', 7) == 3;
    assert a[2..3] == "s";
    assert Extension(a) == a[3..] == ".TIF";
    assert Lower(".TIF") == ".tif";
    var b := "d/.tif";
    assert LastIndexBefore(b, '/', 2) == 1;
    assert LastIndexBefore(b, '/', 3) == 1;
    assert LastIndexBefore(b, '/', 4) == 1;
    assert LastIndexBefore(b, '/', 5) == 1;
    assert LastIndexBefore(b, '/', 6) == 1;
    assert LastIndexBefore(b, '.', 3) == 2;
    assert LastIndexBefore(b, '.', 4) == 2;
    assert LastIndexBefore(b, '.', 5) == 2;
    assert LastIndexBefore(b, '.', 6) == 2;
    assert Extension(b) == [];
    var c := "x.tif/y";
    assert LastIndexBefore(c, '/', 6) == 5;
    assert LastIndexBefore(c, '/', 7) == 5;
    assert LastIndexBefore(c, '.', 2) == 1;
    assert LastIndexBefore(c, '.', 3) == 1;
    assert LastIndexBefore(c, '.', 4) == 1;
    assert LastIndexBefore(c, '.', 5) == 1;
    assert LastIndexBefore(c, '.', 6) == 1;
    assert LastIndexBefore(c, '.', 7) == 1;
    assert Extension(c) == [];
  }

  /** Keeps, in order, the elements that satisfy `keep`. */
  function Filter<T>(xs: seq<T>, keep: T -> bool): (r: seq<T>)
    ensures |r| <= |xs|
  {
    if xs == [] then []
    else if keep(xs[0]) then [xs[0]] + Filter(xs[1..], keep)
    else Filter(xs[1..], keep)
  }

  /** Nothing kept is dropped and nothing else is added. */
  lemma {:induction false} FilterMembers<T>(xs: seq<T>, keep: T -> bool, x: T)
    ensures x in Filter(xs, keep) <==> x in xs && keep(x)
  {
    if xs != [] {
      FilterMembers(xs[1..], keep, x);
      assert xs == [xs[0]] + xs[1..];
    }
  }

  /** Filtering a concatenation filters each part in turn: the order of the input is kept. */
  lemma {:induction false} FilterAppend<T>(a: seq<T>, b: seq<T>, keep: T -> bool)
    ensures Filter(a + b, keep) == Filter(a, keep) + Filter(b, keep)
  {
    if a == [] {
      assert a + b == b;
    } else {
      var ab := a + b;
      assert ab[0] == a[0] && ab[1..] == a[1..] + b;
      FilterAppend(a[1..], b, keep);
    }
  }

  /** Filtering one more element keeps it at the end exactly when it is kept. */
  lemma FilterSnoc<T>(xs: seq<T>, x: T, keep: T -> bool)
    ensures keep(x) ==> Filter(xs + [x], keep) == Filter(xs, keep) + [x]
    ensures !keep(x) ==> Filter(xs + [x], keep) == Filter(xs, keep)
  {
    FilterAppend(xs, [x], keep);
    assert [x][1..] == [];
    assert Filter(xs, keep) + [] == Filter(xs, keep);
  }

  /** The names the viewer would open, in their original order. */
  function FilterSupported(names: seq<string>): (r: seq<string>)
    ensures |r| <= |names|
  {
    Filter(names, IsSupported)
  }

  /** A name is in the series exactly when it is listed and its extension is supported. */
  lemma SupportedMembers(names: seq<string>)
    ensures forall x :: x in FilterSupported(names) <==> x in names && IsSupported(x)
  {
    FilterMembersAll(names, IsSupported);
  }

  lemma FilterMembersAll<T>(xs: seq<T>, keep: T -> bool)
    ensures forall x :: x in Filter(xs, keep) <==> x in xs && keep(x)
  {
    forall x { FilterMembers(xs, keep, x); }
  }
}
