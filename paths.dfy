/**
 * POSIX `os.path.splitext`: splits a path into a stem and an extension, where the
 * extension is the last dot of the last path component and what follows it, unless the
 * component consists only of leading dots before that one (".bashrc" has no extension).
 */
module Paths {

  /** Python's `str.rfind` for one character: the last index of `c`, or -1. */
  function LastIndexOf(s: string, c: char): (r: int)
    ensures -1 <= r < |s|
    ensures r >= 0 ==> s[r] == c
    ensures forall j :: r < j < |s| ==> s[j] != c
  {
    if |s| == 0 then -1
    else if s[|s| - 1] == c then |s| - 1
    else LastIndexOf(s[..|s| - 1], c)
  }

  /** An extension as splitext returns it: one leading dot, then neither dots nor separators. */
  ghost predicate IsExtension(e: string) {
    |e| > 0 && e[0] == '.' && forall i :: 1 <= i < |e| ==> e[i] != '.' && e[i] != '/'
  }

  /** The last path component of `n` holds a character other than a dot. */
  ghost predicate HasStem(n: string) {
    exists i :: 0 <= i < |n| && n[i] != '.' && n[i] != '/' && forall j :: i < j < |n| ==> n[j] != '/'
  }

  /** `os.path.splitext(p)` with `/` as the only separator. */
  function SplitExt(p: string): (r: (string, string))
    ensures r.0 + r.1 == p
    ensures r.1 != "" ==> IsExtension(r.1) && HasStem(r.0)
  {
    var sep := LastIndexOf(p, '/');
    var dot := LastIndexOf(p, '.');
    if dot > sep && exists i :: sep + 1 <= i < dot && p[i] != '.' then
      var i :| sep + 1 <= i < dot && p[i] != '.';
      assert p[..dot][i] == p[i];
      assert HasStem(p[..dot]);
      (p[..dot], p[dot..])
    else
      (p, "")
  }

  /** Every split into a stem and an extension is the one splitext finds: the split is unique. */
  lemma SplitExtUnique(p: string, n: string, e: string)
    requires n + e == p && IsExtension(e) && HasStem(n)
    ensures SplitExt(p) == (n, e)
  {
    var sep := LastIndexOf(p, '/');
    var dot := LastIndexOf(p, '.');
    assert p[|n|] == '.';
    forall j | |n| < j < |p| ensures p[j] != '.' && p[j] != '/' {
      assert p[j] == e[j - |n|];
    }
    assert dot == |n|;
    var i :| 0 <= i < |n| && n[i] != '.' && n[i] != '/' && forall j :: i < j < |n| ==> n[j] != '/';
    assert p[i] == n[i];
    forall j | i <= j < |n| ensures p[j] != '/' {
      assert p[j] == n[j];
    }
    assert sep < i;
    assert p[..dot] == n && p[dot..] == e;
  }

  /** splitext finds an extension exactly when some stem/extension split of the path exists. */
  lemma SplitExtFindsExtension(p: string)
    ensures SplitExt(p).1 != "" <==> exists k :: 0 <= k <= |p| && IsExtension(p[k..]) && HasStem(p[..k])
  {
  }
}
