/**
 * The two Go library string functions the adapter relies on to derive a file's format:
 * `filepath.Ext` (with the Unix path separator) and `strings.TrimPrefix`.
 */
module GoStrings {

  /** The path separator `filepath` uses on Unix-like systems. */
  const Separator: char := '/'

  /** `s` ends with `suffix`. */
  predicate IsSuffix(suffix: string, s: string) {
    |suffix| <= |s| && s[|s| - |suffix|..] == suffix
  }

  /**
   * The final element of a path: the longest suffix that holds no separator.
   * Either it is the whole path, or a separator stands just before it.
   */
  function FinalElement(p: string): (r: string)
    ensures IsSuffix(r, p) && Separator !in r
    ensures |r| < |p| ==> p[|p| - |r| - 1] == Separator
  {
    if p == [] || p[|p| - 1] == Separator then []
    else
      var init := p[..|p| - 1];
      var r := FinalElement(init) + [p[|p| - 1]];
      assert p == init + [p[|p| - 1]];
      r
  }

  /**
   * `filepath.Ext`: the suffix of `p` that starts at the last dot of its final element,
   * or "" when the final element has no dot. The scan runs from the end of `p` towards
   * its start and stops at the first separator, as the library does.
   */
  function Ext(p: string): (r: string)
    ensures r == [] || (r[0] == '.' && '.' !in r[1..] && Separator !in r && IsSuffix(r, p))
  {
    if p == [] then []
    else
      var c := p[|p| - 1];
      if c == Separator then []
      else if c == '.' then "."
      else
        var init := p[..|p| - 1];
        var e := Ext(init);
        assert p == init + [c];
        if e == [] then []
        else
          assert (e + [c])[1..] == e[1..] + [c];
          e + [c]
  }

  /** `strings.TrimPrefix`: `s` without a leading `prefix`, or `s` itself when it does not start with one. */
  function TrimPrefix(s: string, prefix: string): (r: string)
    ensures if |prefix| <= |s| && s[..|prefix|] == prefix then s == prefix + r else r == s
  {
    if |prefix| <= |s| && s[..|prefix|] == prefix then s[|prefix|..] else s
  }

  /** The extension is empty exactly when the final element of the path holds no dot. */
  lemma {:induction false} ExtEmptyIffNoDot(p: string)
    ensures Ext(p) == [] <==> '.' !in FinalElement(p)
  {
    if p != [] && p[|p| - 1] != Separator && p[|p| - 1] != '.' {
      ExtEmptyIffNoDot(p[..|p| - 1]);
    }
  }

  /** A path that ends in a dot followed by a dot-free, separator-free tail has that tail as extension. */
  lemma {:induction false} ExtOfSplit(stem: string, ext: string)
    requires '.' !in ext && Separator !in ext
    ensures Ext(stem + "." + ext) == "." + ext
  {
    var p := stem + "." + ext;
    if ext == [] {
      assert p == stem + ".";
    } else {
      var init := ext[..|ext| - 1];
      assert init + [ext[|ext| - 1]] == ext;
      ExtOfSplit(stem, init);
      assert p[..|p| - 1] == stem + "." + init;
      assert "." + init + [ext[|ext| - 1]] == "." + ext;
    }
  }

  /** Every non-empty extension arises that way: the path is its stem, a dot, and the extension's tail. */
  lemma ExtSplits(p: string)
    requires Ext(p) != []
    ensures p == p[..|p| - |Ext(p)|] + "." + Ext(p)[1..]
    ensures '.' !in Ext(p)[1..] && Separator !in Ext(p)[1..]
  {
  }

  /** Dots in the directory part do not count: only the final element decides the extension. */
  lemma {:induction false} ExtIgnoresDirectory(dir: string, base: string)
    requires Separator !in base
    ensures Ext(dir + [Separator] + base) == Ext(base)
  {
    var p := dir + [Separator] + base;
    if base == [] {
      assert p == dir + [Separator];
    } else {
      var init := base[..|base| - 1];
      assert init + [base[|base| - 1]] == base;
      assert p[..|p| - 1] == dir + [Separator] + init;
      ExtIgnoresDirectory(dir, init);
    }
  }

  /** A path with no dot at all has no extension. */
  lemma ExtWithoutAnyDot(p: string)
    requires '.' !in p
    ensures Ext(p) == []
  {
  }
}
