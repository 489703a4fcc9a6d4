/**
 * String helpers with Python's meaning: `str.lower` (on ASCII letters), string ordering,
 * `PurePath.name`, `PurePath.suffix`, and `str.split` / `str.join` on one separator.
 */
module Text {

  function LowerChar(c: char): char {
    if 'A' <= c <= 'Z' then (c as int + 32) as char else c
  }

  /** `s.lower()`, for ASCII letters. */
  function Lower(s: string): (r: string)
    ensures |r| == |s|
  {
    seq(|s|, i requires 0 <= i < |s| => LowerChar(s[i]))
  }

  /** Python's `a <= b` on strings: lexicographic by code point. */
  predicate LexLe(a: string, b: string)
    decreases |a|
  {
    |a| == 0 || (|b| > 0 && (a[0] < b[0] || (a[0] == b[0] && LexLe(a[1..], b[1..]))))
  }

  lemma {:induction false} LexLeReflexive(a: string)
    ensures LexLe(a, a)
    decreases |a|
  {
    if |a| > 0 {
      LexLeReflexive(a[1..]);
    }
  }

  lemma {:induction false} LexLeTotal(a: string, b: string)
    ensures LexLe(a, b) || LexLe(b, a)
    decreases |a|
  {
    if |a| > 0 && |b| > 0 && a[0] == b[0] {
      LexLeTotal(a[1..], b[1..]);
    }
  }

  lemma {:induction false} LexLeTransitive(a: string, b: string, c: string)
    requires LexLe(a, b) && LexLe(b, c)
    ensures LexLe(a, c)
    decreases |a|
  {
    if |a| > 0 && |b| > 0 && |c| > 0 && a[0] == b[0] && b[0] == c[0] {
      LexLeTransitive(a[1..], b[1..], c[1..]);
    }
  }

  /** `s.rfind(c)`: the last index holding `c`, or -1. */
  function LastIndexOf(s: string, c: char): (i: int)
    ensures -1 <= i < |s|
    ensures 0 <= i ==> s[i] == c
    ensures forall j :: i < j < |s| ==> s[j] != c
  {
    if |s| == 0 then -1
    else if s[|s| - 1] == c then |s| - 1
    else LastIndexOf(s[..|s| - 1], c)
  }

  /** `PurePath(p).name`: the text after the last '/'. */
  function Name(p: string): (n: string)
    ensures |n| <= |p| && n == p[|p| - |n|..]
    ensures forall j :: 0 <= j < |n| ==> n[j] != '/'
  {
    p[LastIndexOf(p, '/') + 1..]
  }

  /**
   * `PurePath.suffix` of a file name: from its last '.' on, but only when that dot is
   * neither the first nor the last character; otherwise the empty string.
   */
  function Suffix(name: string): (r: string)
    ensures r == "" || (2 <= |r| < |name| && r[0] == '.' && name[|name| - |r|..] == r)
    ensures forall j :: 0 < j < |r| ==> r[j] != '.'
  {
    var i := LastIndexOf(name, '.');
    if 0 < i < |name| - 1 then name[i..] else ""
  }

  /** A stem followed by a dotted extension has that extension as its suffix. */
  lemma SuffixOfStemAndExtension(stem: string, ext: string)
    requires stem != "" && 2 <= |ext| && ext[0] == '.' && '.' !in ext[1..]
    ensures Suffix(stem + ext) == ext
  {
    var name := stem + ext;
    var i := LastIndexOf(name, '.');
    assert name[|stem|] == '.';
    forall j | |stem| < j < |name|
      ensures name[j] != '.'
    {
      assert name[j] == ext[1..][j - |stem| - 1];
    }
    assert i == |stem|;
    assert name[i..] == ext;
  }

  /** A name without a dot has no suffix. */
  lemma NoDotNoSuffix(name: string)
    requires '.' !in name
    ensures Suffix(name) == ""
  {
  }

  /** A hidden name with no further dot, such as `.DS_Store`, has no suffix either. */
  lemma DotfileHasNoSuffix(rest: string)
    requires '.' !in rest
    ensures Suffix("." + rest) == ""
  {
    var name := "." + rest;
    forall j | 0 < j < |name|
      ensures name[j] != '.'
    {
      assert name[j] == rest[j - 1];
    }
  }

  /** `s.split(d)`: the maximal runs of `s` between separators, in order. */
  function Split(s: string, d: char): (parts: seq<string>)
    ensures |parts| >= 1
    ensures forall k :: 0 <= k < |parts| ==> d !in parts[k]
  {
    if s == [] then [""]
    else
      var rest := Split(s[1..], d);
      if s[0] == d then [""] + rest
      else
        assert d !in [s[0]] + rest[0];
        [[s[0]] + rest[0]] + rest[1..]
  }

  /** `d.join(parts)`. */
  function Join(parts: seq<string>, d: char): string {
    if |parts| == 0 then ""
    else if |parts| == 1 then parts[0]
    else parts[0] + [d] + Join(parts[1..], d)
  }

  /** Joining what was split gives the original string back. */
  lemma {:induction false} JoinSplit(s: string, d: char)
    ensures Join(Split(s, d), d) == s
    decreases |s|
  {
    if s != [] {
      var rest := Split(s[1..], d);
      JoinSplit(s[1..], d);
      if s[0] != d && |rest| > 1 {
        assert Join(rest, d) == rest[0] + [d] + Join(rest[1..], d);
        assert Split(s, d)[1..] == rest[1..];
      }
    }
  }

  /** A string splits into one part exactly when it holds no separator. */
  lemma {:induction false} SplitSingle(s: string, d: char)
    ensures Split(s, d) == [s] <==> d !in s
    decreases |s|
  {
    if s != [] {
      SplitSingle(s[1..], d);
      if d !in s {
        assert d !in s[1..];
        var rest := Split(s[1..], d);
        assert rest == [s[1..]];
        assert Split(s, d) == [[s[0]] + s[1..]];
        assert [s[0]] + s[1..] == s;
      } else {
        assert d !in Split(s, d)[0];
      }
    }
  }

  /** The first part of a split is everything before the first separator. */
  lemma {:induction false} SplitHead(a: string, d: char, b: string)
    requires d !in a
    ensures Split(a + [d] + b, d)[0] == a
    decreases |a|
  {
    var s := a + [d] + b;
    if a != [] {
      assert s[1..] == a[1..] + [d] + b;
      SplitHead(a[1..], d, b);
      assert [a[0]] + a[1..] == a;
    }
  }
}
