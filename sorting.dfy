/** Python's stable `sorted(entries, key=...)` for a string-valued key. */
module Sorting {
  import opened Text

  /** The sort key the source gives directory entries: `p.name.lower()`. */
  function NameKey(p: string): string {
    Lower(Name(p))
  }

  predicate SortedBy<T>(s: seq<T>, key: T -> string) {
    forall i, j :: 0 <= i < j < |s| ==> LexLe(key(s[i]), key(s[j]))
  }

  /** Places `x` before the first element whose key is not smaller than its own. */
  function InsertBy<T>(x: T, s: seq<T>, key: T -> string): seq<T> {
    if s == [] then [x]
    else if LexLe(key(x), key(s[0])) then [x] + s
    else [s[0]] + InsertBy(x, s[1..], key)
  }

  /** The order `sorted` produces: ordered by key, and a permutation of `s`. */
  function SortBy<T>(s: seq<T>, key: T -> string): (r: seq<T>)
    ensures SortedBy(r, key)
    ensures multiset(r) == multiset(s)
  {
    if s == [] then []
    else
      var t := SortBy(s[1..], key);
      InsertByPermutes(s[0], t, key);
      InsertBySorted(s[0], t, key);
      assert s == [s[0]] + s[1..];
      InsertBy(s[0], t, key)
  }

  lemma {:induction false} InsertByPermutes<T>(x: T, s: seq<T>, key: T -> string)
    ensures multiset(InsertBy(x, s, key)) == multiset(s) + multiset{x}
    decreases |s|
  {
    if s != [] && !LexLe(key(x), key(s[0])) {
      InsertByPermutes(x, s[1..], key);
      assert s == [s[0]] + s[1..];
    }
  }

  lemma {:induction false} InsertBySorted<T>(x: T, s: seq<T>, key: T -> string)
    requires SortedBy(s, key)
    ensures SortedBy(InsertBy(x, s, key), key)
    decreases |s|
  {
    if s == [] {
    } else if LexLe(key(x), key(s[0])) {
      var r := [x] + s;
      forall i, j | 0 <= i < j < |r|
        ensures LexLe(key(r[i]), key(r[j]))
      {
        if i == 0 && j > 1 {
          LexLeTransitive(key(x), key(s[0]), key(s[j - 1]));
        }
      }
    } else {
      LexLeTotal(key(x), key(s[0]));
      var t := InsertBy(x, s[1..], key);
      InsertBySorted(x, s[1..], key);
      InsertByPermutes(x, s[1..], key);
      var r := [s[0]] + t;
      forall i, j | 0 <= i < j < |r|
        ensures LexLe(key(r[i]), key(r[j]))
      {
        if i == 0 {
          var e := t[j - 1];
          assert e in multiset(t);
          if e != x {
            assert e in multiset(s[1..]);
            var k :| 0 <= k < |s[1..]| && s[1..][k] == e;
            assert s[k + 1] == e;
          }
        } else {
          assert r[i] == t[i - 1] && r[j] == t[j - 1];
        }
      }
    }
  }

  /** The head of the sorted order is an element of `s` whose key is the least. */
  lemma HeadOfSortedIsLeast<T>(s: seq<T>, key: T -> string, x: T)
    requires x in s
    ensures SortBy(s, key) != []
    ensures SortBy(s, key)[0] in s
    ensures LexLe(key(SortBy(s, key)[0]), key(x))
  {
    var r := SortBy(s, key);
    assert x in multiset(r);
    assert r[0] in multiset(s);
    var j :| 0 <= j < |r| && r[j] == x;
    if j == 0 {
      LexLeReflexive(key(x));
    }
  }

  /** Sorting empties only the empty sequence, and its head has the least key of all elements. */
  lemma SortedHead<T>(s: seq<T>, key: T -> string)
    ensures SortBy(s, key) == [] <==> s == []
    ensures s != [] ==> SortBy(s, key)[0] in s && forall x :: x in s ==> LexLe(key(SortBy(s, key)[0]), key(x))
  {
    if s != [] {
      HeadOfSortedIsLeast(s, key, s[0]);
      forall x | x in s
        ensures LexLe(key(SortBy(s, key)[0]), key(x))
      {
        HeadOfSortedIsLeast(s, key, x);
      }
    }
  }
}
