/**
 * Ordering of query results (`orderBy: { field: "asc" }`): insertion into a sorted list
 * under a total preorder, and the code-point order on strings.
 */
module Sorting {

  /** Any two elements are comparable. */
  ghost predicate Total<T(!new)>(le: (T, T) -> bool) {
    forall a, b :: le(a, b) || le(b, a)
  }

  /** Ascending: every element is ordered before its successor. */
  predicate SortedBy<T>(s: seq<T>, le: (T, T) -> bool) {
    forall i :: 0 <= i < |s| - 1 ==> le(s[i], s[i + 1])
  }

  function Insert<T>(x: T, s: seq<T>, le: (T, T) -> bool): (r: seq<T>)
    ensures |r| == |s| + 1
    ensures r[0] == x || (|s| > 0 && r[0] == s[0])
  {
    if |s| == 0 then [x]
    else if le(x, s[0]) then [x] + s
    else [s[0]] + Insert(x, s[1..], le)
  }

  lemma {:induction false} InsertSorted<T(!new)>(x: T, s: seq<T>, le: (T, T) -> bool)
    requires Total(le) && SortedBy(s, le)
    ensures SortedBy(Insert(x, s, le), le)
    ensures multiset(Insert(x, s, le)) == multiset(s) + multiset{x}
  {
    if |s| > 0 && !le(x, s[0]) {
      InsertSorted(x, s[1..], le);
      assert le(s[0], x);
      var r := Insert(x, s, le);
      assert r == [s[0]] + Insert(x, s[1..], le);
      assert s == [s[0]] + s[1..];
    }
  }

  /** Sorts `s` under `le`; the result is ascending and holds the same elements. */
  function Sort<T(!new)>(s: seq<T>, le: (T, T) -> bool): (r: seq<T>)
    requires Total(le)
    ensures SortedBy(r, le)
    ensures multiset(r) == multiset(s)
  {
    if |s| == 0 then []
    else
      var tail := Sort(s[1..], le);
      InsertSorted(s[0], tail, le);
      assert s == [s[0]] + s[1..];
      Insert(s[0], tail, le)
  }

  /** Code-point (lexicographic) order on strings. */
  predicate StrLe(a: string, b: string) {
    if |a| == 0 then true
    else if |b| == 0 then false
    else if a[0] != b[0] then a[0] < b[0]
    else StrLe(a[1..], b[1..])
  }

  lemma {:induction false} StrLeTotal(a: string, b: string)
    ensures StrLe(a, b) || StrLe(b, a)
  {
    if |a| > 0 && |b| > 0 && a[0] == b[0] {
      StrLeTotal(a[1..], b[1..]);
    }
  }

  lemma {:induction false} StrLeTransitive(a: string, b: string, c: string)
    requires StrLe(a, b) && StrLe(b, c)
    ensures StrLe(a, c)
  {
    if |a| > 0 && |b| > 0 && |c| > 0 && a[0] == b[0] && b[0] == c[0] {
      StrLeTransitive(a[1..], b[1..], c[1..]);
    }
  }

  lemma {:induction false} StrLeAntisymmetric(a: string, b: string)
    requires StrLe(a, b) && StrLe(b, a)
    ensures a == b
  {
    if |a| > 0 && |b| > 0 {
      StrLeAntisymmetric(a[1..], b[1..]);
      assert a == [a[0]] + a[1..] && b == [b[0]] + b[1..];
    }
  }

  /** Any two records are comparable by a string key. */
  lemma StringKeyTotal<T(!new)>(key: T -> string)
    ensures Total((x: T, y: T) => StrLe(key(x), key(y)))
  {
    forall a: T, b: T ensures StrLe(key(a), key(b)) || StrLe(key(b), key(a)) {
      StrLeTotal(key(a), key(b));
    }
  }
}
