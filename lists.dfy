/** List operations the system applies to query results and component props. */
module Lists {

  /** `filter`: the elements `keep` accepts, in order. */
  function Filter<T(!new)>(s: seq<T>, keep: T -> bool): (r: seq<T>)
    ensures |r| <= |s|
  {
    if |s| == 0 then []
    else if keep(s[0]) then [s[0]] + Filter(s[1..], keep)
    else Filter(s[1..], keep)
  }

  /** The filtered list holds exactly the elements `keep` accepts. */
  lemma {:induction false} FilterMembers<T(!new)>(s: seq<T>, keep: T -> bool)
    ensures forall x :: x in Filter(s, keep) <==> x in s && keep(x)
  {
    if |s| > 0 {
      FilterMembers(s[1..], keep);
      assert s == [s[0]] + s[1..];
    }
  }

  /** Filtering keeps the order of the list: it distributes over concatenation. */
  lemma {:induction false} FilterAppend<T(!new)>(a: seq<T>, b: seq<T>, keep: T -> bool)
    ensures Filter(a + b, keep) == Filter(a, keep) + Filter(b, keep)
  {
    if |a| == 0 {
      assert a + b == b;
    } else {
      var ab := a + b;
      assert ab[0] == a[0] && ab[1..] == a[1..] + b;
      FilterAppend(a[1..], b, keep);
      var fa, fb := Filter(a[1..], keep), Filter(b, keep);
      if keep(a[0]) {
        assert Filter(ab, keep) == [a[0]] + (fa + fb);
        assert Filter(a, keep) == [a[0]] + fa;
        assert [a[0]] + (fa + fb) == ([a[0]] + fa) + fb;
      } else {
        assert Filter(ab, keep) == fa + fb;
        assert Filter(a, keep) == fa;
      }
    }
  }

  /** Three filters that split the elements `keep` accepts split the filtered list, element by element. */
  lemma {:induction false} FilterSplit<T(!new)>(s: seq<T>, k1: T -> bool, k2: T -> bool, k3: T -> bool, keep: T -> bool)
    requires forall x :: keep(x) <==> k1(x) || k2(x) || k3(x)
    requires forall x :: !(k1(x) && k2(x)) && !(k1(x) && k3(x)) && !(k2(x) && k3(x))
    ensures multiset(Filter(s, k1)) + multiset(Filter(s, k2)) + multiset(Filter(s, k3)) == multiset(Filter(s, keep))
  {
    if |s| > 0 {
      FilterSplit(s[1..], k1, k2, k3, keep);
    }
  }

  /** A filter keeps the whole list exactly when it accepts every element. */
  lemma {:induction false} FilterKeepsAll<T(!new)>(s: seq<T>, keep: T -> bool)
    ensures |Filter(s, keep)| == |s| <==> forall i :: 0 <= i < |s| ==> keep(s[i])
  {
    if |s| > 0 {
      FilterKeepsAll(s[1..], keep);
      if !keep(s[0]) {
        assert |Filter(s[1..], keep)| <= |s[1..]|;
      }
      if forall i :: 0 <= i < |s[1..]| ==> keep(s[1..][i]) {
        assert forall i :: 1 <= i < |s| ==> keep(s[i]) by {
          forall i | 1 <= i < |s| ensures keep(s[i]) { assert s[i] == s[1..][i - 1]; }
        }
      }
    }
  }
}
