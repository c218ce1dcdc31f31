// Array.prototype.sort with a comparator that subtracts numeric keys: the stable
// ascending order of the keys. Any stable sort gives this result.
module StableSort {

  // Behind every element whose key is not greater.
  function Insert<T>(key: T -> int, s: seq<T>, x: T): seq<T> {
    if s == [] || key(s[|s| - 1]) <= key(x) then s + [x]
    else Insert(key, s[..|s| - 1], x) + [s[|s| - 1]]
  }

  function Sort<T>(key: T -> int, s: seq<T>): seq<T> {
    if s == [] then [] else Insert(key, Sort(key, s[..|s| - 1]), s[|s| - 1])
  }

  predicate Sorted<T>(key: T -> int, s: seq<T>) {
    forall i, j :: 0 <= i < j < |s| ==> key(s[i]) <= key(s[j])
  }

  predicate StrictlySorted<T>(key: T -> int, s: seq<T>) {
    forall i, j :: 0 <= i < j < |s| ==> key(s[i]) < key(s[j])
  }

  function Filter<T>(p: T -> bool, s: seq<T>): seq<T> {
    if s == [] then [] else Filter(p, s[..|s| - 1]) + (if p(s[|s| - 1]) then [s[|s| - 1]] else [])
  }

  lemma {:induction false} FilterKeepsExactly<T>(p: T -> bool, s: seq<T>, x: T)
    ensures x in Filter(p, s) <==> x in s && p(x)
  {
    if s != [] {
      FilterKeepsExactly(p, s[..|s| - 1], x);
      assert s == s[..|s| - 1] + [s[|s| - 1]];
    }
  }

  // ---------------------------------------------------------------------

  lemma {:induction false} InsertAdds<T>(key: T -> int, s: seq<T>, x: T)
    ensures multiset(Insert(key, s, x)) == multiset(s) + multiset{x} && |Insert(key, s, x)| == |s| + 1
  {
    if !(s == [] || key(s[|s| - 1]) <= key(x)) {
      InsertAdds(key, s[..|s| - 1], x);
      assert s == s[..|s| - 1] + [s[|s| - 1]];
    }
  }

  lemma {:induction false} InsertMember<T>(key: T -> int, s: seq<T>, x: T, y: T)
    ensures y in Insert(key, s, x) <==> y in s || y == x
  {
    InsertAdds(key, s, x);
    assert y in Insert(key, s, x) <==> y in multiset(Insert(key, s, x));
    assert y in s <==> y in multiset(s);
  }

  lemma {:induction false} InsertSorts<T>(key: T -> int, s: seq<T>, x: T)
    requires Sorted(key, s)
    ensures Sorted(key, Insert(key, s, x))
  {
    if !(s == [] || key(s[|s| - 1]) <= key(x)) {
      var front := s[..|s| - 1];
      InsertSorts(key, front, x);
      forall i | 0 <= i < |Insert(key, front, x)|
        ensures key(Insert(key, front, x)[i]) <= key(s[|s| - 1])
      {
        InsertMember(key, front, x, Insert(key, front, x)[i]);
      }
    }
  }

  lemma {:induction false} SortPermutes<T>(key: T -> int, s: seq<T>)
    ensures multiset(Sort(key, s)) == multiset(s) && |Sort(key, s)| == |s|
  {
    if s != [] {
      SortPermutes(key, s[..|s| - 1]);
      InsertAdds(key, Sort(key, s[..|s| - 1]), s[|s| - 1]);
      assert s == s[..|s| - 1] + [s[|s| - 1]];
    }
  }

  lemma SortMember<T>(key: T -> int, s: seq<T>, x: T)
    ensures x in Sort(key, s) <==> x in s
  {
    SortPermutes(key, s);
    assert x in Sort(key, s) <==> x in multiset(Sort(key, s));
    assert x in s <==> x in multiset(s);
  }

  lemma {:induction false} SortSorts<T>(key: T -> int, s: seq<T>)
    ensures Sorted(key, Sort(key, s))
  {
    if s != [] {
      SortSorts(key, s[..|s| - 1]);
      InsertSorts(key, Sort(key, s[..|s| - 1]), s[|s| - 1]);
    }
  }

  lemma {:induction false} SortedIsFixed<T>(key: T -> int, s: seq<T>)
    requires Sorted(key, s)
    ensures Sort(key, s) == s
  {
    if s != [] {
      SortedIsFixed(key, s[..|s| - 1]);
      assert s == s[..|s| - 1] + [s[|s| - 1]];
    }
  }

  // ---------------------------------------------------------------------
  // Sorting and selecting commute, so elements not told apart by their keys keep
  // their order.

  lemma FilterSnoc<T>(p: T -> bool, s: seq<T>, x: T)
    ensures Filter(p, s + [x]) == Filter(p, s) + (if p(x) then [x] else [])
  {
    assert (s + [x])[..|s|] == s;
  }

  lemma {:induction false} InsertBehindGreatest<T>(key: T -> int, s: seq<T>, x: T)
    requires forall y :: y in s ==> key(y) <= key(x)
    ensures Insert(key, s, x) == s + [x]
  {
    if s != [] {
      assert s[|s| - 1] in s;
    }
  }

  lemma {:induction false} InsertSnoc<T>(key: T -> int, s: seq<T>, x: T, y: T)
    requires key(x) < key(y)
    ensures Insert(key, s + [y], x) == Insert(key, s, x) + [y]
  {
    assert (s + [y])[..|s|] == s;
  }

  lemma {:induction false} FilterInsert<T>(key: T -> int, p: T -> bool, s: seq<T>, x: T)
    requires Sorted(key, s)
    ensures Filter(p, Insert(key, s, x)) == if p(x) then Insert(key, Filter(p, s), x) else Filter(p, s)
  {
    if s == [] || key(s[|s| - 1]) <= key(x) {
      FilterSnoc(p, s, x);
      forall y | y in Filter(p, s) ensures key(y) <= key(x) {
        FilterKeepsExactly(p, s, y);
      }
      InsertBehindGreatest(key, Filter(p, s), x);
    } else {
      var front, last := s[..|s| - 1], s[|s| - 1];
      FilterInsert(key, p, front, x);
      FilterSnoc(p, Insert(key, front, x), last);
      InsertSnoc(key, Filter(p, front), x, last);
      assert Filter(p, s) == Filter(p, front) + (if p(last) then [last] else []);
      if !p(last) {
        assert Filter(p, s) == Filter(p, front);
        assert Filter(p, Insert(key, s, x)) == Filter(p, Insert(key, front, x));
      }
    }
  }

  lemma {:induction false} SortFilter<T>(key: T -> int, p: T -> bool, s: seq<T>)
    ensures Filter(p, Sort(key, s)) == Sort(key, Filter(p, s))
  {
    if s != [] {
      var front, last := s[..|s| - 1], s[|s| - 1];
      SortFilter(key, p, front);
      SortSorts(key, front);
      FilterInsert(key, p, Sort(key, front), last);
      assert Filter(p, s) == Filter(p, front) + (if p(last) then [last] else []);
      if p(last) {
        assert Filter(p, s)[..|Filter(p, front)|] == Filter(p, front);
        assert Filter(p, s)[|Filter(p, s)| - 1] == last;
      } else {
        assert Filter(p, s) == Filter(p, front);
      }
    }
  }

  function AtKey<T>(key: T -> int, k: int, s: seq<T>): seq<T> {
    Filter(x => key(x) == k, s)
  }

  lemma AtKeyMember<T>(key: T -> int, k: int, s: seq<T>, x: T)
    ensures x in AtKey(key, k, s) <==> x in s && key(x) == k
  {
    FilterKeepsExactly(y => key(y) == k, s, x);
  }

  lemma AtKeyLast<T>(key: T -> int, k: int, s: seq<T>)
    requires s != []
    ensures AtKey(key, k, s) == AtKey(key, k, s[..|s| - 1]) + (if key(s[|s| - 1]) == k then [s[|s| - 1]] else [])
  {
  }

  lemma InsertAtKey<T>(key: T -> int, k: int, s: seq<T>, x: T)
    requires Sorted(key, s)
    ensures AtKey(key, k, Insert(key, s, x)) == AtKey(key, k, s) + (if key(x) == k then [x] else [])
  {
    var p := y => key(y) == k;
    FilterInsert(key, p, s, x);
    forall y | y in Filter(p, s) ensures key(y) == k {
      FilterKeepsExactly(p, s, y);
    }
    if key(x) == k {
      InsertBehindGreatest(key, Filter(p, s), x);
    }
  }

  ghost predicate SameAtEveryKey<T(!new)>(key: T -> int, a: seq<T>, b: seq<T>) {
    forall k: int :: AtKey(key, k, a) == AtKey(key, k, b)
  }

  lemma SortIsStable<T(!new)>(key: T -> int, s: seq<T>)
    ensures SameAtEveryKey(key, Sort(key, s), s)
  {
    forall k: int ensures AtKey(key, k, Sort(key, s)) == AtKey(key, k, s) {
      var p := x => key(x) == k;
      SortFilter(key, p, s);
      forall i | 0 <= i < |Filter(p, s)| ensures key(Filter(p, s)[i]) == k {
        FilterKeepsExactly(p, s, Filter(p, s)[i]);
      }
      SortedIsFixed(key, Filter(p, s));
    }
  }

  lemma SnocsEqual<T>(key: T -> int, k: int, a: seq<T>, b: seq<T>)
    requires a != [] && b != [] && a[|a| - 1] == b[|b| - 1] && AtKey(key, k, a) == AtKey(key, k, b)
    ensures AtKey(key, k, a[..|a| - 1]) == AtKey(key, k, b[..|b| - 1])
  {
    AtKeyLast(key, k, a);
    AtKeyLast(key, k, b);
    var tail := if key(a[|a| - 1]) == k then [a[|a| - 1]] else [];
    assert AtKey(key, k, a[..|a| - 1]) == AtKey(key, k, a)[..|AtKey(key, k, a)| - |tail|];
    assert AtKey(key, k, b[..|b| - 1]) == AtKey(key, k, b)[..|AtKey(key, k, b)| - |tail|];
  }

  lemma {:induction false} SameSortedSequence<T(!new)>(key: T -> int, a: seq<T>, b: seq<T>)
    requires Sorted(key, a) && Sorted(key, b) && SameAtEveryKey(key, a, b)
    ensures a == b
    decreases |a| + |b|
  {
    if a == [] && b == [] {
    } else {
      var k := if b == [] || (a != [] && key(b[|b| - 1]) <= key(a[|a| - 1])) then key(a[|a| - 1]) else key(b[|b| - 1]);
      var last := if a != [] && key(a[|a| - 1]) == k then a[|a| - 1] else b[|b| - 1];
      assert AtKey(key, k, a) == AtKey(key, k, b);
      AtKeyMember(key, k, a, last);
      AtKeyMember(key, k, b, last);
      assert a != [] && b != [] && key(a[|a| - 1]) == k && key(b[|b| - 1]) == k;
      var fa, fb := a[..|a| - 1], b[..|b| - 1];
      AtKeyLast(key, k, a);
      AtKeyLast(key, k, b);
      assert a[|a| - 1] == AtKey(key, k, a)[|AtKey(key, k, a)| - 1] == b[|b| - 1];
      forall j: int ensures AtKey(key, j, fa) == AtKey(key, j, fb) {
        SnocsEqual(key, j, a, b);
      }
      SameSortedSequence(key, fa, fb);
      assert a == fa + [a[|a| - 1]] && b == fb + [b[|b| - 1]];
    }
  }

  // The result of a sort is fixed by what a stable sort promises.
  lemma StableSortIsUnique<T(!new)>(key: T -> int, s: seq<T>, r: seq<T>)
    ensures Sorted(key, r) && SameAtEveryKey(key, r, s) <==> r == Sort(key, s)
  {
    SortIsStable(key, s);
    SortSorts(key, s);
    if Sorted(key, r) && SameAtEveryKey(key, r, s) {
      assert SameAtEveryKey(key, r, Sort(key, s));
      SameSortedSequence(key, r, Sort(key, s));
    }
  }

  // ---------------------------------------------------------------------
  // Distinct keys: a strictly sorted sequence is its set of elements.

  ghost predicate DistinctKeys<T(!new)>(key: T -> int, s: seq<T>) {
    forall i, j :: 0 <= i < j < |s| ==> key(s[i]) != key(s[j])
  }

  lemma {:induction false} InsertSortsStrictly<T>(key: T -> int, s: seq<T>, x: T)
    requires StrictlySorted(key, s) && forall y :: y in s ==> key(y) != key(x)
    ensures StrictlySorted(key, Insert(key, s, x))
  {
    if !(s == [] || key(s[|s| - 1]) <= key(x)) {
      var front := s[..|s| - 1];
      InsertSortsStrictly(key, front, x);
      forall i | 0 <= i < |Insert(key, front, x)|
        ensures key(Insert(key, front, x)[i]) < key(s[|s| - 1])
      {
        InsertMember(key, front, x, Insert(key, front, x)[i]);
      }
    } else if s != [] {
      assert s[|s| - 1] in s;
    }
  }

  lemma {:induction false} SortSortsStrictly<T(!new)>(key: T -> int, s: seq<T>)
    requires DistinctKeys(key, s)
    ensures StrictlySorted(key, Sort(key, s))
  {
    if s != [] {
      var front, last := s[..|s| - 1], s[|s| - 1];
      SortSortsStrictly(key, front);
      forall y | y in Sort(key, front) ensures key(y) != key(last) {
        SortMember(key, front, y);
      }
      InsertSortsStrictly(key, Sort(key, front), last);
    }
  }

  lemma {:induction false} SameElementsSameSequence<T(!new)>(key: T -> int, a: seq<T>, b: seq<T>)
    requires StrictlySorted(key, a) && StrictlySorted(key, b)
    requires forall x :: x in a <==> x in b
    ensures a == b
  {
    if a == [] {
      assert forall i :: 0 <= i < |b| ==> b[i] in a;
    } else {
      assert a[|a| - 1] in a && b[|b| - 1] in b;
      var fa, fb := a[..|a| - 1], b[..|b| - 1];
      assert a == fa + [a[|a| - 1]] && b == fb + [b[|b| - 1]];
      assert a[|a| - 1] == b[|b| - 1];
      forall x ensures x in fa <==> x in fb {
        assert x in a <==> x in fa || x == a[|a| - 1];
        assert x in b <==> x in fb || x == b[|b| - 1];
      }
      SameElementsSameSequence(key, fa, fb);
    }
  }
}
