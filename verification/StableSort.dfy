/**
 * A stable descending sort, standing for lodash `orderBy(list, key, 'desc')`.
 * Ascending order is the same sort on the negated key.
 */
module StableSort {

  ghost predicate SortedDesc<T>(s: seq<T>, key: T -> real) {
    forall i, j :: 0 <= i < j < |s| ==> key(s[i]) >= key(s[j])
  }

  /** The members of `s` whose key is `v`, in the order of `s`. */
  ghost function WithKey<T>(s: seq<T>, key: T -> real, v: real): seq<T> {
    if s == [] then []
    else (if key(s[0]) == v then [s[0]] else []) + WithKey(s[1..], key, v)
  }

  /** Puts `x` in front of the first member of the sorted `s` that does not outrank it. */
  function Insert<T>(x: T, s: seq<T>, key: T -> real): (r: seq<T>)
    ensures multiset(r) == multiset(s) + multiset{x}
    ensures |r| == |s| + 1
  {
    if s == [] then [x]
    else if key(x) >= key(s[0]) then [x] + s
    else
      assert s == [s[0]] + s[1..];
      [s[0]] + Insert(x, s[1..], key)
  }

  function SortDesc<T>(s: seq<T>, key: T -> real): (r: seq<T>)
    ensures multiset(r) == multiset(s)
    ensures |r| == |s|
  {
    if s == [] then []
    else
      assert s == [s[0]] + s[1..];
      Insert(s[0], SortDesc(s[1..], key), key)
  }

  lemma {:induction false} InsertSorted<T>(x: T, s: seq<T>, key: T -> real)
    requires SortedDesc(s, key)
    ensures SortedDesc(Insert(x, s, key), key)
  {
    if s != [] && key(x) < key(s[0]) {
      InsertSorted(x, s[1..], key);
      var rest := Insert(x, s[1..], key);
      forall y | y in rest ensures key(s[0]) >= key(y) {
        assert y in multiset(rest);
      }
    }
  }

  lemma {:induction false} SortDescSorted<T>(s: seq<T>, key: T -> real)
    ensures SortedDesc(SortDesc(s, key), key)
  {
    if s != [] {
      SortDescSorted(s[1..], key);
      InsertSorted(s[0], SortDesc(s[1..], key), key);
    }
  }

  lemma WithKeyCons<T>(x: T, s: seq<T>, key: T -> real, v: real)
    ensures WithKey([x] + s, key, v) == (if key(x) == v then [x] else []) + WithKey(s, key, v)
  {
    assert ([x] + s)[1..] == s;
  }

  lemma {:induction false} InsertStable<T>(x: T, s: seq<T>, key: T -> real, v: real)
    ensures WithKey(Insert(x, s, key), key, v) == (if key(x) == v then [x] else []) + WithKey(s, key, v)
  {
    if s == [] || key(x) >= key(s[0]) {
      assert Insert(x, s, key) == [x] + s;
      WithKeyCons(x, s, key, v);
    } else {
      var rest := Insert(x, s[1..], key);
      InsertStable(x, s[1..], key, v);
      WithKeyCons(s[0], rest, key, v);
      if key(x) == v {
        assert WithKey(s, key, v) == WithKey(s[1..], key, v);
        assert WithKey([s[0]] + rest, key, v) == WithKey(rest, key, v);
      } else {
        assert WithKey(rest, key, v) == WithKey(s[1..], key, v);
      }
    }
  }

  /** Members with equal keys keep the order they had. */
  lemma {:induction false} SortDescStable<T>(s: seq<T>, key: T -> real, v: real)
    ensures WithKey(SortDesc(s, key), key, v) == WithKey(s, key, v)
  {
    if s != [] {
      SortDescStable(s[1..], key, v);
      InsertStable(s[0], SortDesc(s[1..], key), key, v);
    }
  }

  /** A list already in order is left as it is. */
  lemma {:induction false} SortDescFixpoint<T>(s: seq<T>, key: T -> real)
    requires SortedDesc(s, key)
    ensures SortDesc(s, key) == s
  {
    if s != [] {
      SortDescFixpoint(s[1..], key);
      assert s == [s[0]] + s[1..];
    }
  }

  /** The same members in the same order for every value of the key. */
  ghost predicate SameByKey<T>(a: seq<T>, b: seq<T>, key: T -> real) {
    forall v :: WithKey(a, key, v) == WithKey(b, key, v)
  }

  /** The sort is the only sorted list that keeps the order of equal keys. */
  lemma {:induction false} SortedStableUnique<T>(a: seq<T>, b: seq<T>, key: T -> real)
    requires SortedDesc(a, key) && SortedDesc(b, key) && SameByKey(a, b, key)
    ensures a == b
  {
    if a == [] {
      HeadKept(b, key);
    } else {
      SameHead(a, b, key);
      SameTails(a, b, key);
      SortedStableUnique(a[1..], b[1..], key);
      assert a == [a[0]] + a[1..] && b == [b[0]] + b[1..];
    }
  }

  lemma SameHead<T>(a: seq<T>, b: seq<T>, key: T -> real)
    requires a != [] && SortedDesc(a, key) && SortedDesc(b, key) && SameByKey(a, b, key)
    ensures b != [] && a[0] == b[0]
  {
    HeadKept(a, key);
    assert WithKey(a, key, key(a[0])) == WithKey(b, key, key(a[0]));
    HeadOutranks(a, b, key);
    HeadOutranks(b, a, key);
    WithKeyTail(a, key, key(a[0]));
    WithKeyTail(b, key, key(a[0]));
  }

  lemma SameTails<T>(a: seq<T>, b: seq<T>, key: T -> real)
    requires a != [] && b != [] && a[0] == b[0] && SameByKey(a, b, key)
    ensures SameByKey(a[1..], b[1..], key)
  {
    forall v ensures WithKey(a[1..], key, v) == WithKey(b[1..], key, v) {
      assert WithKey(a, key, v) == WithKey(b, key, v);
      WithKeyTail(a, key, v);
      WithKeyTail(b, key, v);
    }
  }

  lemma WithKeyTail<T>(s: seq<T>, key: T -> real, v: real)
    requires s != []
    ensures WithKey(s, key, v) == (if key(s[0]) == v then [s[0]] else []) + WithKey(s[1..], key, v)
    ensures WithKey(s[1..], key, v) == if key(s[0]) == v then WithKey(s, key, v)[1..] else WithKey(s, key, v)
  {
  }

  lemma HeadKept<T>(s: seq<T>, key: T -> real)
    ensures s != [] ==> WithKey(s, key, key(s[0])) != []
  {
  }

  lemma {:induction false} HeadOutranks<T>(a: seq<T>, b: seq<T>, key: T -> real)
    requires a != [] && b != [] && SortedDesc(b, key)
    requires SameByKey(a, b, key)
    ensures key(b[0]) >= key(a[0])
  {
    assert WithKey(a, key, key(a[0]))[0] == a[0];
    assert WithKey(a, key, key(a[0])) == WithKey(b, key, key(a[0]));
    WithKeyMember(b, key, key(a[0]));
  }

  lemma {:induction false} WithKeyMember<T>(s: seq<T>, key: T -> real, v: real)
    ensures forall x :: x in WithKey(s, key, v) ==> x in s && key(x) == v
  {
    if s != [] {
      WithKeyMember(s[1..], key, v);
    }
  }
}
