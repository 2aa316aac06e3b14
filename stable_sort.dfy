/**
  Python's `sorted(xs, key=f, reverse=True)`: a stable sort, descending by a key. An ascending
  stable sort (`sorted(xs, key=f)`) is the same sort on the negated key.
*/
module StableSort {

  predicate SortedDesc<T>(s: seq<T>, key: T -> real) {
    forall i, j :: 0 <= i < j < |s| ==> key(s[i]) >= key(s[j])
  }

  /** The elements of `s` whose key is `v`, in order. */
  function WithKey<T>(s: seq<T>, key: T -> real, v: real): seq<T>
    decreases |s|
  {
    if s == [] then []
    else (if key(s[0]) == v then [s[0]] else []) + WithKey(s[1..], key, v)
  }

  /** Places `x` before the first element whose key does not exceed its own. */
  function Insert<T>(x: T, s: seq<T>, key: T -> real): seq<T>
    decreases |s|
  {
    if s == [] || key(x) >= key(s[0]) then [x] + s
    else [s[0]] + Insert(x, s[1..], key)
  }

  function Sort<T>(s: seq<T>, key: T -> real): seq<T>
    decreases |s|
  {
    if s == [] then [] else Insert(s[0], Sort(s[1..], key), key)
  }

  lemma {:induction false} InsertPermutes<T>(x: T, s: seq<T>, key: T -> real)
    ensures multiset(Insert(x, s, key)) == multiset([x] + s)
    ensures |Insert(x, s, key)| == |s| + 1
    decreases |s|
  {
    if !(s == [] || key(x) >= key(s[0])) {
      InsertPermutes(x, s[1..], key);
      assert s == [s[0]] + s[1..];
    }
  }

  lemma {:induction false} InsertSorted<T>(x: T, s: seq<T>, key: T -> real)
    requires SortedDesc(s, key)
    ensures SortedDesc(Insert(x, s, key), key)
    decreases |s|
  {
    if !(s == [] || key(x) >= key(s[0])) {
      var t := Insert(x, s[1..], key);
      InsertSorted(x, s[1..], key);
      InsertPermutes(x, s[1..], key);
      forall j | 0 <= j < |t| ensures key(s[0]) >= key(t[j]) {
        var y := t[j];
        assert y in multiset([x] + s[1..]);
        if y != x {
          assert y in s[1..];
          var k :| 0 <= k < |s[1..]| && s[1..][k] == y;
          assert s[k + 1] == y;
        }
      }
      assert Insert(x, s, key) == [s[0]] + t;
    }
  }

  lemma {:induction false} InsertStable<T>(x: T, s: seq<T>, key: T -> real, v: real)
    ensures WithKey(Insert(x, s, key), key, v) == WithKey([x] + s, key, v)
    decreases |s|
  {
    assert ([x] + s)[1..] == s;
    if !(s == [] || key(x) >= key(s[0])) {
      var t := Insert(x, s[1..], key);
      InsertStable(x, s[1..], key, v);
      assert ([s[0]] + t)[1..] == t;
      assert ([x] + s[1..])[1..] == s[1..];
      assert s == [s[0]] + s[1..];
      if key(x) == v {
        assert key(s[0]) != v;
        assert WithKey([x] + s, key, v) == [x] + WithKey(s[1..], key, v);
      }
    }
  }

  /** The sort returns a permutation of its input, ordered by descending key, keeping the input order among equal keys. */
  lemma {:induction false} SortFacts<T>(s: seq<T>, key: T -> real)
    ensures SortedDesc(Sort(s, key), key)
    ensures multiset(Sort(s, key)) == multiset(s)
    ensures forall v :: WithKey(Sort(s, key), key, v) == WithKey(s, key, v)
    ensures |Sort(s, key)| == |s|
    decreases |s|
  {
    if s != [] {
      var t := Sort(s[1..], key);
      SortFacts(s[1..], key);
      InsertSorted(s[0], t, key);
      InsertPermutes(s[0], t, key);
      assert s == [s[0]] + s[1..];
      forall v ensures WithKey(Sort(s, key), key, v) == WithKey(s, key, v) {
        InsertStable(s[0], t, key, v);
        assert ([s[0]] + t)[1..] == t;
      }
    }
  }

  /** Sorting a list that is already in order leaves it unchanged. */
  lemma {:induction false} SortOfSorted<T>(s: seq<T>, key: T -> real)
    requires SortedDesc(s, key)
    ensures Sort(s, key) == s
    decreases |s|
  {
    if s != [] {
      assert SortedDesc(s[1..], key);
      SortOfSorted(s[1..], key);
      assert s == [s[0]] + s[1..];
    }
  }
}
