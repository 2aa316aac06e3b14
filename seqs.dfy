/** Facts about lists of strings: `set(xs)`, de-duplication, counting. */
module Seqs {

  /** Python's `set(xs)`. */
  function ToSet(s: seq<string>): (r: set<string>)
    ensures forall x :: x in r <==> x in s
    ensures |r| <= |s|
  {
    if s == [] then {} else
      var r := ToSet(s[..|s| - 1]);
      assert s == s[..|s| - 1] + [s[|s| - 1]];
      r + {s[|s| - 1]}
  }

  predicate Distinct(s: seq<string>) {
    forall i, j :: 0 <= i < j < |s| ==> s[i] != s[j]
  }

  lemma DistinctAppend(d: seq<string>, x: string)
    requires Distinct(d) && x !in d
    ensures Distinct(d + [x])
  {
    forall i, j | 0 <= i < j < |d| + 1 ensures (d + [x])[i] != (d + [x])[j] {
      assert (d + [x])[i] == d[i];
      if j < |d| {
        assert (d + [x])[j] == d[j];
      }
    }
  }

  /** One more element keeps a sequence repeat-free exactly when it is new. */
  lemma DistinctSnoc(d: seq<string>, x: string)
    ensures Distinct(d + [x]) <==> Distinct(d) && x !in d
  {
    var s := d + [x];
    if x in d {
      var i :| 0 <= i < |d| && d[i] == x;
      assert s[i] == s[|d|];
    } else if !Distinct(d) {
      var i, j :| 0 <= i < j < |d| && d[i] == d[j];
      assert s[i] == s[j];
    } else {
      DistinctAppend(d, x);
    }
  }

  /** `len(xs) == len(set(xs))` holds exactly when no element repeats. */
  lemma {:induction false} DistinctIffSetSize(s: seq<string>)
    ensures Distinct(s) <==> |ToSet(s)| == |s|
    decreases |s|
  {
    if s != [] {
      var init, x := s[..|s| - 1], s[|s| - 1];
      assert s == init + [x];
      DistinctIffSetSize(init);
      DistinctSnoc(init, x);
      if x in init {
        assert x in ToSet(init);
      } else {
        assert x !in ToSet(init);
      }
    }
  }

  /** `xs` with repeats removed, keeping each element's first occurrence. */
  function Dedup(s: seq<string>): (r: seq<string>)
    ensures Distinct(r)
    ensures forall x :: x in r <==> x in s
    decreases |s|
  {
    if s == [] then [] else
      var d := Dedup(s[..|s| - 1]);
      var x := s[|s| - 1];
      assert s == s[..|s| - 1] + [x];
      if x in d then d else
        DistinctAppend(d, x);
        d + [x]
  }

  /** Adding one more element at the end: `seen.add(x)`. */
  lemma DedupSnoc(s: seq<string>, x: string)
    ensures Dedup(s + [x]) == if x in Dedup(s) then Dedup(s) else Dedup(s) + [x]
  {
    assert (s + [x])[..|s|] == s;
  }

  /** As many elements as `set(xs)` has. */
  lemma DedupSize(s: seq<string>)
    ensures |Dedup(s)| == |ToSet(s)|
  {
    DistinctIffSetSize(Dedup(s));
    assert ToSet(Dedup(s)) == ToSet(s);
  }

  /** Number of occurrences of `x` in `s` (what `xs.count(x)` returns). */
  function Count(s: seq<string>, x: string): nat
    decreases |s|
  {
    if s == [] then 0
    else Count(s[..|s| - 1], x) + (if s[|s| - 1] == x then 1 else 0)
  }

  lemma {:induction false} CountConcat(a: seq<string>, b: seq<string>, x: string)
    ensures Count(a + b, x) == Count(a, x) + Count(b, x)
    decreases |b|
  {
    if b == [] {
      assert a + b == a;
    } else {
      assert (a + b)[..|a + b| - 1] == a + b[..|b| - 1];
      CountConcat(a, b[..|b| - 1], x);
    }
  }

  lemma {:induction false} CountPositive(s: seq<string>, x: string)
    ensures Count(s, x) > 0 <==> x in s
    decreases |s|
  {
    if s != [] {
      assert s == s[..|s| - 1] + [s[|s| - 1]];
      CountPositive(s[..|s| - 1], x);
    }
  }

  /** Up to one occurrence of each element in a sequence without repeats. */
  lemma {:induction false} CountDistinct(s: seq<string>, x: string)
    requires Distinct(s)
    ensures Count(s, x) == if x in s then 1 else 0
    decreases |s|
  {
    if s != [] {
      var init := s[..|s| - 1];
      assert s == init + [s[|s| - 1]];
      CountDistinct(init, x);
      if s[|s| - 1] == x {
        forall i | 0 <= i < |init| ensures init[i] != x {
          assert s[i] == init[i];
        }
      }
    }
  }

  /** The elements of `s` other than `x`, in order. */
  function Without(s: seq<string>, x: string): (r: seq<string>)
    ensures forall y :: y in r <==> y in s && y != x
    decreases |s|
  {
    if s == [] then []
    else
      var init := s[..|s| - 1];
      assert s == init + [s[|s| - 1]];
      Without(init, x) + (if s[|s| - 1] == x then [] else [s[|s| - 1]])
  }

  /** Removing one element from a repeat-free sequence leaves it repeat-free. */
  lemma {:induction false} WithoutKeepsDistinct(s: seq<string>, x: string)
    requires Distinct(s)
    ensures Distinct(Without(s, x))
    decreases |s|
  {
    if s != [] {
      var init, y := s[..|s| - 1], s[|s| - 1];
      assert s == init + [y];
      DistinctSnoc(init, y);
      WithoutKeepsDistinct(init, x);
      var w := Without(init, x);
      if y != x {
        assert y !in w;
        DistinctSnoc(w, y);
      } else {
        assert w + [] == w;
      }
    }
  }

  /** Removing one element from a repeat-free sequence leaves a repeat-free sequence of `set - {x}`. */
  lemma WithoutDistinct(s: seq<string>, x: string)
    requires Distinct(s)
    ensures Distinct(Without(s, x))
    ensures |Without(s, x)| == |ToSet(s) - {x}|
  {
    WithoutKeepsDistinct(s, x);
    DistinctIffSetSize(Without(s, x));
    assert ToSet(Without(s, x)) == ToSet(s) - {x};
  }
}
