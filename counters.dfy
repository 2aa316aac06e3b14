/**
  A `defaultdict(int)` used as a counter. Python dicts keep their keys in insertion order and the
  evaluation report depends on that order (ties in the category ranking and in the confusion
  listing), so a counter is an association list of entries in first-insertion order.
*/
module Counters {
  import opened Seqs

  datatype Entry = Entry(key: string, count: nat)

  type Counter = seq<Entry>

  function Keys(c: Counter): (ks: seq<string>)
    ensures |ks| == |c| && forall i :: 0 <= i < |c| ==> ks[i] == c[i].key
  {
    seq(|c|, i requires 0 <= i < |c| => c[i].key)
  }

  /** No key is stored twice. */
  predicate Valid(c: Counter) {
    Distinct(Keys(c))
  }

  /** `counter[k]` of a defaultdict: 0 for a key never incremented. */
  function Get(c: Counter, k: string): nat
    decreases |c|
  {
    if c == [] then 0
    else if c[0].key == k then c[0].count
    else Get(c[1..], k)
  }

  /** `sum(counter.values())` */
  function Total(c: Counter): nat
    decreases |c|
  {
    if c == [] then 0 else c[0].count + Total(c[1..])
  }

  /** `counter[k] += 1`: an existing key keeps its place, a new key goes last with count 1. */
  function Inc(c: Counter, k: string): (r: Counter)
    ensures forall j :: Get(r, j) == Get(c, j) + (if j == k then 1 else 0)
    ensures Total(r) == Total(c) + 1
    decreases |c|
  {
    if c == [] then [Entry(k, 1)]
    else if c[0].key == k then [Entry(k, c[0].count + 1)] + c[1..]
    else [c[0]] + Inc(c[1..], k)
  }

  lemma KeysCons(e: Entry, c: Counter)
    ensures Keys([e] + c) == [e.key] + Keys(c)
  {
  }

  lemma {:induction false} IncKeys(c: Counter, k: string)
    ensures Keys(Inc(c, k)) == if k in Keys(c) then Keys(c) else Keys(c) + [k]
    decreases |c|
  {
    if c == [] {
      assert Keys([Entry(k, 1)]) == [k];
    } else {
      assert c == [c[0]] + c[1..];
      KeysCons(c[0], c[1..]);
      if c[0].key != k {
        IncKeys(c[1..], k);
        KeysCons(c[0], Inc(c[1..], k));
      } else {
        KeysCons(Entry(k, c[0].count + 1), c[1..]);
      }
    }
  }

  lemma ValidTail(c: Counter)
    requires Valid(c) && c != []
    ensures Valid(c[1..]) && c[0].key !in Keys(c[1..])
  {
    forall i, j | 0 <= i < j < |c| - 1 ensures Keys(c[1..])[i] != Keys(c[1..])[j] {
      assert Keys(c)[i + 1] != Keys(c)[j + 1];
    }
    forall i | 0 <= i < |c| - 1 ensures Keys(c[1..])[i] != c[0].key {
      assert Keys(c)[0] != Keys(c)[i + 1];
    }
  }

  /** Incrementing keeps every key stored once. */
  lemma IncValid(c: Counter, k: string)
    ensures Valid(c) ==> Valid(Inc(c, k))
  {
    IncKeys(c, k);
    if Valid(c) && k !in Keys(c) {
      DistinctAppend(Keys(c), k);
    }
  }

  /** Increments every key of `ks`, in order. */
  function IncAll(c: Counter, ks: seq<string>): (r: Counter)
    ensures forall j :: Get(r, j) == Get(c, j) + Count(ks, j)
    ensures Total(r) == Total(c) + |ks|
    ensures Valid(c) ==> Valid(r)
    decreases |ks|
  {
    if ks == [] then c else
      var d := IncAll(c, ks[..|ks| - 1]);
      IncValid(d, ks[|ks| - 1]);
      Inc(d, ks[|ks| - 1])
  }

  /** Incrementing one more key at the end. */
  lemma IncAllSnoc(c: Counter, ks: seq<string>, k: string)
    ensures IncAll(c, ks + [k]) == Inc(IncAll(c, ks), k)
  {
    assert (ks + [k])[..|ks|] == ks;
  }

  /** The entries' order is the order in which keys were first incremented. */
  lemma {:induction false} IncAllKeys(c: Counter, ks: seq<string>, k: string)
    requires k in Keys(IncAll(c, ks))
    ensures k in Keys(c) || k in ks
    decreases |ks|
  {
    if ks != [] {
      var init := ks[..|ks| - 1];
      IncKeys(IncAll(c, init), ks[|ks| - 1]);
      if k != ks[|ks| - 1] {
        IncAllKeys(c, init, k);
      }
    }
  }

  /** On a valid counter `Get` reads the entry that holds the key. */
  lemma {:induction false} GetAt(c: Counter, i: nat)
    requires Valid(c) && i < |c|
    ensures Get(c, c[i].key) == c[i].count
    decreases |c|
  {
    if i > 0 {
      assert Keys(c)[0] != Keys(c)[i];
      ValidTail(c);
      GetAt(c[1..], i - 1);
    }
  }

  /** A key that was never incremented reads 0. */
  lemma {:induction false} GetAbsent(c: Counter, k: string)
    requires k !in Keys(c)
    ensures Get(c, k) == 0
    decreases |c|
  {
    if c != [] {
      assert Keys(c) == [c[0].key] + Keys(c[1..]);
      GetAbsent(c[1..], k);
    }
  }
}
