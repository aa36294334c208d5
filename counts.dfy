/**
 * A Python dict of counts (`d[k] = d.get(k, 0) + 1`), kept as a list of
 * (key, count) pairs in insertion order, which is the order Python iterates it in.
 */
module Counts {

  type Counter<K> = seq<(K, nat)>

  predicate DistinctKeys<K(==)>(c: Counter<K>)
  {
    forall i, j :: 0 <= i < j < |c| ==> c[i].0 != c[j].0
  }

  function Keys<K>(c: Counter<K>): set<K>
  {
    set i | 0 <= i < |c| :: c[i].0
  }

  /** `d.get(k, 0)`. */
  function Get<K(==)>(c: Counter<K>, k: K): nat
  {
    if c == [] then 0 else if c[0].0 == k then c[0].1 else Get(c[1..], k)
  }

  /** `d[k] = d.get(k, 0) + 1`: bump an existing entry in place, or append a new one. */
  function Increment<K(==)>(c: Counter<K>, k: K): Counter<K>
  {
    if c == [] then [(k, 1)]
    else if c[0].0 == k then [(k, c[0].1 + 1)] + c[1..]
    else [c[0]] + Increment(c[1..], k)
  }

  /** `sum(d.values())`. */
  function Total<K>(c: Counter<K>): nat
  {
    if c == [] then 0 else c[0].1 + Total(c[1..])
  }

  /** The number of times `k` occurs in `ks`. */
  function Occurrences<K(==)>(ks: seq<K>, k: K): nat
  {
    if ks == [] then 0 else (if ks[0] == k then 1 else 0) + Occurrences(ks[1..], k)
  }

  /** The dict a counting loop builds from the keys `ks`, visited in order. */
  function Tally<K(==)>(ks: seq<K>): Counter<K>
  {
    if ks == [] then [] else Increment(Tally(ks[..|ks| - 1]), ks[|ks| - 1])
  }

  lemma {:induction false} IncrementFacts<K>(c: Counter<K>, k: K)
    requires DistinctKeys(c)
    ensures DistinctKeys(Increment(c, k))
    ensures Keys(Increment(c, k)) == Keys(c) + {k}
    ensures Total(Increment(c, k)) == Total(c) + 1
    ensures forall x :: Get(Increment(c, k), x) == Get(c, x) + (if x == k then 1 else 0)
  {
    IncrementDistinct(c, k);
    IncrementKeys(c, k);
    IncrementTotal(c, k);
    forall x ensures Get(Increment(c, k), x) == Get(c, x) + (if x == k then 1 else 0) {
      IncrementGet(c, k, x);
    }
  }

  lemma KeysCons<K>(c: Counter<K>)
    requires c != []
    ensures Keys(c) == {c[0].0} + Keys(c[1..])
  {
    forall x | x in Keys(c) ensures x in {c[0].0} + Keys(c[1..]) {
      var i :| 0 <= i < |c| && c[i].0 == x;
      if i > 0 { assert c[1..][i - 1].0 == x; }
    }
    forall x | x in Keys(c[1..]) ensures x in Keys(c) {
      var i :| 0 <= i < |c[1..]| && c[1..][i].0 == x;
      assert c[i + 1].0 == x;
    }
  }

  lemma {:induction false} IncrementKeys<K>(c: Counter<K>, k: K)
    ensures Keys(Increment(c, k)) == Keys(c) + {k}
  {
    var r := Increment(c, k);
    if c == [] {
      assert r == [(k, 1)];
      KeysCons(r);
    } else if c[0].0 == k {
      KeysCons(c);
      KeysCons(r);
      assert r[1..] == c[1..];
    } else {
      IncrementKeys(c[1..], k);
      KeysCons(c);
      KeysCons(r);
      assert r[1..] == Increment(c[1..], k);
    }
  }

  lemma {:induction false} IncrementDistinct<K>(c: Counter<K>, k: K)
    requires DistinctKeys(c)
    ensures DistinctKeys(Increment(c, k))
  {
    var r := Increment(c, k);
    if c != [] && c[0].0 != k {
      var rest := Increment(c[1..], k);
      assert r == [c[0]] + rest;
      assert DistinctKeys(c[1..]) by {
        forall i, j | 0 <= i < j < |c[1..]| ensures c[1..][i].0 != c[1..][j].0 {
          assert c[1..][i] == c[i + 1] && c[1..][j] == c[j + 1];
        }
      }
      IncrementDistinct(c[1..], k);
      IncrementKeys(c[1..], k);
      assert c[0].0 !in Keys(c[1..]) by {
        forall m | 0 <= m < |c[1..]| ensures c[1..][m].0 != c[0].0 {
          assert c[1..][m] == c[m + 1];
        }
      }
      forall i, j | 0 <= i < j < |r| ensures r[i].0 != r[j].0 {
        if i == 0 {
          assert r[j] == rest[j - 1];
          assert rest[j - 1].0 in Keys(rest);
        } else {
          assert r[i] == rest[i - 1] && r[j] == rest[j - 1];
        }
      }
    } else if c != [] {
      forall i | 0 <= i < |r| ensures r[i].0 == c[i].0 {
      }
    }
  }

  lemma {:induction false} IncrementTotal<K>(c: Counter<K>, k: K)
    ensures Total(Increment(c, k)) == Total(c) + 1
  {
    if c != [] && c[0].0 != k {
      IncrementTotal(c[1..], k);
      assert Increment(c, k)[1..] == Increment(c[1..], k);
    } else if c != [] {
      assert Increment(c, k)[1..] == c[1..];
    }
  }

  lemma {:induction false} IncrementGet<K>(c: Counter<K>, k: K, x: K)
    ensures Get(Increment(c, k), x) == Get(c, x) + (if x == k then 1 else 0)
  {
    if c != [] && c[0].0 != k {
      IncrementGet(c[1..], k, x);
      assert Increment(c, k)[1..] == Increment(c[1..], k);
    } else if c != [] {
      assert Increment(c, k)[1..] == c[1..];
    }
  }

  /** Counting a key sequence stores each key's number of occurrences, and the counts add up to its length. */
  lemma {:induction false} TallyFacts<K>(ks: seq<K>)
    ensures DistinctKeys(Tally(ks))
    ensures forall x :: x in Keys(Tally(ks)) <==> x in ks
    ensures Total(Tally(ks)) == |ks|
    ensures forall x :: Get(Tally(ks), x) == Occurrences(ks, x)
  {
    if ks != [] {
      var init, last := ks[..|ks| - 1], ks[|ks| - 1];
      TallyFacts(init);
      IncrementFacts(Tally(init), last);
      assert ks == init + [last];
      forall x ensures Occurrences(ks, x) == Occurrences(init, x) + (if x == last then 1 else 0) {
        OccurrencesAppend(init, [last], x);
      }
    }
  }

  lemma {:induction false} OccurrencesAppend<K>(a: seq<K>, b: seq<K>, x: K)
    ensures Occurrences(a + b, x) == Occurrences(a, x) + Occurrences(b, x)
  {
    if a != [] {
      assert (a + b)[1..] == a[1..] + b;
      OccurrencesAppend(a[1..], b, x);
    } else {
      assert a + b == b;
    }
  }

  /** `sum(d.get(l, 0) for l in labels)`. */
  function SumGets<K(==)>(c: Counter<K>, labels: seq<K>): nat
  {
    if labels == [] then 0 else Get(c, labels[0]) + SumGets(c, labels[1..])
  }

  /** `sum(v for k, v in d.items() if k not in excluded)`. */
  function SumExcept<K(==)>(c: Counter<K>, excluded: seq<K>): nat
  {
    if c == [] then 0 else (if c[0].0 in excluded then 0 else c[0].1) + SumExcept(c[1..], excluded)
  }

  predicate Distinct<K(==)>(s: seq<K>)
  {
    forall i, j :: 0 <= i < j < |s| ==> s[i] != s[j]
  }

  /** The entry of `c` with key `k` dropped. */
  function Remove<K(==)>(c: Counter<K>, k: K): Counter<K>
  {
    if c == [] then [] else if c[0].0 == k then Remove(c[1..], k) else [c[0]] + Remove(c[1..], k)
  }

  lemma {:induction false} RemoveFacts<K>(c: Counter<K>, k: K)
    requires DistinctKeys(c)
    ensures DistinctKeys(Remove(c, k))
    ensures Total(Remove(c, k)) + Get(c, k) == Total(c)
    ensures forall x :: x != k ==> Get(Remove(c, k), x) == Get(c, x)
    ensures Get(Remove(c, k), k) == 0
    ensures forall ex :: SumExcept(Remove(c, k), ex) + (if k in ex then 0 else Get(c, k)) == SumExcept(c, ex)
    ensures forall x :: x in Keys(Remove(c, k)) ==> x in Keys(c)
    ensures forall i :: 0 <= i < |Remove(c, k)| ==> Remove(c, k)[i].0 != k
  {
    RemoveKeys(c, k);
    if c != [] {
      RemoveFacts(c[1..], k);
      if c[0].0 == k {
        assert Get(c[1..], k) == 0 by { GetAbsent(c[1..], k); }
      } else {
        RemoveKeys(c[1..], k);
        HeadKeyFresh(c);
        ConsDistinct(c[0], Remove(c[1..], k));
      }
    }
  }

  /** Dropping a key leaves only keys `c` held, and none equal to the dropped one. */
  lemma {:induction false} RemoveKeys<K>(c: Counter<K>, k: K)
    ensures forall x :: x in Keys(Remove(c, k)) ==> x in Keys(c)
    ensures forall i :: 0 <= i < |Remove(c, k)| ==> Remove(c, k)[i].0 != k
  {
    if c != [] {
      RemoveKeys(c[1..], k);
      var r := Remove(c, k);
      forall x | x in Keys(r) ensures x in Keys(c) {
        var i :| 0 <= i < |r| && r[i].0 == x;
        if c[0].0 == k {
          assert x in Keys(c[1..]);
        } else if i > 0 {
          assert Remove(c[1..], k)[i - 1].0 == x;
          assert x in Keys(c[1..]);
        }
        if x != c[0].0 {
          assert x in Keys(c[1..]);
          var m :| 0 <= m < |c[1..]| && c[1..][m].0 == x;
          assert c[m + 1].0 == x;
        }
      }
    }
  }

  /** In a counter with distinct keys, the first key is not among the keys of the rest. */
  lemma HeadKeyFresh<K>(c: Counter<K>)
    requires DistinctKeys(c) && c != []
    ensures c[0].0 !in Keys(c[1..])
  {
    forall m | 0 <= m < |c| - 1 ensures c[1..][m].0 != c[0].0 {
      assert c[1..][m] == c[m + 1];
    }
  }

  lemma ConsDistinct<K>(e: (K, nat), t: Counter<K>)
    requires DistinctKeys(t) && e.0 !in Keys(t)
    ensures DistinctKeys([e] + t)
  {
    var r := [e] + t;
    forall i, j | 0 <= i < j < |r| ensures r[i].0 != r[j].0 {
      assert r[j] == t[j - 1];
      if i == 0 {
        assert t[j - 1].0 in Keys(t);
      } else {
        assert r[i] == t[i - 1];
      }
    }
  }

  /** A key that is not among the keys of `c` counts 0. */
  lemma {:induction false} GetAbsent<K>(c: Counter<K>, k: K)
    requires forall i :: 0 <= i < |c| ==> c[i].0 != k
    ensures Get(c, k) == 0
  {
    if c != [] {
      GetAbsent(c[1..], k);
    }
  }

  lemma {:induction false} SumGetsAgree<K>(c: Counter<K>, d: Counter<K>, labels: seq<K>)
    requires forall i :: 0 <= i < |labels| ==> Get(c, labels[i]) == Get(d, labels[i])
    ensures SumGets(c, labels) == SumGets(d, labels)
  {
    if labels != [] {
      SumGetsAgree(c, d, labels[1..]);
    }
  }

  /**
   * The counts of distinct labels, plus the counts of every other key, make up
   * the whole total: so a sum of fixed-label lookups never exceeds the total.
   */
  lemma {:induction false} SumGetsPlusRest<K>(c: Counter<K>, labels: seq<K>)
    requires DistinctKeys(c) && Distinct(labels)
    ensures SumGets(c, labels) + SumExcept(c, labels) == Total(c)
    decreases |labels|
  {
    if labels == [] {
      SumExceptNone(c, labels);
    } else {
      var l, rest := labels[0], labels[1..];
      RemoveFacts(c, l);
      var c' := Remove(c, l);
      assert forall i :: 0 <= i < |rest| ==> rest[i] != l by {
        forall i | 0 <= i < |rest| ensures rest[i] != l {
          assert labels[i + 1] == rest[i];
        }
      }
      SumGetsAgree(c, c', rest);
      SumGetsPlusRest(c', rest);
      // the rest of c' excluding `rest` is the rest of c excluding `labels`
      assert labels == [l] + rest;
      SumExceptAbsent(c', l, rest);
    }
  }

  /** Excluding an extra key that `c` does not hold changes nothing. */
  lemma {:induction false} SumExceptAbsent<K>(c: Counter<K>, l: K, rest: seq<K>)
    requires forall i :: 0 <= i < |c| ==> c[i].0 != l
    ensures SumExcept(c, [l] + rest) == SumExcept(c, rest)
  {
    if c != [] {
      SumExceptAbsent(c[1..], l, rest);
    }
  }

  /** With no exclusions the rest is everything. */
  lemma {:induction false} SumExceptNone<K>(c: Counter<K>, labels: seq<K>)
    requires labels == []
    ensures SumExcept(c, labels) == Total(c)
  {
    if c != [] {
      SumExceptNone(c[1..], labels);
    }
  }

  /** Counting one more key at the end bumps that key. */
  lemma TallySnoc<K>(ks: seq<K>, k: K)
    ensures Tally(ks + [k]) == Increment(Tally(ks), k)
  {
    assert (ks + [k])[..|ks|] == ks;
  }

  /** One key's stored count, from the counting facts. */
  lemma TallyGet<K>(ks: seq<K>, x: K)
    ensures Get(Tally(ks), x) == Occurrences(ks, x)
  {
    TallyFacts(ks);
  }

  /** The counting facts one at a time, for proofs that need only one of them. */
  lemma TallyTotal<K>(ks: seq<K>)
    ensures DistinctKeys(Tally(ks)) && Total(Tally(ks)) == |ks|
  {
    TallyFacts(ks);
  }

  lemma TallyKeys<K>(ks: seq<K>)
    ensures forall x :: x in Keys(Tally(ks)) <==> x in ks
  {
    TallyFacts(ks);
  }

  lemma TallyGets<K>(ks: seq<K>)
    ensures forall x :: Get(Tally(ks), x) == Occurrences(ks, x)
  {
    TallyFacts(ks);
  }
}
