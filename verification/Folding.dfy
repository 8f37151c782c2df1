/** Sums over the values of a finite map, independent of the order in which keys are visited. */
module Folding {

  /** The multiset union of what every value of `m` holds. */
  ghost function Gather<K, V, T>(m: map<K, V>, held: V -> multiset<T>): multiset<T>
    decreases |m|
  {
    if m == map[] then multiset{}
    else
      var k :| k in m;
      assert (m - {k}).Keys == m.Keys - {k};
      held(m[k]) + Gather(m - {k}, held)
  }

  /** Any key may be taken out first. */
  lemma {:induction false} GatherSplit<K, V, T>(m: map<K, V>, k: K, held: V -> multiset<T>)
    requires k in m
    ensures Gather(m, held) == held(m[k]) + Gather(m - {k}, held)
    decreases |m|
  {
    var j :| j in m && Gather(m, held) == held(m[j]) + Gather(m - {j}, held);
    if j != k {
      assert (m - {j}).Keys == m.Keys - {j} && (m - {k}).Keys == m.Keys - {k};
      assert m - {j} - {k} == m - {k} - {j};
      GatherSplit(m - {j}, k, held);
      GatherSplit(m - {k}, j, held);
    }
  }

  /** Writing one key exchanges what it held before for what it holds now. */
  lemma GatherUpdate<K, V, T>(m: map<K, V>, k: K, v: V, held: V -> multiset<T>)
    ensures Gather(m[k := v], held) + (if k in m then held(m[k]) else multiset{}) == Gather(m, held) + held(v)
  {
    GatherSplit(m[k := v], k, held);
    assert m[k := v] - {k} == m - {k};
    if k in m {
      GatherSplit(m, k, held);
    } else {
      assert m - {k} == m;
    }
  }

  /** The same exchange, counted for one element. */
  lemma GatherUpdateAt<K, V, T>(m: map<K, V>, k: K, v: V, held: V -> multiset<T>, x: T)
    ensures Gather(m[k := v], held)[x] + (if k in m then held(m[k])[x] else 0) == Gather(m, held)[x] + held(v)[x]
  {
    GatherUpdate(m, k, v, held);
    var was := if k in m then held(m[k]) else multiset{};
    assert (Gather(m[k := v], held) + was)[x] == (Gather(m, held) + held(v))[x];
  }

  /** Two maps whose values hold the same things key by key gather the same multiset. */
  lemma {:induction false} GatherSame<K, V, T>(m: map<K, V>, n: map<K, V>, held: V -> multiset<T>)
    requires m.Keys == n.Keys
    requires forall k :: k in m ==> held(m[k]) == held(n[k])
    ensures Gather(m, held) == Gather(n, held)
    decreases |m|
  {
    if m != map[] {
      var k :| k in m;
      GatherSplit(m, k, held);
      GatherSplit(n, k, held);
      assert (m - {k}).Keys == m.Keys - {k};
      GatherSame(m - {k}, n - {k}, held);
    } else {
      assert n == map[];
    }
  }

  lemma {:induction false} GatherEmpty<K, V, T>(m: map<K, V>, held: V -> multiset<T>)
    requires forall k :: k in m ==> held(m[k]) == multiset{}
    ensures Gather(m, held) == multiset{}
    decreases |m|
  {
    if m != map[] {
      var k :| k in m;
      GatherSplit(m, k, held);
      assert (m - {k}).Keys == m.Keys - {k};
      GatherEmpty(m - {k}, held);
    }
  }

  /** The sum of the weights of all values of `m`. */
  ghost function Total<K, V>(m: map<K, V>, weight: V -> nat): nat
    decreases |m|
  {
    if m == map[] then 0
    else
      var k :| k in m;
      assert (m - {k}).Keys == m.Keys - {k};
      weight(m[k]) + Total(m - {k}, weight)
  }

  lemma {:induction false} TotalSplit<K, V>(m: map<K, V>, k: K, weight: V -> nat)
    requires k in m
    ensures Total(m, weight) == weight(m[k]) + Total(m - {k}, weight)
    decreases |m|
  {
    var j :| j in m && Total(m, weight) == weight(m[j]) + Total(m - {j}, weight);
    if j != k {
      assert (m - {j}).Keys == m.Keys - {j} && (m - {k}).Keys == m.Keys - {k};
      assert m - {j} - {k} == m - {k} - {j};
      TotalSplit(m - {j}, k, weight);
      TotalSplit(m - {k}, j, weight);
    }
  }

  lemma TotalUpdate<K, V>(m: map<K, V>, k: K, v: V, weight: V -> nat)
    requires k in m
    ensures Total(m[k := v], weight) + weight(m[k]) == Total(m, weight) + weight(v)
  {
    TotalSplit(m[k := v], k, weight);
    TotalSplit(m, k, weight);
    assert m[k := v] - {k} == m - {k};
  }

  /** If no value weighs more than one, the sum is at most the number of keys. */
  lemma {:induction false} TotalAtMostCount<K, V>(m: map<K, V>, weight: V -> nat)
    requires forall k :: k in m ==> weight(m[k]) <= 1
    ensures Total(m, weight) <= |m|
    decreases |m|
  {
    if m != map[] {
      var k :| k in m;
      TotalSplit(m, k, weight);
      assert (m - {k}).Keys == m.Keys - {k};
      TotalAtMostCount(m - {k}, weight);
    }
  }

  /** If every value weighs one, the sum is the number of keys. */
  lemma {:induction false} TotalOnes<K, V>(m: map<K, V>, weight: V -> nat)
    requires forall k :: k in m ==> weight(m[k]) == 1
    ensures Total(m, weight) == |m|
    decreases |m|
  {
    if m != map[] {
      var k :| k in m;
      TotalSplit(m, k, weight);
      assert (m - {k}).Keys == m.Keys - {k};
      TotalOnes(m - {k}, weight);
    }
  }

  /** A zero sum leaves no value with a positive weight. */
  lemma TotalZero<K, V>(m: map<K, V>, weight: V -> nat)
    requires Total(m, weight) == 0
    ensures forall k :: k in m ==> weight(m[k]) == 0
  {
    forall k | k in m ensures weight(m[k]) == 0 {
      TotalSplit(m, k, weight);
    }
  }
}
