/**
 Bounded tables that evict their oldest entry.

 The program keeps them in hash maps and picks the victim with a scan that keeps the first minimum it meets,
 so ties depend on the iteration order. That order is a parameter here: `order(n, keys)` lists the keys at the
 n-th eviction. As every eviction has its own index, quantifying over all orders covers every tie-break.
 */
module Tables {
  type Order<!K> = (nat, set<K>) -> seq<K>

  /** `s` lists the elements of `keys`, each once. */
  ghost predicate Lists<K>(s: seq<K>, keys: set<K>) {
    && (forall k :: k in s ==> k in keys)
    && (forall k :: k in keys ==> k in s)
    && (forall i, j :: 0 <= i < j < |s| ==> s[i] != s[j])
  }

  ghost predicate IsOrder<K(!new)>(order: Order<K>) {
    forall n: nat, keys: set<K> :: Lists(order(n, keys), keys)
  }

  /** The first key of smallest age along `s`. */
  function Oldest<K>(s: seq<K>, age: map<K, nat>): (victim: K)
    requires s != [] && forall k :: k in s ==> k in age
    ensures victim in s
    ensures forall k :: k in s ==> age[victim] <= age[k]
  {
    if |s| == 1 then s[0]
    else
      var best := Oldest(s[..|s| - 1], age);
      var last := s[|s| - 1];
      assert forall k :: k in s ==> k in s[..|s| - 1] || k == last;
      if age[last] < age[best] then last else best
  }

  /** The scan as the program runs it. */
  method ScanOldest<K>(s: seq<K>, age: map<K, nat>) returns (victim: K)
    requires s != [] && forall k :: k in s ==> k in age
    ensures victim == Oldest(s, age)
  {
    victim := s[0];
    for i := 1 to |s|
      invariant victim == Oldest(s[..i], age)
    {
      assert s[..i + 1][..i] == s[..i];
      if age[s[i]] < age[victim] {
        victim := s[i];
      }
    }
    assert s[..|s|] == s;
  }

  function Victim<K>(order: Order<K>, n: nat, age: map<K, nat>): (victim: K)
    requires age.Keys != {} && Lists(order(n, age.Keys), age.Keys)
    ensures victim in age && forall k :: k in age ==> age[victim] <= age[k]
  {
    assert order(n, age.Keys) != [] by {
      var k :| k in age.Keys;
      assert k in order(n, age.Keys);
    }
    Oldest(order(n, age.Keys), age)
  }

  /** One key out, another in. */
  lemma SwapSize<K, V>(m: map<K, V>, victim: K, key: K, v: V)
    requires victim in m && key !in m
    ensures |(m - {victim})[key := v]| == |m|
  {
    assert (m - {victim})[key := v].Keys == m.Keys - {victim} + {key};
  }

  lemma AddSize<K, V>(m: map<K, V>, key: K, v: V)
    ensures |m[key := v]| == |m| + if key in m then 0 else 1
  {
    assert m[key := v].Keys == m.Keys + {key};
  }

  // ---- sums over a table -----------------------------------------------------------------------

  ghost function Sum<K>(m: map<K, nat>): nat {
    if m == map[] then 0
    else
      var k :| k in m;
      m[k] + Sum(m - {k})
  }

  lemma {:induction false} SumSplit<K>(m: map<K, nat>, k: K)
    requires k in m
    ensures Sum(m) == m[k] + Sum(m - {k})
    decreases |m|
  {
    var j :| j in m && Sum(m) == m[j] + Sum(m - {j});
    if j != k {
      assert (m - {j}).Keys == m.Keys - {j};
      assert (m - {k}).Keys == m.Keys - {k};
      SumSplit(m - {j}, k);
      SumSplit(m - {k}, j);
      assert m - {j} - {k} == m - {k} - {j};
    }
  }

  lemma SumRemove<K>(m: map<K, nat>, k: K)
    ensures Sum(m) == Sum(m - {k}) + if k in m then m[k] else 0
  {
    if k in m {
      SumSplit(m, k);
    } else {
      assert m - {k} == m;
    }
  }

  lemma SumUpdate<K>(m: map<K, nat>, k: K, v: nat)
    ensures Sum(m[k := v]) + (if k in m then m[k] else 0) == Sum(m) + v
  {
    SumRemove(m, k);
    SumRemove(m[k := v], k);
    assert m[k := v] - {k} == m - {k};
  }
}
