/** The summary, and why closing a flow never shows in it. */
module Dnp3Summary {
  import opened Octets
  import opened Flows
  import opened Tables
  import opened Dnp3Analyzer

  type Entry = (FlowKey, nat)

  // ---- a stable sort by key, and its uniqueness ------------------------------------------------

  /** The entries of one key, in their order. */
  function Of(s: seq<Entry>, k: FlowKey): seq<Entry> {
    if s == [] then [] else (if s[0].0 == k then [s[0]] else []) + Of(s[1..], k)
  }

  ghost predicate Sorted(s: seq<Entry>) {
    forall i, j :: 0 <= i < j < |s| ==> s[i].0.AtMost(s[j].0)
  }

  /** Puts `e` behind every entry that may stay in front of it. */
  function Place(s: seq<Entry>, e: Entry): seq<Entry> {
    if s == [] || e.0.Less(s[0].0) then [e] + s else [s[0]] + Place(s[1..], e)
  }

  function StableSort(s: seq<Entry>): seq<Entry> {
    if s == [] then [] else Place(StableSort(s[..|s| - 1]), s[|s| - 1])
  }

  lemma {:induction false} OfAppend(a: seq<Entry>, b: seq<Entry>, k: FlowKey)
    ensures Of(a + b, k) == Of(a, k) + Of(b, k)
  {
    if a == [] {
      assert a + b == b;
    } else {
      assert (a + b)[1..] == a[1..] + b;
      OfAppend(a[1..], b, k);
    }
  }

  lemma {:induction false} PlaceOf(s: seq<Entry>, e: Entry, k: FlowKey)
    requires Sorted(s)
    ensures Of(Place(s, e), k) == Of(s + [e], k)
  {
    OfAppend(s, [e], k);
    if s == [] || e.0.Less(s[0].0) {
      OfAppend([e], s, k);
      if e.0 == k {
        NoneOf(s, k);
      }
    } else {
      OfAppend([s[0]], Place(s[1..], e), k);
      PlaceOf(s[1..], e, k);
      OfAppend(s[1..], [e], k);
      assert s == [s[0]] + s[1..];
      OfAppend([s[0]], s[1..], k);
    }
  }

  lemma {:induction false} NoneOf(s: seq<Entry>, k: FlowKey)
    requires forall i :: 0 <= i < |s| ==> s[i].0 != k
    ensures Of(s, k) == []
  {
    if s != [] {
      NoneOf(s[1..], k);
    }
  }

  lemma {:induction false} PlaceSorted(s: seq<Entry>, e: Entry)
    requires Sorted(s)
    ensures Sorted(Place(s, e))
    ensures forall x :: x in Place(s, e) <==> x in s || x == e
  {
    if s == [] || e.0.Less(s[0].0) {
    } else {
      PlaceSorted(s[1..], e);
      assert s == [s[0]] + s[1..];
      assert forall x :: x in Place(s[1..], e) ==> s[0].0.AtMost(x.0);
    }
  }

  lemma {:induction false} StableSortCorrect(s: seq<Entry>, k: FlowKey)
    ensures Sorted(StableSort(s)) && Of(StableSort(s), k) == Of(s, k)
  {
    if s != [] {
      var n := |s| - 1;
      StableSortCorrect(s[..n], k);
      PlaceSorted(StableSort(s[..n]), s[n]);
      PlaceOf(StableSort(s[..n]), s[n], k);
      OfAppend(StableSort(s[..n]), [s[n]], k);
      assert s == s[..n] + [s[n]];
      OfAppend(s[..n], [s[n]], k);
    }
  }

  lemma {:induction false} OfFirst(s: seq<Entry>, k: FlowKey)
    requires Of(s, k) != []
    ensures exists i :: 0 <= i < |s| && s[i].0 == k
  {
    if s[0].0 != k {
      OfFirst(s[1..], k);
    }
  }

  lemma HeadIsFirst(s: seq<Entry>)
    ensures s != [] ==> Of(s, s[0].0) != []
  {
    if s != [] {
      assert Of(s, s[0].0)[0] == s[0];
    }
  }

  /** A sorted list is determined by its entries per key: there is only one stable sort. */
  lemma {:induction false} SortedUnique(a: seq<Entry>, b: seq<Entry>)
    requires Sorted(a) && Sorted(b) && forall k :: Of(a, k) == Of(b, k)
    ensures a == b
    decreases |a|
  {
    if a == [] {
      HeadIsFirst(b);
    } else {
      assert Of(a, a[0].0) == Of(b, a[0].0);
      OfFirst(b, a[0].0);
      assert Of(a, b[0].0) == Of(b, b[0].0);
      OfFirst(a, b[0].0);
      assert a[0].0.AtMost(b[0].0) && b[0].0.AtMost(a[0].0);
      assert Of(a, a[0].0)[0] == a[0] && Of(b, a[0].0)[0] == b[0];
      forall k ensures Of(a[1..], k) == Of(b[1..], k) {
        assert Of(a, k) == Of(b, k);
        var skip := if a[0].0 == k then 1 else 0;
        assert Of(a[1..], k) == Of(a, k)[skip..] && Of(b[1..], k) == Of(b, k)[skip..];
      }
      SortedUnique(a[1..], b[1..]);
      assert a == [a[0]] + a[1..] && b == [b[0]] + b[1..];
    }
  }

  lemma StableSortDetermined(a: seq<Entry>, b: seq<Entry>)
    requires forall k :: Of(a, k) == Of(b, k)
    ensures StableSort(a) == StableSort(b)
  {
    forall k ensures Of(StableSort(a), k) == Of(StableSort(b), k) && Sorted(StableSort(a)) && Sorted(StableSort(b)) {
      StableSortCorrect(a, k);
      StableSortCorrect(b, k);
      assert Of(a, k) == Of(b, k);
    }
    var k := FlowKey(0, 0, 0, 0);
    assert Of(StableSort(a), k) == Of(StableSort(b), k);
    SortedUnique(StableSort(a), StableSort(b));
  }

  // ---- sums over a listing ---------------------------------------------------------------------

  function Total(keys: seq<FlowKey>, amount: map<FlowKey, nat>): nat
    requires forall k :: k in keys ==> k in amount
  {
    if keys == [] then 0 else amount[keys[0]] + Total(keys[1..], amount)
  }

  lemma {:induction false} TotalWithout(keys: seq<FlowKey>, i: nat, amount: map<FlowKey, nat>)
    requires (forall k :: k in keys ==> k in amount) && i < |keys|
    ensures Total(keys, amount) == amount[keys[i]] + Total(keys[..i] + keys[i + 1..], amount)
  {
    if i == 0 {
      assert keys[..0] + keys[1..] == keys[1..];
    } else {
      TotalWithout(keys[1..], i - 1, amount);
      assert (keys[..i] + keys[i + 1..])[1..] == keys[1..][..i - 1] + keys[1..][i..];
    }
  }

  lemma ListsNothing(keys: seq<FlowKey>, all: set<FlowKey>)
    requires Lists(keys, all)
    ensures keys == [] <==> all == {}
  {
    if keys != [] {
      assert keys[0] in all;
    }
    if all != {} {
      var k :| k in all;
      assert k in keys;
    }
  }

  lemma ListsWithout(keys: seq<FlowKey>, i: nat, all: set<FlowKey>)
    requires Lists(keys, all) && i < |keys|
    ensures Lists(keys[..i] + keys[i + 1..], all - {keys[i]})
  {
    var rest := keys[..i] + keys[i + 1..];
    forall k | k in all - {keys[i]} ensures k in rest {
      var j :| 0 <= j < |keys| && keys[j] == k;
      assert rest[if j < i then j else j - 1] == k;
    }
    assert keys == keys[..i] + [keys[i]] + keys[i + 1..];
  }

  /** The order of the listing does not matter, and values of keys outside it do not either. */
  lemma {:induction false} TotalSame(a: seq<FlowKey>, b: seq<FlowKey>, all: set<FlowKey>,
                                     f: map<FlowKey, nat>, g: map<FlowKey, nat>)
    requires Lists(a, all) && Lists(b, all) && all <= f.Keys && all <= g.Keys
    requires forall k :: k in all ==> f[k] == g[k]
    ensures Total(a, f) == Total(b, g)
    decreases |a|
  {
    if a == [] {
      ListsNothing(a, all);
      ListsNothing(b, all);
    } else {
      assert a[0] in b;
      var i :| 0 <= i < |b| && b[i] == a[0];
      ListsWithout(a, 0, all);
      assert a[..0] + a[1..] == a[1..];
      ListsWithout(b, i, all);
      TotalWithout(b, i, g);
      TotalSame(a[1..], b[..i] + b[i + 1..], all - {a[0]}, f, g);
    }
  }

  // ---- the summary -----------------------------------------------------------------------------

  datatype Summary = Summary(
    flows: nat, frames: nat, errors: nat, operations: seq<nat>,
    fnCodes: map<byte, nat>, dropped: nat, mastersDropped: nat, evictions: nat)

  function Frames(st: State): (m: map<FlowKey, nat>)
    ensures m.Keys == st.flows.Keys
  {
    map k | k in st.flows :: st.flows[k].watch.frameCount
  }

  function Errors(st: State): (m: map<FlowKey, nat>)
    ensures m.Keys == st.flows.Keys
  {
    map k | k in st.flows :: st.flows[k].watch.parseErrors
  }

  function OpenEntries(st: State, keys: seq<FlowKey>): (es: seq<Entry>)
    requires forall k :: k in keys ==> k in st.flows
    ensures |es| == |keys| && forall i :: 0 <= i < |keys| ==> es[i] == (keys[i], st.flows[keys[i]].watch.burst.count)
  {
    seq(|keys|, i requires 0 <= i < |keys| => (keys[i], st.flows[keys[i]].watch.burst.count))
  }

  /** All closed and open flows, sorted by key; `keys` is the order in which the open ones are met. */
  function Operations(st: State, keys: seq<FlowKey>): seq<Entry>
    requires forall k :: k in keys ==> k in st.flows
  {
    StableSort(st.closedOperates + OpenEntries(st, keys))
  }

  function Summarize(st: State, keys: seq<FlowKey>): Summary
    requires forall k :: k in keys ==> k in st.flows
  {
    var ops := Operations(st, keys);
    Summary(st.closedFlows + |st.flows|, st.closedFrames + Total(keys, Frames(st)),
            st.closedErrors + Total(keys, Errors(st)), seq(|ops|, i requires 0 <= i < |ops| => ops[i].1),
            st.fnCodes, st.sink.dropped, st.mastersDropped, st.evictions)
  }

  lemma {:induction false} OpenEntriesOf(st: State, keys: seq<FlowKey>, k: FlowKey)
    requires (forall q :: q in keys ==> q in st.flows)
    requires forall i, j :: 0 <= i < j < |keys| ==> keys[i] != keys[j]
    ensures Of(OpenEntries(st, keys), k) == if k in keys then [(k, st.flows[k].watch.burst.count)] else []
    decreases |keys|
  {
    if keys != [] {
      assert OpenEntries(st, keys)[1..] == OpenEntries(st, keys[1..]);
      OpenEntriesOf(st, keys[1..], k);
      assert k in keys <==> k == keys[0] || k in keys[1..];
    }
  }

  lemma OperationsUnchanged(st: State, key: FlowKey, before: seq<FlowKey>, after: seq<FlowKey>)
    requires key in st.flows
    requires Lists(before, st.flows.Keys) && Lists(after, CloseFlow(st, key).flows.Keys)
    ensures Operations(st, before) == Operations(CloseFlow(st, key), after)
  {
    hide StableSort, Of, OpenEntries;
    var st' := CloseFlow(st, key);
    var e := (key, st.flows[key].watch.burst.count);
    var xs, ys := OpenEntries(st, before), OpenEntries(st', after);
    forall k ensures Of(st.closedOperates + xs, k) == Of(st.closedOperates + [e] + ys, k) {
      OpenEntriesMoved(st, key, before, after, k);
      OfMoved(st.closedOperates, e, xs, ys, k);
    }
    StableSortDetermined(st.closedOperates + xs, st.closedOperates + [e] + ys);
  }

  lemma OfMoved(closed: seq<Entry>, e: Entry, xs: seq<Entry>, ys: seq<Entry>, k: FlowKey)
    requires Of(xs, k) == Of([e], k) + Of(ys, k)
    ensures Of(closed + xs, k) == Of(closed + [e] + ys, k)
  {
    hide Of;
    OfAppend(closed, xs, k);
    OfAppend(closed + [e], ys, k);
    OfAppend(closed, [e], k);
  }

  /** The entry that leaves the open flows is the one that joins the closed ones. */
  lemma OpenEntriesMoved(st: State, key: FlowKey, before: seq<FlowKey>, after: seq<FlowKey>, k: FlowKey)
    requires key in st.flows
    requires Lists(before, st.flows.Keys) && Lists(after, CloseFlow(st, key).flows.Keys)
    ensures Of(OpenEntries(st, before), k) ==
            Of([(key, st.flows[key].watch.burst.count)], k) + Of(OpenEntries(CloseFlow(st, key), after), k)
  {
    hide OpenEntries, Of;
    var st' := CloseFlow(st, key);
    OpenEntriesOf(st, before, k);
    OpenEntriesOf(st', after, k);
    OfOne((key, st.flows[key].watch.burst.count), k);
    assert k in before <==> k in st.flows;
    assert k in after <==> k in st'.flows;
  }

  lemma OfOne(e: Entry, k: FlowKey)
    ensures Of([e], k) == if e.0 == k then [e] else []
  {
  }

  lemma TotalUnchanged(keys: seq<FlowKey>, all: set<FlowKey>, key: FlowKey, after: seq<FlowKey>,
                       f: map<FlowKey, nat>, g: map<FlowKey, nat>)
    requires Lists(keys, all) && key in all && Lists(after, all - {key}) && all <= f.Keys && all - {key} <= g.Keys
    requires forall k :: k in all - {key} ==> f[k] == g[k]
    ensures Total(keys, f) == f[key] + Total(after, g)
  {
    assert key in keys;
    var i :| 0 <= i < |keys| && keys[i] == key;
    TotalWithout(keys, i, f);
    ListsWithout(keys, i, all);
    TotalSame(keys[..i] + keys[i + 1..], after, all - {key}, f, g);
  }

  lemma OrderUnchanged(st: State, a: seq<FlowKey>, b: seq<FlowKey>)
    requires Lists(a, st.flows.Keys) && Lists(b, st.flows.Keys)
    ensures Operations(st, a) == Operations(st, b)
  {
    hide StableSort;
    var x, y := st.closedOperates + OpenEntries(st, a), st.closedOperates + OpenEntries(st, b);
    forall k ensures Of(x, k) == Of(y, k) {
      OfAppend(st.closedOperates, OpenEntries(st, a), k);
      OfAppend(st.closedOperates, OpenEntries(st, b), k);
      OpenEntriesOf(st, a, k);
      OpenEntriesOf(st, b, k);
    }
    StableSortDetermined(x, y);
  }

  /**
   Closing any flow in any state leaves the summary as it was, whatever order the open flows are met in, before and
   after, and however often the key was used before.
   */
  lemma CloseIsInvisible(st: State, key: FlowKey, before: seq<FlowKey>, after: seq<FlowKey>)
    requires Lists(before, st.flows.Keys) && Lists(after, CloseFlow(st, key).flows.Keys)
    ensures Summarize(st, before) == Summarize(CloseFlow(st, key), after)
  {
    hide Operations, Total, Lists, Frames, Errors;
    if key !in st.flows {
      OrderUnchanged(st, before, after);
      TotalSame(before, after, st.flows.Keys, Frames(st), Frames(st));
      TotalSame(before, after, st.flows.Keys, Errors(st), Errors(st));
    } else {
      OperationsUnchanged(st, key, before, after);
      TotalsUnchanged(st, key, before, after);
    }
  }

  lemma TotalsUnchanged(st: State, key: FlowKey, before: seq<FlowKey>, after: seq<FlowKey>)
    requires key in st.flows
    requires Lists(before, st.flows.Keys) && Lists(after, CloseFlow(st, key).flows.Keys)
    ensures var st' := CloseFlow(st, key);
            && |st'.flows| == |st.flows| - 1
            && Total(before, Frames(st)) == st.flows[key].watch.frameCount + Total(after, Frames(st'))
            && Total(before, Errors(st)) == st.flows[key].watch.parseErrors + Total(after, Errors(st'))
  {
    hide Total, Lists;
    var st' := CloseFlow(st, key);
    assert st'.flows.Keys == st.flows.Keys - {key};
    TotalUnchanged(before, st.flows.Keys, key, after, Frames(st), Frames(st'));
    TotalUnchanged(before, st.flows.Keys, key, after, Errors(st), Errors(st'));
  }
}
