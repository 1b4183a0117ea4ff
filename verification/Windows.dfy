/** Time windows: whatever happens more than `secs` after the first event of a window starts the next one. */
module Windows {
  import opened Octets

  /** The windows of a list of events, in order; `time` may run backwards, which never starts a window. */
  function Partition<T>(xs: seq<T>, time: T -> nat, secs: nat): (ws: seq<seq<T>>)
    ensures ws == [] <==> xs == []
    ensures forall i :: 0 <= i < |ws| ==> ws[i] != []
  {
    if xs == [] then []
    else
      var x, ws := xs[|xs| - 1], Partition(xs[..|xs| - 1], time, secs);
      var n := |ws| - 1;
      if ws == [] || SatSub(time(x), time(ws[n][0])) > secs then ws + [[x]] else ws[..n] + [ws[n] + [x]]
  }

  /** The window that is open at the end. */
  function Running<T>(xs: seq<T>, time: T -> nat, secs: nat): (w: seq<T>)
    ensures w == [] <==> xs == []
  {
    var ws := Partition(xs, time, secs);
    if ws == [] then [] else ws[|ws| - 1]
  }

  /** Events that are nothing but their time. */
  function Moment(t: nat): nat { t }

  lemma PartitionMore<T>(xs: seq<T>, x: T, time: T -> nat, secs: nat)
    ensures var ws, n := Partition(xs, time, secs), |Partition(xs, time, secs)| - 1;
            Partition(xs + [x], time, secs) ==
            if ws == [] || SatSub(time(x), time(ws[n][0])) > secs then ws + [[x]] else ws[..n] + [ws[n] + [x]]
  {
    assert (xs + [x])[..|xs|] == xs;
  }

  lemma RunningMore<T>(xs: seq<T>, x: T, time: T -> nat, secs: nat)
    ensures var w := Running(xs, time, secs);
            Running(xs + [x], time, secs) ==
            if w != [] && SatSub(time(x), time(w[0])) > secs then [x] else w + [x]
  {
    hide Partition;
    PartitionMore(xs, x, time, secs);
  }

  function Joined<T>(ws: seq<seq<T>>): seq<T> {
    if ws == [] then [] else Joined(ws[..|ws| - 1]) + ws[|ws| - 1]
  }

  lemma JoinedMore<T>(ws: seq<seq<T>>, w: seq<T>)
    ensures Joined(ws + [w]) == Joined(ws) + w
  {
    assert (ws + [w])[..|ws|] == ws;
  }

  ghost predicate Within<T>(w: seq<T>, time: T -> nat, secs: nat) {
    w != [] && forall j :: 0 <= j < |w| ==> SatSub(time(w[j]), time(w[0])) <= secs
  }

  ghost predicate Later<T>(v: seq<T>, w: seq<T>, time: T -> nat, secs: nat) {
    v != [] && w != [] && SatSub(time(w[0]), time(v[0])) > secs
  }

  /** Nothing is lost between windows, each stays within `secs` of its first event, and later ones start after that. */
  ghost predicate IsPartition<T>(xs: seq<T>, ws: seq<seq<T>>, time: T -> nat, secs: nat) {
    && Joined(ws) == xs
    && (forall i :: 0 <= i < |ws| ==> Within(ws[i], time, secs))
    && (forall i, j :: 0 <= i < j < |ws| ==> Later(ws[i], ws[j], time, secs))
  }

  lemma NextWindow<T>(xs: seq<T>, ws: seq<seq<T>>, x: T, time: T -> nat, secs: nat)
    requires IsPartition(xs, ws, time, secs)
    requires ws == [] || (ws[|ws| - 1] != [] && SatSub(time(x), time(ws[|ws| - 1][0])) > secs)
    ensures IsPartition(xs + [x], ws + [[x]], time, secs)
  {
    JoinedMore(ws, [x]);
  }

  lemma SameWindow<T>(xs: seq<T>, ws: seq<seq<T>>, w: seq<T>, x: T, time: T -> nat, secs: nat)
    requires IsPartition(xs, ws + [w], time, secs) && w != [] && SatSub(time(x), time(w[0])) <= secs
    ensures IsPartition(xs + [x], ws + [w + [x]], time, secs)
  {
    JoinedMore(ws, w);
    JoinedMore(ws, w + [x]);
    var a, b := ws + [w], ws + [w + [x]];
    assert a[|ws|] == w;
    assert forall i :: 0 <= i < |ws| ==> b[i] == a[i];
    assert Within(w + [x], time, secs);
    assert forall i :: 0 <= i < |ws| ==> Later(a[i], a[|ws|], time, secs);
  }

  lemma {:induction false} PartitionCorrect<T>(xs: seq<T>, time: T -> nat, secs: nat)
    ensures IsPartition(xs, Partition(xs, time, secs), time, secs)
  {
    if xs != [] {
      hide IsPartition;
      var m := |xs| - 1;
      var x, ws := xs[m], Partition(xs[..m], time, secs);
      var n := |ws| - 1;
      PartitionCorrect(xs[..m], time, secs);
      assert xs == xs[..m] + [x];
      if ws == [] || SatSub(time(x), time(ws[n][0])) > secs {
        NextWindow(xs[..m], ws, x, time, secs);
      } else {
        assert ws == ws[..n] + [ws[n]];
        SameWindow(xs[..m], ws[..n], ws[n], x, time, secs);
      }
    }
  }

  lemma LastWindow<T>(xs: seq<T>, x: T, ws: seq<seq<T>>, time: T -> nat, secs: nat)
    requires IsPartition(xs + [x], ws, time, secs)
    ensures ws != [] && ws[|ws| - 1] != []
    ensures var n := |ws| - 1;
            var w := ws[n][..|ws[n]| - 1];
            ws[n] == w + [x] && Joined(ws[..n]) + w == xs
  {
    assert ws != [];
    var n := |ws| - 1;
    assert Within(ws[n], time, secs);
    var w := ws[n][..|ws[n]| - 1];
    var all := Joined(ws[..n]) + ws[n];
    assert all == xs + [x];
    assert all[|all| - 1] == x;
    assert all[..|all| - 1] == Joined(ws[..n]) + w == xs;
  }

  /** Taking the last event away: its window closes up, or is gone if the event was alone in it. */
  lemma WithoutLast<T>(xs: seq<T>, x: T, ws: seq<seq<T>>, w: seq<T>, time: T -> nat, secs: nat)
    requires IsPartition(xs + [x], ws + [w + [x]], time, secs) && Joined(ws) + w == xs
    ensures IsPartition(xs, if w == [] then ws else ws + [w], time, secs)
  {
    var a, b := ws + [w + [x]], ws + [w];
    assert forall i :: 0 <= i < |ws| ==> a[i] == ws[i] && b[i] == ws[i];
    assert a[|ws|] == w + [x] && Within(a[|ws|], time, secs);
    JoinedMore(ws, w);
    if w != [] {
      assert forall j :: 0 <= j < |w| ==> (w + [x])[j] == w[j];
      assert Within(w, time, secs);
      assert forall i :: 0 <= i < |ws| ==> Later(a[i], a[|ws|], time, secs);
    }
  }

  /** There is only one way to cut a list of events into windows. */
  lemma {:induction false} PartitionUnique<T>(xs: seq<T>, ws: seq<seq<T>>, time: T -> nat, secs: nat)
    requires IsPartition(xs, ws, time, secs)
    ensures ws == Partition(xs, time, secs)
    decreases |xs|
  {
    hide Joined;
    if xs == [] {
      NoWindows(ws, time, secs);
    } else {
      var m := |xs| - 1;
      var x := xs[m];
      assert xs == xs[..m] + [x];
      LastWindow(xs[..m], x, ws, time, secs);
      var n := |ws| - 1;
      var w := ws[n][..|ws[n]| - 1];
      assert ws == ws[..n] + [w + [x]];
      assert Within(ws[n], time, secs);
      WithoutLast(xs[..m], x, ws[..n], w, time, secs);
      if w == [] {
        PartitionUnique(xs[..m], ws[..n], time, secs);
        assert n > 0 ==> Later(ws[n - 1], ws[n], time, secs);
      } else {
        PartitionUnique(xs[..m], ws[..n] + [w], time, secs);
        assert (ws[..n] + [w])[..n] == ws[..n];
        assert ws[n][|w|] == x && ws[n][0] == w[0];
      }
    }
  }

  lemma NoWindows<T>(ws: seq<seq<T>>, time: T -> nat, secs: nat)
    requires IsPartition([], ws, time, secs)
    ensures ws == []
  {
  }

  /** Every event of the open window is within `secs` of its first. */
  lemma RunningWithin<T>(xs: seq<T>, time: T -> nat, secs: nat, k: nat)
    requires k < |Running(xs, time, secs)|
    ensures SatSub(time(Running(xs, time, secs)[k]), time(Running(xs, time, secs)[0])) <= secs
  {
    PartitionCorrect(xs, time, secs);
  }
}
