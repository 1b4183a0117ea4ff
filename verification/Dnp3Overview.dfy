/** What the summary says about a run. */
module Dnp3Overview {
  import opened Octets
  import opened Flows
  import opened Tables
  import opened Dnp3Detection
  import opened Dnp3Flow
  import opened Dnp3Analyzer
  import opened Dnp3Windows
  import opened Dnp3Reports
  import opened Dnp3Totals
  import opened Dnp3Summary

  // ---- how many flows --------------------------------------------------------------------------

  /** The flow has had a delivery since it was last closed. */
  predicate IsOpen(ops: seq<Op>, key: FlowKey) {
    ops != [] &&
    (var op := ops[|ops| - 1];
     if op.key == key then op.Data? else IsOpen(ops[..|ops| - 1], key))
  }

  /** How often a delivery came to a flow that was not open. */
  function Openings(ops: seq<Op>): nat {
    if ops == [] then 0
    else
      var before, op := ops[..|ops| - 1], ops[|ops| - 1];
      Openings(before) + Count(op.Data? && !IsOpen(before, op.key))
  }

  lemma {:induction false} OpenIff(cfg: Config, ops: seq<Op>, key: FlowKey)
    requires ValidConfig(cfg)
    ensures key in Run(cfg, ops).st.flows <==> IsOpen(ops, key)
    decreases |ops|
  {
    hide Run, SystemOk;
    if ops == [] {
      EmptyTotals(cfg, FrameTotal);
    } else {
      var before, op := ops[..|ops| - 1], ops[|ops| - 1];
      assert ops == before + [op];
      StepKeys(cfg, before, op);
      OpenIff(cfg, before, key);
    }
  }

  lemma {:induction false} FlowsOpened(cfg: Config, ops: seq<Op>)
    requires ValidConfig(cfg)
    ensures var st := Run(cfg, ops).st; st.closedFlows + |st.flows| == Openings(ops)
    decreases |ops|
  {
    hide Receive, SystemOk, FlowOk, IsOpen;
    if ops != [] {
      var before, op := ops[..|ops| - 1], ops[|ops| - 1];
      FlowsOpened(cfg, before);
      OpenIff(cfg, before, op.key);
      NewFlowOk(cfg, Run(cfg, before), op.key);
      var flows := Run(cfg, before).st.flows;
      if op.Data? {
        AddSize(flows, op.key, Run(cfg, ops).st.flows[op.key]);
      } else if op.key in flows {
        MapMinusSize(flows, {op.key});
      }
    }
  }

  // ---- operations ------------------------------------------------------------------------------

  /** The command count of a flow's last burst window, as far as 32 bits can count. */
  function LastBurst(ds: seq<Delivery>): nat {
    var ws := BurstWindows(AllControlTimes(ds));
    if ws == [] then 0
    else
      var n := |ws[|ws| - 1]|;
      if n < 0xFFFF_FFFF then n else 0xFFFF_FFFF
  }

  lemma BurstIsLast(cfg: Config, ops: seq<Op>, key: FlowKey)
    requires ValidConfig(cfg)
    ensures Load(Run(cfg, ops), key).s.x.watch.burst.count == LastBurst(Deliveries(cfg, ops, key))
  {
    hide Run, Deliveries, SystemOk, WindowTracks, BurstWindows, AllControlTimes, IsBurst;
    WindowsTrack(cfg, ops, key);
  }

  /** The flows that were closed, in the order of their closes, each with its last burst. */
  ghost function ClosedBursts(cfg: Config, ops: seq<Op>): seq<Entry>
    requires ValidConfig(cfg)
  {
    if ops == [] then []
    else
      var before, op := ops[..|ops| - 1], ops[|ops| - 1];
      ClosedBursts(cfg, before)
      + if op.Close? && IsOpen(before, op.key) then [(op.key, LastBurst(Deliveries(cfg, before, op.key)))] else []
  }

  lemma {:induction false} ClosedOperates(cfg: Config, ops: seq<Op>)
    requires ValidConfig(cfg)
    ensures Run(cfg, ops).st.closedOperates == ClosedBursts(cfg, ops)
    decreases |ops|
  {
    hide Receive, SystemOk, FlowOk, IsOpen, LastBurst, Deliveries;
    if ops != [] {
      var before, op := ops[..|ops| - 1], ops[|ops| - 1];
      ClosedOperates(cfg, before);
      OpenIff(cfg, before, op.key);
      NewFlowOk(cfg, Run(cfg, before), op.key);
      BurstIsLast(cfg, before, op.key);
    }
  }

  /** All flows that were ever opened, with their last bursts: those closed, then those open in the order of `keys`. */
  ghost function AllBursts(cfg: Config, ops: seq<Op>, keys: seq<FlowKey>): seq<Entry>
    requires ValidConfig(cfg)
  {
    ClosedBursts(cfg, ops)
    + seq(|keys|, i requires 0 <= i < |keys| => (keys[i], LastBurst(Deliveries(cfg, ops, keys[i]))))
  }

  lemma EntriesAreBursts(cfg: Config, ops: seq<Op>, keys: seq<FlowKey>)
    requires ValidConfig(cfg) && forall k :: k in keys ==> k in Run(cfg, ops).st.flows
    ensures var st := Run(cfg, ops).st; st.closedOperates + OpenEntries(st, keys) == AllBursts(cfg, ops, keys)
  {
    hide Run, SystemOk, LastBurst, Deliveries, ClosedBursts;
    var st := Run(cfg, ops).st;
    ClosedOperates(cfg, ops);
    forall i | 0 <= i < |keys| ensures st.flows[keys[i]].watch.burst.count == LastBurst(Deliveries(cfg, ops, keys[i])) {
      BurstIsLast(cfg, ops, keys[i]);
    }
  }

  // ---- totals over open flows ------------------------------------------------------------------

  lemma {:induction false} TotalIsSum(keys: seq<FlowKey>, m: map<FlowKey, nat>)
    requires Lists(keys, m.Keys)
    ensures Dnp3Summary.Total(keys, m) == Sum(m)
    decreases |keys|
  {
    if keys == [] {
      ListsNothing(keys, m.Keys);
      assert m == map[];
    } else {
      var rest := m - {keys[0]};
      ListsWithout(keys, 0, m.Keys);
      assert keys[..0] + keys[1..] == keys[1..] && rest.Keys == m.Keys - {keys[0]};
      TotalIsSum(keys[1..], rest);
      SumRemove(m, keys[0]);
      TotalSame(keys[1..], keys[1..], rest.Keys, m, rest);
    }
  }

  lemma OpenFrames(cfg: Config, ops: seq<Op>)
    requires ValidConfig(cfg)
    ensures Frames(Run(cfg, ops).st) == OpenAmounts(cfg, ops, FrameTotal)
    ensures Errors(Run(cfg, ops).st) == OpenAmounts(cfg, ops, ErrorTotal)
  {
    hide Run, SystemOk, AmountOf;
    var st := Run(cfg, ops).st;
    forall k | k in st.flows
      ensures st.flows[k].watch.frameCount == AmountOf(cfg, ops, k, FrameTotal)
      ensures st.flows[k].watch.parseErrors == AmountOf(cfg, ops, k, ErrorTotal)
    {
      CountedAmounts(cfg, ops, k);
    }
  }

  // ---- the summary -----------------------------------------------------------------------------

  /** Ordered by key, field by field, with the entries of each key in their order in `entries`. */
  ghost predicate InKeyOrder(list: seq<Entry>, entries: seq<Entry>) {
    && (forall i, j :: 0 <= i < j < |list| ==> !Before(list[j].0, list[i].0))
    && (forall k :: Of(list, k) == Of(entries, k))
  }

  /** By the first field in which they differ. */
  ghost predicate Before(a: FlowKey, b: FlowKey) {
    exists i: nat :: i < 4 && Fields(a)[i] < Fields(b)[i] && forall j: nat :: j < i ==> Fields(a)[j] == Fields(b)[j]
  }

  lemma SortedInKeyOrder(entries: seq<Entry>)
    ensures InKeyOrder(StableSort(entries), entries)
  {
    hide StableSort, Of, Before;
    var list := StableSort(entries);
    forall k ensures Of(list, k) == Of(entries, k) && Sorted(list) {
      StableSortCorrect(entries, k);
    }
    forall i, j | 0 <= i < j < |list| ensures !Before(list[j].0, list[i].0) {
      assert Of(list, list[i].0) == Of(entries, list[i].0);
      BeforeIsLess(list[j].0, list[i].0);
    }
  }

  lemma BeforeIsLess(a: FlowKey, b: FlowKey)
    ensures Before(a, b) <==> a.Less(b)
  {
    LessIff(a, b);
  }

  /**
   The summary of any run, whatever order the open flows are met in: how often a flow was opened; the frames and the
   rejects cut from all deliveries of all flows, open or closed; the last burst of each of them, in key order; how often
   each function code was delivered; the findings beyond 10,000; the master frames whose address found no room; and the
   requests evicted.
   */
  lemma SummaryOfRun(cfg: Config, ops: seq<Op>, keys: seq<FlowKey>, fc: byte)
    requires ValidConfig(cfg) && Lists(keys, Run(cfg, ops).st.flows.Keys)
    ensures var s := Summarize(Run(cfg, ops).st, keys);
            && s.flows == Openings(ops)
            && s.frames == Dnp3Totals.Total(cfg, ops, FrameTotal)
            && s.errors == Dnp3Totals.Total(cfg, ops, ErrorTotal)
            && (exists list: seq<Entry> :: InKeyOrder(list, AllBursts(cfg, ops, keys)) && |list| == |s.operations|
                               && forall i :: 0 <= i < |list| ==> s.operations[i] == list[i].1)
            && Seen(s.fnCodes, fc) == Dnp3Totals.Total(cfg, ops, OfCode(fc))
            && s.dropped == SatSub(AllDue(cfg, ops), 10_000)
            && s.mastersDropped == Dnp3Totals.Total(cfg, ops, MasterTotal)
            && s.evictions == Dnp3Totals.Total(cfg, ops, EvictionTotal)
  {
    hide Run, SystemOk, OpenAmounts, ClosedAmount, Operations, Frames, Errors, Dnp3Summary.Total, Seen, AllDue,
         InKeyOrder;
    FlowsOpened(cfg, ops);
    TotalsOfRun(cfg, ops, keys);
    OperationsOfRun(cfg, ops, keys);
    LevelIsTotal(cfg, ops, OfCode(fc));
    LevelIsTotal(cfg, ops, MasterTotal);
    LevelIsTotal(cfg, ops, EvictionTotal);
    StoredAndDropped(cfg, ops);
    var list := Operations(Run(cfg, ops).st, keys);
    assert InKeyOrder(list, AllBursts(cfg, ops, keys));
  }

  lemma TotalsOfRun(cfg: Config, ops: seq<Op>, keys: seq<FlowKey>)
    requires ValidConfig(cfg) && Lists(keys, Run(cfg, ops).st.flows.Keys)
    ensures var st := Run(cfg, ops).st;
            && st.closedFrames + Dnp3Summary.Total(keys, Frames(st)) == Dnp3Totals.Total(cfg, ops, FrameTotal)
            && st.closedErrors + Dnp3Summary.Total(keys, Errors(st)) == Dnp3Totals.Total(cfg, ops, ErrorTotal)
  {
    hide Run, SystemOk, OpenAmounts, ClosedAmount, Frames, Errors, Dnp3Summary.Total, Lists;
    ClosedCounts(cfg, ops);
    OpenFrames(cfg, ops);
    TotalIsSum(keys, Frames(Run(cfg, ops).st));
    TotalIsSum(keys, Errors(Run(cfg, ops).st));
  }

  lemma OperationsOfRun(cfg: Config, ops: seq<Op>, keys: seq<FlowKey>)
    requires ValidConfig(cfg) && Lists(keys, Run(cfg, ops).st.flows.Keys)
    ensures InKeyOrder(Operations(Run(cfg, ops).st, keys), AllBursts(cfg, ops, keys))
  {
    hide Run, SystemOk, InKeyOrder, AllBursts, StableSort, OpenEntries;
    EntriesAreBursts(cfg, ops, keys);
    SortedInKeyOrder(AllBursts(cfg, ops, keys));
  }
}
