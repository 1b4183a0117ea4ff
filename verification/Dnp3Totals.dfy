/** The analyzer's totals over whole runs, as sums over the deliveries of all flows, open or closed. */
module Dnp3Totals {
  import opened Octets
  import opened Flows
  import opened Tables
  import opened Dnp3Framing
  import opened Dnp3Detection
  import opened Dnp3Flow
  import opened Dnp3Analyzer
  import opened Dnp3Windows
  import opened Dnp3Reports
  import opened Dnp3Senders
  import opened Dnp3Tallies
  import opened Dnp3Ledger

  /** What is added up: findings of a kind, frames, rejects, fragments of a code, masters without room, evictions. */
  datatype Measure =
    OfTag(tag: Tag) | FrameTotal | ErrorTotal | OfCode(fc: byte) | MasterTotal | EvictionTotal

  /** The share of one flow, by its deliveries; which requests were evicted is read off its history. */
  ghost function Amount(threshold: nat, f: Watch, ds: seq<Delivery>, m: Measure): nat {
    match m
    case OfTag(tag) => Due(threshold, ds, tag)
    case FrameTotal => FrameCount(AllSegments(ds))
    case ErrorTotal => ErrorCount(AllSegments(ds))
    case OfCode(fc) => CodeCount(AllSegments(ds), fc)
    case MasterTotal => LostMasters(AllSegments(ds))
    case EvictionTotal => f.tally.evicted
  }

  ghost function AmountOf(cfg: Config, ops: seq<Op>, key: FlowKey, m: Measure): nat
    requires ValidConfig(cfg)
  {
    Amount(cfg.threshold, Load(Run(cfg, ops), key).s.x.watch, Deliveries(cfg, ops, key), m)
  }

  ghost function OpenAmounts(cfg: Config, ops: seq<Op>, m: Measure): map<FlowKey, nat>
    requires ValidConfig(cfg)
  {
    map k | k in Run(cfg, ops).st.flows :: AmountOf(cfg, ops, k, m)
  }

  ghost function ClosedAmount(cfg: Config, ops: seq<Op>, m: Measure): nat
    requires ValidConfig(cfg)
  {
    if ops == [] then 0
    else
      var n := |ops| - 1;
      ClosedAmount(cfg, ops[..n], m)
      + if ops[n].Close? && ops[n].key in Run(cfg, ops[..n]).st.flows then AmountOf(cfg, ops[..n], ops[n].key, m) else 0
  }

  /** The shares of all flows that were ever opened. */
  ghost function Total(cfg: Config, ops: seq<Op>, m: Measure): nat
    requires ValidConfig(cfg)
  {
    ClosedAmount(cfg, ops, m) + Sum(OpenAmounts(cfg, ops, m))
  }

  // ---- how the sum moves -----------------------------------------------------------------------

  lemma NothingYet(threshold: nat, m: Measure)
    ensures Amount(threshold, NEW_WATCH, [], m) == 0
  {
    hide Due;
    if m.OfTag? {
      NothingDue(threshold, m.tag);
    }
  }

  /** A flow that is not open has no deliveries. */
  lemma {:induction false} OnlyOpenDelivers(cfg: Config, ops: seq<Op>, key: FlowKey)
    requires ValidConfig(cfg) && key !in Run(cfg, ops).st.flows
    ensures Deliveries(cfg, ops, key) == []
  {
    hide Receive, SystemOk, FlowOk, Deliver, DeliveryOf;
    if ops != [] && ops[|ops| - 1].key != key {
      OnlyOpenDelivers(cfg, ops[..|ops| - 1], key);
    }
  }

  lemma ClosedHasNone(cfg: Config, ops: seq<Op>, key: FlowKey, m: Measure)
    requires ValidConfig(cfg) && key !in Run(cfg, ops).st.flows
    ensures AmountOf(cfg, ops, key, m) == 0
  {
    hide Run, Amount, Deliveries, SystemOk;
    OnlyOpenDelivers(cfg, ops, key);
    NothingYet(cfg.threshold, m);
  }

  lemma StepKeys(cfg: Config, ops: seq<Op>, op: Op)
    requires ValidConfig(cfg)
    ensures var s, s' := Run(cfg, ops).st, Run(cfg, ops + [op]).st;
            s'.flows.Keys == if op.Close? then s.flows.Keys - {op.key} else s.flows.Keys + {op.key}
  {
    hide Receive, SystemOk, FlowOk;
    assert (ops + [op])[..|ops|] == ops;
  }

  lemma OtherFlowStays(cfg: Config, ops: seq<Op>, op: Op, key: FlowKey, m: Measure)
    requires ValidConfig(cfg) && op.key != key
    ensures AmountOf(cfg, ops + [op], key, m) == AmountOf(cfg, ops, key, m)
  {
    hide Receive, SystemOk, FlowOk, Amount, DeliveryOf, Deliver;
    assert (ops + [op])[..|ops|] == ops;
  }

  lemma OpenAmountsAt(cfg: Config, ops: seq<Op>, m: Measure)
    requires ValidConfig(cfg)
    ensures OpenAmounts(cfg, ops, m).Keys == Run(cfg, ops).st.flows.Keys
    ensures forall k :: k in OpenAmounts(cfg, ops, m) ==> OpenAmounts(cfg, ops, m)[k] == AmountOf(cfg, ops, k, m)
  {
    hide Run, AmountOf, SystemOk;
  }

  lemma OpenAmountsAfter(cfg: Config, ops: seq<Op>, op: Op, m: Measure)
    requires ValidConfig(cfg)
    ensures var before := OpenAmounts(cfg, ops, m);
            OpenAmounts(cfg, ops + [op], m) ==
            if op.Close? then before - {op.key} else before[op.key := AmountOf(cfg, ops + [op], op.key, m)]
  {
    hide Run, AmountOf, OpenAmounts, SystemOk;
    StepKeys(cfg, ops, op);
    OpenAmountsAt(cfg, ops, m);
    OpenAmountsAt(cfg, ops + [op], m);
    forall key | key != op.key ensures AmountOf(cfg, ops + [op], key, m) == AmountOf(cfg, ops, key, m) {
      OtherFlowStays(cfg, ops, op, key, m);
    }
  }

  lemma ClosedAmountAfter(cfg: Config, ops: seq<Op>, op: Op, m: Measure)
    requires ValidConfig(cfg)
    ensures ClosedAmount(cfg, ops + [op], m) ==
            ClosedAmount(cfg, ops, m) + if op.Close? then AmountOf(cfg, ops, op.key, m) else 0
  {
    hide Run, AmountOf, SystemOk;
    assert (ops + [op])[..|ops|] == ops;
    if op.key !in Run(cfg, ops).st.flows {
      ClosedHasNone(cfg, ops, op.key, m);
    }
  }

  /** A close moves a share from one side to the other; a delivery changes the share of its flow. */
  lemma TotalAfter(cfg: Config, ops: seq<Op>, op: Op, m: Measure)
    requires ValidConfig(cfg)
    ensures Total(cfg, ops + [op], m) + (if op.Close? then 0 else AmountOf(cfg, ops, op.key, m)) ==
            Total(cfg, ops, m) + if op.Close? then 0 else AmountOf(cfg, ops + [op], op.key, m)
  {
    hide Run, AmountOf, OpenAmounts, ClosedAmount, SystemOk;
    var before := OpenAmounts(cfg, ops, m);
    OpenAmountsAt(cfg, ops, m);
    OpenAmountsAfter(cfg, ops, op, m);
    ClosedAmountAfter(cfg, ops, op, m);
    if op.key !in before {
      ClosedHasNone(cfg, ops, op.key, m);
    }
    if op.Close? {
      SumRemove(before, op.key);
    } else {
      SumUpdate(before, op.key, AmountOf(cfg, ops + [op], op.key, m));
    }
  }

  // ---- what the analyzer keeps -----------------------------------------------------------------

  /** The totals that all flows share. */
  ghost predicate IsShared(m: Measure) { !m.FrameTotal? && !m.ErrorTotal? }

  ghost function Level(sink: Sink, fnCodes: map<byte, nat>, mastersDropped: nat, evictions: nat, m: Measure): nat
    requires IsShared(m)
  {
    match m
    case OfTag(tag) => Raised(sink, tag)
    case OfCode(fc) => Seen(fnCodes, fc)
    case MasterTotal => mastersDropped
    case EvictionTotal => evictions
  }

  ghost function StateLevel(st: State, m: Measure): nat
    requires IsShared(m)
  {
    Level(st.sink, st.fnCodes, st.mastersDropped, st.evictions, m)
  }

  ghost function ContextLevel(x: Context, m: Measure): nat
    requires IsShared(m)
  {
    Level(x.sink, x.fnCodes, x.mastersDropped, x.evictions, m)
  }

  lemma PrologueLevels(x: Context, ts: nat)
    ensures var y := Prologue(x, ts);
            && y.fnCodes == x.fnCodes && y.mastersDropped == x.mastersDropped && y.evictions == x.evictions
            && y.watch.tally.evicted == x.watch.tally.evicted
  {
    hide Sink.PushIf, OverdueKeys;
  }

  /** One delivery moves every shared total by what it adds to its flow's share. */
  lemma DeliveryLevel(cfg: Config, x: Context, ds: seq<Delivery>, segs: seq<Segment>, ts: nat, m: Measure)
    requires ValidConfig(cfg) && SegmentsOk(segs) && DetectionOk(cfg, x) && Tracks(cfg.threshold, x.watch, ds)
    requires SendersTrack(x.watch, AllSegments(ds)) && IsShared(m)
    ensures var y := HandleSegments(cfg, Prologue(x, ts), segs, ts);
            ContextLevel(y, m) + Amount(cfg.threshold, x.watch, ds, m) ==
            ContextLevel(x, m) + Amount(cfg.threshold, y.watch, ds + [DeliveryOf(x, segs, ts)], m)
  {
    hide HandleSegments, Prologue, Due, Raised, OverdueKeys, Seen, CodeCount, LostMasters, AllSegments, SendersTrack,
         Tracks, DetectionOk;
    var x1, past := Prologue(x, ts), AllSegments(ds);
    PrologueLevels(x, ts);
    AllSegmentsMore(ds, DeliveryOf(x, segs, ts));
    match m {
      case OfTag(tag) => DeliveryDue(cfg, x, ds, segs, ts, tag);
      case OfCode(fc) =>
        SegmentsCodes(cfg, x1, segs, ts, fc);
        CodeCountAppend(past, segs, fc);
      case MasterTotal =>
        PrologueSenders(x, ts, past);
        SegmentsLost(cfg, x1, segs, ts, past);
      case EvictionTotal => SegmentsEvict(cfg, x1, segs, ts);
    }
  }

  lemma DataLevel(cfg: Config, ops: seq<Op>, op: Op, m: Measure)
    requires ValidConfig(cfg) && op.Data? && IsShared(m)
    ensures StateLevel(Run(cfg, ops + [op]).st, m) + AmountOf(cfg, ops, op.key, m) ==
            StateLevel(Run(cfg, ops).st, m) + AmountOf(cfg, ops + [op], op.key, m)
  {
    hide Amount, Level, FlowOk, SystemOk, Deliver, HandleSegments, Prologue, Feed, DetectionOk, DeliveryOf, Tracks,
         SendersTrack, AllSegments;
    assert (ops + [op])[..|ops|] == ops;
    var s := Run(cfg, ops);
    var t := Load(s, op.key);
    NewFlowOk(cfg, s, op.key);
    FlowOkParts(cfg, t);
    DetectionOfFlow(cfg, t);
    WindowsTrack(cfg, ops, op.key);
    GuardsBySenders(cfg, ops, op.key);
    if !t.s.latched && !t.s.Desync(op.data) {
      DeliverTiles(t.s.Carry(op.d), op.data);
      DeliveryLevel(cfg, t.s.x, Deliveries(cfg, ops, op.key), Deliver(t.s.Carry(op.d), op.data).0, op.ts, m);
    }
  }

  lemma DetectionOfFlow(cfg: Config, t: Traced)
    requires FlowOk(cfg, t)
    ensures DetectionOk(cfg, t.s.x)
  {
  }

  lemma CloseLevel(cfg: Config, ops: seq<Op>, op: Op, m: Measure)
    requires ValidConfig(cfg) && op.Close? && IsShared(m)
    ensures StateLevel(Run(cfg, ops + [op]).st, m) == StateLevel(Run(cfg, ops).st, m)
  {
    hide Level, SystemOk;
    assert (ops + [op])[..|ops|] == ops;
  }

  lemma EmptyTotals(cfg: Config, m: Measure)
    requires ValidConfig(cfg)
    ensures Run(cfg, []) == START && Total(cfg, [], m) == 0 && (IsShared(m) ==> StateLevel(START.st, m) == 0)
  {
    hide Amount, SystemOk, Raised, AmountOf;
    NothingRaised();
    assert OpenAmounts(cfg, [], m) == map[];
  }

  /** Every shared total is, in every run, the sum of the shares of all flows. */
  lemma {:induction false} LevelIsTotal(cfg: Config, ops: seq<Op>, m: Measure)
    requires ValidConfig(cfg) && IsShared(m)
    ensures StateLevel(Run(cfg, ops).st, m) == Total(cfg, ops, m)
    decreases |ops|
  {
    hide Run, StateLevel, Total, AmountOf, SystemOk;
    if ops == [] {
      EmptyTotals(cfg, m);
    } else {
      var before, op := ops[..|ops| - 1], ops[|ops| - 1];
      assert ops == before + [op];
      LevelIsTotal(cfg, before, m);
      TotalAfter(cfg, before, op, m);
      if op.Close? {
        CloseLevel(cfg, before, op, m);
      } else {
        DataLevel(cfg, before, op, m);
      }
    }
  }

  // ---- findings --------------------------------------------------------------------------------

  /**
   Over any run of deliveries and closes on any flows, the findings raised of every tag, whether stored or refused by
   the cap, are exactly as many as the deliveries of all flows, open or closed, call for. A flow calls for one control
   burst for each 60 s window of control commands that passed the threshold; for one blocked command, loss of control
   or malformed anomaly for each 300 s correlation window in which it was due; for one unexpected source or unsolicited
   response if it ever had one; and for one finding for each fragment that is always reported, broadcasts included. As
   long as nothing was dropped, these are the findings stored.
   */
  lemma FindingsByCounting(cfg: Config, ops: seq<Op>, tag: Tag)
    requires ValidConfig(cfg)
    ensures var sink := Run(cfg, ops).st.sink;
            && Raised(sink, tag) == Total(cfg, ops, OfTag(tag))
            && (sink.dropped == 0 ==> Raised(sink, tag) == Tagged(sink.findings, tag))
  {
    hide Run, Total, Raised, SystemOk;
    NothingRefused(cfg, Run(cfg, ops));
    LevelIsTotal(cfg, ops, OfTag(tag));
  }

  ghost function OverTags(count: Tag -> nat): nat {
    count(ControlBurst) + count(RestartCommand) + count(WriteCommand) + count(BlockedCommand) + count(LossOfControl)
    + count(BroadcastControl) + count(UnexpectedSource) + count(UnsolicitedResponse) + count(EnableUnsolicited)
    + count(DisableUnsolicited) + count(MalformedFrames)
  }

  lemma {:induction false} TaggedOnce(fs: seq<Finding>)
    ensures OverTags((tag: Tag) => Tagged(fs, tag)) == |fs|
  {
    if fs != [] {
      TaggedOnce(fs[..|fs| - 1]);
      var last := fs[|fs| - 1].tag;
      assert last.ControlBurst? || last.RestartCommand? || last.WriteCommand? || last.BlockedCommand?
             || last.LossOfControl? || last.BroadcastControl? || last.UnexpectedSource? || last.UnsolicitedResponse?
             || last.EnableUnsolicited? || last.DisableUnsolicited? || last.MalformedFrames?;
    }
  }

  /** Everything that all flows call for. */
  ghost function AllDue(cfg: Config, ops: seq<Op>): nat
    requires ValidConfig(cfg)
  {
    OverTags((tag: Tag) => Total(cfg, ops, OfTag(tag)))
  }

  /** Of what the deliveries of all flows call for, the first 10,000 are stored and the rest are counted as dropped. */
  lemma StoredAndDropped(cfg: Config, ops: seq<Op>)
    requires ValidConfig(cfg)
    ensures var sink := Run(cfg, ops).st.sink;
            && |sink.findings| + sink.dropped == AllDue(cfg, ops)
            && sink.dropped == SatSub(AllDue(cfg, ops), 10_000)
  {
    hide Run, Total, Tagged, SystemOk;
    var sink := Run(cfg, ops).st.sink;
    NothingRefused(cfg, Run(cfg, ops));
    SinkOf(cfg, Run(cfg, ops));
    TaggedOnce(sink.findings);
    TaggedOnce(sink.refused);
    forall tag: Tag ensures Tagged(sink.findings, tag) + Tagged(sink.refused, tag) == Total(cfg, ops, OfTag(tag)) {
      FindingsByCounting(cfg, ops, tag);
    }
  }

  lemma SinkOf(cfg: Config, s: System)
    requires SystemOk(cfg, s)
    ensures s.st.sink.Valid()
  {
    hide FlowOk;
  }

  /**
   Nothing that was reported is ever taken back, a close reports nothing, and the findings of a delivery carry its time
   and the confidence of their kind.
   */
  lemma StepStamps(cfg: Config, s: System, op: Op)
    requires ValidConfig(cfg) && SystemOk(cfg, s)
    ensures var t := Step(cfg, s, op);
            if op.Close? then t.st.sink == s.st.sink else Stamps(s.st.sink, t.st.sink, op.ts)
  {
    hide FlowOk, SystemOk, Deliver, HandleSegments, Prologue, Feed, Stamps;
    if op.Data? {
      var t := Load(s, op.key);
      NewFlowOk(cfg, s, op.key);
      FlowOkParts(cfg, t);
      PushStamps(s.st.sink, false, Finding(WriteCommand, Sureness(WriteCommand), op.ts), op.ts);
      if !t.s.latched && !t.s.Desync(op.data) {
        DeliverTiles(t.s.Carry(op.d), op.data);
        DeliveryStamps(cfg, t.s.x, Deliver(t.s.Carry(op.d), op.data).0, op.ts);
      }
    }
  }

  // ---- frames and rejects ----------------------------------------------------------------------

  /** A flow counts the frames, the rejects and the function codes of its deliveries. */
  lemma {:induction false} FlowCounts(cfg: Config, ops: seq<Op>, key: FlowKey, fc: byte)
    requires ValidConfig(cfg)
    ensures var f, segs := Load(Run(cfg, ops), key).s.x.watch, AllSegments(Deliveries(cfg, ops, key));
            && f.frameCount == FrameCount(segs) && f.parseErrors == ErrorCount(segs)
            && Seen(f.fcCounts, fc) == CodeCount(segs, fc)
    decreases |ops|
  {
    hide FlowOk, SystemOk, Deliver, HandleSegments, Prologue, Feed, AllSegments, DeliveryOf, DetectionOk, FrameCount,
         ErrorCount, CodeCount, Seen;
    NothingCounted(fc);
    if ops != [] {
      var n := |ops| - 1;
      var s, op := Run(cfg, ops[..n]), ops[n];
      FlowCounts(cfg, ops[..n], key, fc);
      if op.Data? && op.key == key {
        var t := Load(s, key);
        NewFlowOk(cfg, s, key);
        FlowOkParts(cfg, t);
        DetectionOfFlow(cfg, t);
        if !t.s.latched && !t.s.Desync(op.data) {
          DeliverTiles(t.s.Carry(op.d), op.data);
          DeliveryCounts(cfg, t.s.x, Deliveries(cfg, ops[..n], key), Deliver(t.s.Carry(op.d), op.data).0, op.ts, fc);
        }
      }
    }
  }

  lemma DeliveryCounts(cfg: Config, x: Context, ds: seq<Delivery>, segs: seq<Segment>, ts: nat, fc: byte)
    requires ValidConfig(cfg) && SegmentsOk(segs) && DetectionOk(cfg, x)
    ensures var f, g := x.watch, HandleSegments(cfg, Prologue(x, ts), segs, ts).watch;
            var all := AllSegments(ds + [DeliveryOf(x, segs, ts)]);
            && g.frameCount + FrameCount(AllSegments(ds)) == f.frameCount + FrameCount(all)
            && g.parseErrors + ErrorCount(AllSegments(ds)) == f.parseErrors + ErrorCount(all)
            && Seen(g.fcCounts, fc) + CodeCount(AllSegments(ds), fc) == Seen(f.fcCounts, fc) + CodeCount(all, fc)
  {
    hide HandleSegments, Prologue, AllSegments, DetectionOk, FrameCount, ErrorCount, CodeCount, Seen, OverdueKeys;
    OnDataKeeps(cfg, x, segs, ts);
    AllSegmentsMore(ds, DeliveryOf(x, segs, ts));
    CountsAppend(AllSegments(ds), segs);
    CodeCountAppend(AllSegments(ds), segs, fc);
    PrologueCodes(x, ts);
    SegmentsCodes(cfg, Prologue(x, ts), segs, ts, fc);
  }

  lemma PrologueCodes(x: Context, ts: nat)
    ensures Prologue(x, ts).watch.fcCounts == x.watch.fcCounts
  {
    hide Sink.PushIf, OverdueKeys;
  }

  lemma NothingCounted(fc: byte)
    ensures AllSegments([]) == [] && FrameCount([]) == 0 && ErrorCount([]) == 0 && CodeCount([], fc) == 0
    ensures Seen(map[], fc) == 0
  {
  }

  /** The aggregates of closed flows are the shares of closed flows. */
  lemma {:induction false} ClosedCounts(cfg: Config, ops: seq<Op>)
    requires ValidConfig(cfg)
    ensures var st := Run(cfg, ops).st;
            && st.closedFrames == ClosedAmount(cfg, ops, FrameTotal)
            && st.closedErrors == ClosedAmount(cfg, ops, ErrorTotal)
    decreases |ops|
  {
    hide Receive, SystemOk, FlowOk, AmountOf;
    if ops != [] {
      var n := |ops| - 1;
      ClosedCounts(cfg, ops[..n]);
      CountedAmounts(cfg, ops[..n], ops[n].key);
    }
  }

  lemma CountedAmounts(cfg: Config, ops: seq<Op>, key: FlowKey)
    requires ValidConfig(cfg)
    ensures var f := Load(Run(cfg, ops), key).s.x.watch;
            f.frameCount == AmountOf(cfg, ops, key, FrameTotal) && f.parseErrors == AmountOf(cfg, ops, key, ErrorTotal)
  {
    hide Run, Deliveries, SystemOk;
    FlowCounts(cfg, ops, key, 0);
  }
}
