/** The analyzer: all flows, the shared findings, and whole runs of deliveries and closes. */
module Dnp3Analyzer {
  import opened Octets
  import opened Flows
  import opened Dnp3Framing
  import opened Dnp3Detection
  import opened Dnp3Flow

  datatype State = State(
    flows: map<FlowKey, Flow>, sink: Sink, fnCodes: map<byte, nat>, mastersDropped: nat, evictions: nat,
    closedFlows: nat, closedFrames: nat, closedErrors: nat, closedOperates: seq<(FlowKey, nat)>)

  /** What a flow went through since it was opened. */
  datatype History = History(up: Stream, down: Stream)

  datatype System = System(st: State, past: map<FlowKey, History>)

  datatype Op = Data(key: FlowKey, d: Direction, data: seq<byte>, ts: nat) | Close(key: FlowKey)

  const START := System(State(map[], Sink([], 0, []), map[], 0, 0, 0, 0, 0, []), map[])
  const NO_HISTORY := History(NO_STREAM, NO_STREAM)

  function Open(s: State, key: FlowKey): Session {
    var f := if key in s.flows then s.flows[key] else NEW_FLOW;
    Session(f.c2s, f.s2c, f.latched, Context(f.watch, s.sink, s.fnCodes, s.mastersDropped, s.evictions))
  }

  function Commit(st: State, key: FlowKey, s: Session): State {
    st.(flows := st.flows[key := Flow(s.c2s, s.s2c, s.latched, s.x.watch)], sink := s.x.sink, fnCodes := s.x.fnCodes,
        mastersDropped := s.x.mastersDropped, evictions := s.x.evictions)
  }

  ghost function Load(s: System, key: FlowKey): Traced {
    var h := if key in s.past then s.past[key] else NO_HISTORY;
    Traced(Open(s.st, key), h.up, h.down)
  }

  ghost function Store(s: System, key: FlowKey, t: Traced): System {
    System(Commit(s.st, key, t.s), s.past[key := History(t.up, t.down)])
  }

  /** Folds the flow's totals into the closed aggregates; an unknown key changes nothing. */
  function CloseFlow(s: State, key: FlowKey): State {
    if key !in s.flows then s
    else
      var f := s.flows[key];
      s.(flows := s.flows - {key}, closedFlows := s.closedFlows + 1, closedFrames := s.closedFrames + f.watch.frameCount,
         closedErrors := s.closedErrors + f.watch.parseErrors,
         closedOperates := s.closedOperates + [(key, f.watch.burst.count)])
  }

  ghost predicate SystemOk(cfg: Config, s: System) {
    && s.st.sink.Valid()
    && s.past.Keys == s.st.flows.Keys
    && forall k :: k in s.st.flows ==> FlowOk(cfg, Load(s, k))
  }

  ghost function Step(cfg: Config, s: System, op: Op): System
    requires ValidConfig(cfg) && SystemOk(cfg, s)
  {
    match op
    case Close(key) => System(CloseFlow(s.st, key), s.past - {key})
    case Data(key, d, data, ts) =>
      NewFlowOk(cfg, s, key);
      Store(s, key, Receive(cfg, Load(s, key), d, data, ts))
  }

  lemma NewFlowOk(cfg: Config, s: System, key: FlowKey)
    requires SystemOk(cfg, s)
    ensures FlowOk(cfg, Load(s, key))
  {
    if key !in s.st.flows {
      assert key !in s.past;
    }
  }

  lemma FlowOkIgnoresSink(cfg: Config, t: Traced, u: Traced)
    requires FlowOk(cfg, t) && u.s.x.sink.Valid() && u.s.x.watch == t.s.x.watch
    requires u.s.c2s == t.s.c2s && u.s.s2c == t.s.s2c && u.s.latched == t.s.latched
    requires u.up == t.up && u.down == t.down
    ensures FlowOk(cfg, u)
  {
  }

  lemma FlowOkParts(cfg: Config, t: Traced)
    requires FlowOk(cfg, t)
    ensures t.s.x.sink.Valid() && CarryOk(t.s.c2s) && CarryOk(t.s.s2c)
  {
  }

  lemma StepKeeps(cfg: Config, s: System, op: Op)
    requires ValidConfig(cfg) && SystemOk(cfg, s)
    ensures SystemOk(cfg, Step(cfg, s, op))
  {
    hide Receive, FlowOk;
    var s' := Step(cfg, s, op);
    if op.Data? {
      NewFlowOk(cfg, s, op.key);
      FlowOkParts(cfg, Load(s, op.key));
      var t := Receive(cfg, Load(s, op.key), op.d, op.data, op.ts);
      ReceiveKeeps(cfg, Load(s, op.key), op.d, op.data, op.ts);
      FlowOkParts(cfg, t);
      assert Load(s', op.key) == t;
    }
    forall k | k in s'.st.flows && k != op.key ensures FlowOk(cfg, Load(s', k)) {
      FlowOkIgnoresSink(cfg, Load(s, k), Load(s', k));
    }
  }

  /** Any sequence of deliveries and closes, over any number of flows; the invariant holds after every one. */
  ghost function Run(cfg: Config, ops: seq<Op>): (s: System)
    requires ValidConfig(cfg)
    ensures SystemOk(cfg, s)
    decreases |ops|
  {
    if ops == [] then START
    else
      var n := |ops| - 1;
      StepKeeps(cfg, Run(cfg, ops[..n]), ops[n]);
      Step(cfg, Run(cfg, ops[..n]), ops[n])
  }

  lemma RunMore(cfg: Config, ops: seq<Op>, op: Op)
    requires ValidConfig(cfg)
    ensures Run(cfg, ops + [op]) == Step(cfg, Run(cfg, ops), op)
  {
    assert (ops + [op])[..|ops|] == ops;
  }

  // ---- what that says, run by run --------------------------------------------------------------

  /** Guards and counters agree after every call of every run. */
  lemma GuardsOverRuns(cfg: Config, ops: seq<Op>, key: FlowKey)
    requires ValidConfig(cfg) && key in Run(cfg, ops).st.flows
    ensures var st := Run(cfg, ops).st;
            var w := st.flows[key].watch.window;
            var b := st.flows[key].watch.burst;
            && (w.lossEmitted <==> w.restarts + w.blocks >= 3)
            && (w.blockEmitted <==> w.blocks >= 3)
            && (w.malformedEmitted ==> w.malformed >= 3)
            && w.malformed <= st.flows[key].watch.parseErrors
            && (b.emitted ==> b.count > cfg.threshold)
            && (cfg.threshold >= 1 && b.count > cfg.threshold ==> b.emitted)
            && |st.sink.findings| <= 10_000
            && (st.sink.dropped > 0 ==> |st.sink.findings| == 10_000)
  {
    assert FlowOk(cfg, Load(Run(cfg, ops), key));
  }

  /** A latched flow parsed nothing, buffers nothing, and stays exactly as it is until it is closed. */
  lemma LatchIsForever(cfg: Config, s: System, op: Op, key: FlowKey)
    requires ValidConfig(cfg) && SystemOk(cfg, s) && key in s.st.flows && s.st.flows[key].latched
    ensures s.st.flows[key].watch.frameCount == 0 && s.st.flows[key].c2s == [] && s.st.flows[key].s2c == []
    ensures op != Close(key) ==> key in Step(cfg, s, op).st.flows && Step(cfg, s, op).st.flows[key] == s.st.flows[key]
  {
    hide FlowOk, Receive;
    var t := Load(s, key);
    assert FlowOk(cfg, t);
    LatchedParts(cfg, t);
    if op.Data? && op.key == key {
      ReceiveLatched(cfg, t, op.d, op.data, op.ts);
    }
  }

  lemma LatchedParts(cfg: Config, t: Traced)
    requires FlowOk(cfg, t) && t.s.latched
    ensures t.s.x.watch.frameCount == 0 && t.s.c2s == [] && t.s.s2c == []
  {
  }

  lemma ReceiveLatched(cfg: Config, t: Traced, d: Direction, data: seq<byte>, ts: nat)
    requires ValidConfig(cfg) && CarryOk(t.s.Carry(d)) && t.s.latched
    ensures Receive(cfg, t, d, data, ts) == t
  {
  }

  /** Between calls a carry has room for an octet and is at most one octet long or starts with the sync word. */
  lemma CarriesOverRuns(cfg: Config, ops: seq<Op>, key: FlowKey, d: Direction)
    requires ValidConfig(cfg) && key in Run(cfg, ops).st.flows
    ensures var c := Open(Run(cfg, ops).st, key).Carry(d);
            |c| <= 291 && (|c| <= 1 || (c[0] == 0x05 && c[1] == 0x64))
  {
    assert FlowOk(cfg, Load(Run(cfg, ops), key));
  }

  /** Requests are conserved: each one that entered the table timed out, was answered, was evicted or is still there. */
  lemma PendingConserved(cfg: Config, ops: seq<Op>, key: FlowKey)
    requires ValidConfig(cfg) && key in Run(cfg, ops).st.flows
    ensures var s := Run(cfg, ops);
            var t := s.st.flows[key].watch.tally;
            && |s.st.flows[key].watch.pending| <= 256
            && t.inserted == t.timedOut + t.answered + t.evicted + |s.st.flows[key].watch.pending|
  {
    assert FlowOk(cfg, Load(Run(cfg, ops), key));
  }

  /**
   Whatever octets arrive: the carry is the tail of the accepted stream, counted frames are disjoint slices of it
   in order, every delivered octet is framed, drained, lost over the cap or still carried, and each counted error
   cost at least one octet.
   */
  lemma OctetsOverRuns(cfg: Config, ops: seq<Op>, key: FlowKey)
    requires ValidConfig(cfg) && key in Run(cfg, ops).st.flows
    ensures var s := Run(cfg, ops);
            var f := s.st.flows[key];
            var (up, down) := (s.past[key].up, s.past[key].down);
            && Balanced(up, f.c2s) && Balanced(down, f.s2c)
            && f.watch.frameCount == FrameCount(up.segs) + FrameCount(down.segs)
            && f.watch.parseErrors <= Discarded(up) + Discarded(down)
  {
    var t := Load(Run(cfg, ops), key);
    assert FlowOk(cfg, t);
    StreamBalances(t.up, t.s.c2s);
    StreamBalances(t.down, t.s.s2c);
    Accounting(t.up.segs);
    Accounting(t.down.segs);
  }

  /** Octets taken from the stream without being part of a frame. */
  ghost function Discarded(s: Stream): nat { DrainedOctets(s.segs) + LostOctets(s.segs) }

  /** Where the k-th segment starts in the accepted stream. */
  ghost function Offset(s: Stream, k: nat): nat
    requires k <= |s.segs|
  {
    |Flatten(s.segs[..k])|
  }

  /** The k-th segment is that slice of the accepted stream, a valid frame or octets hiding no later sync word. */
  ghost predicate SliceOk(s: Stream, k: nat)
    requires k < |s.segs|
  {
    && Offset(s, k) + |s.segs[k].bytes| == Offset(s, k + 1) <= |s.accepted|
    && s.accepted[Offset(s, k)..Offset(s, k + 1)] == s.segs[k].bytes
    && SegmentOk(s.segs[k])
  }

  ghost predicate Balanced(s: Stream, c: seq<byte>) {
    && |c| <= |s.accepted| && s.accepted[|s.accepted| - |c|..] == c
    && s.delivered == FramedOctets(s.segs) + DrainedOctets(s.segs) + LostOctets(s.segs) + |c|
    && (forall k: nat :: k < |s.segs| ==> SliceOk(s, k))
  }

  lemma SliceOfPrefix(a: seq<byte>, b: seq<byte>, i: nat, j: nat)
    requires i <= j <= |a|
    ensures (a + b)[i..j] == a[i..j]
  {
  }

  lemma StreamBalances(s: Stream, c: seq<byte>)
    requires StreamOk(s, c)
    ensures Balanced(s, c)
  {
    Accounting(s.segs);
    forall k: nat | k < |s.segs| ensures SliceOk(s, k) {
      SegmentSlices(s.segs, k);
      assert s.segs[k] in s.segs;
      SliceOfPrefix(Flatten(s.segs), c, Offset(s, k), Offset(s, k + 1));
    }
  }
}
