/** When a flow is given up as not DNP3, and what that means for the rest of a run. */
module Dnp3Latch {
  import opened Octets
  import opened Flows
  import opened Dnp3Framing
  import opened Dnp3Detection
  import opened Dnp3Flow
  import opened Dnp3Analyzer

  /** Two octets or more that do not begin with the sync word. */
  predicate Foreign(data: seq<byte>) { |data| >= 2 && !(data[0] == 0x05 && data[1] == 0x64) }

  /** The stream has had no frame, and no accepted octet is left over from its segments. */
  ghost predicate Idle(s: Stream) { FrameCount(s.segs) == 0 && s.accepted == Flatten(s.segs) }

  /** The i-th operation brings foreign octets to a flow that is idle both ways, and the flow is not closed since. */
  ghost predicate GivenUpBy(cfg: Config, ops: seq<Op>, i: nat, key: FlowKey)
    requires ValidConfig(cfg) && i < |ops|
  {
    var t := Load(Run(cfg, ops[..i]), key);
    && ops[i].Data? && ops[i].key == key && Foreign(ops[i].data) && Idle(t.up) && Idle(t.down)
    && forall j :: i < j < |ops| ==> ops[j] != Close(key)
  }

  ghost predicate GivenUp(cfg: Config, ops: seq<Op>, key: FlowKey)
    requires ValidConfig(cfg)
  {
    exists i: nat :: i < |ops| && GivenUpBy(cfg, ops, i, key)
  }

  lemma IdleIff(cfg: Config, t: Traced)
    requires FlowOk(cfg, t)
    ensures Idle(t.up) && Idle(t.down) <==> t.s.x.watch.frameCount == 0 && t.s.c2s == [] && t.s.s2c == []
  {
    hide DetectionOk, FrameCount, Flatten, SegmentsOk, CarryOk, LostOctets;
    SameLength(t.up, t.s.c2s);
    SameLength(t.down, t.s.s2c);
  }

  lemma SameLength(s: Stream, c: seq<byte>)
    requires s.accepted == Flatten(s.segs) + c
    ensures s.accepted == Flatten(s.segs) <==> c == []
  {
    hide Flatten;
    assert |s.accepted| == |Flatten(s.segs)| + |c|;
    assert c == [] ==> Flatten(s.segs) + c == Flatten(s.segs);
  }

  /** One delivery: the latch goes up exactly for foreign octets on an idle flow. */
  lemma DeliveryLatches(cfg: Config, t: Traced, d: Direction, data: seq<byte>, ts: nat)
    requires ValidConfig(cfg) && FlowOk(cfg, t)
    ensures CarryOk(t.s.Carry(d))
    ensures Receive(cfg, t, d, data, ts).s.latched <==> t.s.latched || (Foreign(data) && Idle(t.up) && Idle(t.down))
  {
    hide Idle, Deliver, HandleSegments, Prologue, Feed, DetectionOk;
    IdleIff(cfg, t);
  }

  lemma GivenUpMore(cfg: Config, ops: seq<Op>, op: Op, key: FlowKey)
    requires ValidConfig(cfg)
    ensures var t := Load(Run(cfg, ops), key);
            GivenUp(cfg, ops + [op], key) <==>
            op != Close(key)
            && (GivenUp(cfg, ops, key)
                || (op.Data? && op.key == key && Foreign(op.data) && Idle(t.up) && Idle(t.down)))
  {
    hide Run, Idle, Foreign, SystemOk;
    var all, n := ops + [op], |ops|;
    assert all[..n] == ops && all[n] == op;
    forall i: nat | i < n ensures GivenUpBy(cfg, all, i, key) <==> GivenUpBy(cfg, ops, i, key) && op != Close(key) {
      assert all[..i] == ops[..i] && all[i] == ops[i];
      assert forall j :: i < j < n ==> all[j] == ops[j];
    }
    if GivenUp(cfg, ops, key) && op != Close(key) {
      var i: nat :| i < n && GivenUpBy(cfg, ops, i, key);
      assert GivenUpBy(cfg, all, i, key);
    }
    if op.Data? && op.key == key && Foreign(op.data) {
      assert Idle(Load(Run(cfg, ops), key).up) && Idle(Load(Run(cfg, ops), key).down) ==> GivenUpBy(cfg, all, n, key);
    }
  }

  /**
   In any run a flow is latched if and only if, since it was opened, some chunk of two or more octets did not begin with
   05 64 and came when no frame had been counted and nothing was left over in either direction.
   */
  lemma {:induction false} LatchedIff(cfg: Config, ops: seq<Op>, key: FlowKey)
    requires ValidConfig(cfg)
    ensures Load(Run(cfg, ops), key).s.latched <==> GivenUp(cfg, ops, key)
    decreases |ops|
  {
    hide Idle, Foreign, GivenUp, Receive, FlowOk, SystemOk;
    if ops == [] {
      NeverGivenUp(cfg, key);
    } else {
      var before, op := ops[..|ops| - 1], ops[|ops| - 1];
      assert ops == before + [op];
      var s := Run(cfg, before);
      LatchedIff(cfg, before, key);
      GivenUpMore(cfg, before, op, key);
      NewFlowOk(cfg, s, op.key);
      if op.Data? && op.key == key {
        DeliveryLatches(cfg, Load(s, key), op.d, op.data, op.ts);
      }
    }
  }

  lemma NeverGivenUp(cfg: Config, key: FlowKey)
    requires ValidConfig(cfg)
    ensures !GivenUp(cfg, [], key) && !Load(Run(cfg, []), key).s.latched
  {
  }

  // ---- a flow that has been given up -----------------------------------------------------------

  /** A chunk of a latched flow changes nothing at all. */
  lemma LatchedIgnores(cfg: Config, s: System, op: Op)
    requires ValidConfig(cfg) && SystemOk(cfg, s) && op.Data? && Load(s, op.key).s.latched
    ensures Step(cfg, s, op) == s
  {
    hide Receive, FlowOk;
    var t := Load(s, op.key);
    NewFlowOk(cfg, s, op.key);
    FlowOkParts(cfg, t);
    ReceiveLatched(cfg, t, op.d, op.data, op.ts);
    assert op.key in s.st.flows && op.key in s.past;
    assert s.st.flows[op.key := s.st.flows[op.key]] == s.st.flows;
    assert s.past[op.key := s.past[op.key]] == s.past;
  }

  /** The operations of other flows. */
  function Others(ops: seq<Op>, key: FlowKey): seq<Op> {
    if ops == [] then []
    else Others(ops[..|ops| - 1], key) + if ops[|ops| - 1].key == key then [] else [ops[|ops| - 1]]
  }

  lemma OtherKeepsLatch(cfg: Config, s: System, op: Op, key: FlowKey)
    requires ValidConfig(cfg) && SystemOk(cfg, s) && op.key != key
    ensures Load(Step(cfg, s, op), key).s.latched == Load(s, key).s.latched
  {
    hide Receive, FlowOk;
    NewFlowOk(cfg, s, op.key);
  }

  /** After it has been given up, a flow's chunks make no difference to any run, until it is closed. */
  lemma {:induction false} ChunksIgnored(cfg: Config, ops: seq<Op>, more: seq<Op>, key: FlowKey)
    requires ValidConfig(cfg) && GivenUp(cfg, ops, key)
    requires forall i :: 0 <= i < |more| ==> more[i] != Close(key)
    ensures Run(cfg, ops + more) == Run(cfg, ops + Others(more, key))
    ensures Load(Run(cfg, ops + more), key).s.latched
    decreases |more|
  {
    hide GivenUp, Run, Step, SystemOk;
    if more == [] {
      LatchedIff(cfg, ops, key);
      assert ops + more == ops && ops + Others(more, key) == ops;
    } else {
      var before, op := more[..|more| - 1], more[|more| - 1];
      ChunksIgnored(cfg, ops, before, key);
      assert ops + more == ops + before + [op];
      RunMore(cfg, ops + before, op);
      if op.key == key {
        assert more[|more| - 1] != Close(key);
        LatchedIgnores(cfg, Run(cfg, ops + before), op);
        assert Others(more, key) == Others(before, key);
      } else {
        assert ops + Others(more, key) == ops + Others(before, key) + [op];
        RunMore(cfg, ops + Others(before, key), op);
        OtherKeepsLatch(cfg, Run(cfg, ops + before), op, key);
      }
    }
  }

  // ---- a new flow ------------------------------------------------------------------------------

  /** Since it was last closed the flow has delivered nothing but empty chunks. */
  predicate Silent(ops: seq<Op>, key: FlowKey) {
    ops == [] ||
    (var op := ops[|ops| - 1];
     if op.key != key then Silent(ops[..|ops| - 1], key)
     else op.Close? || (op.data == [] && Silent(ops[..|ops| - 1], key)))
  }

  lemma NothingDelivered()
    ensures Deliver([], []) == ([], [])
  {
  }

  lemma SilentDelivery(cfg: Config, t: Traced, d: Direction, ts: nat)
    requires ValidConfig(cfg) && CarryOk(t.s.Carry(d)) && Idle(t.up) && Idle(t.down) && t.s.c2s == [] && t.s.s2c == []
    ensures var u := Receive(cfg, t, d, [], ts); Idle(u.up) && Idle(u.down) && u.s.c2s == [] && u.s.s2c == []
  {
    hide Deliver, HandleSegments, Prologue;
    NothingDelivered();
    var s := if d.ClientToServer? then t.up else t.down;
    assert s.accepted + [] == s.accepted && s.segs + [] == s.segs;
  }

  lemma {:induction false} SilentIsIdle(cfg: Config, ops: seq<Op>, key: FlowKey)
    requires ValidConfig(cfg) && Silent(ops, key)
    ensures var t := Load(Run(cfg, ops), key); Idle(t.up) && Idle(t.down) && t.s.c2s == [] && t.s.s2c == []
    decreases |ops|
  {
    hide Idle, Receive, FlowOk, SystemOk;
    NewIsIdle();
    if ops != [] {
      var before, op := ops[..|ops| - 1], ops[|ops| - 1];
      var s := Run(cfg, before);
      NewFlowOk(cfg, s, op.key);
      if op.key != key {
        SilentIsIdle(cfg, before, key);
      } else if op.Data? {
        SilentIsIdle(cfg, before, key);
        FlowOkParts(cfg, Load(s, key));
        SilentDelivery(cfg, Load(s, key), op.d, op.ts);
      }
    }
  }

  lemma NewIsIdle()
    ensures Idle(NO_STREAM)
  {
  }

  /**
   If the first octets of a flow come as a chunk of two or more that does not begin with 05 64, that chunk and all later
   ones change nothing for anyone: the rest of the run is as if the flow had stayed silent, until it is closed.
   */
  lemma ForeignFlowIgnored(cfg: Config, ops: seq<Op>, op: Op, more: seq<Op>)
    requires ValidConfig(cfg) && Silent(ops, op.key) && op.Data? && Foreign(op.data)
    requires forall i :: 0 <= i < |more| ==> more[i] != Close(op.key)
    ensures var s, t := Run(cfg, ops).st, Run(cfg, ops + [op]).st;
            && t.sink == s.sink && t.fnCodes == s.fnCodes && t.mastersDropped == s.mastersDropped
            && t.evictions == s.evictions
            && op.key in t.flows && t.flows[op.key].latched && t.flows[op.key].c2s == [] && t.flows[op.key].s2c == []
            && t.flows[op.key].watch == Load(Run(cfg, ops), op.key).s.x.watch
    ensures Run(cfg, ops + [op] + more) == Run(cfg, ops + [op] + Others(more, op.key))
  {
    hide Run, GivenUp, Idle, Receive, SystemOk, FlowOk, Foreign;
    var s := Run(cfg, ops);
    SilentIsIdle(cfg, ops, op.key);
    GivenUpMore(cfg, ops, op, op.key);
    ChunksIgnored(cfg, ops + [op], more, op.key);
    LatchedIff(cfg, ops + [op], op.key);
    RunMore(cfg, ops, op);
    NewFlowOk(cfg, s, op.key);
    ForeignDelivery(cfg, Load(s, op.key), op.d, op.data, op.ts);
  }

  lemma ForeignDelivery(cfg: Config, t: Traced, d: Direction, data: seq<byte>, ts: nat)
    requires ValidConfig(cfg) && FlowOk(cfg, t) && Idle(t.up) && Idle(t.down) && Foreign(data)
    ensures CarryOk(t.s.Carry(d)) && Receive(cfg, t, d, data, ts) == t.(s := t.s.(latched := true))
  {
    hide Idle, Deliver, HandleSegments, Prologue, Feed, DetectionOk;
    IdleIff(cfg, t);
  }
}
