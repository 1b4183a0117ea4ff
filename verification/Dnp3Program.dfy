/** The analyzer in the program's own form: loops over buffers and tables, and an object that owns the flows. */
module Dnp3Program {
  import opened Octets
  import opened Findings
  import opened Flows
  import opened Tables
  import opened Dnp3Wire
  import opened Dnp3Framing
  import opened Dnp3Detection
  import opened Dnp3Flow
  import opened Dnp3Analyzer

  /** The search for the next sync word. */
  method FindSync(c: seq<byte>, from: nat) returns (i: nat)
    requires from <= |c|
    ensures i == NextSync(c, from)
  {
    i := from;
    while i < |c| && !SyncAt(c, i)
      invariant from <= i <= |c|
      invariant NextSync(c, i) == NextSync(c, from)
    {
      i := i + 1;
    }
  }

  /** Removes the collected keys one by one, in any order, and counts them. */
  method RemoveAll(pending: map<PendingKey, nat>, gone: set<PendingKey>)
    returns (after: map<PendingKey, nat>, count: nat)
    ensures after == pending - gone && count == |gone|
  {
    after, count := pending, 0;
    var left := gone;
    while left != {}
      invariant left <= gone
      invariant after == pending - (gone - left)
      invariant count == |gone| - |left|
    {
      var k :| k in left;
      after, count := after - {k}, count + 1;
      left := left - {k};
    }
    assert gone - left == gone;
  }

  /** The two findings about blocked commands, the second only if this scan found any. */
  method ConsiderBlocked(before: Window, sink: Sink, any: bool, ts: nat) returns (w: Window, after: Sink)
    ensures var w2 := before.CheckBlocked();
            && w == (if any then w2.CheckLoss() else w2)
            && after == sink.PushIf(w2.blockEmitted != before.blockEmitted, Finding(BlockedCommand, Low, ts))
                            .PushIf(w.lossEmitted != w2.lossEmitted, Finding(LossOfControl, Medium, ts))
  {
    w, after := before, sink;
    if w.blocks >= BLOCK_THRESHOLD && !w.blockEmitted {
      w, after := w.(blockEmitted := true), after.Push(Finding(BlockedCommand, Low, ts));
    }
    if any && w.restarts + w.blocks >= LOSS_THRESHOLD && !w.lossEmitted {
      w, after := w.(lossEmitted := true), after.Push(Finding(LossOfControl, Medium, ts));
    }
  }

  /** The timeout scan: overdue keys are collected, removed and counted, then the two findings are considered. */
  method ScanBlockTimeouts(x: Context, ts: nat) returns (y: Context)
    ensures y == ScanTimeouts(x, ts)
  {
    hide OverdueKeys, Sink.PushIf, Window.CheckBlocked, Window.CheckLoss;
    var gone := OverdueKeys(x.watch.pending, ts);
    var pending, count := RemoveAll(x.watch.pending, gone);
    var w, sink := ConsiderBlocked(x.watch.window.(blocks := x.watch.window.blocks + count), x.sink, gone != {}, ts);
    var t := x.watch.tally.(timedOut := x.watch.tally.timedOut + count);
    y := x.(watch := x.watch.(pending := pending, window := w, tally := t), sink := sink);
  }

  /** Insertion with the oldest-entry scan; `n` is the number of evictions so far. */
  method InsertPendingRequest(order: Order<PendingKey>, n: nat, pending: map<PendingKey, nat>, key: PendingKey, ts: nat)
    returns (after: map<PendingKey, nat>, evicted: bool)
    requires IsOrder(order)
    ensures after == Insert(order, n, pending, key, ts).pending
    ensures evicted <==> Insert(order, n, pending, key, ts).evicted == 1
  {
    if |pending| >= MAX_PENDING && key !in pending {
      assert pending.Keys != {};
      var keys := order(n, pending.Keys);
      assert Lists(keys, pending.Keys);
      ghost var k :| k in pending.Keys;
      assert k in keys;
      var victim := ScanOldest(keys, pending);
      return (pending - {victim})[key := ts], true;
    }
    return pending[key := ts], false;
  }

  /** One more control command in the burst window; a window reset leaves before the threshold is looked at. */
  method DetectControlBurst(threshold: nat, before: Burst, sink: Sink, ts: nat) returns (b: Burst, after: Sink)
    ensures b == before.Next(threshold, ts)
    ensures after == sink.PushIf(b.emitted && !before.emitted, Finding(ControlBurst, Medium, ts))
  {
    b, after := before, sink;
    if b.count > 0 && SatSub(ts, b.start) > BURST_SECS {
      return Burst(1, ts, false), sink;
    }
    b := b.(count := SatInc32(b.count));
    if b.count == 1 {
      b := b.(start := ts);
    }
    if b.count > threshold && !b.emitted && SatSub(ts, b.start) <= BURST_SECS {
      after := after.Push(Finding(ControlBurst, Medium, ts));
      b := b.(emitted := true);
    }
  }

  /** A control command: broadcast, unexpected source, pending request, burst. */
  method ControlFrame(cfg: Config, x: Context, h: Header, fc: byte, seqNo: nat, unexpected: bool, ts: nat)
    returns (y: Context)
    requires ValidConfig(cfg)
    ensures y == HandleControl(cfg, x, h, fc, seqNo, unexpected, ts)
  {
    hide Insert, Burst.Next, Sink.PushIf;
    var f := x.watch;
    var sink, alerted := AlertOnControl(x.sink, h, unexpected, f.unexpectedEmitted, ts);
    var ins := TrackRequest(cfg, x.evictions, f.pending, h, fc, seqNo, ts);
    var burst;
    burst, sink := DetectControlBurst(cfg.threshold, f.burst, sink, ts);
    var t := f.tally.(inserted := f.tally.inserted + ins.added, evicted := f.tally.evicted + ins.evicted);
    y := x.(watch := f.(unexpectedEmitted := alerted, pending := ins.pending, burst := burst, tally := t),
            sink := sink, evictions := x.evictions + ins.evicted);
  }

  /** The two findings about where a control command goes to and comes from; the second is one-shot. */
  method AlertOnControl(before: Sink, h: Header, unexpected: bool, emitted: bool, ts: nat)
    returns (sink: Sink, alerted: bool)
    ensures sink == before.PushIf(IsBroadcast(h.destination), Finding(BroadcastControl, Medium, ts))
                          .PushIf(unexpected && !emitted, Finding(UnexpectedSource, High, ts))
    ensures alerted == (emitted || unexpected)
  {
    sink, alerted := before, emitted;
    if IsBroadcast(h.destination) {
      sink := sink.Push(Finding(BroadcastControl, Medium, ts));
    }
    if unexpected && !alerted {
      sink := sink.Push(Finding(UnexpectedSource, High, ts));
      alerted := true;
    }
  }

  /** A request that expects an answer becomes pending; DIRECT_OPERATE_NR does not. */
  method TrackRequest(cfg: Config, n: nat, pending: map<PendingKey, nat>, h: Header, fc: byte, seqNo: nat, ts: nat)
    returns (ins: Insertion)
    requires ValidConfig(cfg)
    ensures ins == if fc == 0x06 then Insertion(pending, 0, 0)
                   else Insert(cfg.order, n, pending, (h.destination, seqNo), ts)
  {
    hide Insert;
    ins := Insertion(pending, 0, 0);
    if fc != 0x06 {
      var key := (h.destination, seqNo);
      InsertCounts(cfg.order, n, pending, key, ts);
      var after, evicted := InsertPendingRequest(cfg.order, n, pending, key, ts);
      ins := Insertion(after, if key in pending then 0 else 1, if evicted then 1 else 0);
    }
  }

  lemma InsertCounts(order: Order<PendingKey>, n: nat, p: map<PendingKey, nat>, key: PendingKey, ts: nat)
    requires IsOrder(order)
    ensures var r := Insert(order, n, p, key, ts); r.added == (if key in p then 0 else 1) && r.evicted <= 1
  {
  }

  /** A restart is reported, counted, and only then considered as a loss of control. */
  method RestartFrame(x: Context, ts: nat) returns (y: Context)
    ensures y == HandleRestart(x, ts)
  {
    var sink := x.sink.Push(Finding(RestartCommand, High, ts));
    var w := x.watch.window.(restarts := x.watch.window.restarts + 1);
    if w.restarts + w.blocks >= LOSS_THRESHOLD && !w.lossEmitted {
      sink := sink.Push(Finding(LossOfControl, Medium, ts));
      w := w.(lossEmitted := true);
    }
    y := x.(watch := x.watch.(window := w), sink := sink);
  }

  method ResponseFrame(x: Context, h: Header, fc: byte, seqNo: nat, ts: nat) returns (y: Context)
    ensures y == HandleResponse(x, h, fc, seqNo, ts)
  {
    y := x;
    if fc == 0x81 {
      y := y.(watch := y.watch.(responseSeen := true));
    } else if fc == 0x82 && !y.watch.enableSeen && !y.watch.responseSeen && !y.watch.unsolicitedEmitted {
      y := y.(sink := y.sink.Push(Finding(UnsolicitedResponse, Low, ts)),
              watch := y.watch.(unsolicitedEmitted := true));
    }
    if fc == 0x81 {
      var key := (h.source, seqNo);
      var hits := if key in y.watch.pending then 1 else 0;
      y := y.(watch := y.watch.(pending := y.watch.pending - {key},
                                tally := y.watch.tally.(answered := y.watch.tally.answered + hits)));
    }
  }

  /** A complete frame that passed the gate, in the program's order. */
  method ProcessFrame(cfg: Config, x: Context, f: seq<byte>, ts: nat) returns (y: Context)
    requires ValidConfig(cfg) && IsFrame(f)
    ensures y == HandleFrame(cfg, x, f, ts)
  {
    hide HandleControl, HandleRestart, HandleResponse, FrameLen, Sink.Push, HasUserData, TransportIsFir;
    var h := ParseHeader(f).value;
    var masters := x.watch.masters;
    var known, established := h.source in masters, masters != [];
    y := x.(watch := x.watch.(frameCount := x.watch.frameCount + 1));
    if IsMasterFrame(h.control) && !known {
      if |masters| < MAX_MASTERS {
        y := y.(watch := y.watch.(masters := masters + [h.source]));
      } else {
        y := y.(mastersDropped := y.mastersDropped + 1);
      }
    }
    if |f| >= 13 && HasUserData(h.control) && TransportIsFir(f[10]) {
      var fc, seqNo := f[12], f[11] % 16;
      y := CountFc(y, fc);
      if fc == 0x14 || fc == 0x15 {
        y := HandleUnsolicitedControl(y, fc, ts);
      }
      var unexpected := IsMasterFrame(h.control) && established && !known;
      match ClassifyFc(fc)
      case Control => y := ControlFrame(cfg, y, h, fc, seqNo, unexpected, ts);
      case Restart => y := RestartFrame(y, ts);
      case Write => y := y.(sink := y.sink.Push(Finding(WriteCommand, Medium, ts)));
      case Response => y := ResponseFrame(y, h, fc, seqNo, ts);
      case _ =>
    }
  }

  lemma HandleCons(cfg: Config, x: Context, s: Segment, segs: seq<Segment>, ts: nat)
    requires ValidConfig(cfg) && SegmentOk(s) && SegmentsOk(segs)
    ensures SegmentsOk([s] + segs)
    ensures HandleSegments(cfg, x, [s] + segs, ts) == HandleSegments(cfg, HandleSegment(cfg, x, s, ts), segs, ts)
  {
    assert ([s] + segs)[1..] == segs;
  }

  /** What is left to do from a carry: the segments still to be handled, and the carry that will remain. */
  ghost predicate Ahead(cfg: Config, y: Context, c: seq<byte>, processed: bool, ts: nat, end: Context, rest: seq<byte>)
    requires ValidConfig(cfg)
  {
    && |c| <= MAX_FRAME_LEN
    && SegmentsOk(Walk(c, processed).0)
    && HandleSegments(cfg, y, Walk(c, processed).0, ts) == end
    && Walk(c, processed).1 == rest
  }

  lemma AheadJunk(cfg: Config, y: Context, c: seq<byte>, processed: bool, ts: nat, end: Context, rest: seq<byte>)
    requires ValidConfig(cfg) && Ahead(cfg, y, c, processed, ts, end, rest)
    requires |c| >= 10 && (!SyncAt(c, 0) || c[2] < 5)
    ensures Ahead(cfg, Malformed(y, ts), c[NextSync(c, 1)..], true, ts, end, rest)
  {
    var i := NextSync(c, 1);
    WalkTiles(c[i..], true);
    JunkOk(c);
    HandleCons(cfg, y, Junk(c[..i]), Walk(c[i..], true).0, ts);
  }

  lemma AheadFrame(cfg: Config, y: Context, c: seq<byte>, processed: bool, ts: nat, end: Context, rest: seq<byte>)
    requires ValidConfig(cfg) && Ahead(cfg, y, c, processed, ts, end, rest)
    requires |c| >= 10 && SyncAt(c, 0) && c[2] >= 5 && |c| >= FrameLen(c[2]).value
    ensures var n := FrameLen(c[2]).value;
            IsFrame(c[..n]) && Ahead(cfg, HandleFrame(cfg, y, c[..n], ts), c[n..], true, ts, end, rest)
  {
    var n := FrameLen(c[2]).value;
    WalkTiles(c[n..], true);
    HandleCons(cfg, y, Frame(c[..n]), Walk(c[n..], true).0, ts);
  }

  lemma AheadShort(cfg: Config, y: Context, c: seq<byte>, processed: bool, ts: nat, end: Context, rest: seq<byte>)
    requires ValidConfig(cfg) && Ahead(cfg, y, c, processed, ts, end, rest)
    requires |c| < 10
    ensures if ShortReject(c, processed) then end == Malformed(y, ts) && rest == c[NextSync(c, 1)..]
            else end == y && rest == c
  {
    if ShortReject(c, processed) {
      JunkOk(c);
      HandleCons(cfg, y, Junk(c[..NextSync(c, 1)]), [], ts);
      assert [Junk(c[..NextSync(c, 1)])] + [] == [Junk(c[..NextSync(c, 1)])];
    }
  }

  /** The frame walk: each pass drains at least one octet or leaves the loop. */
  method WalkCarry(cfg: Config, x: Context, carry: seq<byte>, ts: nat) returns (y: Context, c: seq<byte>)
    requires ValidConfig(cfg) && |carry| <= MAX_FRAME_LEN
    ensures SegmentsOk(Walk(carry, false).0)
    ensures y == HandleSegments(cfg, x, Walk(carry, false).0, ts) && c == Walk(carry, false).1
  {
    hide Walk, HandleSegments, HandleFrame, Malformed;
    WalkTiles(carry, false);
    ghost var end, rest := HandleSegments(cfg, x, Walk(carry, false).0, ts), Walk(carry, false).1;
    y, c := x, carry;
    var processed := false;
    while |c| >= 10
      invariant Ahead(cfg, y, c, processed, ts, end, rest)
      decreases |c|
    {
      if c[0] != SYNC0 || c[1] != SYNC1 {
        AheadJunk(cfg, y, c, processed, ts, end, rest);
        y := Malformed(y, ts);
        var i := FindSync(c, 1);
        c := c[i..];
      } else if FrameLen(c[2]).None? {
        AheadJunk(cfg, y, c, processed, ts, end, rest);
        y := Malformed(y, ts);
        var i := FindSync(c, 1);
        c := c[i..];
      } else {
        var n := FrameLen(c[2]).value;
        if |c| < n {
          AheadPartial(cfg, y, c, processed, ts, end, rest);
          return;
        }
        // The header of such a prefix always parses and passes the gate: its reject arm is dead.
        assert ParseHeader(c[..n]).Some? && IsValidHeader(ParseHeader(c[..n]).value);
        AheadFrame(cfg, y, c, processed, ts, end, rest);
        y := ProcessFrame(cfg, y, c[..n], ts);
        c := c[n..];
      }
      processed := true;
    }
    AheadShort(cfg, y, c, processed, ts, end, rest);
    if |c| >= 2 && (c[0] != SYNC0 || c[1] != SYNC1 || (processed && |c| >= 3 && FrameLen(c[2]).None?)) {
      y := Malformed(y, ts);
      var i := FindSync(c, 1);
      c := c[i..];
    }
  }

  lemma AheadPartial(cfg: Config, y: Context, c: seq<byte>, processed: bool, ts: nat, end: Context, rest: seq<byte>)
    requires ValidConfig(cfg) && Ahead(cfg, y, c, processed, ts, end, rest)
    requires |c| >= 10 && SyncAt(c, 0) && c[2] >= 5 && |c| < FrameLen(c[2]).value
    ensures end == y && rest == c
  {
  }

  class Analyzer {
    const cfg: Config
    var flows: map<FlowKey, Flow>
    var sink: Sink
    var fnCodes: map<byte, nat>
    var mastersDropped: nat
    var evictions: nat
    var closedFlows: nat
    var closedFrames: nat
    var closedErrors: nat
    var closedOperates: seq<(FlowKey, nat)>
    ghost var past: map<FlowKey, History>

    ghost function Model(): System
      reads this
    {
      System(State(flows, sink, fnCodes, mastersDropped, evictions,
                   closedFlows, closedFrames, closedErrors, closedOperates), past)
    }

    ghost predicate Valid()
      reads this
    {
      ValidConfig(cfg) && SystemOk(cfg, Model())
    }

    constructor (cfg: Config)
      requires ValidConfig(cfg)
      ensures Valid() && this.cfg == cfg && Model() == Run(cfg, [])
    {
      this.cfg := cfg;
      flows, sink, fnCodes, mastersDropped, evictions := map[], Sink([], 0, []), map[], 0, 0;
      closedFlows, closedFrames, closedErrors, closedOperates := 0, 0, 0, [];
      past := map[];
    }

    method OnFlowClose(key: FlowKey)
      requires Valid()
      modifies this
      ensures Valid() && Model() == Step(cfg, old(Model()), Close(key))
    {
      hide SystemOk, Receive;
      StepKeeps(cfg, Model(), Close(key));
      past := past - {key};
      if key in flows {
        var f := flows[key];
        flows := flows - {key};
        closedFrames := closedFrames + f.watch.frameCount;
        closedErrors := closedErrors + f.watch.parseErrors;
        closedOperates := closedOperates + [(key, f.watch.burst.count)];
        closedFlows := closedFlows + 1;
      }
    }

    method OnData(key: FlowKey, data: seq<byte>, ts: nat, d: Direction)
      requires Valid()
      modifies this
      ensures Valid() && Model() == Step(cfg, old(Model()), Data(key, d, data, ts))
    {
      hide SystemOk, Dnp3Flow.OnData, FlowOk, Feed;
      ghost var t := Load(Model(), key);
      NewFlowOk(cfg, Model(), key);
      FlowOkParts(cfg, t);
      StepKeeps(cfg, Model(), Data(key, d, data, ts));
      var f := if key in flows then flows[key] else NEW_FLOW;
      var s := Session(f.c2s, f.s2c, f.latched, Context(f.watch, sink, fnCodes, mastersDropped, evictions));
      s := Handle(cfg, s, d, data, ts);
      flows := flows[key := Flow(s.c2s, s.s2c, s.latched, s.x.watch)];
      sink, fnCodes, mastersDropped, evictions := s.x.sink, s.x.fnCodes, s.x.mastersDropped, s.x.evictions;
      ghost var t' := Receive(cfg, t, d, data, ts);
      past := past[key := History(t'.up, t'.down)];
    }
  }

  /** One delivery to one flow. */
  method Handle(cfg: Config, s: Session, d: Direction, data: seq<byte>, ts: nat) returns (r: Session)
    requires ValidConfig(cfg) && CarryOk(s.Carry(d))
    ensures r == OnData(cfg, s, d, data, ts)
  {
    hide Walk, HandleSegments, Malformed, ScanTimeouts;
    if s.latched {
      return s;
    }
    if s.Desync(data) {
      return s.(latched := true);
    }
    var y := ScanBlockTimeouts(s.x.(watch := s.x.watch.(window := s.x.watch.window.Expire(ts))), ts);
    var c := s.Carry(d);
    DeliverTiles(c, data);
    AccumulateTiles(c, data);
    ghost var y0 := y;
    var room := MAX_FRAME_LEN - |c|;
    var kept: seq<byte>;
    if |data| > room {
      var all := c + data[..room];
      var i := FindSync(all, 0);
      kept := all[i..];
      y := Malformed(y, ts);
    } else {
      kept := c + data;
      assert data[..|data|] == data;
    }
    ghost var over := Accumulate(c, data).0;
    assert kept == Accumulate(c, data).1;
    AccumulateHandled(cfg, y0, c, data, ts);
    WalkTiles(kept, false);
    SegmentsAppend(cfg, y0, over, Walk(kept, false).0, ts);
    y, kept := WalkCarry(cfg, y, kept, ts);
    r := s.WithCarry(d, kept).(x := y);
  }

  lemma AccumulateHandled(cfg: Config, x: Context, c: seq<byte>, data: seq<byte>, ts: nat)
    requires ValidConfig(cfg) && |c| <= MAX_FRAME_LEN
    ensures SegmentsOk(Accumulate(c, data).0)
    ensures HandleSegments(cfg, x, Accumulate(c, data).0, ts) ==
            if |data| > MAX_FRAME_LEN - |c| then Malformed(x, ts) else x
  {
    AccumulateTiles(c, data);
    var over := Accumulate(c, data).0;
    if over != [] {
      assert over[0] in over;
      HandleCons(cfg, x, over[0], [], ts);
      assert [over[0]] + [] == over;
    }
  }
}
