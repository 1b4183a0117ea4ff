/** From the sender's messages to the analyzer's frames, inside arbitrary runs over many flows. */
module Dnp3RoundTrip {
  import opened Octets
  import opened Flows
  import opened Dnp3Wire
  import opened Dnp3Framing
  import opened Dnp3Detection
  import opened Dnp3Flow
  import opened Dnp3Analyzer
  import opened Dnp3Chunking

  /** What one flow received since it was last closed, whatever happened to other flows in between. */
  function ChunksOf(ops: seq<Op>, key: FlowKey): seq<Chunk> {
    if ops == [] then []
    else
      var op := ops[|ops| - 1];
      var before := ChunksOf(ops[..|ops| - 1], key);
      if op.key != key then before else if op.Close? then [] else before + [Chunk(op.d, op.data, op.ts)]
  }

  /** The chunks fit and each direction is a prefix of a concatenation of frames. */
  predicate WellFormed(chunks: seq<Chunk>) {
    Fits(chunks) && Clean(Sent(chunks, ClientToServer)) && Clean(Sent(chunks, ServerToClient))
  }

  lemma WellFormedStep(before: seq<Chunk>, c: Chunk)
    requires WellFormed(before + [c])
    ensures WellFormed(before) && Clean(Sent(before, c.d) + c.data)
    ensures |Tail(Sent(before, c.d))| + |c.data| <= MAX_FRAME_LEN
  {
    hide Clean, Fits, Tail, Sent;
    CleanBefore(before, c);
    FitsMore(before, c);
  }

  lemma {:induction false} RunInStep(cfg: Config, ops: seq<Op>, key: FlowKey)
    requires ValidConfig(cfg) && WellFormed(ChunksOf(ops, key))
    ensures InStep(Load(Run(cfg, ops), key), ChunksOf(ops, key))
    decreases |ops|
  {
    hide Receive, SystemOk, FlowOk, WellFormed, AsSegments, Frames, Tail;
    if ops == [] {
      NewInStep(START, key);
    } else {
      var n := |ops| - 1;
      var s, op := Run(cfg, ops[..n]), ops[n];
      NewFlowOk(cfg, s, key);
      if op.key != key {
        RunInStep(cfg, ops[..n], key);
      } else if op.Close? {
        NewInStep(Run(cfg, ops), key);
      } else {
        var before, c := ChunksOf(ops[..n], key), Chunk(op.d, op.data, op.ts);
        WellFormedStep(before, c);
        RunInStep(cfg, ops[..n], key);
        FlowOkParts(cfg, Load(s, key));
        StepClean(cfg, Load(s, key), before, c);
      }
    }
  }

  lemma NewInStep(s: System, key: FlowKey)
    requires key !in s.st.flows && key !in s.past
    ensures InStep(Load(s, key), [])
  {
  }

  /**
   Framing round trip, in any run over any flows. If one flow carries, in each direction, frames and perhaps the
   beginning of one more, cut into fitting chunks and interleaved in any way, at any times, then the segments cut from
   it are exactly those frames in order, nothing is counted as an error, the carries hold exactly the unfinished
   octets, and the flow is not latched.
   */
  lemma FramingRoundTrip(cfg: Config, ops: seq<Op>, key: FlowKey,
                         up: seq<seq<byte>>, upTail: seq<byte>, down: seq<seq<byte>>, downTail: seq<byte>)
    requires ValidConfig(cfg) && Fits(ChunksOf(ops, key)) && key in Run(cfg, ops).st.flows
    requires AllFrames(up) && Partial(upTail) && Sent(ChunksOf(ops, key), ClientToServer) == Concat(up) + upTail
    requires AllFrames(down) && Partial(downTail)
    requires Sent(ChunksOf(ops, key), ServerToClient) == Concat(down) + downTail
    ensures var f := Run(cfg, ops).st.flows[key];
            var h := Run(cfg, ops).past[key];
            && h.up.segs == AsSegments(up) && f.c2s == upTail
            && h.down.segs == AsSegments(down) && f.s2c == downTail
            && !f.latched && f.watch.parseErrors == 0 && f.watch.frameCount == |up| + |down|
  {
    hide Clean, Frames, Tail, Run, Fits, Sent, AsSegments, DetectionOk, Concat, StreamOk, AllFrames, Partial, ChunksOf;
    CleanConcat(up, upTail);
    CleanConcat(down, downTail);
    RunInStep(cfg, ops, key);
    SegmentsOfFrames(up);
    SegmentsOfFrames(down);
    assert FlowOk(cfg, Load(Run(cfg, ops), key));
  }

  lemma PrefixFrames(sent: seq<byte>, more: seq<byte>, fs: seq<seq<byte>>)
    requires AllFrames(fs) && sent + more == Concat(fs)
    ensures Clean(sent) && AllFrames(Frames(sent)) && Frames(sent) <= fs
    ensures Concat(Frames(sent)) + Tail(sent) == sent
  {
    hide Clean, Frames, Tail, Partial, IsFrame, Concat;
    CleanIff(sent);
    CleanIs(sent);
    FramesOfClean(sent);
    NothingIsPartial();
    CleanConcat(fs, []);
    assert Concat(fs) + [] == sent + more;
    CleanSplit(sent, more);
  }

  /** The carry and the segments of a direction that has sent part of `fs`. */
  ghost predicate Recovers(segs: seq<Segment>, carry: seq<byte>, sent: seq<byte>, fs: seq<seq<byte>>) {
    exists k: nat :: k <= |fs| && segs == AsSegments(fs[..k]) && Concat(fs[..k]) + carry == sent
  }

  lemma RecoversPrefix(sent: seq<byte>, fs: seq<seq<byte>>)
    requires Frames(sent) <= fs && Concat(Frames(sent)) + Tail(sent) == sent
    ensures Recovers(AsSegments(Frames(sent)), Tail(sent), sent, fs)
  {
    hide Frames, Tail, Concat;
    var k := |Frames(sent)|;
    assert fs[..k] == Frames(sent);
  }

  /**
   At any moment of any transmission of whole frames, in any run, what has been recovered is the frames sent so far,
   the carry is the rest of what was sent, and nothing was counted as an error.
   */
  lemma AnyMomentOfATransmission(cfg: Config, ops: seq<Op>, key: FlowKey, up: seq<seq<byte>>, upMore: seq<byte>,
                                 down: seq<seq<byte>>, downMore: seq<byte>)
    requires ValidConfig(cfg) && Fits(ChunksOf(ops, key)) && key in Run(cfg, ops).st.flows
    requires AllFrames(up) && Sent(ChunksOf(ops, key), ClientToServer) + upMore == Concat(up)
    requires AllFrames(down) && Sent(ChunksOf(ops, key), ServerToClient) + downMore == Concat(down)
    ensures var f, h, sent := Run(cfg, ops).st.flows[key], Run(cfg, ops).past[key], ChunksOf(ops, key);
            && Recovers(h.up.segs, f.c2s, Sent(sent, ClientToServer), up)
            && Recovers(h.down.segs, f.s2c, Sent(sent, ServerToClient), down)
            && !f.latched && f.watch.parseErrors == 0
  {
    hide Clean, Frames, Tail, Run, Fits, Sent, AsSegments, DetectionOk, Concat, StreamOk, AllFrames, Partial, ChunksOf,
         Recovers;
    var a, b := Sent(ChunksOf(ops, key), ClientToServer), Sent(ChunksOf(ops, key), ServerToClient);
    PrefixFrames(a, upMore, up);
    PrefixFrames(b, downMore, down);
    RunInStep(cfg, ops, key);
    RecoversPrefix(a, up);
    RecoversPrefix(b, down);
    SegmentsOfFrames(Frames(a));
    SegmentsOfFrames(Frames(b));
    assert FlowOk(cfg, Load(Run(cfg, ops), key));
  }

  // ---- chunks that do not fit ------------------------------------------------------------------

  lemma OversizedIsError(c: seq<byte>, data: seq<byte>)
    requires |c| <= MAX_FRAME_LEN < |c| + |data|
    ensures ErrorCount(Deliver(c, data).0) >= 1
  {
    hide Walk;
    var (over, kept) := Accumulate(c, data);
    CountsAppend(over, Walk(kept, false).0);
    assert over[1..] == [];
  }

  /** No delivery takes an error back, and one that does not fit beside the unfinished frame adds one. */
  lemma DeliveryErrors(cfg: Config, t: Traced, d: Direction, data: seq<byte>, ts: nat)
    requires ValidConfig(cfg) && FlowOk(cfg, t)
    ensures CarryOk(t.s.Carry(d))
    ensures var errors := Receive(cfg, t, d, data, ts).s.x.watch.parseErrors;
            && errors >= t.s.x.watch.parseErrors
            && (!t.s.latched && !t.s.Desync(data) && |t.s.Carry(d)| + |data| > MAX_FRAME_LEN ==> errors >= 1)
  {
    hide Deliver, Prologue, HandleSegments, Session.Desync, ErrorCount, FrameCount;
    if !t.s.latched && !t.s.Desync(data) {
      var c := t.s.Carry(d);
      DeliverTiles(c, data);
      OnDataKeeps(cfg, t.s.x, Deliver(c, data).0, ts);
      if |c| + |data| > MAX_FRAME_LEN {
        OversizedIsError(c, data);
      }
    }
  }

  lemma CleanBefore(before: seq<Chunk>, c: Chunk)
    requires Clean(Sent(before + [c], ClientToServer)) && Clean(Sent(before + [c], ServerToClient))
    ensures Clean(Sent(before, ClientToServer)) && Clean(Sent(before, ServerToClient))
    ensures Clean(Sent(before, c.d) + c.data)
  {
    hide Clean, Frames, Tail, Sent;
    forall d: Direction ensures Clean(Sent(before, d)) {
      SentStep(before, c, d);
      assert Sent(before, d) + [] == Sent(before, d);
      CleanSplit(Sent(before, d), if c.d == d then c.data else []);
    }
    SentStep(before, c, c.d);
  }

  lemma FitsMore(before: seq<Chunk>, c: Chunk)
    ensures Fits(before + [c]) <==> Fits(before) && |Tail(Sent(before, c.d))| + |c.data| <= MAX_FRAME_LEN
  {
    hide Tail, Sent;
    assert (before + [c])[..|before|] == before;
  }

  lemma StepErrors(cfg: Config, s: System, c: Chunk, before: seq<Chunk>, key: FlowKey)
    requires ValidConfig(cfg) && SystemOk(cfg, s)
    requires Clean(Sent(before, c.d) + c.data) && !Fits(before + [c])
    requires if Fits(before) then InStep(Load(s, key), before) else Load(s, key).s.x.watch.parseErrors >= 1
    ensures Load(Step(cfg, s, Data(key, c.d, c.data, c.ts)), key).s.x.watch.parseErrors >= 1
  {
    hide Clean, Fits, Frames, Tail, Sent, Receive, FlowOk, SystemOk, AsSegments, Session.Desync;
    var t := Load(s, key);
    NewFlowOk(cfg, s, key);
    FlowOkParts(cfg, t);
    DeliveryErrors(cfg, t, c.d, c.data, c.ts);
    FitsMore(before, c);
    if Fits(before) {
      NeverDesync(cfg, t, before, c);
    }
  }

  lemma {:induction false} OversizedCounts(cfg: Config, ops: seq<Op>, key: FlowKey)
    requires ValidConfig(cfg) && !Fits(ChunksOf(ops, key))
    requires Clean(Sent(ChunksOf(ops, key), ClientToServer)) && Clean(Sent(ChunksOf(ops, key), ServerToClient))
    ensures Load(Run(cfg, ops), key).s.x.watch.parseErrors >= 1
    decreases |ops|
  {
    hide Receive, SystemOk, FlowOk, Clean, Fits, Sent, InStep;
    NoChunksFit();
    var n := |ops| - 1;
    var s, op := Run(cfg, ops[..n]), ops[n];
    NewFlowOk(cfg, s, op.key);
    if op.key != key {
      OversizedCounts(cfg, ops[..n], key);
    } else {
      var before, c := ChunksOf(ops[..n], key), Chunk(op.d, op.data, op.ts);
      CleanBefore(before, c);
      if Fits(before) {
        RunInStep(cfg, ops[..n], key);
      } else {
        OversizedCounts(cfg, ops[..n], key);
      }
      StepErrors(cfg, s, c, before, key);
    }
  }

  lemma NoChunksFit()
    ensures Fits([])
  {
  }

  /**
   For a flow whose directions both carry a well-formed stream, the chunks all fit if and only if no error is ever
   counted: nothing but an oversized chunk can break the round trip, and every one of them does.
   */
  lemma NoErrorIffFits(cfg: Config, ops: seq<Op>, key: FlowKey)
    requires ValidConfig(cfg) && key in Run(cfg, ops).st.flows
    requires Clean(Sent(ChunksOf(ops, key), ClientToServer)) && Clean(Sent(ChunksOf(ops, key), ServerToClient))
    ensures Run(cfg, ops).st.flows[key].watch.parseErrors == 0 <==> Fits(ChunksOf(ops, key))
  {
    hide Run, Clean, Fits, Sent, Frames, Tail, AsSegments, DetectionOk, StreamOk, ChunksOf;
    var chunks := ChunksOf(ops, key);
    if Fits(chunks) {
      RunInStep(cfg, ops, key);
      var a, b := Sent(chunks, ClientToServer), Sent(chunks, ServerToClient);
      FramesOfClean(a);
      FramesOfClean(b);
      SegmentsOfFrames(Frames(a));
      SegmentsOfFrames(Frames(b));
      assert FlowOk(cfg, Load(Run(cfg, ops), key));
    } else {
      OversizedCounts(cfg, ops, key);
    }
  }
}
