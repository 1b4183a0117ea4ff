/** Where the burst and malformed guards differ from their counts, in concrete runs, and exactly when the first does. */
module Dnp3Thresholds {
  import opened Octets
  import opened Flows
  import opened Dnp3Wire
  import opened Dnp3Framing
  import opened Dnp3Detection
  import opened Dnp3Flow
  import opened Dnp3Analyzer
  import opened Dnp3Chunking
  import opened Dnp3Windows

  ghost predicate BurstExact(cfg: Config, ops: seq<Op>, key: FlowKey)
    requires ValidConfig(cfg)
  {
    key in Run(cfg, ops).st.flows ==>
      var b := Run(cfg, ops).st.flows[key].watch.burst; b.emitted <==> b.count > cfg.threshold
  }

  /** One DIRECT_OPERATE request from master 2 to outstation 1. */
  const OPERATE: seq<byte> := [5, 0x64, 8, 0xC4, 1, 0, 2, 0, 0, 0, 0xC0, 0xC1, 5, 0, 0]
  const SOME_KEY := FlowKey(1, 20000, 2, 40000)

  lemma OperateIsFrame()
    ensures IsFrame(OPERATE) && Clean(OPERATE) && Frames(OPERATE) == [OPERATE] && Tail(OPERATE) == []
    ensures ParseHeader(OPERATE).value.control == 0xC4 && ApplicationOf(OPERATE) == Some(Application(5, 1))
  {
    assert OPERATE[..15] == OPERATE && OPERATE[15..] == [];
    assert Clean(OPERATE[15..]);
    assert Frames([]) == [] && Tail([]) == [];
  }

  lemma OperateCounts(cfg: Config, x: Context, ts: nat)
    requires ValidConfig(cfg) && IsFrame(OPERATE)
    ensures HandleFrame(cfg, x, OPERATE, ts).watch.burst == x.watch.burst.Next(cfg.threshold, ts)
  {
    OperateIsFrame();
    hide Insert, Sink.PushIf, Burst.Next, ParseHeader, ApplicationOf;
  }

  /** Delivering the request to an idle flow hands exactly that frame to detection. */
  lemma OperateDelivered(cfg: Config, s: Session, ts: nat)
    requires ValidConfig(cfg) && !s.latched && s.c2s == []
    ensures var r := OnData(cfg, s, ClientToServer, OPERATE, ts);
            !r.latched && r.c2s == [] && r.x.watch.burst == s.x.watch.burst.Next(cfg.threshold, ts)
  {
    hide Clean, Frames, Tail, Deliver, HandleFrame, Prologue, Burst.Next, IsFrame;
    OperateIsFrame();
    assert [] + OPERATE == OPERATE;
    DeliverClean([], OPERATE);
    var segs := AsSegments([OPERATE]);
    assert segs == [Frame(OPERATE)] && segs[1..] == [];
    SegmentsOfFrames([OPERATE]);
    var x := Prologue(s.x, ts);
    PrologueBurst(s.x, ts);
    OperateCounts(cfg, x, ts);
    assert HandleSegments(cfg, x, segs, ts) == HandleSegments(cfg, HandleSegment(cfg, x, segs[0], ts), [], ts);
  }

  lemma PrologueBurst(x: Context, ts: nat)
    ensures Prologue(x, ts).watch.burst == x.watch.burst
  {
  }

  lemma OperateStep(cfg: Config, s: System, ts: nat)
    requires ValidConfig(cfg) && SystemOk(cfg, s) && Idle(s)
    ensures var s' := Step(cfg, s, Data(SOME_KEY, ClientToServer, OPERATE, ts));
            Idle(s') && SOME_KEY in s'.st.flows
            && s'.st.flows[SOME_KEY].watch.burst == Load(s, SOME_KEY).s.x.watch.burst.Next(cfg.threshold, ts)
  {
    hide OnData, FlowOk, Burst.Next, Feed, SystemOk;
    NewFlowOk(cfg, s, SOME_KEY);
    FlowOkParts(cfg, Load(s, SOME_KEY));
    OperateDelivered(cfg, Load(s, SOME_KEY).s, ts);
  }

  ghost predicate Idle(s: System) {
    !Load(s, SOME_KEY).s.latched && Load(s, SOME_KEY).s.c2s == []
  }

  /** With threshold 0, a second request after the window has passed is counted but not reported. */
  lemma ZeroThresholdRun(cfg: Config)
    requires ValidConfig(cfg) && cfg.threshold == 0
    ensures !BurstExact(cfg, [Data(SOME_KEY, ClientToServer, OPERATE, 0), Data(SOME_KEY, ClientToServer, OPERATE, 61)],
                        SOME_KEY)
  {
    hide Step, SystemOk;
    var op0, op1 := Data(SOME_KEY, ClientToServer, OPERATE, 0), Data(SOME_KEY, ClientToServer, OPERATE, 61);
    assert [op0, op1][..1] == [op0] && [op0][..0] == [];
    assert Run(cfg, []) == START;
    OperateStep(cfg, START, 0);
    assert Run(cfg, [op0]) == Step(cfg, START, op0);
    OperateStep(cfg, Run(cfg, [op0]), 61);
    assert Run(cfg, [op0, op1]) == Step(cfg, Run(cfg, [op0]), op1);
  }

  /** In every run of every flow the guard is set exactly when the count is over the threshold: iff threshold >= 1. */
  lemma BurstExactIffPositiveThreshold(cfg: Config)
    requires ValidConfig(cfg)
    ensures (forall ops: seq<Op>, key: FlowKey :: BurstExact(cfg, ops, key)) <==> cfg.threshold >= 1
  {
    hide Run;
    if cfg.threshold >= 1 {
      forall ops: seq<Op>, key: FlowKey ensures BurstExact(cfg, ops, key) {
        if key in Run(cfg, ops).st.flows {
          GuardsOverRuns(cfg, ops, key);
        }
      }
    } else {
      ZeroThresholdRun(cfg);
    }
  }

  // ---- malformed frames at the last second of a window -----------------------------------------

  const JUNK: seq<byte> := [0, 0]

  lemma JunkDelivered()
    ensures Deliver([], JUNK) == ([Junk(JUNK)], [])
  {
    assert JUNK[..2] == JUNK && [] + JUNK == JUNK && JUNK[2..] == [];
    assert NextSync(JUNK, 1) == 2;
    assert [] + [Junk(JUNK)] == [Junk(JUNK)];
  }

  /** The flow is idle, has had a frame, and its window began at 0 with so many rejects and no alarm. */
  ghost predicate Established(s: System, malformed: nat) {
    var f := Load(s, SOME_KEY).s.x.watch;
    && Idle(s) && f.frameCount >= 1
    && f.window.seeded && f.window.start == 0 && f.window.malformed == malformed && !f.window.malformedEmitted
  }

  /** A delivery that leaves nothing in the carry, within the window or as the first of it. */
  lemma DeliveryMeters(cfg: Config, s: System, data: seq<byte>, segs: seq<Segment>, ts: nat)
    requires ValidConfig(cfg) && SystemOk(cfg, s) && Idle(s) && !Load(s, SOME_KEY).s.Desync(data)
    requires Deliver([], data) == (segs, [])
    ensures var s' := Step(cfg, s, Data(SOME_KEY, ClientToServer, data, ts));
            var f, g := Load(s, SOME_KEY).s.x.watch, Load(s', SOME_KEY).s.x.watch;
            && Idle(s') && SOME_KEY in s'.st.flows && g.frameCount == f.frameCount + FrameCount(segs)
            && (!f.window.seeded || SatSub(ts, f.window.start) <= 300 ==>
                  && g.window.seeded && g.window.start == (if f.window.seeded then f.window.start else ts)
                  && g.window.malformed == f.window.malformed + ErrorCount(segs)
                  && (g.window.malformedEmitted <==>
                      f.window.malformedEmitted
                      || (ErrorCount(segs) >= 1 && g.window.malformed >= 3 && SatSub(ts, g.window.start) < 300)))
  {
    hide Deliver, HandleSegments, Prologue, Feed, FlowOk, SystemOk, FrameCount, ErrorCount, RestartCount, DetectionOk;
    var t := Load(s, SOME_KEY);
    NewFlowOk(cfg, s, SOME_KEY);
    FlowOkParts(cfg, t);
    FlowOkDetection(cfg, t);
    DeliverTiles([], data);
    OnDataKeeps(cfg, t.s.x, segs, ts);
    PrologueMeters(t.s.x, ts);
    SegmentsMeters(cfg, Prologue(t.s.x, ts), segs, ts);
  }

  lemma FlowOkDetection(cfg: Config, t: Traced)
    requires FlowOk(cfg, t)
    ensures DetectionOk(cfg, t.s.x)
  {
  }

  lemma OperateEstablishes(cfg: Config)
    requires ValidConfig(cfg)
    ensures SystemOk(cfg, START) && Established(Step(cfg, START, Data(SOME_KEY, ClientToServer, OPERATE, 0)), 0)
  {
    hide Step, SystemOk, Clean, Frames, Tail, Deliver, IsFrame;
    assert Run(cfg, []) == START;
    OperateIsFrame();
    assert [] + OPERATE == OPERATE;
    DeliverClean([], OPERATE);
    SegmentsOfFrames([OPERATE]);
    DeliveryMeters(cfg, START, OPERATE, AsSegments([OPERATE]), 0);
  }

  lemma JunkMeters(cfg: Config, s: System, malformed: nat)
    requires ValidConfig(cfg) && SystemOk(cfg, s) && Established(s, malformed)
    ensures Established(Step(cfg, s, Data(SOME_KEY, ClientToServer, JUNK, 300)), malformed + 1)
    ensures SOME_KEY in Step(cfg, s, Data(SOME_KEY, ClientToServer, JUNK, 300)).st.flows
  {
    hide Step, SystemOk, Deliver;
    JunkDelivered();
    var segs := [Junk(JUNK)];
    assert ErrorCount(segs) == 1 + ErrorCount(segs[1..]) && FrameCount(segs) == FrameCount(segs[1..]);
    DeliveryMeters(cfg, s, JUNK, segs, 300);
  }

  /** Three rejects exactly 300 s into a window are in the window and are not reported. */
  lemma LastSecondRun(cfg: Config)
    requires ValidConfig(cfg)
    ensures var junk := Data(SOME_KEY, ClientToServer, JUNK, 300);
            var st := Run(cfg, [Data(SOME_KEY, ClientToServer, OPERATE, 0), junk, junk, junk]).st;
            SOME_KEY in st.flows && st.flows[SOME_KEY].watch.window.malformed == 3
            && !st.flows[SOME_KEY].watch.window.malformedEmitted
  {
    hide Step, SystemOk, Run;
    var op, junk := Data(SOME_KEY, ClientToServer, OPERATE, 0), Data(SOME_KEY, ClientToServer, JUNK, 300);
    EmptyRun(cfg);
    OperateEstablishes(cfg);
    RunMore(cfg, [], op);
    assert [] + [op] == [op];
    RunMore(cfg, [op], junk);
    JunkMeters(cfg, Run(cfg, [op]), 0);
    assert [op] + [junk] == [op, junk];
    RunMore(cfg, [op, junk], junk);
    JunkMeters(cfg, Run(cfg, [op, junk]), 1);
    assert [op, junk] + [junk] == [op, junk, junk];
    RunMore(cfg, [op, junk, junk], junk);
    JunkMeters(cfg, Run(cfg, [op, junk, junk]), 2);
    assert [op, junk, junk] + [junk] == [op, junk, junk, junk];
  }

  lemma EmptyRun(cfg: Config)
    requires ValidConfig(cfg)
    ensures Run(cfg, []) == START
  {
  }
}
