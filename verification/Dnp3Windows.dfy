/** The two time windows of a flow, against plain counts over its deliveries. */
module Dnp3Windows {
  import opened Octets
  import opened Flows
  import opened Dnp3Wire
  import opened Dnp3Framing
  import opened Dnp3Detection
  import opened Dnp3Reading
  import opened Dnp3Flow
  import opened Dnp3Analyzer
  import opened Windows

  /** One call that reached the carry: its time, how many requests it found overdue, and what was cut from the carry. */
  datatype Delivery = Delivery(ts: nat, blocked: nat, segs: seq<Segment>)

  function TimeOf(d: Delivery): nat { d.ts }

  /** What a call at `ts` amounts to for a flow in context `x`. */
  function DeliveryOf(x: Context, segs: seq<Segment>, ts: nat): Delivery {
    Delivery(ts, |OverdueKeys(x.watch.pending, ts)|, segs)
  }

  /** The deliveries of a flow since it was opened; latched and desynchronised calls leave none. */
  ghost function Deliveries(cfg: Config, ops: seq<Op>, key: FlowKey): seq<Delivery>
    requires ValidConfig(cfg)
  {
    if ops == [] then []
    else
      var n := |ops| - 1;
      var before, op := Deliveries(cfg, ops[..n], key), ops[n];
      if op.key != key then before
      else if op.Close? then []
      else
        var s := Load(Run(cfg, ops[..n]), key).s;
        if s.latched || s.Desync(op.data) then before
        else
          NewFlowOk(cfg, Run(cfg, ops[..n]), key);
          before + [DeliveryOf(s.x, Deliver(s.Carry(op.d), op.data).0, op.ts)]
  }

  // ---- the specification -----------------------------------------------------------------------

  /** The correlation windows of 300 s, and the one that is open. */
  function CorrelationWindows(ds: seq<Delivery>): seq<seq<Delivery>> { Partition(ds, TimeOf, 300) }

  function Current(ds: seq<Delivery>): seq<Delivery> { Running(ds, TimeOf, 300) }

  function RestartCount(segs: seq<Segment>): nat {
    if segs == [] then 0 else (if IsRestart(segs[0]) then 1 else 0) + RestartCount(segs[1..])
  }

  function Restarts(ds: seq<Delivery>): nat {
    if ds == [] then 0 else Restarts(ds[..|ds| - 1]) + RestartCount(ds[|ds| - 1].segs)
  }

  function Blocked(ds: seq<Delivery>): nat {
    if ds == [] then 0 else Blocked(ds[..|ds| - 1]) + ds[|ds| - 1].blocked
  }

  function Rejects(ds: seq<Delivery>): nat {
    if ds == [] then 0 else Rejects(ds[..|ds| - 1]) + ErrorCount(ds[|ds| - 1].segs)
  }

  /** The times of the control commands, one for each. */
  function ControlTimes(segs: seq<Segment>, ts: nat): seq<nat> {
    if segs == [] then [] else (if IsControl(segs[0]) then [ts] else []) + ControlTimes(segs[1..], ts)
  }

  function AllControlTimes(ds: seq<Delivery>): seq<nat> {
    if ds == [] then []
    else AllControlTimes(ds[..|ds| - 1]) + ControlTimes(ds[|ds| - 1].segs, ds[|ds| - 1].ts)
  }

  /** The burst windows of 60 s. */
  function BurstWindows(times: seq<nat>): seq<seq<nat>> { Partition(times, Moment, 60) }

  /**
   Whether the i-th burst window of a flow is reported when it holds n commands: when they are more than the threshold,
   as far as 32 bits can count. A window that follows another needs two of them even if the threshold is 0.
   */
  predicate IsBurst(threshold: nat, i: nat, n: nat) {
    (if n < U32_MAX then n else U32_MAX) > (if i == 0 || threshold >= 1 then threshold else 1)
  }

  // ---- one segment -----------------------------------------------------------------------------

  /** The fields of a flow that the windows are about. */
  datatype Meters = Meters(
    seeded: bool, start: nat, restarts: nat, blocks: nat, malformed: nat, alarm: bool, burst: Burst)

  function MetersOf(f: Watch): Meters {
    Meters(f.window.seeded, f.window.start, f.window.restarts, f.window.blocks, f.window.malformed,
           f.window.malformedEmitted, f.burst)
  }

  function MetersAfter(m: Meters, threshold: nat, fc: byte, ts: nat): Meters {
    match ClassifyFc(fc)
    case Control => m.(burst := m.burst.Next(threshold, ts))
    case Restart => m.(restarts := m.restarts + 1)
    case _ => m
  }

  lemma ControlMeters(cfg: Config, x: Context, h: Header, fc: byte, seqNo: nat, unexpected: bool, ts: nat)
    requires ValidConfig(cfg)
    ensures MetersOf(HandleControl(cfg, x, h, fc, seqNo, unexpected, ts).watch) ==
            MetersOf(x.watch).(burst := x.watch.burst.Next(cfg.threshold, ts))
  {
    hide Insert, Burst.Next, Sink.PushIf;
  }

  lemma RestartMeters(x: Context, ts: nat)
    ensures MetersOf(HandleRestart(x, ts).watch) == MetersOf(x.watch).(restarts := x.watch.window.restarts + 1)
  {
    hide Sink.PushIf, Sink.Push;
  }

  lemma OtherMeters(x: Context, h: Header, fc: byte, seqNo: nat, ts: nat)
    ensures MetersOf(HandleResponse(x, h, fc, seqNo, ts).watch) == MetersOf(x.watch)
    ensures MetersOf(HandleUnsolicitedControl(CountFc(x, fc), fc, ts).watch) == MetersOf(x.watch)
  {
    hide Sink.Push;
  }

  lemma ApplicationMeters(cfg: Config, x: Context, h: Header, fc: byte, seqNo: nat, unexpected: bool, ts: nat)
    requires ValidConfig(cfg)
    ensures MetersOf(HandleApplication(cfg, x, h, fc, seqNo, unexpected, ts).watch) ==
            MetersAfter(MetersOf(x.watch), cfg.threshold, fc, ts)
  {
    hide HandleControl, HandleRestart, HandleResponse, HandleUnsolicitedControl, CountFc, Sink.Push, ClassifyFc;
    var x1 := HandleUnsolicitedControl(CountFc(x, fc), fc, ts);
    OtherMeters(x, h, fc, seqNo, ts);
    OtherMeters(x1, h, fc, seqNo, ts);
    ControlMeters(cfg, x1, h, fc, seqNo, unexpected, ts);
    RestartMeters(x1, ts);
  }

  lemma ParsedMeters(cfg: Config, x: Context, h: Header, app: Option<Application>, ts: nat)
    requires ValidConfig(cfg)
    ensures MetersOf(HandleParsed(cfg, x, h, app, ts).watch) ==
            if app.None? then MetersOf(x.watch) else MetersAfter(MetersOf(x.watch), cfg.threshold, app.value.fc, ts)
  {
    hide HandleApplication, IsUnexpected, MetersAfter, RecordMaster;
    var x1 := RecordMaster(x.(watch := x.watch.(frameCount := x.watch.frameCount + 1)), h);
    MasterMeters(x, h);
    if app.Some? {
      ApplicationMeters(cfg, x1, h, app.value.fc, app.value.seqNo, IsUnexpected(x.watch, h), ts);
    }
  }

  lemma MasterMeters(x: Context, h: Header)
    ensures MetersOf(RecordMaster(x.(watch := x.watch.(frameCount := x.watch.frameCount + 1)), h).watch) ==
            MetersOf(x.watch)
  {
  }

  lemma SegmentMeters(cfg: Config, x: Context, s: Segment, ts: nat)
    requires ValidConfig(cfg) && SegmentOk(s)
    ensures var m, n := MetersOf(x.watch), MetersOf(HandleSegment(cfg, x, s, ts).watch);
            && n.seeded == m.seeded && n.start == m.start && n.blocks == m.blocks
            && n.restarts == m.restarts + (if IsRestart(s) then 1 else 0)
            && n.malformed == m.malformed + (if s.Frame? then 0 else 1)
            && (n.alarm <==> m.alarm || (!s.Frame? && m.malformed + 1 >= 3 && SatSub(ts, m.start) < 300))
            && n.burst == if IsControl(s) then m.burst.Next(cfg.threshold, ts) else m.burst
  {
    hide HandleParsed, Sink.PushIf, ApplicationOf, ParseHeader, FrameLen, Burst.Next, ClassifyFc, CodeOf;
    if s.Frame? {
      FrameReads(s);
      ParsedMeters(cfg, x, ParseHeader(s.bytes).value, ApplicationOf(s.bytes), ts);
    }
  }

  // ---- one delivery ----------------------------------------------------------------------------

  /** Counter (32 bits, stopping at its top), start and guard of the last burst window over `times`. */
  ghost predicate BurstTracks(threshold: nat, b: Burst, times: seq<nat>) {
    var ws := BurstWindows(times);
    if ws == [] then b.count == 0 && !b.emitted
    else
      var n := |ws| - 1;
      && b.count == (if |ws[n]| <= U32_MAX then |ws[n]| else U32_MAX)
      && b.start == ws[n][0]
      && (b.emitted <==> IsBurst(threshold, n, |ws[n]|))
  }

  lemma BurstStep(threshold: nat, b: Burst, times: seq<nat>, ts: nat)
    requires BurstTracks(threshold, b, times)
    ensures BurstTracks(threshold, b.Next(threshold, ts), times + [ts])
  {
    hide Partition;
    PartitionMore(times, ts, Moment, 60);
  }

  lemma {:induction false} SegmentsMeters(cfg: Config, x: Context, segs: seq<Segment>, ts: nat)
    requires ValidConfig(cfg) && SegmentsOk(segs)
    ensures var m, n := MetersOf(x.watch), MetersOf(HandleSegments(cfg, x, segs, ts).watch);
            && n.seeded == m.seeded && n.start == m.start && n.blocks == m.blocks
            && n.restarts == m.restarts + RestartCount(segs)
            && n.malformed == m.malformed + ErrorCount(segs)
            && (n.alarm <==> m.alarm || (ErrorCount(segs) >= 1 && n.malformed >= 3 && SatSub(ts, m.start) < 300))
    decreases |segs|
  {
    hide HandleSegment, Burst.Next, IsControl, IsRestart, SegmentOk, SatSub;
    if segs != [] {
      assert segs[0] in segs;
      SegmentMeters(cfg, x, segs[0], ts);
      SegmentsMeters(cfg, HandleSegment(cfg, x, segs[0], ts), segs[1..], ts);
    }
  }

  lemma {:induction false} SegmentsBurst(cfg: Config, x: Context, segs: seq<Segment>, ts: nat, times: seq<nat>)
    requires ValidConfig(cfg) && SegmentsOk(segs) && BurstTracks(cfg.threshold, x.watch.burst, times)
    ensures BurstTracks(cfg.threshold, HandleSegments(cfg, x, segs, ts).watch.burst, times + ControlTimes(segs, ts))
    decreases |segs|
  {
    hide HandleSegment, BurstTracks, Burst.Next, IsControl, IsRestart, SegmentOk, SatSub;
    if segs == [] {
      assert times + ControlTimes(segs, ts) == times;
    } else {
      assert segs[0] in segs;
      SegmentMeters(cfg, x, segs[0], ts);
      BurstStep(cfg.threshold, x.watch.burst, times, ts);
      var times1 := if IsControl(segs[0]) then times + [ts] else times;
      SegmentsBurst(cfg, HandleSegment(cfg, x, segs[0], ts), segs[1..], ts, times1);
      assert times1 + ControlTimes(segs[1..], ts) == times + ControlTimes(segs, ts);
    }
  }

  /** The correlation window is what its deliveries say. */
  ghost predicate WindowTracks(m: Meters, w: seq<Delivery>) {
    && (m.seeded <==> w != [])
    && (w != [] ==> m.start == w[0].ts)
    && m.restarts == Restarts(w)
    && m.blocks == Blocked(w)
    && m.malformed == Rejects(w)
    && (m.alarm <==> exists k: nat :: k < |w| && AlarmAt(w, k))
  }

  ghost predicate Tracks(threshold: nat, f: Watch, ds: seq<Delivery>) {
    WindowTracks(MetersOf(f), Current(ds)) && BurstTracks(threshold, f.burst, AllControlTimes(ds))
  }

  /** The k-th delivery of a window has a reject that is at least the third, less than 300 s into the window. */
  ghost predicate AlarmAt(w: seq<Delivery>, k: nat)
    requires k < |w|
  {
    ErrorCount(w[k].segs) >= 1 && Rejects(w[..k + 1]) >= 3 && SatSub(w[k].ts, w[0].ts) < 300
  }

  lemma AlarmOneMore(w: seq<Delivery>, d: Delivery)
    ensures forall k: nat :: k < |w| ==> (AlarmAt(w + [d], k) <==> AlarmAt(w, k))
    ensures var start := if w == [] then d.ts else w[0].ts;
            AlarmAt(w + [d], |w|) <==>
            ErrorCount(d.segs) >= 1 && Rejects(w) + ErrorCount(d.segs) >= 3 && SatSub(d.ts, start) < 300
  {
    forall k: nat | k < |w| ensures AlarmAt(w + [d], k) <==> AlarmAt(w, k) {
      assert (w + [d])[..k + 1] == w[..k + 1];
    }
    assert (w + [d])[..|w| + 1] == w + [d];
    CountsOfOneMore(w, d);
  }

  lemma AlarmsOneMore(w: seq<Delivery>, d: Delivery, alarm: bool)
    requires alarm <==> exists k: nat :: k < |w| && AlarmAt(w, k)
    ensures (exists k: nat :: k < |w + [d]| && AlarmAt(w + [d], k)) <==> alarm || AlarmAt(w + [d], |w|)
  {
    hide AlarmAt;
    AlarmOneMore(w, d);
    if alarm {
      var k: nat :| k < |w| && AlarmAt(w, k);
      assert AlarmAt(w + [d], k);
    }
  }

  lemma PrologueMeters(x: Context, ts: nat)
    ensures var m, gone := MetersOf(x.watch), |OverdueKeys(x.watch.pending, ts)|;
            MetersOf(Prologue(x, ts).watch) ==
            if !m.seeded then m.(seeded := true, start := ts, blocks := m.blocks + gone)
            else if SatSub(ts, m.start) > 300 then Meters(true, ts, 0, gone, 0, false, m.burst)
            else m.(blocks := m.blocks + gone)
  {
    hide Sink.PushIf, OverdueKeys;
  }

  lemma DeliveryTracks(cfg: Config, x: Context, ds: seq<Delivery>, segs: seq<Segment>, ts: nat)
    requires ValidConfig(cfg) && SegmentsOk(segs) && Tracks(cfg.threshold, x.watch, ds)
    ensures Tracks(cfg.threshold, HandleSegments(cfg, Prologue(x, ts), segs, ts).watch, ds + [DeliveryOf(x, segs, ts)])
  {
    hide HandleSegments, Prologue, BurstTracks, ControlTimes, RestartCount, ErrorCount, WindowTracks, OverdueKeys,
         Running;
    var d, m, w := DeliveryOf(x, segs, ts), MetersOf(x.watch), Current(ds);
    var n := MetersOf(HandleSegments(cfg, Prologue(x, ts), segs, ts).watch);
    PrologueMeters(x, ts);
    SegmentsMeters(cfg, Prologue(x, ts), segs, ts);
    SegmentsBurst(cfg, Prologue(x, ts), segs, ts, AllControlTimes(ds));
    assert (ds + [d])[..|ds|] == ds;
    RunningMore(ds, d, TimeOf, 300);
    StartOf(m, w);
    if m.seeded && SatSub(ts, m.start) > 300 {
      assert [] + [d] == [d];
      NothingTracked(cfg.threshold);
      WindowGrows(Meters(false, ts, 0, 0, 0, false, m.burst), n, [], d);
    } else {
      WindowGrows(m, n, w, d);
    }
  }

  lemma StartOf(m: Meters, w: seq<Delivery>)
    requires WindowTracks(m, w)
    ensures (m.seeded <==> w != []) && (w != [] ==> m.start == w[0].ts)
  {
  }

  /** One more delivery in a window, or the first one. */
  lemma WindowGrows(m: Meters, n: Meters, w: seq<Delivery>, d: Delivery)
    requires WindowTracks(m, w)
    requires n.seeded && n.start == (if m.seeded then m.start else d.ts)
    requires n.restarts == m.restarts + RestartCount(d.segs) && n.blocks == m.blocks + d.blocked
    requires n.malformed == m.malformed + ErrorCount(d.segs)
    requires n.alarm <==> m.alarm || (ErrorCount(d.segs) >= 1 && n.malformed >= 3 && SatSub(d.ts, n.start) < 300)
    ensures WindowTracks(n, w + [d])
  {
    hide AlarmAt, RestartCount, ErrorCount, SatSub, Restarts, Rejects, Blocked;
    CountsOfOneMore(w, d);
    AlarmOneMore(w, d);
    AlarmsOneMore(w, d, m.alarm);
  }

  lemma CountsOfOneMore(ds: seq<Delivery>, d: Delivery)
    ensures Restarts(ds + [d]) == Restarts(ds) + RestartCount(d.segs)
    ensures Blocked(ds + [d]) == Blocked(ds) + d.blocked
    ensures Rejects(ds + [d]) == Rejects(ds) + ErrorCount(d.segs)
  {
    assert (ds + [d])[..|ds|] == ds;
  }

  /**
   In any run, for every open flow: the correlation window starts at the first delivery of the running 300 s window, the
   restart, block and malformed counts are those of the deliveries in it, the malformed guard is set exactly when one of
   them had a third reject in time, and the burst counter and guard are those of the running 60 s window of control
   commands.
   */
  lemma {:induction false} WindowsTrack(cfg: Config, ops: seq<Op>, key: FlowKey)
    requires ValidConfig(cfg)
    ensures Tracks(cfg.threshold, Load(Run(cfg, ops), key).s.x.watch, Deliveries(cfg, ops, key))
    decreases |ops|
  {
    hide Tracks, FlowOk, SystemOk, Deliver, HandleSegments, Prologue, Feed, DeliveryOf;
    NothingTracked(cfg.threshold);
    if ops != [] {
      var n := |ops| - 1;
      var s, op := Run(cfg, ops[..n]), ops[n];
      WindowsTrack(cfg, ops[..n], key);
      if op.Data? && op.key == key {
        var t := Load(s, key);
        NewFlowOk(cfg, s, key);
        FlowOkParts(cfg, t);
        if !t.s.latched && !t.s.Desync(op.data) {
          DeliverTiles(t.s.Carry(op.d), op.data);
          DeliveryTracks(cfg, t.s.x, Deliveries(cfg, ops[..n], key), Deliver(t.s.Carry(op.d), op.data).0, op.ts);
        }
      }
    }
  }

  /** A correlation window whose deliveries call for each of its three findings. */
  ghost predicate IsBlocking(w: seq<Delivery>) { Blocked(w) >= 3 }

  ghost predicate IsLoss(w: seq<Delivery>) { Restarts(w) + Blocked(w) >= 3 }

  ghost predicate IsMalformed(w: seq<Delivery>) { exists k: nat :: k < |w| && AlarmAt(w, k) }

  ghost predicate GuardsCount(threshold: nat, f: Watch, ds: seq<Delivery>) {
    var cur, bursts := Current(ds), BurstWindows(AllControlTimes(ds));
    && (f.burst.emitted <==> bursts != [] && IsBurst(threshold, |bursts| - 1, |bursts[|bursts| - 1]|))
    && (f.window.blockEmitted <==> IsBlocking(cur))
    && (f.window.lossEmitted <==> IsLoss(cur))
    && (f.window.malformedEmitted <==> IsMalformed(cur))
  }

  lemma TracksCount(threshold: nat, f: Watch, ds: seq<Delivery>)
    requires Tracks(threshold, f, ds) && WindowOk(f.window)
    ensures GuardsCount(threshold, f, ds)
  {
    hide AlarmAt, Current, BurstWindows, AllControlTimes, Restarts, Rejects, Blocked, IsBurst;
  }

  /** The guards of an open flow, by counting alone, for every threshold. */
  lemma GuardsByCounting(cfg: Config, ops: seq<Op>, key: FlowKey)
    requires ValidConfig(cfg) && key in Run(cfg, ops).st.flows
    ensures GuardsCount(cfg.threshold, Run(cfg, ops).st.flows[key].watch, Deliveries(cfg, ops, key))
  {
    hide Run, Deliveries, Tracks, GuardsCount;
    GuardsOverRuns(cfg, ops, key);
    WindowsTrack(cfg, ops, key);
    TracksCount(cfg.threshold, Run(cfg, ops).st.flows[key].watch, Deliveries(cfg, ops, key));
  }

  /** The k-th delivery of a window has a reject that is at least the third. */
  ghost predicate ThirdReject(w: seq<Delivery>, k: nat)
    requires k < |w|
  {
    ErrorCount(w[k].segs) >= 1 && Rejects(w[..k + 1]) >= 3
  }

  /** If a window has three rejects, one of its deliveries has the third. */
  lemma {:induction false} SomeThirdReject(w: seq<Delivery>)
    requires Rejects(w) >= 3
    ensures exists k: nat :: k < |w| && ThirdReject(w, k)
  {
    var n := |w| - 1;
    assert w[..n + 1] == w;
    if ErrorCount(w[n].segs) >= 1 {
      assert ThirdReject(w, n);
    } else {
      SomeThirdReject(w[..n]);
      var k: nat :| k < n && ThirdReject(w[..n], k);
      assert w[..n][..k + 1] == w[..k + 1];
      assert ThirdReject(w, k);
    }
  }

  /**
   Three rejects in a window go unreported exactly when every delivery with a third or later one came at the last
   second of the window: the anomaly is checked while less than 300 s have passed, the window expires after more.
   Without a delivery at that second, the guard is the count.
   */
  lemma MalformedMissedIff(cfg: Config, ops: seq<Op>, key: FlowKey)
    requires ValidConfig(cfg) && key in Run(cfg, ops).st.flows
    ensures var w := Run(cfg, ops).st.flows[key].watch.window;
            var cur := Current(Deliveries(cfg, ops, key));
            && (w.malformed >= 3 && !w.malformedEmitted <==> OnlyAtLastSecond(cur))
            && ((forall k: nat :: k < |cur| ==> !AtLastSecond(cur, k)) ==> (w.malformedEmitted <==> w.malformed >= 3))
  {
    hide Run, Deliveries, Current, OnlyAtLastSecond, IsMalformed, BurstTracks;
    GuardsOverRuns(cfg, ops, key);
    WindowsTrack(cfg, ops, key);
    LastSecond(Deliveries(cfg, ops, key));
  }

  ghost predicate AtLastSecond(w: seq<Delivery>, k: nat)
    requires k < |w|
  {
    SatSub(w[k].ts, w[0].ts) == 300
  }

  ghost predicate OnlyAtLastSecond(w: seq<Delivery>) {
    Rejects(w) >= 3 && forall k: nat :: k < |w| && ThirdReject(w, k) ==> AtLastSecond(w, k)
  }

  lemma LastSecond(ds: seq<Delivery>)
    ensures var w := Current(ds);
            && (Rejects(w) >= 3 && !(exists k: nat :: k < |w| && AlarmAt(w, k)) <==> OnlyAtLastSecond(w))
            && (OnlyAtLastSecond(w) ==> exists k: nat :: k < |w| && AtLastSecond(w, k))
  {
    hide Rejects, ErrorCount, Running, SatSub, RestartCount;
    var w := Current(ds);
    forall k: nat | k < |w| ensures AlarmAt(w, k) <==> ThirdReject(w, k) && !AtLastSecond(w, k) {
      RunningWithin(ds, TimeOf, 300, k);
    }
    if Rejects(w) >= 3 {
      SomeThirdReject(w);
    }
  }

  lemma NothingTracked(threshold: nat)
    ensures Tracks(threshold, NEW_WATCH, [])
    ensures forall ts: nat, b: Burst :: WindowTracks(Meters(false, ts, 0, 0, 0, false, b), [])
  {
  }
}
