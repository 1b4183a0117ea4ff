/** Per-flow detection: what one parse error, one timeout scan and one complete frame do to a flow. */
module Dnp3Detection {
  import opened Octets
  import opened Findings
  import opened Dnp3Wire
  import opened Dnp3Framing
  import opened Tables

  const MAX_PENDING: nat := 256
  const MAX_MASTERS: nat := 64
  const MAX_FINDINGS: nat := 10_000
  const MALFORMED_THRESHOLD: nat := 3
  const BLOCK_THRESHOLD: nat := 3
  const LOSS_THRESHOLD: nat := 3
  const CORRELATION_SECS: nat := 300
  const BLOCK_TIMEOUT_SECS: nat := 10
  const BURST_SECS: nat := 60

  datatype Tag =
    | ControlBurst | RestartCommand | WriteCommand | BlockedCommand | LossOfControl | BroadcastControl
    | UnexpectedSource | UnsolicitedResponse | EnableUnsolicited | DisableUnsolicited | MalformedFrames

  datatype Finding = Finding(tag: Tag, confidence: Confidence, ts: nat)

  /** Findings are capped; what the cap refuses is only counted. `refused` is history that no step reads. */
  datatype Sink = Sink(findings: seq<Finding>, dropped: nat, refused: seq<Finding>) {
    ghost predicate Valid() {
      |findings| <= MAX_FINDINGS && (dropped > 0 ==> |findings| == MAX_FINDINGS) && |refused| == dropped
    }

    function Push(f: Finding): (s: Sink)
      ensures Valid() ==> s.Valid()
    {
      if |findings| < MAX_FINDINGS then Sink(findings + [f], dropped, refused)
      else Sink(findings, dropped + 1, refused + [f])
    }

    function PushIf(cond: bool, f: Finding): (s: Sink)
      ensures Valid() ==> s.Valid()
    {
      if cond then Push(f) else this
    }
  }

  /** Destination (outstation) address and application sequence number. */
  type PendingKey = (nat, nat)

  /** The direct-operate burst window. */
  datatype Burst = Burst(count: nat, start: nat, emitted: bool) {
    /** One more control command. The reset branch leaves without looking at the threshold. */
    function Next(threshold: nat, ts: nat): Burst {
      if count > 0 && SatSub(ts, start) > BURST_SECS then Burst(1, ts, false)
      else
        var n := SatInc32(count);
        var from := if n == 1 then ts else start;
        Burst(n, from, emitted || (n > threshold && SatSub(ts, from) <= BURST_SECS))
    }
  }

  /** The correlation window: the six fields that expire together, and where the window starts. */
  datatype Window = Window(
    seeded: bool, start: nat,
    restarts: nat, blocks: nat, blockEmitted: bool, lossEmitted: bool, malformed: nat, malformedEmitted: bool) {

    function Expire(ts: nat): Window {
      if !seeded then this.(seeded := true, start := ts)
      else if SatSub(ts, start) > CORRELATION_SECS then Window(true, ts, 0, 0, false, false, 0, false)
      else this
    }

    /** The three one-shot guards, each set by its own check. */
    function CheckBlocked(): Window {
      this.(blockEmitted := blockEmitted || blocks >= BLOCK_THRESHOLD)
    }

    function CheckLoss(): Window {
      this.(lossEmitted := lossEmitted || restarts + blocks >= LOSS_THRESHOLD)
    }

    function CheckMalformed(ts: nat): Window {
      this.(malformedEmitted := malformedEmitted
                                || (malformed >= MALFORMED_THRESHOLD && SatSub(ts, start) < CORRELATION_SECS))
    }
  }

  /** History of a flow's pending requests: the program does not keep it, and no step reads it. */
  datatype Tally = Tally(inserted: nat, timedOut: nat, answered: nat, evicted: nat)

  /** What detection keeps about a flow; the carries and the latch are framing's. */
  datatype Watch = Watch(
    fcCounts: map<byte, nat>, frameCount: nat, parseErrors: nat,
    burst: Burst, masters: seq<nat>, window: Window, pending: map<PendingKey, nat>,
    enableSeen: bool, responseSeen: bool, unsolicitedEmitted: bool, unexpectedEmitted: bool,
    tally: Tally)

  const NEW_WATCH := Watch(map[], 0, 0, Burst(0, 0, false), [], Window(false, 0, 0, 0, false, false, 0, false), map[],
                           false, false, false, false, Tally(0, 0, 0, 0))

  /** A flow's watch together with the analyzer-wide state that handling it may touch. */
  datatype Context = Context(watch: Watch, sink: Sink, fnCodes: map<byte, nat>, mastersDropped: nat, evictions: nat)

  datatype Config = Config(threshold: nat, order: Order<PendingKey>)

  ghost predicate ValidConfig(cfg: Config) {
    cfg.threshold <= U32_MAX && IsOrder(cfg.order)
  }

  // ---- timeouts and parse errors ---------------------------------------------------------------

  predicate Overdue(sent: nat, ts: nat) { SatSub(ts, sent) > BLOCK_TIMEOUT_SECS }

  function OverdueKeys(pending: map<PendingKey, nat>, ts: nat): set<PendingKey> {
    set k | k in pending && Overdue(pending[k], ts)
  }

  /** Drops the overdue requests, counts each as a blocked command, then considers the two findings about them. */
  function ScanTimeouts(x: Context, ts: nat): Context {
    var gone := OverdueKeys(x.watch.pending, ts);
    var w1 := x.watch.window.(blocks := x.watch.window.blocks + |gone|);
    var w2 := w1.CheckBlocked();
    var w3 := if gone == {} then w2 else w2.CheckLoss();
    var t := x.watch.tally;
    x.(watch := x.watch.(pending := x.watch.pending - gone, window := w3, tally := t.(timedOut := t.timedOut + |gone|)),
       sink := x.sink.PushIf(w2.blockEmitted != w1.blockEmitted, Finding(BlockedCommand, Low, ts))
                     .PushIf(w3.lossEmitted != w2.lossEmitted, Finding(LossOfControl, Medium, ts)))
  }

  /** One structural reject: both counters go up, then the windowed anomaly is considered. */
  function Malformed(x: Context, ts: nat): Context {
    var w1 := x.watch.window.(malformed := x.watch.window.malformed + 1);
    var w2 := w1.CheckMalformed(ts);
    x.(watch := x.watch.(parseErrors := x.watch.parseErrors + 1, window := w2),
       sink := x.sink.PushIf(w2.malformedEmitted != w1.malformedEmitted, Finding(MalformedFrames, Low, ts)))
  }

  // ---- pending requests ------------------------------------------------------------------------

  /** Whether inserting `key` must first make room. */
  predicate MustEvict(pending: map<PendingKey, nat>, key: PendingKey) {
    |pending| >= MAX_PENDING && key !in pending
  }

  datatype Insertion = Insertion(pending: map<PendingKey, nat>, added: nat, evicted: nat)

  /** The n-th eviction, if one is needed, takes the victim that `order` leads to. */
  function Insert(order: Order<PendingKey>, n: nat, p: map<PendingKey, nat>, key: PendingKey, ts: nat): (r: Insertion)
    requires IsOrder(order)
    ensures |p| <= MAX_PENDING ==> |r.pending| <= MAX_PENDING
    ensures |r.pending| + r.evicted == |p| + r.added
  {
    var added := if key in p then 0 else 1;
    if MustEvict(p, key) then
      assert p.Keys != {};
      var victim := Victim(order, n, p);
      SwapSize(p, victim, key, ts);
      Insertion((p - {victim})[key := ts], added, 1)
    else
      AddSize(p, key, ts);
      Insertion(p[key := ts], added, 0)
  }

  function Answer(x: Context, key: PendingKey): Context {
    var t := x.watch.tally;
    var hits := if key in x.watch.pending then 1 else 0;
    x.(watch := x.watch.(pending := x.watch.pending - {key}, tally := t.(answered := t.answered + hits)))
  }

  // ---- one frame -------------------------------------------------------------------------------

  function HandleControl(cfg: Config, x: Context, h: Header, fc: byte, seqNo: nat, unexpected: bool, ts: nat): Context
    requires ValidConfig(cfg)
  {
    var f := x.watch;
    var ins := if fc == 0x06 then Insertion(f.pending, 0, 0)
               else Insert(cfg.order, x.evictions, f.pending, (h.destination, seqNo), ts);
    var b := f.burst.Next(cfg.threshold, ts);
    var t := f.tally.(inserted := f.tally.inserted + ins.added, evicted := f.tally.evicted + ins.evicted);
    x.(watch := f.(unexpectedEmitted := f.unexpectedEmitted || unexpected, pending := ins.pending, burst := b,
                  tally := t),
       sink := x.sink.PushIf(IsBroadcast(h.destination), Finding(BroadcastControl, Medium, ts))
                     .PushIf(unexpected && !f.unexpectedEmitted, Finding(UnexpectedSource, High, ts))
                     .PushIf(b.emitted && !f.burst.emitted, Finding(ControlBurst, Medium, ts)),
       evictions := x.evictions + ins.evicted)
  }

  function HandleRestart(x: Context, ts: nat): Context {
    var w1 := x.watch.window.(restarts := x.watch.window.restarts + 1);
    var w2 := w1.CheckLoss();
    x.(watch := x.watch.(window := w2),
       sink := x.sink.Push(Finding(RestartCommand, High, ts))
                     .PushIf(w2.lossEmitted != w1.lossEmitted, Finding(LossOfControl, Medium, ts)))
  }

  function HandleResponse(x: Context, h: Header, fc: byte, seqNo: nat, ts: nat): Context {
    if fc == 0x81 then Answer(x.(watch := x.watch.(responseSeen := true)), (h.source, seqNo))
    else if fc == 0x82 && !x.watch.enableSeen && !x.watch.responseSeen && !x.watch.unsolicitedEmitted then
      x.(watch := x.watch.(unsolicitedEmitted := true), sink := x.sink.Push(Finding(UnsolicitedResponse, Low, ts)))
    else x
  }

  function HandleUnsolicitedControl(x: Context, fc: byte, ts: nat): Context {
    if fc == 0x14 then
      x.(watch := x.watch.(enableSeen := true), sink := x.sink.Push(Finding(EnableUnsolicited, Low, ts)))
    else if fc == 0x15 then x.(sink := x.sink.Push(Finding(DisableUnsolicited, Medium, ts)))
    else x
  }

  function Bump(counts: map<byte, nat>, fc: byte): map<byte, nat> {
    counts[fc := (if fc in counts then counts[fc] else 0) + 1]
  }

  function CountFc(x: Context, fc: byte): Context {
    x.(watch := x.watch.(fcCounts := Bump(x.watch.fcCounts, fc)), fnCodes := Bump(x.fnCodes, fc))
  }

  function HandleApplication(cfg: Config, x: Context, h: Header, fc: byte, seqNo: nat, unexpected: bool, ts: nat)
    : Context
    requires ValidConfig(cfg)
  {
    var x1 := HandleUnsolicitedControl(CountFc(x, fc), fc, ts);
    match ClassifyFc(fc)
    case Control => HandleControl(cfg, x1, h, fc, seqNo, unexpected, ts)
    case Restart => HandleRestart(x1, ts)
    case Write => x1.(sink := x1.sink.Push(Finding(WriteCommand, Medium, ts)))
    case Response => HandleResponse(x1, h, fc, seqNo, ts)
    case _ => x1
  }

  function RecordMaster(x: Context, h: Header): Context {
    if !IsMasterFrame(h.control) || h.source in x.watch.masters then x
    else if |x.watch.masters| < MAX_MASTERS then x.(watch := x.watch.(masters := x.watch.masters + [h.source]))
    else x.(mastersDropped := x.mastersDropped + 1)
  }

  /** A master-direction source that is new although masters are already known. */
  predicate IsUnexpected(f: Watch, h: Header) {
    IsMasterFrame(h.control) && f.masters != [] && h.source !in f.masters
  }

  datatype Application = Application(fc: byte, seqNo: nat)

  /** Octets 11 and 12, when the frame is a first fragment of user data long enough to have them. */
  function ApplicationOf(f: seq<byte>): Option<Application> {
    if |f| >= 13 && HasUserData(f[3]) && TransportIsFir(f[10]) then Some(Application(f[12], f[11] % 16)) else None
  }

  function HandleParsed(cfg: Config, x: Context, h: Header, app: Option<Application>, ts: nat): Context
    requires ValidConfig(cfg)
  {
    var x1 := RecordMaster(x.(watch := x.watch.(frameCount := x.watch.frameCount + 1)), h);
    if app.None? then x1
    else HandleApplication(cfg, x1, h, app.value.fc, app.value.seqNo, IsUnexpected(x.watch, h), ts)
  }

  function HandleFrame(cfg: Config, x: Context, f: seq<byte>, ts: nat): Context
    requires ValidConfig(cfg) && IsFrame(f)
  {
    HandleParsed(cfg, x, ParseHeader(f).value, ApplicationOf(f), ts)
  }

  ghost function HandleSegment(cfg: Config, x: Context, s: Segment, ts: nat): Context
    requires ValidConfig(cfg) && SegmentOk(s)
  {
    if s.Frame? then HandleFrame(cfg, x, s.bytes, ts) else Malformed(x, ts)
  }

  ghost function HandleSegments(cfg: Config, x: Context, segs: seq<Segment>, ts: nat): Context
    requires ValidConfig(cfg) && SegmentsOk(segs)
    decreases |segs|
  {
    if segs == [] then x
    else
      assert segs[0] in segs;
      HandleSegments(cfg, HandleSegment(cfg, x, segs[0], ts), segs[1..], ts)
  }

  // ---- what every step keeps -------------------------------------------------------------------

  ghost predicate WindowOk(w: Window) {
    && (w.lossEmitted <==> w.restarts + w.blocks >= LOSS_THRESHOLD)
    && (w.blockEmitted <==> w.blocks >= BLOCK_THRESHOLD)
    && (w.malformedEmitted ==> w.malformed >= MALFORMED_THRESHOLD)
  }

  ghost predicate BurstOk(threshold: nat, b: Burst) {
    && b.count <= U32_MAX
    && (b.emitted ==> b.count > threshold)
    && (threshold >= 1 && b.count > threshold ==> b.emitted)
  }

  ghost predicate PendingOk(pending: map<PendingKey, nat>, t: Tally) {
    |pending| <= MAX_PENDING && t.inserted == t.timedOut + t.answered + t.evicted + |pending|
  }

  ghost predicate MastersOk(masters: seq<nat>) {
    |masters| <= MAX_MASTERS && forall i, j :: 0 <= i < j < |masters| ==> masters[i] != masters[j]
  }

  /** Everything that detection keeps; framing has its own invariant. */
  ghost predicate DetectionOk(cfg: Config, x: Context) {
    && WindowOk(x.watch.window)
    && x.watch.window.malformed <= x.watch.parseErrors
    && BurstOk(cfg.threshold, x.watch.burst)
    && PendingOk(x.watch.pending, x.watch.tally)
    && MastersOk(x.watch.masters)
    && x.sink.Valid()
  }

  ghost predicate Counted(x: Watch, y: Watch, frames: nat, errors: nat) {
    y.frameCount == x.frameCount + frames && y.parseErrors == x.parseErrors + errors
  }

  lemma ScanKeeps(cfg: Config, x: Context, ts: nat)
    requires DetectionOk(cfg, x)
    ensures DetectionOk(cfg, ScanTimeouts(x, ts)) && Counted(x.watch, ScanTimeouts(x, ts).watch, 0, 0)
  {
    MapMinusSize(x.watch.pending, OverdueKeys(x.watch.pending, ts));
  }

  lemma MapMinusSize<K, V>(m: map<K, V>, gone: set<K>)
    requires gone <= m.Keys
    ensures |m - gone| == |m| - |gone|
  {
    assert (m - gone).Keys == m.Keys - gone;
  }

  /**
   A timeout scan removes exactly the requests older than ten seconds and adds their number to the blocked
   commands.
   */
  lemma ScanRemovesExactlyOverdue(x: Context, ts: nat)
    ensures var y := ScanTimeouts(x, ts);
            && (forall k :: k in y.watch.pending <==> k in x.watch.pending && ts <= x.watch.pending[k] + 10)
            && (forall k :: k in y.watch.pending ==> y.watch.pending[k] == x.watch.pending[k])
            && y.watch.window.blocks - x.watch.window.blocks == |x.watch.pending| - |y.watch.pending|
            && y.watch.tally.timedOut - x.watch.tally.timedOut == |x.watch.pending| - |y.watch.pending|
  {
    MapMinusSize(x.watch.pending, OverdueKeys(x.watch.pending, ts));
  }

  /** An eviction happens only on a full table, takes one entry, and that entry is no younger than any other. */
  lemma EvictionTakesAnOldest(order: Order<PendingKey>, n: nat, p: map<PendingKey, nat>, key: PendingKey, ts: nat)
    requires IsOrder(order) && |p| <= MAX_PENDING
    ensures var r := Insert(order, n, p, key, ts);
            if r.evicted == 0 then r.pending == p[key := ts]
            else |p| == MAX_PENDING && key !in p
                 && exists v :: IsOldest(p, v) && r.pending == (p - {v})[key := ts]
  {
    if MustEvict(p, key) {
      assert p.Keys != {};
      assert IsOldest(p, Victim(order, n, p));
    }
  }

  ghost predicate IsOldest(pending: map<PendingKey, nat>, v: PendingKey) {
    v in pending && forall k :: k in pending ==> pending[v] <= pending[k]
  }

  lemma AnswerKeeps(cfg: Config, x: Context, key: PendingKey)
    requires DetectionOk(cfg, x)
    ensures DetectionOk(cfg, Answer(x, key)) && Counted(x.watch, Answer(x, key).watch, 0, 0)
  {
    assert (x.watch.pending - {key}).Keys == x.watch.pending.Keys - {key};
  }

  lemma BurstNextOk(threshold: nat, b: Burst, ts: nat)
    requires threshold <= U32_MAX && BurstOk(threshold, b)
    ensures BurstOk(threshold, b.Next(threshold, ts))
  {
  }

  lemma ControlKeeps(cfg: Config, x: Context, h: Header, fc: byte, seqNo: nat, unexpected: bool, ts: nat)
    requires ValidConfig(cfg) && DetectionOk(cfg, x)
    ensures var y := HandleControl(cfg, x, h, fc, seqNo, unexpected, ts);
            DetectionOk(cfg, y) && Counted(x.watch, y.watch, 0, 0)
  {
    BurstNextOk(cfg.threshold, x.watch.burst, ts);
  }

  lemma RestartKeeps(cfg: Config, x: Context, ts: nat)
    requires DetectionOk(cfg, x)
    ensures var y := HandleRestart(x, ts); DetectionOk(cfg, y) && Counted(x.watch, y.watch, 0, 0)
  {
  }

  lemma ResponseKeeps(cfg: Config, x: Context, h: Header, fc: byte, seqNo: nat, ts: nat)
    requires DetectionOk(cfg, x)
    ensures var y := HandleResponse(x, h, fc, seqNo, ts); DetectionOk(cfg, y) && Counted(x.watch, y.watch, 0, 0)
  {
    if fc == 0x81 {
      AnswerKeeps(cfg, x.(watch := x.watch.(responseSeen := true)), (h.source, seqNo));
    }
  }

  lemma ApplicationKeeps(cfg: Config, x: Context, h: Header, fc: byte, seqNo: nat, unexpected: bool, ts: nat)
    requires ValidConfig(cfg) && DetectionOk(cfg, x)
    ensures var y := HandleApplication(cfg, x, h, fc, seqNo, unexpected, ts);
            DetectionOk(cfg, y) && Counted(x.watch, y.watch, 0, 0)
  {
    hide HandleControl, HandleRestart, HandleResponse;
    var x1 := HandleUnsolicitedControl(CountFc(x, fc), fc, ts);
    assert DetectionOk(cfg, x1) && Counted(x.watch, x1.watch, 0, 0);
    match ClassifyFc(fc)
    case Control => ControlKeeps(cfg, x1, h, fc, seqNo, unexpected, ts);
    case Restart => RestartKeeps(cfg, x1, ts);
    case Response => ResponseKeeps(cfg, x1, h, fc, seqNo, ts);
    case _ =>
  }

  lemma MasterKeeps(cfg: Config, x: Context, h: Header)
    requires DetectionOk(cfg, x)
    ensures DetectionOk(cfg, RecordMaster(x, h)) && Counted(x.watch, RecordMaster(x, h).watch, 0, 0)
  {
  }

  lemma ParsedKeeps(cfg: Config, x: Context, h: Header, app: Option<Application>, ts: nat)
    requires ValidConfig(cfg) && DetectionOk(cfg, x)
    ensures var y := HandleParsed(cfg, x, h, app, ts);
            DetectionOk(cfg, y) && Counted(x.watch, y.watch, 1, 0)
  {
    hide HandleApplication, RecordMaster, IsUnexpected;
    var x0 := x.(watch := x.watch.(frameCount := x.watch.frameCount + 1));
    MasterKeeps(cfg, x0, h);
    if app.Some? {
      ApplicationKeeps(cfg, RecordMaster(x0, h), h, app.value.fc, app.value.seqNo, IsUnexpected(x.watch, h), ts);
    }
  }

  lemma SegmentKeeps(cfg: Config, x: Context, s: Segment, ts: nat)
    requires ValidConfig(cfg) && SegmentOk(s) && DetectionOk(cfg, x)
    ensures var y := HandleSegment(cfg, x, s, ts);
            && DetectionOk(cfg, y)
            && Counted(x.watch, y.watch, if s.Frame? then 1 else 0, if s.Frame? then 0 else 1)
  {
    if s.Frame? {
      ParsedKeeps(cfg, x, ParseHeader(s.bytes).value, ApplicationOf(s.bytes), ts);
    }
  }

  lemma {:induction false} SegmentsKeep(cfg: Config, x: Context, segs: seq<Segment>, ts: nat)
    requires ValidConfig(cfg) && SegmentsOk(segs) && DetectionOk(cfg, x)
    ensures var y := HandleSegments(cfg, x, segs, ts);
            DetectionOk(cfg, y) && Counted(x.watch, y.watch, FrameCount(segs), ErrorCount(segs))
    decreases |segs|
  {
    if segs != [] {
      assert segs[0] in segs;
      SegmentKeeps(cfg, x, segs[0], ts);
      SegmentsKeep(cfg, HandleSegment(cfg, x, segs[0], ts), segs[1..], ts);
    }
  }

  lemma {:induction false} SegmentsAppend(cfg: Config, x: Context, a: seq<Segment>, b: seq<Segment>, ts: nat)
    requires ValidConfig(cfg) && SegmentsOk(a) && SegmentsOk(b)
    ensures SegmentsOk(a + b)
    ensures HandleSegments(cfg, x, a + b, ts) == HandleSegments(cfg, HandleSegments(cfg, x, a, ts), b, ts)
    decreases |a|
  {
    if a == [] {
      assert a + b == b;
    } else {
      assert a[0] in a;
      assert (a + b)[1..] == a[1..] + b;
      SegmentsAppend(cfg, HandleSegment(cfg, x, a[0], ts), a[1..], b, ts);
    }
  }
}
