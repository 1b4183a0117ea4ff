/** What the findings say, against counts that are kept elsewhere, and how requests meet their responses. */
module Dnp3Reports {
  import opened Octets
  import opened Findings
  import opened Flows
  import opened Dnp3Wire
  import opened Dnp3Framing
  import opened Dnp3Detection
  import opened Dnp3Flow
  import opened Dnp3Analyzer

  function Tagged(fs: seq<Finding>, tag: Tag): nat {
    if fs == [] then 0 else Tagged(fs[..|fs| - 1], tag) + if fs[|fs| - 1].tag == tag then 1 else 0
  }

  /** How many findings of a tag were raised, stored or refused. */
  function Raised(s: Sink, tag: Tag): nat { Tagged(s.findings, tag) + Tagged(s.refused, tag) }

  // ---- what one step adds to the findings ------------------------------------------------------

  /** Findings that a fragment raises every time: by its function code, or by that and its destination. */
  predicate Occurs(tag: Tag, fc: byte, destination: nat) {
    match tag
    case RestartCommand => fc == 0x0D || fc == 0x0E
    case WriteCommand => fc == 0x02
    case EnableUnsolicited => fc == 0x14
    case DisableUnsolicited => fc == 0x15
    case BroadcastControl => 0x03 <= fc <= 0x06 && 0xFFFD <= destination
    case _ => false
  }

  function Occurrences(fc: byte, destination: nat): set<Tag> { set tag: Tag | Occurs(tag, fc, destination) }

  function OccurrencesOf(app: Option<Application>, h: Header): set<Tag> {
    if app.None? then {} else Occurrences(app.value.fc, h.destination)
  }

  /** The guard of a one-shot finding. */
  predicate Guard(f: Watch, tag: Tag) {
    match tag
    case BlockedCommand => f.window.blockEmitted
    case LossOfControl => f.window.lossEmitted
    case MalformedFrames => f.window.malformedEmitted
    case ControlBurst => f.burst.emitted
    case UnexpectedSource => f.unexpectedEmitted
    case UnsolicitedResponse => f.unsolicitedEmitted
    case _ => false
  }

  /** One-shot findings whose guard goes up between two states of a flow. */
  function Rising(f: Watch, g: Watch): set<Tag> { set tag: Tag | Guard(g, tag) && !Guard(f, tag) }

  function When(cond: bool, tag: Tag): set<Tag> { if cond then {tag} else {} }

  /** These two guards are never lowered while a flow is open. */
  predicate PerFlow(tag: Tag) { tag.UnexpectedSource? || tag.UnsolicitedResponse? }

  /** These are lowered at most when the correlation window expires. */
  predicate Lasting(tag: Tag) {
    PerFlow(tag) || tag.BlockedCommand? || tag.LossOfControl? || tag.MalformedFrames?
  }

  ghost predicate KeepsAlarms(f: Watch, g: Watch) {
    forall tag: Tag :: Lasting(tag) && Guard(f, tag) ==> Guard(g, tag)
  }

  /** `t` has raised one more finding of each tag in `raised` and no more of the others. */
  ghost predicate Raises(s: Sink, t: Sink, raised: set<Tag>) {
    forall tag: Tag :: Raised(t, tag) == Raised(s, tag) + Count(tag in raised)
  }

  lemma PushRaises(s: Sink, f: Finding)
    ensures Raises(s, s.Push(f), {f.tag})
  {
    assert (s.findings + [f])[..|s.findings|] == s.findings;
  }

  lemma PushIfRaises(s: Sink, cond: bool, f: Finding)
    ensures Raises(s, s.PushIf(cond, f), When(cond, f.tag))
  {
    assert (s.findings + [f])[..|s.findings|] == s.findings;
  }

  lemma RaisesBoth(s: Sink, t: Sink, u: Sink, a: set<Tag>, b: set<Tag>, c: set<Tag>)
    requires Raises(s, t, a) && Raises(t, u, b) && a !! b && c == a + b
    ensures Raises(s, u, c)
  {
    hide Raised;
  }

  /** The step from `x` to `y` reports what `occurs` and the guards it raises, and nothing else. */
  ghost predicate Reports(x: Context, y: Context, occurs: set<Tag>) {
    && Raises(x.sink, y.sink, occurs + Rising(x.watch, y.watch))
    && KeepsAlarms(x.watch, y.watch)
  }

  lemma ControlReports(cfg: Config, x: Context, h: Header, fc: byte, seqNo: nat, unexpected: bool, ts: nat)
    requires ValidConfig(cfg) && 0x03 <= fc <= 0x06
    ensures Reports(x, HandleControl(cfg, x, h, fc, seqNo, unexpected, ts), Occurrences(fc, h.destination))
    ensures HandleControl(cfg, x, h, fc, seqNo, unexpected, ts).fnCodes == x.fnCodes
  {
    hide Insert, Burst.Next, Raises, Sink.PushIf, Occurrences, Rising;
    var y := HandleControl(cfg, x, h, fc, seqNo, unexpected, ts);
    var broadcast, alert := IsBroadcast(h.destination), unexpected && !x.watch.unexpectedEmitted;
    var burst := y.watch.burst.emitted && !x.watch.burst.emitted;
    var s1 := x.sink.PushIf(broadcast, Finding(BroadcastControl, Medium, ts));
    var s2 := s1.PushIf(alert, Finding(UnexpectedSource, High, ts));
    PushIfRaises(x.sink, broadcast, Finding(BroadcastControl, Medium, ts));
    PushIfRaises(s1, alert, Finding(UnexpectedSource, High, ts));
    PushIfRaises(s2, burst, Finding(ControlBurst, Medium, ts));
    var a, b := When(broadcast, BroadcastControl), When(alert, UnexpectedSource);
    RaisesBoth(x.sink, s1, s2, a, b, a + b);
    ControlRising(x.watch, y.watch, fc, h.destination);
    RaisesBoth(x.sink, s2, y.sink, a + b, When(burst, ControlBurst),
               Occurrences(fc, h.destination) + Rising(x.watch, y.watch));
  }

  lemma ControlRising(f: Watch, g: Watch, fc: byte, destination: nat)
    requires 0x03 <= fc <= 0x06 && g.window == f.window && g.unsolicitedEmitted == f.unsolicitedEmitted
    ensures Occurrences(fc, destination) + Rising(f, g) ==
            When(0xFFFD <= destination, BroadcastControl)
            + When(g.unexpectedEmitted && !f.unexpectedEmitted, UnexpectedSource)
            + When(g.burst.emitted && !f.burst.emitted, ControlBurst)
  {
  }

  lemma RestartReports(x: Context, fc: byte, destination: nat, ts: nat)
    requires fc == 0x0D || fc == 0x0E
    ensures Reports(x, HandleRestart(x, ts), Occurrences(fc, destination))
    ensures HandleRestart(x, ts).fnCodes == x.fnCodes
  {
    hide Raises, Sink.PushIf, Sink.Push;
    var y := HandleRestart(x, ts);
    var loss := y.watch.window.lossEmitted != x.watch.window.lossEmitted;
    var s1 := x.sink.Push(Finding(RestartCommand, High, ts));
    PushRaises(x.sink, Finding(RestartCommand, High, ts));
    PushIfRaises(s1, loss, Finding(LossOfControl, Medium, ts));
    RaisesBoth(x.sink, s1, y.sink, {RestartCommand}, When(loss, LossOfControl),
               Occurrences(fc, destination) + Rising(x.watch, y.watch));
  }

  lemma ResponseReports(x: Context, h: Header, fc: byte, seqNo: nat, ts: nat)
    requires 0x81 <= fc <= 0x83
    ensures Reports(x, HandleResponse(x, h, fc, seqNo, ts), Occurrences(fc, h.destination))
    ensures HandleResponse(x, h, fc, seqNo, ts).fnCodes == x.fnCodes
  {
    hide Raised, Sink.Push;
    PushRaises(x.sink, Finding(UnsolicitedResponse, Low, ts));
  }

  /** Codes outside those three classes: at most a finding about the code itself. */
  lemma OtherReports(x: Context, fc: byte, destination: nat, ts: nat)
    requires !ClassifyFc(fc).Control? && !ClassifyFc(fc).Restart? && !ClassifyFc(fc).Response?
    ensures var x1 := HandleUnsolicitedControl(x, fc, ts);
            var y := if fc == 0x02 then x1.(sink := x1.sink.Push(Finding(WriteCommand, Medium, ts))) else x1;
            Reports(x, y, Occurrences(fc, destination)) && y.fnCodes == x.fnCodes
  {
    hide Raised, Sink.Push;
    PushRaises(x.sink, Finding(EnableUnsolicited, Low, ts));
    PushRaises(x.sink, Finding(DisableUnsolicited, Medium, ts));
    PushRaises(x.sink, Finding(WriteCommand, Medium, ts));
  }

  lemma ApplicationReports(cfg: Config, x: Context, h: Header, fc: byte, seqNo: nat, unexpected: bool, ts: nat)
    requires ValidConfig(cfg)
    ensures var y := HandleApplication(cfg, x, h, fc, seqNo, unexpected, ts);
            && Reports(x, y, Occurrences(fc, h.destination))
            && y.fnCodes == Bump(x.fnCodes, fc)
  {
    hide HandleControl, HandleRestart, HandleResponse, Raised, Raises, Sink.Push, Bump, Occurs;
    var x0 := CountFc(x, fc);
    var y := HandleApplication(cfg, x, h, fc, seqNo, unexpected, ts);
    match ClassifyFc(fc) {
      case Control => ControlReports(cfg, x0, h, fc, seqNo, unexpected, ts);
      case Restart => RestartReports(x0, fc, h.destination, ts);
      case Response => ResponseReports(x0, h, fc, seqNo, ts);
      case _ => OtherReports(x0, fc, h.destination, ts);
    }
    SameGuards(x, x0, y, Occurrences(fc, h.destination));
  }

  /** What a step reports depends on the findings and guards it starts from, not on the counters. */
  lemma SameGuards(x: Context, x0: Context, y: Context, occurs: set<Tag>)
    requires Reports(x0, y, occurs) && x0.sink == x.sink
    requires forall tag: Tag :: Guard(x0.watch, tag) == Guard(x.watch, tag)
    ensures Reports(x, y, occurs)
  {
    hide Raised, Guard;
  }

  /** Everything a frame reports. */
  lemma ParsedReports(cfg: Config, x: Context, h: Header, app: Option<Application>, ts: nat)
    requires ValidConfig(cfg)
    ensures var y := HandleParsed(cfg, x, h, app, ts);
            && Reports(x, y, OccurrencesOf(app, h))
            && y.fnCodes == if app.None? then x.fnCodes else Bump(x.fnCodes, app.value.fc)
  {
    hide HandleApplication, Bump, Occurrences, IsUnexpected, RecordMaster, Reports, Guard;
    var x1 := RecordMaster(x.(watch := x.watch.(frameCount := x.watch.frameCount + 1)), h);
    MasterIsQuiet(x, h);
    if app.None? {
      NothingReported(x, x1);
    } else {
      ApplicationReports(cfg, x1, h, app.value.fc, app.value.seqNo, IsUnexpected(x.watch, h), ts);
      SameGuards(x, x1, HandleParsed(cfg, x, h, app, ts), Occurrences(app.value.fc, h.destination));
    }
  }

  lemma MasterIsQuiet(x: Context, h: Header)
    ensures var y := RecordMaster(x.(watch := x.watch.(frameCount := x.watch.frameCount + 1)), h);
            && y.sink == x.sink && y.fnCodes == x.fnCodes
            && forall tag: Tag :: Guard(y.watch, tag) == Guard(x.watch, tag)
  {
  }

  lemma NothingReported(x: Context, y: Context)
    requires y.sink == x.sink && forall tag: Tag :: Guard(y.watch, tag) == Guard(x.watch, tag)
    ensures Reports(x, y, {})
  {
    hide Raised, Guard;
  }

  lemma MalformedReports(x: Context, ts: nat)
    ensures Reports(x, Malformed(x, ts), {}) && Malformed(x, ts).fnCodes == x.fnCodes
  {
    hide Raised, Sink.PushIf;
    var w1 := x.watch.window.(malformed := x.watch.window.malformed + 1);
    PushIfRaises(x.sink, w1.CheckMalformed(ts).malformedEmitted != w1.malformedEmitted,
                 Finding(MalformedFrames, Low, ts));
  }

  lemma ScanReports(x: Context, ts: nat)
    ensures Reports(x, ScanTimeouts(x, ts), {}) && ScanTimeouts(x, ts).fnCodes == x.fnCodes
  {
    hide Raises, Sink.PushIf, OverdueKeys, Rising, KeepsAlarms;
    var y := ScanTimeouts(x, ts);
    var v, w := x.watch.window, y.watch.window;
    ScanRising(x, ts);
    var blocked, loss := w.blockEmitted != v.blockEmitted, w.lossEmitted != v.lossEmitted;
    var s1 := x.sink.PushIf(blocked, Finding(BlockedCommand, Low, ts));
    PushIfRaises(x.sink, blocked, Finding(BlockedCommand, Low, ts));
    PushIfRaises(s1, loss, Finding(LossOfControl, Medium, ts));
    RaisesBoth(x.sink, s1, y.sink, When(blocked, BlockedCommand),
               When(loss, LossOfControl), {} + Rising(x.watch, y.watch));
  }

  lemma ScanRising(x: Context, ts: nat)
    ensures var f, g := x.watch, ScanTimeouts(x, ts).watch;
            && Rising(f, g) == When(g.window.blockEmitted != f.window.blockEmitted, BlockedCommand)
                               + When(g.window.lossEmitted != f.window.lossEmitted, LossOfControl)
            && KeepsAlarms(f, g)
  {
    hide Sink.PushIf, OverdueKeys;
  }

  datatype Flags = Flags(enableSeen: bool, responseSeen: bool, unsolicited: bool, unexpected: bool)

  function FlagsOf(f: Watch): Flags {
    Flags(f.enableSeen, f.responseSeen, f.unsolicitedEmitted, f.unexpectedEmitted)
  }

  function FlagsAfter(f: Flags, fc: byte, unexpected: bool): Flags {
    Flags(f.enableSeen || fc == 0x14, f.responseSeen || fc == 0x81,
          f.unsolicited || (fc == 0x82 && !f.enableSeen && !f.responseSeen),
          f.unexpected || (0x03 <= fc <= 0x06 && unexpected))
  }

  lemma ApplicationFlags(cfg: Config, x: Context, h: Header, fc: byte, seqNo: nat, unexpected: bool, ts: nat)
    requires ValidConfig(cfg)
    ensures FlagsOf(HandleApplication(cfg, x, h, fc, seqNo, unexpected, ts).watch) ==
            FlagsAfter(FlagsOf(x.watch), fc, unexpected)
  {
    hide HandleControl, HandleRestart, HandleResponse, HandleUnsolicitedControl, Sink.Push, Bump;
    var x1 := HandleUnsolicitedControl(CountFc(x, fc), fc, ts);
    UnsolicitedFlags(CountFc(x, fc), fc, ts);
    match ClassifyFc(fc)
    case Control => ControlFlags(cfg, x1, h, fc, seqNo, unexpected, ts);
    case Restart => RestartFlags(x1, ts);
    case Response => ResponseFlags(x1, h, fc, seqNo, ts);
    case _ =>
  }

  lemma UnsolicitedFlags(x: Context, fc: byte, ts: nat)
    ensures FlagsOf(HandleUnsolicitedControl(x, fc, ts).watch) ==
            FlagsOf(x.watch).(enableSeen := x.watch.enableSeen || fc == 0x14)
  {
  }

  lemma ControlFlags(cfg: Config, x: Context, h: Header, fc: byte, seqNo: nat, unexpected: bool, ts: nat)
    requires ValidConfig(cfg)
    ensures FlagsOf(HandleControl(cfg, x, h, fc, seqNo, unexpected, ts).watch) ==
            FlagsOf(x.watch).(unexpected := x.watch.unexpectedEmitted || unexpected)
  {
    hide Insert, Burst.Next, Sink.PushIf;
  }

  lemma RestartFlags(x: Context, ts: nat)
    ensures FlagsOf(HandleRestart(x, ts).watch) == FlagsOf(x.watch)
  {
  }

  lemma ResponseFlags(x: Context, h: Header, fc: byte, seqNo: nat, ts: nat)
    requires fc != 0x14
    ensures FlagsOf(HandleResponse(x, h, fc, seqNo, ts).watch) == FlagsAfter(FlagsOf(x.watch), fc, false)
  {
  }

  /**
   A control command from a master address that is new, on a flow where others are known, raises the unexpected-source
   guard; an unsolicited response raises its own unless the flow enabled such responses or has answered before.
   Nothing else does, and no frame lowers a flag.
   */
  lemma FlagsExplained(cfg: Config, x: Context, h: Header, app: Option<Application>, ts: nat)
    requires ValidConfig(cfg)
    ensures var f, g := FlagsOf(x.watch), FlagsOf(HandleParsed(cfg, x, h, app, ts).watch);
            if app.None? then g == f
            else g == FlagsAfter(f, app.value.fc,
                                 h.control >= 128 && x.watch.masters != [] && h.source !in x.watch.masters)
  {
    hide HandleApplication;
    var x1 := RecordMaster(x.(watch := x.watch.(frameCount := x.watch.frameCount + 1)), h);
    if app.Some? {
      ApplicationFlags(cfg, x1, h, app.value.fc, app.value.seqNo, IsUnexpected(x.watch, h), ts);
    }
  }

  // ---- over whole runs -------------------------------------------------------------------------

  function Seen(counts: map<byte, nat>, fc: byte): nat { if fc in counts then counts[fc] else 0 }

  /** The findings raised agree with the function-code distribution of the summary. */
  ghost predicate Agrees(sink: Sink, counts: map<byte, nat>) {
    && Raised(sink, RestartCommand) == Seen(counts, 0x0D) + Seen(counts, 0x0E)
    && Raised(sink, WriteCommand) == Seen(counts, 0x02)
    && Raised(sink, EnableUnsolicited) == Seen(counts, 0x14)
    && Raised(sink, DisableUnsolicited) == Seen(counts, 0x15)
  }

  /** Each per-flow finding is as many as before, plus one if the flow's guard went up. */
  ghost predicate Settles(x: Context, y: Context) {
    forall tag: Tag :: PerFlow(tag) ==>
      Raised(y.sink, tag) + Count(Guard(x.watch, tag)) == Raised(x.sink, tag) + Count(Guard(y.watch, tag))
  }

  /** What a step, or any number of them, does to the two accounts. */
  ghost predicate Accounts(x: Context, y: Context) {
    (Agrees(x.sink, x.fnCodes) ==> Agrees(y.sink, y.fnCodes)) && Settles(x, y)
  }

  lemma AccountsTrans(x: Context, y: Context, z: Context)
    requires Accounts(x, y) && Accounts(y, z)
    ensures Accounts(x, z)
  {
    hide Agrees, Raised, Guard;
  }

  lemma ReportsSettle(x: Context, y: Context, occurs: set<Tag>)
    requires Reports(x, y, occurs) && forall tag: Tag :: PerFlow(tag) ==> tag !in occurs
    ensures Settles(x, y)
  {
    hide Raised, Guard;
  }

  lemma CodeAccounts(x: Context, y: Context, fc: byte, destination: nat)
    requires Reports(x, y, Occurrences(fc, destination)) && y.fnCodes == Bump(x.fnCodes, fc)
    ensures Accounts(x, y)
  {
    hide Raised;
    ReportsSettle(x, y, Occurrences(fc, destination));
  }

  lemma QuietAccounts(x: Context, y: Context)
    requires Reports(x, y, {}) && y.fnCodes == x.fnCodes
    ensures Accounts(x, y)
  {
    hide Raised;
    ReportsSettle(x, y, {});
  }

  lemma SegmentAccounts(cfg: Config, x: Context, s: Segment, ts: nat)
    requires ValidConfig(cfg) && SegmentOk(s)
    ensures Accounts(x, HandleSegment(cfg, x, s, ts))
  {
    hide HandleParsed, Malformed, ApplicationOf, FrameLen, Accounts, Bump, Reports;
    var y := HandleSegment(cfg, x, s, ts);
    if s.Frame? {
      var h, app := ParseHeader(s.bytes).value, ApplicationOf(s.bytes);
      ParsedReports(cfg, x, h, app, ts);
      ParsedAccounts(x, y, h, app);
    } else {
      MalformedReports(x, ts);
      QuietAccounts(x, y);
    }
  }

  lemma ParsedAccounts(x: Context, y: Context, h: Header, app: Option<Application>)
    requires Reports(x, y, OccurrencesOf(app, h))
    requires y.fnCodes == if app.None? then x.fnCodes else Bump(x.fnCodes, app.value.fc)
    ensures Accounts(x, y)
  {
    hide Raised, Occurrences, Bump, Guard, Accounts;
    if app.Some? {
      CodeAccounts(x, y, app.value.fc, h.destination);
    } else {
      QuietAccounts(x, y);
    }
  }

  lemma {:induction false} SegmentsAccount(cfg: Config, x: Context, segs: seq<Segment>, ts: nat)
    requires ValidConfig(cfg) && SegmentsOk(segs)
    ensures Accounts(x, HandleSegments(cfg, x, segs, ts))
    decreases |segs|
  {
    hide HandleSegment, Agrees, SegmentOk;
    if segs != [] {
      assert segs[0] in segs;
      var y := HandleSegment(cfg, x, segs[0], ts);
      SegmentAccounts(cfg, x, segs[0], ts);
      SegmentsAccount(cfg, y, segs[1..], ts);
      AccountsTrans(x, y, HandleSegments(cfg, x, segs, ts));
    }
  }

  lemma PrologueAccounts(x: Context, ts: nat)
    ensures Accounts(x, Prologue(x, ts))
  {
    hide ScanTimeouts, Agrees, Raised;
    var x1 := x.(watch := x.watch.(window := x.watch.window.Expire(ts)));
    assert Accounts(x, x1);
    ScanReports(x1, ts);
    QuietAccounts(x1, Prologue(x, ts));
    AccountsTrans(x, x1, Prologue(x, ts));
  }

  lemma DataAccounts(cfg: Config, s: Session, d: Direction, data: seq<byte>, ts: nat)
    requires ValidConfig(cfg) && CarryOk(s.Carry(d))
    ensures Accounts(s.x, OnData(cfg, s, d, data, ts).x)
  {
    hide Agrees, Prologue, HandleSegments, Deliver, Raised, Guard;
    if !s.latched && !s.Desync(data) {
      var c := s.Carry(d);
      DeliverTiles(c, data);
      PrologueAccounts(s.x, ts);
      SegmentsAccount(cfg, Prologue(s.x, ts), Deliver(c, data).0, ts);
      AccountsTrans(s.x, Prologue(s.x, ts), OnData(cfg, s, d, data, ts).x);
    }
  }

  /** The flows being watched whose guard is set. */
  ghost function Alarmed(st: State, tag: Tag): set<FlowKey> {
    set k | k in st.flows && Guard(st.flows[k].watch, tag)
  }

  /** How many flows were closed with their guard set. */
  ghost function ClosedAlarmed(cfg: Config, ops: seq<Op>, tag: Tag): nat
    requires ValidConfig(cfg)
  {
    if ops == [] then 0
    else
      var n := |ops| - 1;
      ClosedAlarmed(cfg, ops[..n], tag) + Count(ops[n].Close? && ops[n].key in Alarmed(Run(cfg, ops[..n]).st, tag))
  }

  /** Changing one flow changes the set by that flow only. */
  lemma AlarmedAfter(st: State, st': State, key: FlowKey, tag: Tag)
    requires forall k :: k != key ==> (k in st'.flows <==> k in st.flows)
    requires forall k :: k in st.flows && k != key ==> st'.flows[k] == st.flows[k]
    ensures |Alarmed(st', tag)| + Count(key in Alarmed(st, tag)) == |Alarmed(st, tag)| + Count(key in Alarmed(st', tag))
  {
    hide Guard;
    var rest := Alarmed(st, tag) - {key};
    assert forall k :: k in rest <==> k in st.flows && k != key && Guard(st.flows[k].watch, tag);
    assert rest == Alarmed(st', tag) - {key};
    RemoveOne(Alarmed(st, tag), key);
    RemoveOne(Alarmed(st', tag), key);
  }

  lemma RemoveOne<T>(s: set<T>, k: T)
    ensures |s| == |s - {k}| + Count(k in s)
  {
    assert k !in s ==> s - {k} == s;
  }

  /**
   Over any run of deliveries and closes, counting what was stored and what the cap refused: the restart, write and
   unsolicited-control findings are exactly as many as the function codes counted for the summary, and the
   unexpected-source and unsolicited-response findings are exactly as many as the flows, open or closed, whose guard is
   set. As long as nothing was dropped, these are the findings stored.
   */
  lemma {:induction false} FindingsAccounted(cfg: Config, ops: seq<Op>)
    requires ValidConfig(cfg)
    ensures var st := Run(cfg, ops).st;
            && Agrees(st.sink, st.fnCodes)
            && (forall tag: Tag :: PerFlow(tag) ==>
                  Raised(st.sink, tag) == ClosedAlarmed(cfg, ops, tag) + |Alarmed(st, tag)|)
            && (st.sink.dropped == 0 ==> forall tag: Tag :: Raised(st.sink, tag) == Tagged(st.sink.findings, tag))
    decreases |ops|
  {
    hide Agrees, Step, SystemOk, Alarmed, Raised;
    NothingRefused(cfg, Run(cfg, ops));
    if ops == [] {
      NothingFound();
    } else {
      var n := |ops| - 1;
      FindingsAccounted(cfg, ops[..n]);
      var s, s' := Run(cfg, ops[..n]), Run(cfg, ops);
      StepAgrees(cfg, s, ops[n]);
      forall tag: Tag | PerFlow(tag)
        ensures Raised(s'.st.sink, tag) == ClosedAlarmed(cfg, ops, tag) + |Alarmed(s'.st, tag)|
      {
        StepSettles(cfg, s, ops[n], tag);
      }
    }
  }

  lemma StepAgrees(cfg: Config, s: System, op: Op)
    requires ValidConfig(cfg) && SystemOk(cfg, s) && Agrees(s.st.sink, s.st.fnCodes)
    ensures var st := Step(cfg, s, op).st; Agrees(st.sink, st.fnCodes)
  {
    hide Agrees, FlowOk, Dnp3Flow.OnData, SystemOk, Feed, Raised, Guard;
    if op.Data? {
      var t := Load(s, op.key);
      NewFlowOk(cfg, s, op.key);
      FlowOkParts(cfg, t);
      DataAccounts(cfg, t.s, op.d, op.data, op.ts);
    }
  }

  /** One operation adds as many per-flow findings as guards go up; a close takes the guard away with its flow. */
  lemma StepSettles(cfg: Config, s: System, op: Op, tag: Tag)
    requires ValidConfig(cfg) && SystemOk(cfg, s) && PerFlow(tag)
    ensures var st := Step(cfg, s, op).st;
            Raised(st.sink, tag) + |Alarmed(s.st, tag)| ==
            Raised(s.st.sink, tag) + |Alarmed(st, tag)| + Count(op.Close? && op.key in Alarmed(s.st, tag))
  {
    hide Agrees, FlowOk, Dnp3Flow.OnData, SystemOk, Feed, Raised, Guard, Alarmed;
    var s' := Step(cfg, s, op);
    if op.Data? {
      var t := Load(s, op.key);
      NewFlowOk(cfg, s, op.key);
      FlowOkParts(cfg, t);
      DataAccounts(cfg, t.s, op.d, op.data, op.ts);
    }
    AlarmedAfter(s.st, s'.st, op.key, tag);
    AlarmedAt(s, op.key, tag);
    AlarmedAt(s', op.key, tag);
  }

  lemma AlarmedAt(s: System, key: FlowKey, tag: Tag)
    ensures key in Alarmed(s.st, tag) <==> Guard(Load(s, key).s.x.watch, tag)
    ensures key in Alarmed(s.st, tag) ==> key in s.st.flows
  {
  }

  lemma NothingRefused(cfg: Config, s: System)
    requires SystemOk(cfg, s)
    ensures s.st.sink.dropped == 0 ==>
              forall tag: Tag :: Raised(s.st.sink, tag) == Tagged(s.st.sink.findings, tag)
    ensures |s.st.sink.refused| == s.st.sink.dropped
  {
    hide FlowOk;
  }

  lemma NothingFound()
    ensures Agrees(START.st.sink, START.st.fnCodes)
    ensures forall tag: Tag :: Raised(START.st.sink, tag) == 0 && Alarmed(START.st, tag) == {}
  {
    hide Raised, Guard;
    NothingRaised();
  }

  lemma NothingRaised()
    ensures forall tag: Tag :: Raised(Sink([], 0, []), tag) == 0
  {
  }

  // ---- requests and responses ------------------------------------------------------------------

  /** A user-data message whose first fragment carries function code `fc`. */
  predicate Carries(m: Message, fc: byte) {
    m.Valid() && HasUserData(m.control) && |m.user| >= 3 && TransportIsFir(m.user[0]) && m.user[2] == fc
  }

  lemma CarriesApplication(crc: Checksum, m: Message, fc: byte)
    requires Carries(m, fc)
    ensures IsFrame(EncodeFrame(crc, m))
    ensures ApplicationOf(EncodeFrame(crc, m)) == Some(Application(fc, m.user[1] % 16))
    ensures ParseHeader(EncodeFrame(crc, m)).Some?
    ensures ParseHeader(EncodeFrame(crc, m)).value.destination == m.destination
    ensures ParseHeader(EncodeFrame(crc, m)).value.source == m.source
  {
    hide EncodeFrame, TransportIsFir, HasUserData, FrameLen;
    EncodedFrame(crc, m);
    FunctionCodeOctet(crc, m);
    var f := EncodeFrame(crc, m);
    assert f[10] == f[10..13][0] && f[11] == f[10..13][1] && f[12] == f[10..13][2];
  }

  /** The only frames that touch the pending requests: control requests that expect an answer, and responses. */
  ghost function PendingAfter(cfg: Config, x: Context, h: Header, app: Option<Application>, ts: nat)
    : map<PendingKey, nat>
    requires ValidConfig(cfg)
  {
    if app.None? then x.watch.pending
    else if 0x03 <= app.value.fc <= 0x05 then
      Insert(cfg.order, x.evictions, x.watch.pending, (h.destination, app.value.seqNo), ts).pending
    else if app.value.fc == 0x81 then x.watch.pending - {(h.source, app.value.seqNo)}
    else x.watch.pending
  }

  lemma ParsedPending(cfg: Config, x: Context, h: Header, app: Option<Application>, ts: nat)
    requires ValidConfig(cfg)
    ensures HandleParsed(cfg, x, h, app, ts).watch.pending == PendingAfter(cfg, x, h, app, ts)
  {
    hide HandleApplication, IsUnexpected;
    if app.Some? {
      var x1 := RecordMaster(x.(watch := x.watch.(frameCount := x.watch.frameCount + 1)), h);
      ApplicationPending(cfg, x1, h, app.value, IsUnexpected(x.watch, h), ts);
    }
  }

  lemma ApplicationPending(cfg: Config, x: Context, h: Header, app: Application, unexpected: bool, ts: nat)
    requires ValidConfig(cfg)
    ensures HandleApplication(cfg, x, h, app.fc, app.seqNo, unexpected, ts).watch.pending ==
            PendingAfter(cfg, x, h, Some(app), ts)
  {
    hide Insert, HandleControl, HandleRestart, HandleResponse, HandleUnsolicitedControl, Sink.Push, Bump;
    var x1 := HandleUnsolicitedControl(CountFc(x, app.fc), app.fc, ts);
    UnsolicitedPending(CountFc(x, app.fc), app.fc, ts);
    match ClassifyFc(app.fc)
    case Control => ControlPending(cfg, x1, h, app.fc, app.seqNo, unexpected, ts);
    case Restart => RestartPending(x1, ts);
    case Response => ResponsePending(x1, h, app.fc, app.seqNo, ts);
    case _ =>
  }

  lemma ControlPending(cfg: Config, x: Context, h: Header, fc: byte, seqNo: nat, unexpected: bool, ts: nat)
    requires ValidConfig(cfg)
    ensures HandleControl(cfg, x, h, fc, seqNo, unexpected, ts).watch.pending ==
            if fc == 0x06 then x.watch.pending
            else Insert(cfg.order, x.evictions, x.watch.pending, (h.destination, seqNo), ts).pending
  {
    hide Insert, Sink.PushIf, Burst.Next;
  }

  lemma UnsolicitedPending(x: Context, fc: byte, ts: nat)
    ensures var y := HandleUnsolicitedControl(x, fc, ts);
            y.watch.pending == x.watch.pending && y.evictions == x.evictions
  {
  }

  lemma ResponsePending(x: Context, h: Header, fc: byte, seqNo: nat, ts: nat)
    ensures HandleResponse(x, h, fc, seqNo, ts).watch.pending ==
            if fc == 0x81 then x.watch.pending - {(h.source, seqNo)} else x.watch.pending
  {
  }

  lemma RestartPending(x: Context, ts: nat)
    ensures HandleRestart(x, ts).watch.pending == x.watch.pending
  {
  }

  /** A control request that expects an answer is pending under its destination and sequence number. */
  lemma RequestIsPending(cfg: Config, x: Context, crc: Checksum, m: Message, fc: byte, ts: nat)
    requires ValidConfig(cfg) && Carries(m, fc) && 0x03 <= fc <= 0x05
    ensures IsFrame(EncodeFrame(crc, m))
    ensures HandleFrame(cfg, x, EncodeFrame(crc, m), ts).watch.pending ==
            Insert(cfg.order, x.evictions, x.watch.pending, (m.destination, m.user[1] % 16), ts).pending
  {
    hide EncodeFrame, IsFrame, ParseHeader, ApplicationOf, HandleParsed, Insert, TransportIsFir, HasUserData;
    CarriesApplication(crc, m, fc);
    var f := EncodeFrame(crc, m);
    ParsedPending(cfg, x, ParseHeader(f).value, ApplicationOf(f), ts);
  }

  /** A DIRECT_OPERATE_NR request expects no answer and is never pending. */
  lemma NoResponseRequestNotPending(cfg: Config, x: Context, crc: Checksum, m: Message, ts: nat)
    requires ValidConfig(cfg) && Carries(m, 0x06)
    ensures IsFrame(EncodeFrame(crc, m))
    ensures HandleFrame(cfg, x, EncodeFrame(crc, m), ts).watch.pending == x.watch.pending
  {
    hide EncodeFrame, IsFrame, ParseHeader, ApplicationOf, HandleParsed, Insert, TransportIsFir, HasUserData;
    CarriesApplication(crc, m, 0x06);
    var f := EncodeFrame(crc, m);
    ParsedPending(cfg, x, ParseHeader(f).value, ApplicationOf(f), ts);
  }

  /** A RESPONSE removes the request its source was asked under that sequence number, and nothing else. */
  lemma ResponseAnswers(cfg: Config, x: Context, crc: Checksum, m: Message, ts: nat)
    requires ValidConfig(cfg) && Carries(m, 0x81)
    ensures IsFrame(EncodeFrame(crc, m))
    ensures HandleFrame(cfg, x, EncodeFrame(crc, m), ts).watch.pending ==
            x.watch.pending - {(m.source, m.user[1] % 16)}
  {
    hide EncodeFrame, IsFrame, ParseHeader, ApplicationOf, HandleParsed, Insert, TransportIsFir, HasUserData;
    CarriesApplication(crc, m, 0x81);
    var f := EncodeFrame(crc, m);
    ParsedPending(cfg, x, ParseHeader(f).value, ApplicationOf(f), ts);
  }

  /** An answered request leaves the table of pending requests as if neither message had been sent. */
  lemma AnsweredRequestLeavesNoTrace(cfg: Config, x: Context, crc: Checksum, request: Message, fc: byte,
                                     response: Message, t1: nat, t2: nat)
    requires ValidConfig(cfg) && Carries(request, fc) && 0x03 <= fc <= 0x05 && Carries(response, 0x81)
    requires response.source == request.destination && response.user[1] % 16 == request.user[1] % 16
    requires |x.watch.pending| < MAX_PENDING && (request.destination, request.user[1] % 16) !in x.watch.pending
    ensures IsFrame(EncodeFrame(crc, request)) && IsFrame(EncodeFrame(crc, response))
    ensures var y := HandleFrame(cfg, x, EncodeFrame(crc, request), t1);
            HandleFrame(cfg, y, EncodeFrame(crc, response), t2).watch.pending == x.watch.pending
  {
    hide EncodeFrame, HandleFrame;
    RequestIsPending(cfg, x, crc, request, fc, t1);
    ResponseAnswers(cfg, HandleFrame(cfg, x, EncodeFrame(crc, request), t1), crc, response, t2);
    var key := (request.destination, request.user[1] % 16);
    assert x.watch.pending[key := t1] - {key} == x.watch.pending;
  }
}
