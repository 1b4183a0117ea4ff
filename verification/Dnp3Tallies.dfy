/** What a delivery adds to the analyzer's totals, and how its findings are stamped. */
module Dnp3Tallies {
  import opened Octets
  import opened Findings
  import opened Dnp3Wire
  import opened Dnp3Framing
  import opened Dnp3Detection
  import opened Dnp3Reading
  import opened Dnp3Flow
  import opened Dnp3Reports
  import opened Dnp3Senders
  import opened Dnp3Requests

  // ---- function codes --------------------------------------------------------------------------

  function CodeCount(segs: seq<Segment>, fc: byte): nat {
    if segs == [] then 0 else Count(IsCode(segs[0], fc)) + CodeCount(segs[1..], fc)
  }

  lemma {:induction false} CodeCountAppend(a: seq<Segment>, b: seq<Segment>, fc: byte)
    ensures CodeCount(a + b, fc) == CodeCount(a, fc) + CodeCount(b, fc)
  {
    if a == [] {
      assert a + b == b;
    } else {
      assert (a + b)[1..] == a[1..] + b;
      CodeCountAppend(a[1..], b, fc);
    }
  }

  lemma FlowCodes(cfg: Config, x: Context, h: Header, app: Application, unexpected: bool, ts: nat)
    requires ValidConfig(cfg)
    ensures HandleApplication(cfg, x, h, app.fc, app.seqNo, unexpected, ts).watch.fcCounts ==
            Bump(x.watch.fcCounts, app.fc)
  {
    hide HandleControl, HandleRestart, HandleResponse, HandleUnsolicitedControl, Sink.Push, Bump, ClassifyFc;
    BranchCodes(cfg, CountFc(x, app.fc), h, app, unexpected, ts);
    BranchCodes(cfg, HandleUnsolicitedControl(CountFc(x, app.fc), app.fc, ts), h, app, unexpected, ts);
  }

  lemma BranchCodes(cfg: Config, x: Context, h: Header, app: Application, unexpected: bool, ts: nat)
    requires ValidConfig(cfg)
    ensures HandleControl(cfg, x, h, app.fc, app.seqNo, unexpected, ts).watch.fcCounts == x.watch.fcCounts
    ensures HandleRestart(x, ts).watch.fcCounts == x.watch.fcCounts
    ensures HandleResponse(x, h, app.fc, app.seqNo, ts).watch.fcCounts == x.watch.fcCounts
    ensures HandleUnsolicitedControl(x, app.fc, ts).watch.fcCounts == x.watch.fcCounts
  {
    hide HandleControl, HandleRestart, Sink.Push;
    ControlCodes(cfg, x, h, app.fc, app.seqNo, unexpected, ts);
    RestartCodes(x, ts);
  }

  lemma ControlCodes(cfg: Config, x: Context, h: Header, fc: byte, seqNo: nat, unexpected: bool, ts: nat)
    requires ValidConfig(cfg)
    ensures HandleControl(cfg, x, h, fc, seqNo, unexpected, ts).watch.fcCounts == x.watch.fcCounts
  {
    hide Insert, Burst.Next, Sink.PushIf;
  }

  lemma RestartCodes(x: Context, ts: nat)
    ensures HandleRestart(x, ts).watch.fcCounts == x.watch.fcCounts
  {
    hide Sink.PushIf, Sink.Push;
  }

  lemma ParsedCodes(cfg: Config, x: Context, h: Header, app: Option<Application>, ts: nat)
    requires ValidConfig(cfg)
    ensures HandleParsed(cfg, x, h, app, ts).watch.fcCounts ==
            if app.None? then x.watch.fcCounts else Bump(x.watch.fcCounts, app.value.fc)
  {
    hide HandleApplication, IsUnexpected, Bump;
    if app.Some? {
      var x1 := RecordMaster(x.(watch := x.watch.(frameCount := x.watch.frameCount + 1)), h);
      FlowCodes(cfg, x1, h, app.value, IsUnexpected(x.watch, h), ts);
    }
  }

  /** A segment counts once under its code, for the flow and for the summary. */
  lemma SegmentCodes(cfg: Config, x: Context, s: Segment, ts: nat, fc: byte)
    requires ValidConfig(cfg) && SegmentOk(s)
    ensures var y := HandleSegment(cfg, x, s, ts);
            && Seen(y.fnCodes, fc) == Seen(x.fnCodes, fc) + Count(IsCode(s, fc))
            && Seen(y.watch.fcCounts, fc) == Seen(x.watch.fcCounts, fc) + Count(IsCode(s, fc))
  {
    hide HandleParsed, Sink.PushIf, ApplicationOf, ParseHeader, FrameLen, Reports, ClassifyFc, CodeOf;
    if s.Frame? {
      FrameReads(s);
      ParsedReports(cfg, x, ParseHeader(s.bytes).value, ApplicationOf(s.bytes), ts);
      ParsedCodes(cfg, x, ParseHeader(s.bytes).value, ApplicationOf(s.bytes), ts);
    }
  }

  lemma {:induction false} SegmentsCodes(cfg: Config, x: Context, segs: seq<Segment>, ts: nat, fc: byte)
    requires ValidConfig(cfg) && SegmentsOk(segs)
    ensures var y := HandleSegments(cfg, x, segs, ts);
            && Seen(y.fnCodes, fc) == Seen(x.fnCodes, fc) + CodeCount(segs, fc)
            && Seen(y.watch.fcCounts, fc) == Seen(x.watch.fcCounts, fc) + CodeCount(segs, fc)
    decreases |segs|
  {
    hide HandleSegment, SegmentOk, IsCode, Seen;
    if segs != [] {
      assert segs[0] in segs;
      SegmentCodes(cfg, x, segs[0], ts, fc);
      SegmentsCodes(cfg, HandleSegment(cfg, x, segs[0], ts), segs[1..], ts, fc);
    }
  }

  // ---- master addresses that found no room -----------------------------------------------------

  /** Master frames from an address that is not known because 64 others are. */
  function LostMasters(segs: seq<Segment>): nat {
    if segs == [] then 0
    else
      var before, s := segs[..|segs| - 1], segs[|segs| - 1];
      LostMasters(before) + Count(FromMaster(s) && SourceOf(s) !in Masters(before) && |Masters(before)| >= 64)
  }

  lemma ParsedLost(cfg: Config, x: Context, h: Header, app: Option<Application>, ts: nat)
    requires ValidConfig(cfg)
    ensures var ms := x.watch.masters;
            HandleParsed(cfg, x, h, app, ts).mastersDropped ==
            x.mastersDropped + Count(IsMasterFrame(h.control) && h.source !in ms && |ms| >= MAX_MASTERS)
  {
    hide HandleApplication, IsUnexpected;
    if app.Some? {
      var x1 := RecordMaster(x.(watch := x.watch.(frameCount := x.watch.frameCount + 1)), h);
      ApplicationLost(cfg, x1, h, app.value, IsUnexpected(x.watch, h), ts);
    }
  }

  lemma ApplicationLost(cfg: Config, x: Context, h: Header, app: Application, unexpected: bool, ts: nat)
    requires ValidConfig(cfg)
    ensures HandleApplication(cfg, x, h, app.fc, app.seqNo, unexpected, ts).mastersDropped == x.mastersDropped
  {
    hide Insert, Burst.Next, Sink.PushIf, Sink.Push, Bump, ClassifyFc, Window.CheckLoss;
  }

  lemma {:induction false} SegmentsLost(cfg: Config, x: Context, segs: seq<Segment>, ts: nat, past: seq<Segment>)
    requires ValidConfig(cfg) && SegmentsOk(segs) && SendersTrack(x.watch, past)
    ensures HandleSegments(cfg, x, segs, ts).mastersDropped + LostMasters(past) ==
            x.mastersDropped + LostMasters(past + segs)
    decreases |segs|
  {
    hide HandleSegment, SegmentOk, SendersTrack, LostMasters;
    if segs == [] {
      assert past + segs == past;
    } else {
      assert segs[0] in segs;
      var y := HandleSegment(cfg, x, segs[0], ts);
      SegmentLost(cfg, x, segs[0], ts, past);
      SegmentTracked(cfg, x, segs[0], ts, past);
      SegmentsLost(cfg, y, segs[1..], ts, past + [segs[0]]);
      assert past + [segs[0]] + segs[1..] == past + segs;
    }
  }

  lemma SegmentTracked(cfg: Config, x: Context, s: Segment, ts: nat, past: seq<Segment>)
    requires ValidConfig(cfg) && SegmentOk(s) && SendersTrack(x.watch, past)
    ensures SendersTrack(HandleSegment(cfg, x, s, ts).watch, past + [s])
  {
    hide HandleFrame, Malformed, SendersTrack;
    if s.Frame? {
      FrameSenders(cfg, x, s, ts, past);
    } else {
      RejectSenders(x, s, ts, past);
    }
  }

  lemma SegmentLost(cfg: Config, x: Context, s: Segment, ts: nat, past: seq<Segment>)
    requires ValidConfig(cfg) && SegmentOk(s) && SendersTrack(x.watch, past)
    ensures HandleSegment(cfg, x, s, ts).mastersDropped + LostMasters(past) ==
            x.mastersDropped + LostMasters(past + [s])
  {
    hide HandleParsed, Sink.PushIf, ApplicationOf, ParseHeader, FrameLen, ClassifyFc, CodeOf, Masters, SeenIn,
         HasUnprompted, HasStranger;
    assert (past + [s])[..|past|] == past;
    if s.Frame? {
      FrameReads(s);
      ParsedLost(cfg, x, ParseHeader(s.bytes).value, ApplicationOf(s.bytes), ts);
    }
  }

  // ---- evictions -------------------------------------------------------------------------------

  /** The analyzer's total and the flow's history move together. */
  ghost predicate EvictsAlike(x: Context, y: Context) {
    y.evictions + x.watch.tally.evicted == x.evictions + y.watch.tally.evicted
  }

  lemma ApplicationEvicts(cfg: Config, x: Context, h: Header, fc: byte, seqNo: nat, unexpected: bool, ts: nat)
    requires ValidConfig(cfg)
    ensures EvictsAlike(x, HandleApplication(cfg, x, h, fc, seqNo, unexpected, ts))
  {
    hide HandleControl, HandleRestart, HandleResponse, HandleUnsolicitedControl, Sink.Push, Bump, ClassifyFc;
    var x0 := CountFc(x, fc);
    UnsolicitedEvicted(x0, fc, ts);
    UnsolicitedPending(x0, fc, ts);
    BranchEvicts(cfg, HandleUnsolicitedControl(x0, fc, ts), h, fc, seqNo, unexpected, ts);
  }

  lemma BranchEvicts(cfg: Config, x: Context, h: Header, fc: byte, seqNo: nat, unexpected: bool, ts: nat)
    requires ValidConfig(cfg)
    ensures EvictsAlike(x, HandleControl(cfg, x, h, fc, seqNo, unexpected, ts))
    ensures EvictsAlike(x, HandleRestart(x, ts)) && EvictsAlike(x, HandleResponse(x, h, fc, seqNo, ts))
  {
    hide Insert, Burst.Next, Sink.PushIf, Sink.Push;
  }

  lemma {:induction false} SegmentsEvict(cfg: Config, x: Context, segs: seq<Segment>, ts: nat)
    requires ValidConfig(cfg) && SegmentsOk(segs)
    ensures EvictsAlike(x, HandleSegments(cfg, x, segs, ts))
    decreases |segs|
  {
    hide HandleSegment, SegmentOk;
    if segs != [] {
      assert segs[0] in segs;
      SegmentEvicts(cfg, x, segs[0], ts);
      SegmentsEvict(cfg, HandleSegment(cfg, x, segs[0], ts), segs[1..], ts);
    }
  }

  lemma SegmentEvicts(cfg: Config, x: Context, s: Segment, ts: nat)
    requires ValidConfig(cfg) && SegmentOk(s)
    ensures EvictsAlike(x, HandleSegment(cfg, x, s, ts))
  {
    hide HandleApplication, Sink.PushIf, ApplicationOf, FrameLen, IsUnexpected, RecordMaster;
    if s.Frame? {
      var h, app := ParseHeader(s.bytes).value, ApplicationOf(s.bytes);
      MasterEvicted(x, h);
      if app.Some? {
        var x1 := RecordMaster(x.(watch := x.watch.(frameCount := x.watch.frameCount + 1)), h);
        ApplicationEvicts(cfg, x1, h, app.value.fc, app.value.seqNo, IsUnexpected(x.watch, h), ts);
      }
    }
  }

  // ---- how findings are stamped ----------------------------------------------------------------

  /** How sure each kind of finding is. */
  function Sureness(tag: Tag): Confidence {
    match tag
    case RestartCommand => High
    case UnexpectedSource => High
    case BlockedCommand => Low
    case UnsolicitedResponse => Low
    case EnableUnsolicited => Low
    case MalformedFrames => Low
    case _ => Medium
  }

  ghost predicate AllStamped(past: seq<Finding>, fs: seq<Finding>, ts: nat) {
    && past <= fs
    && forall i :: |past| <= i < |fs| ==> fs[i].ts == ts && fs[i].confidence == Sureness(fs[i].tag)
  }

  /** Nothing is taken back, and what is new has the time `ts` and the confidence of its kind. */
  ghost predicate Stamps(s: Sink, t: Sink, ts: nat) {
    AllStamped(s.findings, t.findings, ts) && AllStamped(s.refused, t.refused, ts)
  }

  lemma StampsTrans(s: Sink, t: Sink, u: Sink, ts: nat)
    requires Stamps(s, t, ts) && Stamps(t, u, ts)
    ensures Stamps(s, u, ts)
  {
    StampedTrans(s.findings, t.findings, u.findings, ts);
    StampedTrans(s.refused, t.refused, u.refused, ts);
  }

  lemma StampedTrans(a: seq<Finding>, b: seq<Finding>, c: seq<Finding>, ts: nat)
    requires AllStamped(a, b, ts) && AllStamped(b, c, ts)
    ensures AllStamped(a, c, ts)
  {
    forall i | |a| <= i < |c| ensures c[i].ts == ts && c[i].confidence == Sureness(c[i].tag) {
      if i < |b| {
        assert c[i] == b[i];
      }
    }
  }

  lemma PushStamps(s: Sink, cond: bool, f: Finding, ts: nat)
    requires f.ts == ts && f.confidence == Sureness(f.tag)
    ensures Stamps(s, s.Push(f), ts) && Stamps(s, s.PushIf(cond, f), ts) && Stamps(s, s, ts)
  {
  }

  lemma ControlStamps(cfg: Config, x: Context, h: Header, fc: byte, seqNo: nat, unexpected: bool, ts: nat)
    requires ValidConfig(cfg)
    ensures Stamps(x.sink, HandleControl(cfg, x, h, fc, seqNo, unexpected, ts).sink, ts)
  {
    hide Insert, Burst.Next, Sink.PushIf, Stamps, IsBroadcast;
    var y := HandleControl(cfg, x, h, fc, seqNo, unexpected, ts);
    var s1 := x.sink.PushIf(IsBroadcast(h.destination), Finding(BroadcastControl, Medium, ts));
    var s2 := s1.PushIf(unexpected && !x.watch.unexpectedEmitted, Finding(UnexpectedSource, High, ts));
    PushStamps(x.sink, IsBroadcast(h.destination), Finding(BroadcastControl, Medium, ts), ts);
    PushStamps(s1, unexpected && !x.watch.unexpectedEmitted, Finding(UnexpectedSource, High, ts), ts);
    PushStamps(s2, y.watch.burst.emitted && !x.watch.burst.emitted, Finding(ControlBurst, Medium, ts), ts);
    StampsTrans(x.sink, s1, s2, ts);
    StampsTrans(x.sink, s2, y.sink, ts);
  }

  lemma RestartStamps(x: Context, ts: nat)
    ensures Stamps(x.sink, HandleRestart(x, ts).sink, ts)
  {
    hide Sink.PushIf, Sink.Push, Stamps;
    var y, s1 := HandleRestart(x, ts), x.sink.Push(Finding(RestartCommand, High, ts));
    PushStamps(x.sink, true, Finding(RestartCommand, High, ts), ts);
    PushStamps(s1, y.watch.window.lossEmitted != x.watch.window.lossEmitted, Finding(LossOfControl, Medium, ts), ts);
    StampsTrans(x.sink, s1, y.sink, ts);
  }

  lemma ApplicationStamps(cfg: Config, x: Context, h: Header, fc: byte, seqNo: nat, unexpected: bool, ts: nat)
    requires ValidConfig(cfg)
    ensures Stamps(x.sink, HandleApplication(cfg, x, h, fc, seqNo, unexpected, ts).sink, ts)
  {
    hide HandleControl, HandleRestart, Sink.Push, Stamps, Bump;
    var x1 := HandleUnsolicitedControl(CountFc(x, fc), fc, ts);
    PushStamps(x.sink, true, Finding(EnableUnsolicited, Low, ts), ts);
    PushStamps(x.sink, true, Finding(DisableUnsolicited, Medium, ts), ts);
    PushStamps(x1.sink, true, Finding(WriteCommand, Medium, ts), ts);
    PushStamps(x1.sink, true, Finding(UnsolicitedResponse, Low, ts), ts);
    ControlStamps(cfg, x1, h, fc, seqNo, unexpected, ts);
    RestartStamps(x1, ts);
    StampsTrans(x.sink, x1.sink, HandleApplication(cfg, x, h, fc, seqNo, unexpected, ts).sink, ts);
  }

  lemma SegmentStamps(cfg: Config, x: Context, s: Segment, ts: nat)
    requires ValidConfig(cfg) && SegmentOk(s)
    ensures Stamps(x.sink, HandleSegment(cfg, x, s, ts).sink, ts)
  {
    hide HandleApplication, Sink.PushIf, ApplicationOf, FrameLen, IsUnexpected, Stamps;
    if s.Frame? {
      var h, app := ParseHeader(s.bytes).value, ApplicationOf(s.bytes);
      PushStamps(x.sink, false, Finding(MalformedFrames, Low, ts), ts);
      if app.Some? {
        var x1 := RecordMaster(x.(watch := x.watch.(frameCount := x.watch.frameCount + 1)), h);
        ApplicationStamps(cfg, x1, h, app.value.fc, app.value.seqNo, IsUnexpected(x.watch, h), ts);
      }
    } else {
      var w1 := x.watch.window.(malformed := x.watch.window.malformed + 1);
      PushStamps(x.sink, w1.CheckMalformed(ts).malformedEmitted != w1.malformedEmitted,
                 Finding(MalformedFrames, Low, ts), ts);
    }
  }

  lemma {:induction false} SegmentsStamp(cfg: Config, x: Context, segs: seq<Segment>, ts: nat)
    requires ValidConfig(cfg) && SegmentsOk(segs)
    ensures Stamps(x.sink, HandleSegments(cfg, x, segs, ts).sink, ts)
    decreases |segs|
  {
    hide HandleSegment, SegmentOk;
    if segs != [] {
      assert segs[0] in segs;
      var y := HandleSegment(cfg, x, segs[0], ts);
      SegmentStamps(cfg, x, segs[0], ts);
      SegmentsStamp(cfg, y, segs[1..], ts);
      StampsTrans(x.sink, y.sink, HandleSegments(cfg, x, segs, ts).sink, ts);
    }
  }

  lemma PrologueStamps(x: Context, ts: nat)
    ensures Stamps(x.sink, Prologue(x, ts).sink, ts)
  {
    hide Sink.PushIf, OverdueKeys, Stamps;
    var w := x.watch.window.Expire(ts);
    var y := Prologue(x, ts);
    var blocked := y.watch.window.blockEmitted != w.blockEmitted;
    var s1 := x.sink.PushIf(blocked, Finding(BlockedCommand, Low, ts));
    PushStamps(x.sink, blocked, Finding(BlockedCommand, Low, ts), ts);
    PushStamps(s1, y.watch.window.lossEmitted != w.lossEmitted, Finding(LossOfControl, Medium, ts), ts);
    StampsTrans(x.sink, s1, y.sink, ts);
  }

  /** The findings of a delivery carry its time. */
  lemma DeliveryStamps(cfg: Config, x: Context, segs: seq<Segment>, ts: nat)
    requires ValidConfig(cfg) && SegmentsOk(segs)
    ensures Stamps(x.sink, HandleSegments(cfg, Prologue(x, ts), segs, ts).sink, ts)
  {
    hide HandleSegments, Prologue, Stamps;
    PrologueStamps(x, ts);
    SegmentsStamp(cfg, Prologue(x, ts), segs, ts);
    StampsTrans(x.sink, Prologue(x, ts).sink, HandleSegments(cfg, Prologue(x, ts), segs, ts).sink, ts);
  }
}
