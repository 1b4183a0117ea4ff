/** Who sent what on a flow: the per-flow guards, by looking at its frames in order. */
module Dnp3Senders {
  import opened Octets
  import opened Flows
  import opened Dnp3Wire
  import opened Dnp3Framing
  import opened Dnp3Detection
  import opened Dnp3Reading
  import opened Dnp3Flow
  import opened Dnp3Analyzer
  import opened Dnp3Windows
  import opened Dnp3Reports

  // ---- the specification -----------------------------------------------------------------------

  /** All segments of a flow, both directions, in the order in which they were handled. */
  function AllSegments(ds: seq<Delivery>): seq<Segment> {
    if ds == [] then [] else AllSegments(ds[..|ds| - 1]) + ds[|ds| - 1].segs
  }

  /** The first 64 addresses that sent master frames, in order. */
  function Masters(segs: seq<Segment>): seq<nat> {
    if segs == [] then []
    else
      var ms, s := Masters(segs[..|segs| - 1]), segs[|segs| - 1];
      if FromMaster(s) && SourceOf(s) !in ms && |ms| < 64 then ms + [SourceOf(s)] else ms
  }

  /** The i-th segment is a control command from a master address that is not among the masters known before it. */
  predicate FromStranger(segs: seq<Segment>, i: nat)
    requires i < |segs|
  {
    IsControl(segs[i]) && FromMaster(segs[i]) && Masters(segs[..i]) != [] && SourceOf(segs[i]) !in Masters(segs[..i])
  }

  ghost predicate SeenIn(segs: seq<Segment>, fc: byte) { exists i: nat :: i < |segs| && IsCode(segs[i], fc) }

  /** The i-th segment is an unsolicited response, with neither ENABLE_UNSOLICITED nor a response before it. */
  ghost predicate Unprompted(segs: seq<Segment>, i: nat)
    requires i < |segs|
  {
    IsCode(segs[i], 0x82) && !SeenIn(segs[..i], 0x14) && !SeenIn(segs[..i], 0x81)
  }

  ghost predicate HasStranger(segs: seq<Segment>) { exists i: nat :: i < |segs| && FromStranger(segs, i) }

  ghost predicate HasUnprompted(segs: seq<Segment>) { exists i: nat :: i < |segs| && Unprompted(segs, i) }

  // ---- one more segment ------------------------------------------------------------------------

  lemma SeenMore(segs: seq<Segment>, s: Segment, fc: byte)
    ensures SeenIn(segs + [s], fc) <==> SeenIn(segs, fc) || IsCode(s, fc)
  {
    hide IsCode;
    var all := segs + [s];
    assert all[|segs|] == s;
    if SeenIn(segs, fc) {
      var i: nat :| i < |segs| && IsCode(segs[i], fc);
      assert IsCode(all[i], fc);
    }
  }

  lemma StrangerMore(segs: seq<Segment>, s: Segment)
    ensures HasStranger(segs + [s]) <==> HasStranger(segs) || FromStranger(segs + [s], |segs|)
  {
    hide IsControl, FromMaster, SourceOf, Masters;
    var all := segs + [s];
    forall i: nat | i < |segs| ensures FromStranger(all, i) <==> FromStranger(segs, i) {
      assert all[..i] == segs[..i];
    }
    if HasStranger(segs) {
      var i: nat :| i < |segs| && FromStranger(segs, i);
      assert FromStranger(all, i);
    }
  }

  lemma UnpromptedMore(segs: seq<Segment>, s: Segment)
    ensures HasUnprompted(segs + [s]) <==> HasUnprompted(segs) || Unprompted(segs + [s], |segs|)
  {
    hide IsCode, SeenIn;
    var all := segs + [s];
    forall i: nat | i < |segs| ensures Unprompted(all, i) <==> Unprompted(segs, i) {
      assert all[..i] == segs[..i];
    }
    if HasUnprompted(segs) {
      var i: nat :| i < |segs| && Unprompted(segs, i);
      assert Unprompted(all, i);
    }
  }

  /** The flags and the known masters of a flow are what its segments say. */
  ghost predicate SendersTrack(f: Watch, segs: seq<Segment>) {
    f.masters == Masters(segs)
    && FlagsOf(f) == Flags(SeenIn(segs, 0x14), SeenIn(segs, 0x81), HasUnprompted(segs), HasStranger(segs))
  }

  lemma ParsedMasters(cfg: Config, x: Context, h: Header, app: Option<Application>, ts: nat)
    requires ValidConfig(cfg)
    ensures var ms := x.watch.masters;
            HandleParsed(cfg, x, h, app, ts).watch.masters ==
            if IsMasterFrame(h.control) && h.source !in ms && |ms| < MAX_MASTERS then ms + [h.source] else ms
  {
    hide HandleApplication, IsUnexpected;
    if app.Some? {
      var x1 := RecordMaster(x.(watch := x.watch.(frameCount := x.watch.frameCount + 1)), h);
      ApplicationMasters(cfg, x1, h, app.value, IsUnexpected(x.watch, h), ts);
    }
  }

  lemma ApplicationMasters(cfg: Config, x: Context, h: Header, app: Application, unexpected: bool, ts: nat)
    requires ValidConfig(cfg)
    ensures HandleApplication(cfg, x, h, app.fc, app.seqNo, unexpected, ts).watch.masters == x.watch.masters
  {
    hide HandleControl, HandleRestart, HandleResponse, HandleUnsolicitedControl, Sink.Push, Bump, ClassifyFc;
    var x1 := HandleUnsolicitedControl(CountFc(x, app.fc), app.fc, ts);
    BranchMasters(cfg, x1, h, app, unexpected, ts);
    BranchMasters(cfg, CountFc(x, app.fc), h, app, unexpected, ts);
  }

  lemma BranchMasters(cfg: Config, x: Context, h: Header, app: Application, unexpected: bool, ts: nat)
    requires ValidConfig(cfg)
    ensures HandleControl(cfg, x, h, app.fc, app.seqNo, unexpected, ts).watch.masters == x.watch.masters
    ensures HandleRestart(x, ts).watch.masters == x.watch.masters
    ensures HandleResponse(x, h, app.fc, app.seqNo, ts).watch.masters == x.watch.masters
    ensures HandleUnsolicitedControl(x, app.fc, ts).watch.masters == x.watch.masters
  {
    hide Insert, Burst.Next, Sink.PushIf, Sink.Push;
  }

  lemma FrameSenders(cfg: Config, x: Context, s: Segment, ts: nat, past: seq<Segment>)
    requires ValidConfig(cfg) && SegmentOk(s) && s.Frame? && SendersTrack(x.watch, past)
    ensures SendersTrack(HandleSegment(cfg, x, s, ts).watch, past + [s])
  {
    hide HandleParsed, ApplicationOf, ParseHeader, FrameLen, SeenIn, HasUnprompted, HasStranger, ClassifyFc, CodeOf;
    FrameReads(s);
    var h, app := ParseHeader(s.bytes).value, ApplicationOf(s.bytes);
    assert (past + [s])[..|past|] == past;
    ParsedMasters(cfg, x, h, app, ts);
    FlagsExplained(cfg, x, h, app, ts);
    SeenMore(past, s, 0x14);
    SeenMore(past, s, 0x81);
    StrangerMore(past, s);
    UnpromptedMore(past, s);
  }

  lemma RejectSenders(x: Context, s: Segment, ts: nat, past: seq<Segment>)
    requires !s.Frame? && SendersTrack(x.watch, past)
    ensures SendersTrack(Malformed(x, ts).watch, past + [s])
  {
    hide SeenIn, HasUnprompted, HasStranger, Sink.PushIf;
    assert (past + [s])[..|past|] == past;
    SeenMore(past, s, 0x14);
    SeenMore(past, s, 0x81);
    StrangerMore(past, s);
    UnpromptedMore(past, s);
  }

  lemma {:induction false} SegmentsSenders(cfg: Config, x: Context, segs: seq<Segment>, ts: nat, past: seq<Segment>)
    requires ValidConfig(cfg) && SegmentsOk(segs) && SendersTrack(x.watch, past)
    ensures SendersTrack(HandleSegments(cfg, x, segs, ts).watch, past + segs)
    decreases |segs|
  {
    hide HandleFrame, Malformed, SegmentOk, SendersTrack;
    if segs == [] {
      assert past + segs == past;
    } else {
      assert segs[0] in segs;
      if segs[0].Frame? {
        FrameSenders(cfg, x, segs[0], ts, past);
      } else {
        RejectSenders(x, segs[0], ts, past);
      }
      SegmentsSenders(cfg, HandleSegment(cfg, x, segs[0], ts), segs[1..], ts, past + [segs[0]]);
      assert past + [segs[0]] + segs[1..] == past + segs;
    }
  }

  lemma PrologueSenders(x: Context, ts: nat, past: seq<Segment>)
    requires SendersTrack(x.watch, past)
    ensures SendersTrack(Prologue(x, ts).watch, past)
  {
    hide Sink.PushIf, OverdueKeys, SeenIn, HasUnprompted, HasStranger, Masters;
  }

  /**
   In any run, for every flow: its known masters are the first 64 addresses of its master frames, the unexpected-source
   guard is set exactly when some control command came from a stranger to those known before it, and the unsolicited
   guard exactly when some unsolicited response came unprompted.
   */
  lemma {:induction false} GuardsBySenders(cfg: Config, ops: seq<Op>, key: FlowKey)
    requires ValidConfig(cfg)
    ensures SendersTrack(Load(Run(cfg, ops), key).s.x.watch, AllSegments(Deliveries(cfg, ops, key)))
    decreases |ops|
  {
    hide SendersTrack, FlowOk, SystemOk, Deliver, HandleSegments, Prologue, Feed, OverdueKeys, AllSegments;
    NoSenders();
    if ops != [] {
      var n := |ops| - 1;
      var s, op := Run(cfg, ops[..n]), ops[n];
      GuardsBySenders(cfg, ops[..n], key);
      if op.Data? && op.key == key {
        var t := Load(s, key);
        NewFlowOk(cfg, s, key);
        FlowOkParts(cfg, t);
        if !t.s.latched && !t.s.Desync(op.data) {
          DeliverTiles(t.s.Carry(op.d), op.data);
          var ds, segs := Deliveries(cfg, ops[..n], key), Deliver(t.s.Carry(op.d), op.data).0;
          PrologueSenders(t.s.x, op.ts, AllSegments(ds));
          SegmentsSenders(cfg, Prologue(t.s.x, op.ts), segs, op.ts, AllSegments(ds));
          AllSegmentsMore(ds, DeliveryOf(t.s.x, segs, op.ts));
        }
      }
    }
  }

  lemma AllSegmentsMore(ds: seq<Delivery>, d: Delivery)
    ensures AllSegments(ds + [d]) == AllSegments(ds) + d.segs
  {
    assert (ds + [d])[..|ds|] == ds;
  }

  lemma NoSenders()
    ensures SendersTrack(NEW_WATCH, []) && AllSegments([]) == []
  {
  }
}
