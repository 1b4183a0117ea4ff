/** The findings of whole runs, by counting over the deliveries of each flow. */
module Dnp3Ledger {
  import opened Octets
  import opened Windows
  import opened Dnp3Wire
  import opened Dnp3Framing
  import opened Dnp3Detection
  import opened Dnp3Reading
  import opened Dnp3Flow
  import opened Dnp3Windows
  import opened Dnp3Reports
  import opened Dnp3Senders

  // ---- what a flow's deliveries call for -------------------------------------------------------

  /** Whether a correlation window calls for one of its three findings. */
  ghost predicate Calls(w: seq<Delivery>, tag: Tag) {
    match tag
    case BlockedCommand => IsBlocking(w)
    case LossOfControl => IsLoss(w)
    case MalformedFrames => IsMalformed(w)
    case _ => false
  }

  ghost function Calling(ws: seq<seq<Delivery>>, tag: Tag): nat {
    if ws == [] then 0 else Calling(ws[..|ws| - 1], tag) + Count(Calls(ws[|ws| - 1], tag))
  }

  function Bursts(threshold: nat, ws: seq<seq<nat>>): nat {
    if ws == [] then 0
    else Bursts(threshold, ws[..|ws| - 1]) + Count(IsBurst(threshold, |ws| - 1, |ws[|ws| - 1]|))
  }

  predicate OccursAt(s: Segment, tag: Tag) {
    CodeOf(s).Some? && Occurs(tag, CodeOf(s).value, DestinationOf(s))
  }

  function OccurrencesIn(segs: seq<Segment>, tag: Tag): nat {
    if segs == [] then 0 else Count(OccursAt(segs[0], tag)) + OccurrencesIn(segs[1..], tag)
  }

  function AllOccurrences(ds: seq<Delivery>, tag: Tag): nat {
    if ds == [] then 0 else AllOccurrences(ds[..|ds| - 1], tag) + OccurrencesIn(ds[|ds| - 1].segs, tag)
  }

  predicate Windowed(tag: Tag) { tag.BlockedCommand? || tag.LossOfControl? || tag.MalformedFrames? }

  /** How many findings of a tag the deliveries of one flow call for. */
  ghost function Due(threshold: nat, ds: seq<Delivery>, tag: Tag): nat
  {
    if tag == ControlBurst then Bursts(threshold, BurstWindows(AllControlTimes(ds)))
    else if Windowed(tag) then Calling(CorrelationWindows(ds), tag)
    else if tag == UnexpectedSource then Count(HasStranger(AllSegments(ds)))
    else if tag == UnsolicitedResponse then Count(HasUnprompted(AllSegments(ds)))
    else AllOccurrences(ds, tag)
  }

  /** From `x` to `y` the findings raised of a tag grow from `m` to `n`. */
  ghost predicate Grows(x: Context, y: Context, tag: Tag, n: nat, m: nat) {
    Raised(y.sink, tag) + m == Raised(x.sink, tag) + n
  }

  // ---- findings that occur ---------------------------------------------------------------------

  lemma ReportsGrow(x: Context, y: Context, occurs: set<Tag>, tag: Tag)
    requires Reports(x, y, occurs)
    ensures Grows(x, y, tag, Count(tag in occurs || (Guard(y.watch, tag) && !Guard(x.watch, tag))), 0)
    ensures Lasting(tag) && Guard(x.watch, tag) ==> Guard(y.watch, tag)
  {
    hide Raised, Guard;
  }

  lemma SegmentReports(cfg: Config, x: Context, s: Segment, ts: nat, tag: Tag)
    requires ValidConfig(cfg) && SegmentOk(s)
    ensures var y := HandleSegment(cfg, x, s, ts);
            && Grows(x, y, tag, Count(OccursAt(s, tag) || (Guard(y.watch, tag) && !Guard(x.watch, tag))), 0)
            && (Lasting(tag) && Guard(x.watch, tag) ==> Guard(y.watch, tag))
  {
    hide HandleParsed, Malformed, ApplicationOf, ParseHeader, FrameLen, Reports, Bump, Guard, Grows, ClassifyFc, CodeOf;
    var y := HandleSegment(cfg, x, s, ts);
    if s.Frame? {
      FrameReads(s);
      var h, app := ParseHeader(s.bytes).value, ApplicationOf(s.bytes);
      ParsedReports(cfg, x, h, app, ts);
      ReportsGrow(x, y, OccurrencesOf(app, h), tag);
    } else {
      MalformedReports(x, ts);
      ReportsGrow(x, y, {}, tag);
    }
  }

  predicate Plain(tag: Tag) { !Lasting(tag) && tag != ControlBurst }

  lemma PlainNeverGuarded(f: Watch, tag: Tag)
    requires Plain(tag)
    ensures !Guard(f, tag)
  {
  }

  lemma {:induction false} SegmentsOccur(cfg: Config, x: Context, segs: seq<Segment>, ts: nat, tag: Tag)
    requires ValidConfig(cfg) && SegmentsOk(segs) && Plain(tag)
    ensures Grows(x, HandleSegments(cfg, x, segs, ts), tag, OccurrencesIn(segs, tag), 0)
    decreases |segs|
  {
    hide HandleSegment, Raised, SegmentOk, OccursAt, Guard;
    if segs != [] {
      assert segs[0] in segs;
      var y := HandleSegment(cfg, x, segs[0], ts);
      SegmentReports(cfg, x, segs[0], ts, tag);
      PlainNeverGuarded(y.watch, tag);
      SegmentsOccur(cfg, y, segs[1..], ts, tag);
    }
  }

  // ---- findings of the correlation window ------------------------------------------------------

  lemma {:induction false} SegmentsLast(cfg: Config, x: Context, segs: seq<Segment>, ts: nat, tag: Tag)
    requires ValidConfig(cfg) && SegmentsOk(segs) && Lasting(tag)
    ensures var y := HandleSegments(cfg, x, segs, ts);
            Grows(x, y, tag, Count(Guard(y.watch, tag)), Count(Guard(x.watch, tag)))
    decreases |segs|
  {
    hide HandleSegment, Raised, SegmentOk, OccursAt, Guard;
    if segs != [] {
      assert segs[0] in segs;
      var y := HandleSegment(cfg, x, segs[0], ts);
      SegmentReports(cfg, x, segs[0], ts, tag);
      LastingNeverOccurs(segs[0], tag);
      SegmentsLast(cfg, y, segs[1..], ts, tag);
    }
  }

  lemma LastingNeverOccurs(s: Segment, tag: Tag)
    requires Lasting(tag) || tag == ControlBurst
    ensures !OccursAt(s, tag)
  {
    hide CodeOf;
  }

  /** The context once the correlation window has been looked at. */
  function Expired(x: Context, ts: nat): Context { x.(watch := x.watch.(window := x.watch.window.Expire(ts))) }

  lemma PrologueGrows(x: Context, ts: nat, tag: Tag)
    ensures var x1, y := Expired(x, ts), Prologue(x, ts);
            && (Lasting(tag) ==> Grows(x, y, tag, Count(Guard(y.watch, tag)), Count(Guard(x1.watch, tag))))
            && (!Lasting(tag) ==> Grows(x, y, tag, 0, 0))
  {
    hide ScanTimeouts, Raised, Reports, Guard;
    var x1, y := Expired(x, ts), Prologue(x, ts);
    ScanReports(x1, ts);
    ReportsGrow(x1, y, {}, tag);
    if !Lasting(tag) {
      OtherGuardsStay(x1, ts, tag);
    }
  }

  lemma OtherGuardsStay(x: Context, ts: nat, tag: Tag)
    requires !Lasting(tag)
    ensures Guard(ScanTimeouts(x, ts).watch, tag) == Guard(x.watch, tag)
  {
    hide Sink.PushIf, OverdueKeys;
  }

  lemma ExpiredGuards(x: Context, ts: nat, tag: Tag)
    requires Windowed(tag)
    ensures var w := x.watch.window;
            Guard(Expired(x, ts).watch, tag) <==>
            Guard(x.watch, tag) && !(w.seeded && SatSub(ts, w.start) > 300)
  {
  }

  lemma CallingMore(ws: seq<seq<Delivery>>, w: seq<Delivery>, tag: Tag)
    ensures Calling(ws + [w], tag) == Calling(ws, tag) + Count(Calls(w, tag))
  {
    assert (ws + [w])[..|ws|] == ws;
  }

  /** One more delivery opens a window, or extends the one that is open. */
  lemma CallingDelivery(ds: seq<Delivery>, d: Delivery, tag: Tag)
    ensures var w := Current(ds);
            Calling(CorrelationWindows(ds + [d]), tag) ==
            Calling(CorrelationWindows(ds), tag) + Count(Calls(Current(ds + [d]), tag))
            - if w != [] && SatSub(d.ts, w[0].ts) <= 300 then Count(Calls(w, tag)) else 0
  {
    hide Partition, Calling, Calls;
    PartitionMore(ds, d, TimeOf, 300);
    var ws: seq<seq<Delivery>> := CorrelationWindows(ds);
    var n := |ws| - 1;
    if ws == [] || SatSub(d.ts, ws[n][0].ts) > 300 {
      CallingMore(ws, [d], tag);
    } else {
      assert ws == ws[..n] + [ws[n]];
      CallingMore(ws[..n], ws[n], tag);
      CallingMore(ws[..n], ws[n] + [d], tag);
    }
  }

  lemma GuardIsCall(threshold: nat, f: Watch, ds: seq<Delivery>, tag: Tag)
    requires Tracks(threshold, f, ds) && WindowOk(f.window) && Windowed(tag)
    ensures Guard(f, tag) <==> Calls(Current(ds), tag)
    ensures var w := Current(ds); (f.window.seeded <==> w != []) && (w != [] ==> f.window.start == w[0].ts)
  {
    hide IsBlocking, IsLoss, IsMalformed, AlarmAt, Current, BurstTracks;
    TracksCount(threshold, f, ds);
  }

  /** A window that has just begun calls for nothing that its first delivery does not. */
  lemma NothingCalled(tag: Tag)
    ensures !Calls([], tag)
  {
  }

  lemma WindowedDelivery(cfg: Config, x: Context, ds: seq<Delivery>, segs: seq<Segment>, ts: nat, tag: Tag)
    requires ValidConfig(cfg) && SegmentsOk(segs) && DetectionOk(cfg, x) && Tracks(cfg.threshold, x.watch, ds)
    requires Windowed(tag)
    ensures Grows(x, HandleSegments(cfg, Prologue(x, ts), segs, ts), tag,
                  Calling(CorrelationWindows(ds + [DeliveryOf(x, segs, ts)]), tag),
                  Calling(CorrelationWindows(ds), tag))
  {
    hide HandleSegments, Prologue, Tracks, Calling, Calls, CorrelationWindows, Current, Guard, Raised, OverdueKeys;
    var d, y := DeliveryOf(x, segs, ts), HandleSegments(cfg, Prologue(x, ts), segs, ts);
    PrologueGrows(x, ts, tag);
    SegmentsLast(cfg, Prologue(x, ts), segs, ts, tag);
    ExpiredGuards(x, ts, tag);
    OnDataKeeps(cfg, x, segs, ts);
    DeliveryTracks(cfg, x, ds, segs, ts);
    GuardIsCall(cfg.threshold, x.watch, ds, tag);
    GuardIsCall(cfg.threshold, y.watch, ds + [d], tag);
    CallingDelivery(ds, d, tag);
    NothingCalled(tag);
  }

  // ---- findings that a flow raises once --------------------------------------------------------

  lemma OnceDelivery(cfg: Config, x: Context, ds: seq<Delivery>, segs: seq<Segment>, ts: nat, tag: Tag)
    requires ValidConfig(cfg) && SegmentsOk(segs) && SendersTrack(x.watch, AllSegments(ds)) && PerFlow(tag)
    ensures Grows(x, HandleSegments(cfg, Prologue(x, ts), segs, ts), tag,
                  Due(cfg.threshold, ds + [DeliveryOf(x, segs, ts)], tag), Due(cfg.threshold, ds, tag))
  {
    hide HandleSegments, Prologue, SendersTrack, Guard, Raised, OverdueKeys, Due;
    var y := HandleSegments(cfg, Prologue(x, ts), segs, ts);
    PrologueGrows(x, ts, tag);
    ExpireKeeps(x, ts, tag);
    SegmentsLast(cfg, Prologue(x, ts), segs, ts, tag);
    PrologueSenders(x, ts, AllSegments(ds));
    SegmentsSenders(cfg, Prologue(x, ts), segs, ts, AllSegments(ds));
    AllSegmentsMore(ds, DeliveryOf(x, segs, ts));
    GuardIsDue(cfg.threshold, x.watch, ds, tag);
    GuardIsDue(cfg.threshold, y.watch, ds + [DeliveryOf(x, segs, ts)], tag);
  }

  lemma ExpireKeeps(x: Context, ts: nat, tag: Tag)
    requires PerFlow(tag)
    ensures Guard(Expired(x, ts).watch, tag) == Guard(x.watch, tag)
  {
  }

  lemma GuardIsDue(threshold: nat, f: Watch, ds: seq<Delivery>, tag: Tag)
    requires SendersTrack(f, AllSegments(ds)) && PerFlow(tag)
    ensures Due(threshold, ds, tag) == Count(Guard(f, tag))
  {
    hide HasStranger, HasUnprompted, SeenIn, Masters, AllSegments;
  }

  // ---- bursts ----------------------------------------------------------------------------------

  lemma BurstsMore(threshold: nat, ws: seq<seq<nat>>, w: seq<nat>)
    ensures Bursts(threshold, ws + [w]) == Bursts(threshold, ws) + Count(IsBurst(threshold, |ws|, |w|))
  {
    assert (ws + [w])[..|ws|] == ws;
  }

  /** One more control command: a burst is counted exactly when the guard goes up. */
  lemma BurstsCommand(threshold: nat, b: Burst, times: seq<nat>, ts: nat)
    requires BurstTracks(threshold, b, times)
    ensures Bursts(threshold, BurstWindows(times + [ts])) ==
            Bursts(threshold, BurstWindows(times)) + Count(b.Next(threshold, ts).emitted && !b.emitted)
  {
    hide Partition, Bursts;
    BurstStep(threshold, b, times, ts);
    PartitionMore(times, ts, Moment, 60);
    var ws := BurstWindows(times);
    var n := |ws| - 1;
    if ws == [] || SatSub(ts, ws[n][0]) > 60 {
      BurstsMore(threshold, ws, [ts]);
    } else {
      assert ws == ws[..n] + [ws[n]];
      BurstsMore(threshold, ws[..n], ws[n]);
      BurstsMore(threshold, ws[..n], ws[n] + [ts]);
    }
  }

  lemma {:induction false} SegmentsBursts(cfg: Config, x: Context, segs: seq<Segment>, ts: nat, times: seq<nat>)
    requires ValidConfig(cfg) && SegmentsOk(segs) && BurstTracks(cfg.threshold, x.watch.burst, times)
    ensures Grows(x, HandleSegments(cfg, x, segs, ts), ControlBurst,
                  Bursts(cfg.threshold, BurstWindows(times + ControlTimes(segs, ts))),
                  Bursts(cfg.threshold, BurstWindows(times)))
    decreases |segs|
  {
    hide HandleSegment, BurstTracks, Burst.Next, IsControl, IsRestart, SegmentOk, SatSub, Raised, Bursts, BurstWindows,
         OccursAt;
    if segs == [] {
      assert times + ControlTimes(segs, ts) == times;
    } else {
      assert segs[0] in segs;
      var s, y := segs[0], HandleSegment(cfg, x, segs[0], ts);
      SegmentMeters(cfg, x, s, ts);
      SegmentReports(cfg, x, s, ts, ControlBurst);
      LastingNeverOccurs(s, ControlBurst);
      BurstStep(cfg.threshold, x.watch.burst, times, ts);
      BurstsCommand(cfg.threshold, x.watch.burst, times, ts);
      var times1 := if IsControl(s) then times + [ts] else times;
      SegmentsBursts(cfg, y, segs[1..], ts, times1);
      assert times1 + ControlTimes(segs[1..], ts) == times + ControlTimes(segs, ts);
    }
  }

  // ---- one delivery, and whole runs ------------------------------------------------------------

  lemma DeliveryDue(cfg: Config, x: Context, ds: seq<Delivery>, segs: seq<Segment>, ts: nat, tag: Tag)
    requires ValidConfig(cfg) && SegmentsOk(segs) && DetectionOk(cfg, x) && Tracks(cfg.threshold, x.watch, ds)
    requires SendersTrack(x.watch, AllSegments(ds))
    ensures Grows(x, HandleSegments(cfg, Prologue(x, ts), segs, ts), tag,
                  Due(cfg.threshold, ds + [DeliveryOf(x, segs, ts)], tag), Due(cfg.threshold, ds, tag))
  {
    hide HandleSegments, Prologue, Calling, CorrelationWindows, Guard, Raised, OverdueKeys, WindowTracks, BurstTracks,
         Bursts, BurstWindows, OccurrencesIn, ControlTimes, DetectionOk,
         SendersTrack, AllSegments;
    var d := DeliveryOf(x, segs, ts);
    assert (ds + [d])[..|ds|] == ds;
    if Windowed(tag) {
      WindowedDelivery(cfg, x, ds, segs, ts, tag);
    } else if PerFlow(tag) {
      OnceDelivery(cfg, x, ds, segs, ts, tag);
    } else {
      PrologueGrows(x, ts, tag);
      PrologueMeters(x, ts);
      if tag == ControlBurst {
        SegmentsBursts(cfg, Prologue(x, ts), segs, ts, AllControlTimes(ds));
      } else {
        SegmentsOccur(cfg, Prologue(x, ts), segs, ts, tag);
      }
    }
  }

  lemma NothingDue(threshold: nat, tag: Tag)
    ensures Due(threshold, [], tag) == 0
  {
  }
}
