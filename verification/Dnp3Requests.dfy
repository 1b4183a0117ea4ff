/** The pending requests of a flow, and so its blocked commands, by its frames alone. */
module Dnp3Requests {
  import opened Octets
  import opened Flows
  import opened Tables
  import opened Dnp3Wire
  import opened Dnp3Framing
  import opened Dnp3Detection
  import opened Dnp3Reading
  import opened Dnp3Flow
  import opened Dnp3Analyzer
  import opened Dnp3Windows
  import opened Dnp3Reports

  // ---- the specification -----------------------------------------------------------------------

  /** What matters to requests: the time of a delivery, a request that expects an answer, and an answer. */
  datatype Event = Tick(ts: nat) | Request(key: PendingKey, ts: nat) | Reply(key: PendingKey)

  function EventsOfSegment(s: Segment, ts: nat): seq<Event> {
    if CodeOf(s).None? then []
    else if CodeOf(s).value in {3, 4, 5} then [Request((DestinationOf(s), SequenceOf(s)), ts)]
    else if CodeOf(s).value == 0x81 then [Reply((SourceOf(s), SequenceOf(s)))]
    else []
  }

  function EventsOfSegments(segs: seq<Segment>, ts: nat): seq<Event> {
    if segs == [] then [] else EventsOfSegment(segs[0], ts) + EventsOfSegments(segs[1..], ts)
  }

  /** The events of a list of deliveries; how many requests these found overdue is not looked at. */
  function Events(ds: seq<Delivery>): seq<Event> {
    if ds == [] then []
    else
      var d := ds[|ds| - 1];
      Events(ds[..|ds| - 1]) + [Tick(d.ts)] + EventsOfSegments(d.segs, d.ts)
  }

  /** The requests that wait for an answer, with the time of the last one for each key. */
  function Waiting(es: seq<Event>): map<PendingKey, nat> {
    if es == [] then map[] else After(Waiting(es[..|es| - 1]), es[|es| - 1])
  }

  function After(m: map<PendingKey, nat>, e: Event): map<PendingKey, nat> {
    match e
    case Tick(ts) => m - OverdueKeys(m, ts)
    case Request(key, ts) => m[key := ts]
    case Reply(key) => m - {key}
  }

  /** The event neither repeats nor answers a request for `key` sent at `t`, nor finds it overdue. */
  predicate Spares(e: Event, key: PendingKey, t: nat) {
    match e
    case Tick(ts) => ts <= t + 10
    case Request(k, _) => k != key
    case Reply(k) => k != key
  }

  /** The i-th event is the request, and none after it ends the wait. */
  ghost predicate WaitsSince(es: seq<Event>, i: nat, key: PendingKey, t: nat)
    requires i < |es|
  {
    es[i] == Request(key, t) && forall j :: i < j < |es| ==> Spares(es[j], key, t)
  }

  lemma WaitsMore(es: seq<Event>, e: Event, key: PendingKey, t: nat)
    ensures (exists i: nat :: i < |es + [e]| && WaitsSince(es + [e], i, key, t)) <==>
            e == Request(key, t) || (Spares(e, key, t) && exists i: nat :: i < |es| && WaitsSince(es, i, key, t))
  {
    var all := es + [e];
    assert all[|es|] == e;
    if e == Request(key, t) {
      assert WaitsSince(all, |es|, key, t);
    }
    if i: nat :| i < |es| && WaitsSince(es, i, key, t) {
      assert Spares(e, key, t) ==> WaitsSince(all, i, key, t);
    }
    if i: nat :| i < |all| && WaitsSince(all, i, key, t) {
      if i < |es| {
        assert Spares(all[|es|], key, t);
        assert forall j :: i < j < |es| ==> es[j] == all[j];
        assert WaitsSince(es, i, key, t);
      }
    }
  }

  /** A request waits exactly if nothing since has repeated it, answered it or found it more than ten seconds old. */
  lemma {:induction false} WaitingIff(es: seq<Event>, key: PendingKey, t: nat)
    ensures key in Waiting(es) && Waiting(es)[key] == t <==>
            exists i: nat :: i < |es| && WaitsSince(es, i, key, t)
  {
    hide WaitsSince;
    if es != [] {
      var n := |es| - 1;
      assert es == es[..n] + [es[n]];
      WaitingIff(es[..n], key, t);
      WaitsMore(es[..n], es[n], key, t);
    }
  }

  /** The table has room for everything that ever waits. */
  ghost predicate Roomy(es: seq<Event>) {
    forall i :: 0 <= i <= |es| ==> |Waiting(es[..i])| <= 256
  }

  lemma RoomyMore(es: seq<Event>, e: Event)
    ensures Roomy(es + [e]) <==> Roomy(es) && |Waiting(es + [e])| <= 256
  {
    hide Waiting;
    var all := es + [e];
    assert all[..|all|] == all;
    assert forall i :: 0 <= i <= |es| ==> all[..i] == es[..i];
  }

  // ---- one step --------------------------------------------------------------------------------

  /** Without an eviction the table is what waits; and there is an eviction as soon as it has no room. */
  ghost predicate Pends(f: Watch, es: seq<Event>) {
    && |f.pending| <= MAX_PENDING
    && if Roomy(es) then f.tally.evicted == 0 && f.pending == Waiting(es) else f.tally.evicted >= 1
  }

  lemma WaitingMore(es: seq<Event>, e: Event)
    ensures Waiting(es + [e]) == After(Waiting(es), e)
  {
    hide After;
    assert (es + [e])[..|es|] == es;
  }

  lemma ControlEvicted(cfg: Config, x: Context, h: Header, fc: byte, seqNo: nat, unexpected: bool, ts: nat)
    requires ValidConfig(cfg)
    ensures HandleControl(cfg, x, h, fc, seqNo, unexpected, ts).watch.tally.evicted ==
            x.watch.tally.evicted +
            if fc == 0x06 then 0
            else Insert(cfg.order, x.evictions, x.watch.pending, (h.destination, seqNo), ts).evicted
  {
    hide Insert, Burst.Next, Sink.PushIf;
  }

  lemma OtherEvicted(x: Context, h: Header, fc: byte, seqNo: nat, ts: nat)
    ensures HandleRestart(x, ts).watch.tally == x.watch.tally
    ensures HandleResponse(x, h, fc, seqNo, ts).watch.tally.evicted == x.watch.tally.evicted
  {
    hide Sink.PushIf, Sink.Push;
  }

  lemma UnsolicitedEvicted(x: Context, fc: byte, ts: nat)
    ensures HandleUnsolicitedControl(x, fc, ts).watch.tally == x.watch.tally
  {
    hide Sink.Push;
  }

  ghost function EvictedBy(cfg: Config, x: Context, h: Header, app: Option<Application>, ts: nat): nat
    requires ValidConfig(cfg)
  {
    if app.Some? && 0x03 <= app.value.fc <= 0x05
    then Insert(cfg.order, x.evictions, x.watch.pending, (h.destination, app.value.seqNo), ts).evicted else 0
  }

  lemma ApplicationEvicted(cfg: Config, x: Context, h: Header, app: Application, unexpected: bool, ts: nat)
    requires ValidConfig(cfg)
    ensures HandleApplication(cfg, x, h, app.fc, app.seqNo, unexpected, ts).watch.tally.evicted ==
            x.watch.tally.evicted + EvictedBy(cfg, x, h, Some(app), ts)
  {
    hide Insert, HandleControl, HandleRestart, HandleResponse, HandleUnsolicitedControl, Sink.Push, Bump;
    var x0 := CountFc(x, app.fc);
    var x1 := HandleUnsolicitedControl(x0, app.fc, ts);
    UnsolicitedEvicted(x0, app.fc, ts);
    UnsolicitedPending(x0, app.fc, ts);
    ControlEvicted(cfg, x1, h, app.fc, app.seqNo, unexpected, ts);
    OtherEvicted(x1, h, app.fc, app.seqNo, ts);
  }

  lemma ParsedEvicted(cfg: Config, x: Context, h: Header, app: Option<Application>, ts: nat)
    requires ValidConfig(cfg)
    ensures HandleParsed(cfg, x, h, app, ts).watch.tally.evicted == x.watch.tally.evicted + EvictedBy(cfg, x, h, app, ts)
  {
    hide HandleApplication, IsUnexpected, Insert, RecordMaster;
    MasterEvicted(x, h);
    if app.Some? {
      var x1 := RecordMaster(x.(watch := x.watch.(frameCount := x.watch.frameCount + 1)), h);
      ApplicationEvicted(cfg, x1, h, app.value, IsUnexpected(x.watch, h), ts);
    }
  }

  lemma MasterEvicted(x: Context, h: Header)
    ensures var y := RecordMaster(x.(watch := x.watch.(frameCount := x.watch.frameCount + 1)), h);
            y.watch.tally == x.watch.tally && y.watch.pending == x.watch.pending && y.evictions == x.evictions
  {
  }

  /** A request on top of what waits: the table takes it, or evicts because there is no room. */
  lemma RequestPends(cfg: Config, n: nat, p: map<PendingKey, nat>, key: PendingKey, ts: nat)
    requires ValidConfig(cfg) && |p| <= MAX_PENDING
    ensures var r := Insert(cfg.order, n, p, key, ts);
            && |r.pending| <= MAX_PENDING
            && if |p[key := ts]| <= MAX_PENDING then r.evicted == 0 && r.pending == p[key := ts] else r.evicted == 1
  {
    AddSize(p, key, ts);
  }

  lemma FramePends(cfg: Config, x: Context, s: Segment, ts: nat, es: seq<Event>)
    requires ValidConfig(cfg) && SegmentOk(s) && s.Frame? && Pends(x.watch, es)
    ensures Pends(HandleFrame(cfg, x, s.bytes, ts).watch, es + EventsOfSegment(s, ts))
  {
    hide HandleParsed, ApplicationOf, ParseHeader, FrameLen, Insert, Roomy, Waiting, ClassifyFc, CodeOf;
    FrameReads(s);
    var h, app := ParseHeader(s.bytes).value, ApplicationOf(s.bytes);
    var events, m := EventsOfSegment(s, ts), x.watch.pending;
    ParsedPending(cfg, x, h, app, ts);
    ParsedEvicted(cfg, x, h, app, ts);
    if events == [] {
      assert es + events == es;
    } else {
      var e := events[0];
      assert events == [e];
      WaitingMore(es, e);
      RoomyMore(es, e);
      if e.Request? {
        RequestPends(cfg, x.evictions, m, e.key, ts);
      } else {
        MapMinus(m, {e.key});
      }
    }
  }

  lemma MapMinus<K, V>(m: map<K, V>, gone: set<K>)
    ensures |m - gone| <= |m|
  {
    var inside := gone * m.Keys;
    assert m - gone == m - inside;
    MapMinusSize(m, inside);
  }

  lemma {:induction false} SegmentsPend(cfg: Config, x: Context, segs: seq<Segment>, ts: nat, es: seq<Event>)
    requires ValidConfig(cfg) && SegmentsOk(segs) && Pends(x.watch, es)
    ensures Pends(HandleSegments(cfg, x, segs, ts).watch, es + EventsOfSegments(segs, ts))
    decreases |segs|
  {
    hide HandleFrame, SegmentOk, Pends, EventsOfSegment, Sink.PushIf;
    if segs == [] {
      assert es + EventsOfSegments(segs, ts) == es;
    } else {
      assert segs[0] in segs;
      var now := EventsOfSegment(segs[0], ts);
      if segs[0].Frame? {
        FramePends(cfg, x, segs[0], ts, es);
      } else {
        RejectPends(x, segs[0], ts, es);
      }
      SegmentsPend(cfg, HandleSegment(cfg, x, segs[0], ts), segs[1..], ts, es + now);
      assert es + now + EventsOfSegments(segs[1..], ts) == es + EventsOfSegments(segs, ts);
    }
  }

  lemma RejectPends(x: Context, s: Segment, ts: nat, es: seq<Event>)
    requires !s.Frame? && Pends(x.watch, es)
    ensures Pends(Malformed(x, ts).watch, es + EventsOfSegment(s, ts))
  {
    hide Sink.PushIf, Roomy, Waiting;
    assert es + [] == es;
  }

  lemma ProloguePends(x: Context, ts: nat, es: seq<Event>)
    requires Pends(x.watch, es)
    ensures Pends(Prologue(x, ts).watch, es + [Tick(ts)])
  {
    hide Sink.PushIf, OverdueKeys, Roomy, Waiting;
    WaitingMore(es, Tick(ts));
    RoomyMore(es, Tick(ts));
    MapMinus(x.watch.pending, OverdueKeys(x.watch.pending, ts));
  }

  lemma DeliveryPends(cfg: Config, x: Context, ds: seq<Delivery>, segs: seq<Segment>, ts: nat)
    requires ValidConfig(cfg) && SegmentsOk(segs) && Pends(x.watch, Events(ds))
    ensures Pends(HandleSegments(cfg, Prologue(x, ts), segs, ts).watch, Events(ds + [DeliveryOf(x, segs, ts)]))
  {
    hide HandleSegments, Prologue, Pends, EventsOfSegments, OverdueKeys;
    ProloguePends(x, ts, Events(ds));
    SegmentsPend(cfg, Prologue(x, ts), segs, ts, Events(ds) + [Tick(ts)]);
    assert (ds + [DeliveryOf(x, segs, ts)])[..|ds|] == ds;
  }

  // ---- whole runs ------------------------------------------------------------------------------

  /**
   In any run, for every flow: nothing was ever evicted if and only if no more than 256 requests ever wait, and then the
   table holds exactly the requests that wait.
   */
  lemma {:induction false} PendingByFrames(cfg: Config, ops: seq<Op>, key: FlowKey)
    requires ValidConfig(cfg)
    ensures Pends(Load(Run(cfg, ops), key).s.x.watch, Events(Deliveries(cfg, ops, key)))
    decreases |ops|
  {
    hide Pends, FlowOk, SystemOk, Deliver, HandleSegments, Prologue, Feed, Events, DeliveryOf;
    NothingPends();
    if ops != [] {
      var n := |ops| - 1;
      var s, op := Run(cfg, ops[..n]), ops[n];
      PendingByFrames(cfg, ops[..n], key);
      if op.Data? && op.key == key {
        var t := Load(s, key);
        NewFlowOk(cfg, s, key);
        FlowOkParts(cfg, t);
        if !t.s.latched && !t.s.Desync(op.data) {
          DeliverTiles(t.s.Carry(op.d), op.data);
          DeliveryPends(cfg, t.s.x, Deliveries(cfg, ops[..n], key), Deliver(t.s.Carry(op.d), op.data).0, op.ts);
        }
      }
    }
  }

  lemma NothingPends()
    ensures Pends(NEW_WATCH, Events([]))
  {
  }

  /** The deliveries with their blocked commands counted anew, from times and frames only. */
  function Recounted(ds: seq<Delivery>): seq<Delivery> {
    if ds == [] then []
    else
      var before, d := ds[..|ds| - 1], ds[|ds| - 1];
      Recounted(before) + [Delivery(d.ts, |OverdueKeys(Waiting(Events(before)), d.ts)|, d.segs)]
  }

  lemma RoomyPrefix(a: seq<Event>, b: seq<Event>)
    requires Roomy(a + b)
    ensures Roomy(a)
  {
    hide Waiting;
    assert forall i :: 0 <= i <= |a| ==> (a + b)[..i] == a[..i];
  }

  lemma RecountedMore(ds: seq<Delivery>, d: Delivery)
    requires Roomy(Events(ds + [d])) && (Roomy(Events(ds)) ==> Recounted(ds) == ds)
    requires Roomy(Events(ds)) ==> d.blocked == |OverdueKeys(Waiting(Events(ds)), d.ts)|
    ensures Recounted(ds + [d]) == ds + [d]
  {
    hide Roomy, Waiting, OverdueKeys, EventsOfSegments;
    assert (ds + [d])[..|ds|] == ds;
    assert Events(ds + [d]) == Events(ds) + ([Tick(d.ts)] + EventsOfSegments(d.segs, d.ts));
    RoomyPrefix(Events(ds), [Tick(d.ts)] + EventsOfSegments(d.segs, d.ts));
  }

  /** What each delivery found overdue is what its predecessors' frames say, as long as there was room. */
  lemma {:induction false} BlockedByFrames(cfg: Config, ops: seq<Op>, key: FlowKey)
    requires ValidConfig(cfg) && Roomy(Events(Deliveries(cfg, ops, key)))
    ensures Recounted(Deliveries(cfg, ops, key)) == Deliveries(cfg, ops, key)
    decreases |ops|
  {
    hide Pends, FlowOk, SystemOk, Deliver, HandleSegments, Events, Run, Recounted, Roomy, Waiting, OverdueKeys;
    NothingRecounted();
    if ops != [] {
      var n := |ops| - 1;
      var s, op, ds := Run(cfg, ops[..n]), ops[n], Deliveries(cfg, ops[..n], key);
      var t := Load(s, key);
      if op.Data? && op.key == key && !t.s.latched && !t.s.Desync(op.data) {
        NewFlowOk(cfg, s, key);
        FlowOkParts(cfg, t);
        if Roomy(Events(ds)) {
          BlockedByFrames(cfg, ops[..n], key);
          PendingByFrames(cfg, ops[..n], key);
          PendsWaiting(t.s.x.watch, Events(ds));
        }
        RecountedMore(ds, DeliveryOf(t.s.x, Deliver(t.s.Carry(op.d), op.data).0, op.ts));
      } else if op.key != key || op.Data? {
        BlockedByFrames(cfg, ops[..n], key);
      }
    }
  }

  lemma PendsWaiting(f: Watch, es: seq<Event>)
    requires Pends(f, es) && Roomy(es)
    ensures f.pending == Waiting(es)
  {
  }

  lemma NothingRecounted()
    ensures Recounted([]) == []
  {
  }

  /**
   The burst, blocking, loss-of-control and malformed guards of an open flow by times and frames alone: for a flow on
   which no more than 256 requests ever wait, nothing the analyzer keeps is looked at.
   */
  lemma GuardsByFrames(cfg: Config, ops: seq<Op>, key: FlowKey)
    requires ValidConfig(cfg) && key in Run(cfg, ops).st.flows && Roomy(Events(Deliveries(cfg, ops, key)))
    ensures GuardsCount(cfg.threshold, Run(cfg, ops).st.flows[key].watch, Recounted(Deliveries(cfg, ops, key)))
  {
    hide Run, Deliveries, GuardsCount, Recounted, Roomy, SystemOk;
    BlockedByFrames(cfg, ops, key);
    GuardsByCounting(cfg, ops, key);
  }
}
