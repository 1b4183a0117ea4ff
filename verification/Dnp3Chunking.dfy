/** Well-formed streams: frames come back whole however the octets are cut into chunks. */
module Dnp3Chunking {
  import opened Octets
  import opened Flows
  import opened Dnp3Wire
  import opened Dnp3Framing
  import opened Dnp3Detection
  import opened Dnp3Flow

  /** A proper prefix of some frame. */
  predicate Partial(s: seq<byte>) {
    && (|s| >= 1 ==> s[0] == SYNC0)
    && (|s| >= 2 ==> s[1] == SYNC1)
    && (|s| >= 3 ==> s[2] >= 5 && |s| < FrameLen(s[2]).value)
  }

  /** The octets of `s`, continued to the frame they announce. */
  function Completed(s: seq<byte>): seq<byte>
    requires Partial(s)
  {
    var head := s + [SYNC0, SYNC1, 5][Min3(|s|)..];
    head + seq(FrameLen(head[2]).value - |head|, i => 0)
  }

  function Min3(n: nat): nat { if n < 3 then n else 3 }

  lemma CompletedIsFrame(s: seq<byte>)
    requires Partial(s)
    ensures IsFrame(Completed(s)) && |s| < |Completed(s)| && Completed(s)[..|s|] == s
  {
    hide FrameLen;
  }

  /** `Partial` is what it says: exactly the proper prefixes of frames, the empty one included. */
  lemma PartialIff(s: seq<byte>)
    ensures Partial(s) <==> exists f, k: nat :: IsFrame(f) && k < |f| && s == f[..k]
  {
    hide FrameLen;
    if Partial(s) {
      CompletedIsFrame(s);
      assert IsFrame(Completed(s)) && |s| < |Completed(s)| && s == Completed(s)[..|s|];
    }
  }

  /** A prefix of a concatenation of frames. */
  predicate Clean(s: seq<byte>)
    decreases |s|
  {
    Partial(s) || (StartsWithFrame(s) && Clean(s[FrameLen(s[2]).value..]))
  }

  predicate StartsWithFrame(s: seq<byte>) {
    |s| >= 10 && SyncAt(s, 0) && s[2] >= 5 && |s| >= FrameLen(s[2]).value
  }

  function Frames(s: seq<byte>): seq<seq<byte>>
    decreases |s|
  {
    if !StartsWithFrame(s) then []
    else [s[..FrameLen(s[2]).value]] + Frames(s[FrameLen(s[2]).value..])
  }

  function Tail(s: seq<byte>): seq<byte>
    decreases |s|
  {
    if !StartsWithFrame(s) then s else Tail(s[FrameLen(s[2]).value..])
  }

  function Concat(fs: seq<seq<byte>>): seq<byte> {
    if fs == [] then [] else fs[0] + Concat(fs[1..])
  }

  predicate AllFrames(fs: seq<seq<byte>>) {
    forall f :: f in fs ==> IsFrame(f)
  }

  function AsSegments(fs: seq<seq<byte>>): (segs: seq<Segment>)
    ensures |segs| == |fs| && forall i :: 0 <= i < |fs| ==> segs[i] == Frame(fs[i])
  {
    seq(|fs|, i requires 0 <= i < |fs| => Frame(fs[i]))
  }

  /** Frames and an unfinished tail are read back from their concatenation. */
  lemma {:induction false} CleanConcat(fs: seq<seq<byte>>, tail: seq<byte>)
    requires AllFrames(fs) && Partial(tail)
    ensures Clean(Concat(fs) + tail)
    ensures Frames(Concat(fs) + tail) == fs && Tail(Concat(fs) + tail) == tail
  {
    hide FrameLen;
    if fs == [] {
      assert Concat(fs) + tail == tail;
    } else {
      var s := Concat(fs) + tail;
      assert fs[0] in fs;
      assert s == fs[0] + (Concat(fs[1..]) + tail);
      assert s[..|fs[0]|] == fs[0] && s[|fs[0]|..] == Concat(fs[1..]) + tail;
      CleanConcat(fs[1..], tail);
    }
  }

  lemma {:induction false} FramesOfClean(s: seq<byte>)
    requires Clean(s)
    ensures AllFrames(Frames(s)) && Partial(Tail(s))
    decreases |s|
  {
    hide FrameLen;
    if !Partial(s) {
      FramesOfClean(s[FrameLen(s[2]).value..]);
    }
  }

  /** Cutting a clean stream anywhere: the second part continues from the tail of the first. */
  lemma {:induction false} CleanSplit(a: seq<byte>, b: seq<byte>)
    requires Clean(a + b)
    ensures Clean(a) && Clean(Tail(a) + b)
    ensures Frames(a + b) == Frames(a) + Frames(Tail(a) + b)
    ensures Tail(a + b) == Tail(Tail(a) + b)
    decreases |a|
  {
    hide FrameLen, Clean, Frames, Tail, Partial;
    if Partial(a) {
      PartialParts(a);
    } else {
      CleanParts(a + b);
      SplitParts(a, b);
      var n := FrameLen(a[2]).value;
      assert (a + b)[n..] == a[n..] + b && (a + b)[..n] == a[..n];
      FrameParts(a);
      FrameParts(a + b);
      CleanSplit(a[n..], b);
      assert [a[..n]] + (Frames(a[n..]) + Frames(Tail(a) + b)) == Frames(a) + Frames(Tail(a) + b);
    }
  }

  lemma CleanParts(s: seq<byte>)
    requires Clean(s)
    ensures Partial(s) || StartsWithFrame(s)
  {
  }

  lemma PartialParts(s: seq<byte>)
    requires Partial(s)
    ensures Clean(s) && Frames(s) == [] && Tail(s) == s
  {
  }

  lemma FrameParts(s: seq<byte>)
    requires StartsWithFrame(s)
    ensures var n := FrameLen(s[2]).value;
            && (Clean(s) <==> Clean(s[n..]))
            && Frames(s) == [s[..n]] + Frames(s[n..])
            && Tail(s) == Tail(s[n..])
  {
    hide FrameLen;
  }

  lemma SplitParts(a: seq<byte>, b: seq<byte>)
    requires (Partial(a + b) || StartsWithFrame(a + b)) && !Partial(a)
    ensures StartsWithFrame(a) && StartsWithFrame(a + b) && (a + b)[2] == a[2]
  {
    hide FrameLen;
    assert forall i :: 0 <= i < |a| ==> (a + b)[i] == a[i];
  }

  lemma {:induction false} CleanIs(s: seq<byte>)
    requires Clean(s)
    ensures s == Concat(Frames(s)) + Tail(s)
    decreases |s|
  {
    hide FrameLen, Clean, Frames, Tail, Partial;
    CleanParts(s);
    if Partial(s) {
      PartialParts(s);
    } else {
      FrameParts(s);
      var n := FrameLen(s[2]).value;
      CleanIs(s[n..]);
      assert s == s[..n] + s[n..];
      ConcatFirst(s[..n], Frames(s[n..]));
    }
  }

  lemma ConcatFirst(f: seq<byte>, fs: seq<seq<byte>>)
    ensures Concat([f] + fs) == f + Concat(fs)
  {
    assert ([f] + fs)[1..] == fs;
  }

  lemma {:induction false} ConcatLast(fs: seq<seq<byte>>, f: seq<byte>)
    ensures Concat(fs + [f]) == Concat(fs) + f
  {
    if fs != [] {
      assert (fs + [f])[1..] == fs[1..] + [f];
      ConcatLast(fs[1..], f);
    }
  }

  /** `Clean` is what it says: exactly the streams that some more octets would turn into whole frames. */
  lemma CleanIff(s: seq<byte>)
    ensures Clean(s) <==> exists fs, more :: AllFrames(fs) && s + more == Concat(fs)
  {
    hide FrameLen, Clean, Frames, Tail, Partial, IsFrame, Concat, Completed;
    if Clean(s) {
      FramesOfClean(s);
      CleanIs(s);
      var f, k := Completed(Tail(s)), |Tail(s)|;
      CompletedIsFrame(Tail(s));
      ConcatLast(Frames(s), f);
      assert f == f[..k] + f[k..];
      assert AllFrames(Frames(s) + [f]) && s + f[k..] == Concat(Frames(s) + [f]);
    }
    if fs, more :| AllFrames(fs) && s + more == Concat(fs) {
      NothingIsPartial();
      CleanConcat(fs, []);
      assert Concat(fs) + [] == s + more;
      CleanSplit(s, more);
    }
  }

  lemma NothingIsPartial()
    ensures Partial([])
  {
  }

  /** On a clean carry the walk counts nothing but the frames and keeps the unfinished one. */
  lemma {:induction false} WalkClean(s: seq<byte>, processed: bool)
    requires Clean(s)
    ensures Walk(s, processed) == (AsSegments(Frames(s)), Tail(s))
    decreases |s|
  {
    hide FrameLen;
    if Partial(s) {
      assert Frames(s) == [];
    } else {
      var n := FrameLen(s[2]).value;
      WalkClean(s[n..], true);
      assert AsSegments(Frames(s)) == [Frame(s[..n])] + AsSegments(Frames(s[n..]));
    }
  }

  lemma DeliverClean(c: seq<byte>, data: seq<byte>)
    requires |c| + |data| <= MAX_FRAME_LEN && Clean(c + data)
    ensures Deliver(c, data) == (AsSegments(Frames(c + data)), Tail(c + data))
  {
    WalkClean(c + data, false);
    assert data[..|data|] == data;
    assert [] + AsSegments(Frames(c + data)) == AsSegments(Frames(c + data));
  }

  lemma SegmentsOfFrames(fs: seq<seq<byte>>)
    requires AllFrames(fs)
    ensures SegmentsOk(AsSegments(fs))
    ensures FrameCount(AsSegments(fs)) == |fs| && ErrorCount(AsSegments(fs)) == 0
  {
    if fs != [] {
      assert AsSegments(fs)[1..] == AsSegments(fs[1..]);
      SegmentsOfFrames(fs[1..]);
    }
  }

  // ---- deliveries to one flow ------------------------------------------------------------------

  datatype Chunk = Chunk(d: Direction, data: seq<byte>, ts: nat)

  /** The octets of one direction, in order. */
  function Sent(chunks: seq<Chunk>, d: Direction): seq<byte> {
    if chunks == [] then []
    else
      var last := chunks[|chunks| - 1];
      Sent(chunks[..|chunks| - 1], d) + if last.d == d then last.data else []
  }

  /** Each chunk fits beside the unfinished frame that its direction is waiting on. */
  predicate Fits(chunks: seq<Chunk>) {
    chunks == [] ||
    (var last := chunks[|chunks| - 1];
     Fits(chunks[..|chunks| - 1])
     && |Tail(Sent(chunks[..|chunks| - 1], last.d))| + |last.data| <= MAX_FRAME_LEN)
  }

  /** A flow that has just been opened; the shared state may be anything a run can leave. */
  ghost predicate Fresh(t: Traced) {
    t.s.c2s == [] && t.s.s2c == [] && !t.s.latched && t.s.x.watch == NEW_WATCH && t.s.x.sink.Valid()
    && t.up == NO_STREAM && t.down == NO_STREAM
  }

  ghost function Play(cfg: Config, t: Traced, chunks: seq<Chunk>): (r: Traced)
    requires ValidConfig(cfg) && FlowOk(cfg, t)
    ensures FlowOk(cfg, r)
    decreases |chunks|
  {
    if chunks == [] then t
    else
      var r := Play(cfg, t, chunks[..|chunks| - 1]);
      var last := chunks[|chunks| - 1];
      ReceiveKeeps(cfg, r, last.d, last.data, last.ts);
      Receive(cfg, r, last.d, last.data, last.ts)
  }

  /** The framing of both directions so far is the parse of what was sent. */
  ghost predicate InStep(t: Traced, chunks: seq<Chunk>) {
    && !t.s.latched
    && t.s.c2s == Tail(Sent(chunks, ClientToServer)) && t.up.segs == AsSegments(Frames(Sent(chunks, ClientToServer)))
    && t.s.s2c == Tail(Sent(chunks, ServerToClient)) && t.down.segs == AsSegments(Frames(Sent(chunks, ServerToClient)))
  }

  /** Nothing of a clean stream has been seen only if nothing was sent. */
  lemma NothingParsed(s: seq<byte>)
    requires Frames(s) == [] && Tail(s) == []
    ensures s == []
  {
  }

  /** The latch cannot fire: as long as nothing was parsed or buffered, the stream is at its first frame. */
  lemma NeverDesync(cfg: Config, t: Traced, before: seq<Chunk>, c: Chunk)
    requires FlowOk(cfg, t) && InStep(t, before) && Clean(Sent(before, c.d) + c.data)
    ensures !t.s.Desync(c.data)
  {
    hide Clean, Frames, Tail, DetectionOk;
    var sent := Sent(before, c.d);
    CleanSplit(sent, c.data);
    FramesOfClean(sent);
    SegmentsOfFrames(Frames(sent));
    if t.s.Desync(c.data) {
      NothingParsed(sent);
      assert sent + c.data == c.data;
      CleanStart(c.data);
    }
  }

  lemma CleanStart(s: seq<byte>)
    requires Clean(s) && |s| >= 2
    ensures SyncAt(s, 0)
  {
  }

  lemma StepClean(cfg: Config, t: Traced, before: seq<Chunk>, c: Chunk)
    requires ValidConfig(cfg) && FlowOk(cfg, t) && InStep(t, before)
    requires Clean(Sent(before, c.d) + c.data) && |Tail(Sent(before, c.d))| + |c.data| <= MAX_FRAME_LEN
    ensures InStep(Receive(cfg, t, c.d, c.data, c.ts), before + [c])
  {
    hide Clean, Frames, Tail, Deliver, HandleSegments, Prologue, DetectionOk, Session.Desync;
    var sent := Sent(before, c.d);
    NeverDesync(cfg, t, before, c);
    CleanSplit(sent, c.data);
    DeliverClean(Tail(sent), c.data);
    assert AsSegments(Frames(sent)) + AsSegments(Frames(Tail(sent) + c.data)) == AsSegments(Frames(sent + c.data));
    SentStep(before, c, c.d);
    SentStep(before, c, if c.d.ClientToServer? then ServerToClient else ClientToServer);
  }

  lemma SentStep(before: seq<Chunk>, c: Chunk, d: Direction)
    ensures Sent(before + [c], d) == if c.d == d then Sent(before, d) + c.data else Sent(before, d)
  {
    assert (before + [c])[..|before|] == before;
  }

  lemma FreshStart(cfg: Config, t: Traced)
    requires Fresh(t)
    ensures FlowOk(cfg, t) && InStep(t, [])
  {
  }

  lemma {:induction false} PlayClean(cfg: Config, t: Traced, chunks: seq<Chunk>)
    requires ValidConfig(cfg) && Fresh(t) && FlowOk(cfg, t) && Fits(chunks)
    requires Clean(Sent(chunks, ClientToServer)) && Clean(Sent(chunks, ServerToClient))
    ensures InStep(Play(cfg, t, chunks), chunks)
    decreases |chunks|
  {
    hide Clean, Frames, Tail, Receive, FlowOk, InStep;
    if chunks == [] {
      FreshStart(cfg, t);
    } else {
      var n := |chunks| - 1;
      var c := chunks[n];
      var before := chunks[..n];
      assert chunks == before + [c];
      forall d: Direction ensures Clean(Sent(before, d)) {
        CleanSplit(Sent(before, d), if c.d == d then c.data else []);
      }
      PlayClean(cfg, t, before);
      StepClean(cfg, Play(cfg, t, before), before, c);
    }
  }

  // ---- a single direction at a single timestamp ------------------------------------------------

  /** The correlation window is open since `ts` and every pending request was sent at `ts`. */
  ghost predicate Steady(x: Context, ts: nat) {
    && x.watch.window.seeded && x.watch.window.start == ts
    && forall k :: k in x.watch.pending ==> x.watch.pending[k] == ts
  }

  function Seeded(x: Context, ts: nat): Context {
    x.(watch := x.watch.(window := x.watch.window.(seeded := true, start := ts)))
  }

  /** With nothing overdue and no window to expire, the work ahead of a delivery changes nothing. */
  lemma SteadyPrologue(cfg: Config, x: Context, ts: nat)
    requires DetectionOk(cfg, x) && Steady(x, ts)
    ensures Prologue(x, ts) == x
  {
    assert OverdueKeys(x.watch.pending, ts) == {};
    assert x.watch.pending - {} == x.watch.pending;
  }

  lemma FreshPrologue(x: Context, ts: nat)
    requires x.watch == NEW_WATCH
    ensures Prologue(x, ts) == Seeded(x, ts) && Steady(Seeded(x, ts), ts)
  {
    assert OverdueKeys(x.watch.pending, ts) == {};
    assert x.watch.pending - {} == x.watch.pending;
  }

  lemma SteadyInsert(cfg: Config, x: Context, key: PendingKey, ts: nat)
    requires ValidConfig(cfg) && Steady(x, ts)
    ensures var r := Insert(cfg.order, x.evictions, x.watch.pending, key, ts);
            forall k :: k in r.pending ==> r.pending[k] == ts
  {
  }

  lemma SteadyControl(cfg: Config, x: Context, h: Header, fc: byte, seqNo: nat, unexpected: bool, ts: nat)
    requires ValidConfig(cfg) && Steady(x, ts)
    ensures Steady(HandleControl(cfg, x, h, fc, seqNo, unexpected, ts), ts)
  {
    hide Insert, Sink.PushIf, Burst.Next;
    SteadyInsert(cfg, x, (h.destination, seqNo), ts);
  }

  lemma SteadyApplication(cfg: Config, x: Context, h: Header, fc: byte, seqNo: nat, unexpected: bool, ts: nat)
    requires ValidConfig(cfg) && Steady(x, ts)
    ensures Steady(HandleApplication(cfg, x, h, fc, seqNo, unexpected, ts), ts)
  {
    hide HandleControl, HandleResponse, HandleRestart, HandleUnsolicitedControl, Sink.Push;
    var x1 := HandleUnsolicitedControl(CountFc(x, fc), fc, ts);
    SteadyUnsolicited(CountFc(x, fc), fc, ts);
    match ClassifyFc(fc)
    case Control => SteadyControl(cfg, x1, h, fc, seqNo, unexpected, ts);
    case Restart => SteadyRestart(x1, ts);
    case Response => SteadyResponse(x1, h, fc, seqNo, ts);
    case _ =>
  }

  lemma SteadyUnsolicited(x: Context, fc: byte, ts: nat)
    requires Steady(x, ts)
    ensures Steady(HandleUnsolicitedControl(x, fc, ts), ts)
  {
  }

  lemma SteadyRestart(x: Context, ts: nat)
    requires Steady(x, ts)
    ensures Steady(HandleRestart(x, ts), ts)
  {
  }

  lemma SteadyResponse(x: Context, h: Header, fc: byte, seqNo: nat, ts: nat)
    requires Steady(x, ts)
    ensures Steady(HandleResponse(x, h, fc, seqNo, ts), ts)
  {
  }

  lemma SteadyParsed(cfg: Config, x: Context, h: Header, app: Option<Application>, ts: nat)
    requires ValidConfig(cfg) && Steady(x, ts)
    ensures Steady(HandleParsed(cfg, x, h, app, ts), ts)
  {
    hide HandleApplication, IsUnexpected;
    var x1 := RecordMaster(x.(watch := x.watch.(frameCount := x.watch.frameCount + 1)), h);
    assert Steady(x1, ts);
    if app.Some? {
      SteadyApplication(cfg, x1, h, app.value.fc, app.value.seqNo, IsUnexpected(x.watch, h), ts);
    }
  }

  lemma {:induction false} SteadySegments(cfg: Config, x: Context, segs: seq<Segment>, ts: nat)
    requires ValidConfig(cfg) && SegmentsOk(segs) && Steady(x, ts)
    ensures Steady(HandleSegments(cfg, x, segs, ts), ts)
    decreases |segs|
  {
    hide HandleParsed, Sink.PushIf, ApplicationOf, FrameLen;
    if segs != [] {
      assert segs[0] in segs;
      if segs[0].Frame? {
        SteadyParsed(cfg, x, ParseHeader(segs[0].bytes).value, ApplicationOf(segs[0].bytes), ts);
      }
      SteadySegments(cfg, HandleSegment(cfg, x, segs[0], ts), segs[1..], ts);
    }
  }

  /** The chunks all travel in one direction at one time. */
  ghost predicate OneWay(chunks: seq<Chunk>, d: Direction, ts: nat) {
    forall c :: c in chunks ==> c.d == d && c.ts == ts
  }

  /** The flow after the frames of `sent` have been handled one by one, with no chunk in sight. */
  ghost function Folded(cfg: Config, s: Session, sent: seq<byte>, d: Direction, ts: nat): Session
    requires ValidConfig(cfg) && Clean(sent)
  {
    FramesOfClean(sent);
    SegmentsOfFrames(Frames(sent));
    s.WithCarry(d, Tail(sent)).(x := HandleSegments(cfg, Seeded(s.x, ts), AsSegments(Frames(sent)), ts))
  }

  /** The context on which the next chunk's frames are handled is that of the frames so far. */
  lemma FoldedPrologue(cfg: Config, t: Traced, r: Traced, before: seq<Chunk>, d: Direction, ts: nat)
    requires ValidConfig(cfg) && Fresh(t) && DetectionOk(cfg, r.s.x)
    requires Clean(Sent(before, d))
    requires if before == [] then r == t else r.s == Folded(cfg, t.s, Sent(before, d), d, ts)
    ensures Prologue(r.s.x, ts) == Folded(cfg, t.s, Sent(before, d), d, ts).x
  {
    hide Clean, Frames, Tail, HandleSegments, Prologue, DetectionOk, Seeded;
    var sent := Sent(before, d);
    FramesOfClean(sent);
    SegmentsOfFrames(Frames(sent));
    FreshPrologue(t.s.x, ts);
    if before == [] {
      EmptySent(cfg, Seeded(t.s.x, ts), ts);
    } else {
      SteadySegments(cfg, Seeded(t.s.x, ts), AsSegments(Frames(sent)), ts);
      SteadyPrologue(cfg, r.s.x, ts);
    }
  }

  lemma FoldedStep(cfg: Config, t: Traced, r: Traced, before: seq<Chunk>, c: Chunk)
    requires ValidConfig(cfg) && Fresh(t) && FlowOk(cfg, r) && InStep(r, before)
    requires Clean(Sent(before, c.d)) && Clean(Sent(before, c.d) + c.data)
    requires |Tail(Sent(before, c.d))| + |c.data| <= MAX_FRAME_LEN
    requires if before == [] then r == t else r.s == Folded(cfg, t.s, Sent(before, c.d), c.d, c.ts)
    ensures OnData(cfg, r.s, c.d, c.data, c.ts) == Folded(cfg, t.s, Sent(before, c.d) + c.data, c.d, c.ts)
  {
    hide Clean, Frames, Tail, Deliver, HandleSegments, Prologue, DetectionOk, Session.Desync, Seeded;
    var sent := Sent(before, c.d);
    var more := Tail(sent) + c.data;
    NeverDesync(cfg, r, before, c);
    FoldedPrologue(cfg, t, r, before, c.d, c.ts);
    CleanSplit(sent, c.data);
    DeliverClean(Tail(sent), c.data);
    FramesOfClean(sent);
    FramesOfClean(more);
    FoldedAppend(cfg, Seeded(t.s.x, c.ts), Frames(sent), Frames(more), c.ts);
  }

  lemma FoldedAppend(cfg: Config, x: Context, a: seq<seq<byte>>, b: seq<seq<byte>>, ts: nat)
    requires ValidConfig(cfg) && AllFrames(a) && AllFrames(b)
    ensures SegmentsOk(AsSegments(a)) && SegmentsOk(AsSegments(b)) && SegmentsOk(AsSegments(a + b))
    ensures HandleSegments(cfg, x, AsSegments(a + b), ts) ==
            HandleSegments(cfg, HandleSegments(cfg, x, AsSegments(a), ts), AsSegments(b), ts)
  {
    hide HandleSegments, SegmentOk, IsFrame;
    SegmentsOfFrames(a);
    SegmentsOfFrames(b);
    SegmentsAppend(cfg, x, AsSegments(a), AsSegments(b), ts);
    assert AsSegments(a) + AsSegments(b) == AsSegments(a + b);
  }

  lemma EmptySent(cfg: Config, x: Context, ts: nat)
    requires ValidConfig(cfg)
    ensures Frames([]) == [] && Tail([]) == [] && HandleSegments(cfg, x, AsSegments([]), ts) == x
  {
  }

  lemma {:induction false} PlayFolds(cfg: Config, t: Traced, chunks: seq<Chunk>, d: Direction, ts: nat)
    requires ValidConfig(cfg) && Fresh(t) && FlowOk(cfg, t) && Fits(chunks) && OneWay(chunks, d, ts)
    requires Clean(Sent(chunks, ClientToServer)) && Clean(Sent(chunks, ServerToClient)) && chunks != []
    ensures Play(cfg, t, chunks).s == Folded(cfg, t.s, Sent(chunks, d), d, ts)
    decreases |chunks|
  {
    hide Clean, Frames, Tail, OnData, FlowOk, InStep, Folded;
    var n := |chunks| - 1;
    var c := chunks[n];
    var before := chunks[..n];
    assert c in chunks && chunks == before + [c];
    forall d: Direction ensures Clean(Sent(before, d)) {
      CleanSplit(Sent(before, d), if c.d == d then c.data else []);
    }
    PlayClean(cfg, t, before);
    if before != [] {
      PlayFolds(cfg, t, before, d, ts);
    }
    FoldedStep(cfg, t, Play(cfg, t, before), before, c);
  }

  /**
   Chunking is invisible. For a stream sent in one direction at one time, every fitting way of cutting it leaves the
   same flow, findings and shared counters, namely those of handling its frames one by one.
   */
  lemma ChunkingInvisible(cfg: Config, t: Traced, chunks: seq<Chunk>, fs: seq<seq<byte>>, tail: seq<byte>,
                          d: Direction, ts: nat)
    requires ValidConfig(cfg) && Fresh(t) && Fits(chunks) && OneWay(chunks, d, ts) && chunks != []
    requires AllFrames(fs) && Partial(tail) && Sent(chunks, d) == Concat(fs) + tail
    ensures FlowOk(cfg, t) && SegmentsOk(AsSegments(fs))
    ensures Play(cfg, t, chunks).s ==
            t.s.WithCarry(d, tail).(x := HandleSegments(cfg, Seeded(t.s.x, ts), AsSegments(fs), ts))
  {
    hide Clean, Frames, Tail, Play, Fits, DetectionOk, HandleSegments, Seeded;
    FreshStart(cfg, t);
    CleanConcat(fs, tail);
    SegmentsOfFrames(fs);
    SilentDirection(chunks, d, ts, if d.ClientToServer? then ServerToClient else ClientToServer);
    PlayFolds(cfg, t, chunks, d, ts);
  }

  lemma {:induction false} SilentDirection(chunks: seq<Chunk>, d: Direction, ts: nat, other: Direction)
    requires OneWay(chunks, d, ts) && other != d
    ensures Sent(chunks, other) == [] && Clean([])
  {
    if chunks != [] {
      assert chunks[|chunks| - 1] in chunks;
      SilentDirection(chunks[..|chunks| - 1], d, ts, other);
    }
  }
}
