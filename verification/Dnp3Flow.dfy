/** One flow over its whole life: the latch, the two carries, and the octet streams behind them. */
module Dnp3Flow {
  import opened Octets
  import opened Flows
  import opened Dnp3Wire
  import opened Dnp3Framing
  import opened Dnp3Detection

  /** One flow at rest: a carry per direction, the one-way latch, and what detection keeps. */
  datatype Flow = Flow(c2s: seq<byte>, s2c: seq<byte>, latched: bool, watch: Watch)

  /** One flow being handled. */
  datatype Session = Session(c2s: seq<byte>, s2c: seq<byte>, latched: bool, x: Context) {
    function Carry(d: Direction): seq<byte> { if d.ClientToServer? then c2s else s2c }

    function WithCarry(d: Direction, c: seq<byte>): Session {
      if d.ClientToServer? then this.(c2s := c) else this.(s2c := c)
    }

    /** Nothing was ever buffered or parsed, and the first octets are not the sync word. */
    predicate Desync(data: seq<byte>) {
      x.watch.frameCount == 0 && c2s == [] && s2c == [] && |data| >= 2 && !SyncAt(data, 0)
    }
  }

  const NEW_FLOW := Flow([], [], false, NEW_WATCH)

  /** What precedes the octets of a delivery: window expiry, then the timeout scan. */
  function Prologue(x: Context, ts: nat): Context {
    ScanTimeouts(x.(watch := x.watch.(window := x.watch.window.Expire(ts))), ts)
  }

  ghost function OnData(cfg: Config, s: Session, d: Direction, data: seq<byte>, ts: nat): Session
    requires ValidConfig(cfg) && CarryOk(s.Carry(d))
  {
    if s.latched then s
    else if s.Desync(data) then s.(latched := true)
    else
      var c := s.Carry(d);
      DeliverTiles(c, data);
      var (segs, rest) := Deliver(c, data);
      s.WithCarry(d, rest).(x := HandleSegments(cfg, Prologue(s.x, ts), segs, ts))
  }

  /**
   History of one direction: the octets that reached the carry, how many were delivered, and the segments cut
   from them so far.
   */
  datatype Stream = Stream(accepted: seq<byte>, delivered: nat, segs: seq<Segment>)

  datatype Traced = Traced(s: Session, up: Stream, down: Stream)

  const NO_STREAM := Stream([], 0, [])

  ghost function Feed(s: Stream, c: seq<byte>, data: seq<byte>): Stream
    requires |c| <= MAX_FRAME_LEN
  {
    Stream(s.accepted + data[..Taken(c, data)], s.delivered + |data|, s.segs + Deliver(c, data).0)
  }

  ghost function Receive(cfg: Config, t: Traced, d: Direction, data: seq<byte>, ts: nat): Traced
    requires ValidConfig(cfg) && CarryOk(t.s.Carry(d))
  {
    var s := OnData(cfg, t.s, d, data, ts);
    var c := t.s.Carry(d);
    if t.s.latched || t.s.Desync(data) then t.(s := s)
    else if d.ClientToServer? then t.(s := s, up := Feed(t.up, c, data))
    else t.(s := s, down := Feed(t.down, c, data))
  }

  /** Segments and carry tile the accepted octets; the rest of what was delivered went over the cap. */
  ghost predicate StreamOk(s: Stream, c: seq<byte>) {
    && CarryOk(c)
    && SegmentsOk(s.segs)
    && s.accepted == Flatten(s.segs) + c
    && s.delivered == |s.accepted| + LostOctets(s.segs)
  }

  ghost predicate FlowOk(cfg: Config, t: Traced) {
    var w := t.s.x.watch;
    && DetectionOk(cfg, t.s.x)
    && StreamOk(t.up, t.s.c2s)
    && StreamOk(t.down, t.s.s2c)
    && w.frameCount == FrameCount(t.up.segs) + FrameCount(t.down.segs)
    && w.parseErrors == ErrorCount(t.up.segs) + ErrorCount(t.down.segs)
    && (t.s.latched ==> w.frameCount == 0 && t.s.c2s == [] && t.s.s2c == [])
  }

  lemma StreamExtends(s: Stream, c: seq<byte>, more: seq<byte>, lost: nat, segs: seq<Segment>, rest: seq<byte>)
    requires StreamOk(s, c) && SegmentsOk(segs) && CarryOk(rest)
    requires Flatten(segs) + rest == c + more && LostOctets(segs) == lost
    ensures StreamOk(Stream(s.accepted + more, s.delivered + |more| + lost, s.segs + segs), rest)
  {
    CountsAppend(s.segs, segs);
    FlattenAppend(s.segs, segs);
    calc {
      s.accepted + more;
      Flatten(s.segs) + (c + more);
      Flatten(s.segs) + (Flatten(segs) + rest);
      Flatten(s.segs + segs) + rest;
    }
  }

  lemma FeedKeeps(s: Stream, c: seq<byte>, data: seq<byte>)
    requires StreamOk(s, c)
    ensures StreamOk(Feed(s, c, data), Deliver(c, data).1)
  {
    DeliverTiles(c, data);
    hide Deliver;
    StreamExtends(s, c, data[..Taken(c, data)], |data| - Taken(c, data), Deliver(c, data).0, Deliver(c, data).1);
  }

  lemma PrologueKeeps(cfg: Config, x: Context, ts: nat)
    requires DetectionOk(cfg, x)
    ensures DetectionOk(cfg, Prologue(x, ts)) && Counted(x.watch, Prologue(x, ts).watch, 0, 0)
  {
    ScanKeeps(cfg, x.(watch := x.watch.(window := x.watch.window.Expire(ts))), ts);
  }

  lemma OnDataKeeps(cfg: Config, x: Context, segs: seq<Segment>, ts: nat)
    requires ValidConfig(cfg) && DetectionOk(cfg, x) && SegmentsOk(segs)
    ensures var y := HandleSegments(cfg, Prologue(x, ts), segs, ts);
            DetectionOk(cfg, y) && Counted(x.watch, y.watch, FrameCount(segs), ErrorCount(segs))
  {
    hide Prologue, HandleSegments;
    PrologueKeeps(cfg, x, ts);
    SegmentsKeep(cfg, Prologue(x, ts), segs, ts);
  }

  /** Every delivery, of any octets at any time in either direction, keeps the whole invariant. */
  lemma ReceiveKeeps(cfg: Config, t: Traced, d: Direction, data: seq<byte>, ts: nat)
    requires ValidConfig(cfg) && FlowOk(cfg, t)
    ensures FlowOk(cfg, Receive(cfg, t, d, data, ts))
  {
    hide Deliver, Prologue, HandleSegments;
    if !t.s.latched && !t.s.Desync(data) {
      var c := t.s.Carry(d);
      var (segs, rest) := Deliver(c, data);
      var s := if d.ClientToServer? then t.up else t.down;
      DeliverTiles(c, data);
      FeedKeeps(s, c, data);
      CountsAppend(s.segs, segs);
      OnDataKeeps(cfg, t.s.x, segs, ts);
    }
  }
}
