/**
 The carry-buffer frame walk, without detection.

 One delivery turns the carry and the new octets into a list of segments and a new carry. A `Frame` segment is a
 complete frame, and every other segment is one counted parse error.
 */
module Dnp3Framing {
  import opened Octets
  import opened Dnp3Wire

  /**
   `Junk` octets are drained by a resynchronisation. `Overrun` is the overflow event: `bytes` are drained from the
   carry, `lost` never reached it.
   */
  datatype Segment = Frame(bytes: seq<byte>) | Junk(bytes: seq<byte>) | Overrun(bytes: seq<byte>, lost: seq<byte>)

  predicate SyncAt(c: seq<byte>, i: nat) {
    i + 1 < |c| && c[i] == SYNC0 && c[i + 1] == SYNC1
  }

  /** The first sync word at or after `from`, or the end of the carry. Draining up to it also covers "clear". */
  function NextSync(c: seq<byte>, from: nat): (i: nat)
    requires from <= |c|
    ensures from <= i <= |c|
    ensures i < |c| ==> SyncAt(c, i)
    ensures forall j: nat :: from <= j < i ==> !SyncAt(c, j)
    decreases |c| - from
  {
    if from == |c| || SyncAt(c, from) then from else NextSync(c, from + 1)
  }

  /** Fewer than ten octets: junk, or a residue with an unusable LENGTH left by earlier work of the same call. */
  predicate ShortReject(c: seq<byte>, processed: bool) {
    |c| >= 2 && (!SyncAt(c, 0) || (processed && |c| >= 3 && c[2] < 5))
  }

  function Walk(c: seq<byte>, processed: bool): (seq<Segment>, seq<byte>)
    decreases |c|
  {
    if |c| < 10 then
      if ShortReject(c, processed) then ([Junk(c[..NextSync(c, 1)])], c[NextSync(c, 1)..]) else ([], c)
    else if !SyncAt(c, 0) || c[2] < 5 then
      var i := NextSync(c, 1);
      var (segs, rest) := Walk(c[i..], true);
      ([Junk(c[..i])] + segs, rest)
    else
      var n := FrameLen(c[2]).value;
      if |c| < n then ([], c)
      else
        var (segs, rest) := Walk(c[n..], true);
        ([Frame(c[..n])] + segs, rest)
  }

  /** How much of a chunk the carry has room for. */
  function Taken(c: seq<byte>, data: seq<byte>): (n: nat)
    requires |c| <= MAX_FRAME_LEN
    ensures n <= |data| && |c| + n <= MAX_FRAME_LEN
  {
    if |data| > MAX_FRAME_LEN - |c| then MAX_FRAME_LEN - |c| else |data|
  }

  function Accumulate(c: seq<byte>, data: seq<byte>): (seq<Segment>, seq<byte>)
    requires |c| <= MAX_FRAME_LEN
  {
    var n := Taken(c, data);
    var kept := c + data[..n];
    if n < |data| then
      var i := NextSync(kept, 0);
      ([Overrun(kept[..i], data[n..])], kept[i..])
    else ([], kept)
  }

  function Deliver(c: seq<byte>, data: seq<byte>): (seq<Segment>, seq<byte>)
    requires |c| <= MAX_FRAME_LEN
  {
    var (over, kept) := Accumulate(c, data);
    var (segs, rest) := Walk(kept, false);
    (over + segs, rest)
  }

  /** The state of a carry between calls. */
  predicate CarryOk(c: seq<byte>) {
    |c| < MAX_FRAME_LEN && (|c| <= 1 || SyncAt(c, 0))
  }

  function Flatten(segs: seq<Segment>): seq<byte> {
    if segs == [] then [] else segs[0].bytes + Flatten(segs[1..])
  }

  ghost predicate SegmentOk(s: Segment) {
    match s
    case Frame(b) => IsFrame(b)
    case Junk(b) => b != [] && forall j: nat :: 1 <= j ==> !SyncAt(b, j)
    case Overrun(b, lost) => lost != [] && forall j: nat :: !SyncAt(b, j)
  }

  ghost predicate SegmentsOk(segs: seq<Segment>) {
    forall s :: s in segs ==> SegmentOk(s)
  }

  lemma {:induction false} FlattenAppend(a: seq<Segment>, b: seq<Segment>)
    ensures Flatten(a + b) == Flatten(a) + Flatten(b)
  {
    if a == [] {
      assert a + b == b;
    } else {
      assert (a + b)[1..] == a[1..] + b;
      FlattenAppend(a[1..], b);
    }
  }

  /** The segments and the carry left behind tile the carry that was walked. */
  lemma {:induction false} WalkTiles(c: seq<byte>, processed: bool)
    requires |c| <= MAX_FRAME_LEN
    ensures var (segs, rest) := Walk(c, processed);
            Flatten(segs) + rest == c && SegmentsOk(segs) && CarryOk(rest)
    decreases |c|
  {
    if |c| < 10 {
      if ShortReject(c, processed) {
        JunkOk(c);
        assert Flatten([Junk(c[..NextSync(c, 1)])]) == c[..NextSync(c, 1)] + Flatten([]);
      }
    } else if !SyncAt(c, 0) || c[2] < 5 {
      JunkOk(c);
      var i := NextSync(c, 1);
      WalkTiles(c[i..], true);
      TilesCons(c, i, Junk(c[..i]), Walk(c[i..], true).0, Walk(c[i..], true).1);
    } else if |c| >= FrameLen(c[2]).value {
      var n := FrameLen(c[2]).value;
      WalkTiles(c[n..], true);
      TilesCons(c, n, Frame(c[..n]), Walk(c[n..], true).0, Walk(c[n..], true).1);
    }
  }

  lemma TilesCons(c: seq<byte>, n: nat, s: Segment, segs: seq<Segment>, rest: seq<byte>)
    requires n <= |c| && s.bytes == c[..n] && SegmentOk(s)
    requires Flatten(segs) + rest == c[n..] && SegmentsOk(segs)
    ensures Flatten([s] + segs) + rest == c && SegmentsOk([s] + segs)
  {
    assert ([s] + segs)[1..] == segs;
    assert Flatten([s] + segs) == c[..n] + Flatten(segs);
    assert c == c[..n] + c[n..];
  }

  /** Octets skipped by a resynchronisation hide no further sync word. */
  lemma JunkOk(c: seq<byte>)
    requires |c| >= 2
    ensures SegmentOk(Junk(c[..NextSync(c, 1)]))
  {
    var b := c[..NextSync(c, 1)];
    forall j: nat | 1 <= j ensures !SyncAt(b, j) {
      assert SyncAt(b, j) ==> SyncAt(c, j);
    }
  }

  /** One delivery: accepted octets are tiled by segments and carry, and the carry keeps its shape. */
  lemma DeliverTiles(c: seq<byte>, data: seq<byte>)
    requires CarryOk(c)
    ensures var (segs, rest) := Deliver(c, data);
            && Flatten(segs) + rest == c + data[..Taken(c, data)]
            && SegmentsOk(segs)
            && CarryOk(rest)
            && LostOctets(segs) == |data| - Taken(c, data)
  {
    var (over, kept) := Accumulate(c, data);
    AccumulateTiles(c, data);
    WalkTiles(kept, false);
    NothingLostInWalk(kept, false);
    var (segs, rest) := Walk(kept, false);
    TilesAppend(over, segs, c + data[..Taken(c, data)], kept, rest);
  }

  lemma TilesAppend(a: seq<Segment>, b: seq<Segment>, all: seq<byte>, mid: seq<byte>, rest: seq<byte>)
    requires Flatten(a) + mid == all && SegmentsOk(a)
    requires Flatten(b) + rest == mid && SegmentsOk(b)
    ensures Flatten(a + b) + rest == all && SegmentsOk(a + b)
    ensures LostOctets(a + b) == LostOctets(a) + LostOctets(b)
  {
    FlattenAppend(a, b);
    CountsAppend(a, b);
  }

  lemma AccumulateTiles(c: seq<byte>, data: seq<byte>)
    requires |c| <= MAX_FRAME_LEN
    ensures var (over, kept) := Accumulate(c, data);
            && Flatten(over) + kept == c + data[..Taken(c, data)]
            && SegmentsOk(over)
            && |kept| <= MAX_FRAME_LEN
            && LostOctets(over) == |data| - Taken(c, data)
  {
    var all := c + data[..Taken(c, data)];
    var i := NextSync(all, 0);
    var lost := data[Taken(c, data)..];
    assert Flatten([Overrun(all[..i], lost)]) == all[..i] + Flatten([]);
    assert LostOctets([Overrun(all[..i], lost)]) == |lost| + LostOctets([]);
    forall j: nat ensures !SyncAt(all[..i], j) {
      assert SyncAt(all[..i], j) ==> SyncAt(all, j);
    }
  }

  /** Octets that an overflow threw away before they reached the carry. */
  function LostOctets(segs: seq<Segment>): nat {
    if segs == [] then 0 else (if segs[0].Overrun? then |segs[0].lost| else 0) + LostOctets(segs[1..])
  }

  function FramedOctets(segs: seq<Segment>): nat {
    if segs == [] then 0 else (if segs[0].Frame? then |segs[0].bytes| else 0) + FramedOctets(segs[1..])
  }

  /** Octets drained by resynchronisation, after an overflow or not. */
  function DrainedOctets(segs: seq<Segment>): nat {
    if segs == [] then 0 else (if segs[0].Frame? then 0 else |segs[0].bytes|) + DrainedOctets(segs[1..])
  }

  function FrameCount(segs: seq<Segment>): nat {
    if segs == [] then 0 else (if segs[0].Frame? then 1 else 0) + FrameCount(segs[1..])
  }

  function ErrorCount(segs: seq<Segment>): nat {
    if segs == [] then 0 else (if segs[0].Frame? then 0 else 1) + ErrorCount(segs[1..])
  }

  lemma {:induction false} CountsAppend(a: seq<Segment>, b: seq<Segment>)
    ensures LostOctets(a + b) == LostOctets(a) + LostOctets(b)
    ensures FrameCount(a + b) == FrameCount(a) + FrameCount(b)
    ensures ErrorCount(a + b) == ErrorCount(a) + ErrorCount(b)
  {
    if a == [] {
      assert a + b == b;
    } else {
      assert (a + b)[1..] == a[1..] + b;
      CountsAppend(a[1..], b);
    }
  }

  lemma {:induction false} NothingLostInWalk(c: seq<byte>, processed: bool)
    ensures LostOctets(Walk(c, processed).0) == 0
    decreases |c|
  {
    if |c| < 10 {
    } else if !SyncAt(c, 0) || c[2] < 5 {
      var i := NextSync(c, 1);
      NothingLostInWalk(c[i..], true);
      assert Walk(c, processed).0[1..] == Walk(c[i..], true).0;
    } else if |c| >= FrameLen(c[2]).value {
      var n := FrameLen(c[2]).value;
      NothingLostInWalk(c[n..], true);
      assert Walk(c, processed).0[1..] == Walk(c[n..], true).0;
    }
  }

  /** Bookkeeping over a log of segments; an error always costs at least one octet. */
  lemma {:induction false} Accounting(segs: seq<Segment>)
    requires SegmentsOk(segs)
    ensures |Flatten(segs)| == FramedOctets(segs) + DrainedOctets(segs)
    ensures FrameCount(segs) + ErrorCount(segs) == |segs|
    ensures ErrorCount(segs) <= DrainedOctets(segs) + LostOctets(segs)
  {
    if segs != [] {
      assert segs[0] in segs;
      Accounting(segs[1..]);
    }
  }

  /** The k-th segment is a contiguous slice of the accepted stream, and the slices follow one another. */
  lemma {:induction false} SegmentSlices(segs: seq<Segment>, k: nat)
    requires k < |segs|
    ensures |Flatten(segs[..k])| + |segs[k].bytes| == |Flatten(segs[..k + 1])| <= |Flatten(segs)|
    ensures Flatten(segs)[|Flatten(segs[..k])|..|Flatten(segs[..k + 1])|] == segs[k].bytes
  {
    assert segs == segs[..k] + [segs[k]] + segs[k + 1..];
    assert segs[..k + 1] == segs[..k] + [segs[k]];
    FlattenAppend(segs[..k], [segs[k]]);
    FlattenAppend(segs[..k + 1], segs[k + 1..]);
    assert segs == segs[..k + 1] + segs[k + 1..];
    assert Flatten([segs[k]]) == segs[k].bytes + Flatten([]);
  }
}
