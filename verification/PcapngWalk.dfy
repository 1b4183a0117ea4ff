/** The pcapng block walk: one pass over the blocks of a section, against a specification in two passes. */
module PcapngWalk {
  import opened Octets
  import opened PcapngTime
  import opened PcapngOptions

  const SHB: nat := 0x0A0D_0D0A
  const IDB: nat := 1
  const OPB: nat := 2
  const SPB: nat := 3
  const EPB: nat := 6
  const MAX_INTERFACES: nat := 65_535
  const EPB_FIXED: nat := 20
  const SPB_FIXED: nat := 4

  /** A block as the framing layer hands it over. */
  datatype Block = Block(kind: nat, body: seq<byte>)

  datatype Interface = Interface(link: nat, resolution: byte)

  datatype Packet = Packet(secs: nat, usecs: nat, data: seq<byte>)

  /** The error codes E-INP-nnn. */
  datatype Error =
    | UnsupportedLink001 | Malformed008 | NoInterface009 | InterfaceRange010 | LinkConflict011
    | SecondSection012 | LateInterface013 | TooManyInterfaces015

  predicate IsPacket(b: Block) { b.kind == EPB || b.kind == SPB }

  /** Anything the walk steps over: obsolete packets, name resolution, statistics, journal, secrets, unknown types. */
  predicate IsSkipped(b: Block) { b.kind != SHB && b.kind != IDB && !IsPacket(b) }

  predicate IsSupportedLink(link: nat) {
    link == 1 || link == 101 || link == 113 || link == 228 || link == 229
  }

  function At32(e: Endian, body: seq<byte>, i: nat): nat
    requires i + 4 <= |body|
  {
    Read32(e, body[i], body[i + 1], body[i + 2], body[i + 3])
  }

  /** Checks in the program's order: length, table, index, captured length, padding. */
  function DecodeEpb(e: Endian, ifs: seq<Interface>, body: seq<byte>): Result<Packet, Error> {
    if |body| < EPB_FIXED then Err(Malformed008)
    else if ifs == [] then Err(NoInterface009)
    else
      var id := At32(e, body, 0);
      if id >= |ifs| then Err(InterfaceRange010)
      else
        var captured := At32(e, body, 12);
        if captured > |body| - EPB_FIXED || EPB_FIXED + Padded(captured) > |body| then Err(Malformed008)
        else
          var (secs, usecs) := ToSecsUsecs(Ticks(At32(e, body, 4), At32(e, body, 8)), ifs[id].resolution);
          Ok(Packet(secs, usecs, body[EPB_FIXED..EPB_FIXED + captured]))
  }

  /** The original length, cut down to what the body holds. */
  function SpbCaptured(original: nat, body: seq<byte>): nat {
    Min(original, SatSub(|body|, SPB_FIXED))
  }

  function DecodeSpb(e: Endian, ifs: seq<Interface>, body: seq<byte>): Result<Packet, Error> {
    if ifs == [] then Err(NoInterface009)
    else if |body| < SPB_FIXED then Err(Malformed008)
    else Ok(Packet(0, 0, body[SPB_FIXED..SPB_FIXED + SpbCaptured(At32(e, body, 0), body)]))
  }

  function DecodePacket(e: Endian, ifs: seq<Interface>, b: Block): Result<Packet, Error> {
    if b.kind == EPB then DecodeEpb(e, ifs, b.body) else DecodeSpb(e, ifs, b.body)
  }

  /** The body of an interface block, once its position and the table size are accepted. */
  function DecodeInterface(e: Endian, ifs: seq<Interface>, body: seq<byte>): Result<Interface, Error> {
    if |body| < IDB_FIXED then Err(Malformed008)
    else
      var link := Read16(e, body[0], body[1]);
      if !IsSupportedLink(link) then Err(UnsupportedLink001)
      else if ifs != [] && ifs[0].link != link then Err(LinkConflict011)
      else
        var r := Resolution(e, body);
        if r.Err? then Err(Malformed008) else Ok(Interface(link, r.value))
  }

  datatype Walked = Walked(packets: seq<Packet>, interfaces: seq<Interface>, skipped: nat, opbSkipped: nat)

  function Step(e: Endian, w: Walked, b: Block): Result<Walked, Error> {
    if b.kind == SHB then Err(SecondSection012)
    else if b.kind == IDB then
      if w.packets != [] then Err(LateInterface013)
      else if |w.interfaces| >= MAX_INTERFACES then Err(TooManyInterfaces015)
      else
        var r := DecodeInterface(e, w.interfaces, b.body);
        if r.Err? then Err(r.error) else Ok(w.(interfaces := w.interfaces + [r.value]))
    else if IsPacket(b) then
      var r := DecodePacket(e, w.interfaces, b);
      if r.Err? then Err(r.error) else Ok(w.(packets := w.packets + [r.value]))
    else Ok(w.(skipped := w.skipped + 1, opbSkipped := w.opbSkipped + if b.kind == OPB then 1 else 0))
  }

  const NOTHING := Walked([], [], 0, 0)

  function Walk(e: Endian, blocks: seq<Block>): Result<Walked, Error> {
    if blocks == [] then Ok(NOTHING)
    else
      var n := |blocks| - 1;
      var w := Walk(e, blocks[..n]);
      if w.Err? then w else Step(e, w.value, blocks[n])
  }

  /** The link type reported: that of the first interface, or 0 when there is none. */
  function LinkOf(w: Walked): nat { if w.interfaces == [] then 0 else w.interfaces[0].link }

  /** The walk as the program runs it. */
  method ReadBlocks(e: Endian, blocks: seq<Block>) returns (r: Result<Walked, Error>)
    ensures r == Walk(e, blocks)
  {
    hide Walk, DecodeEpb, DecodeSpb, Resolution;
    EmptyWalk(e);
    var packets: seq<Packet> := [];
    var interfaces: seq<Interface> := [];
    var emitted, skipped, opb := 0, 0, 0;
    for i := 0 to |blocks|
      invariant Walk(e, blocks[..i]) == Ok(Walked(packets, interfaces, skipped, opb))
      invariant emitted == |packets|
    {
      var b := blocks[i];
      WalkMore(e, blocks, i);
      if b.kind == SHB {
        return Err(SecondSection012);
      } else if b.kind == IDB {
        if emitted > 0 {
          return Err(LateInterface013);
        }
        if |interfaces| >= MAX_INTERFACES {
          return Err(TooManyInterfaces015);
        }
        if |b.body| < IDB_FIXED {
          return Err(Malformed008);
        }
        var link := Read16(e, b.body[0], b.body[1]);
        if !IsSupportedLink(link) {
          return Err(UnsupportedLink001);
        }
        if interfaces != [] && interfaces[0].link != link {
          return Err(LinkConflict011);
        }
        var resolution := ParseIdbOptions(e, b.body);
        if resolution.Err? {
          return Err(Malformed008);
        }
        interfaces := interfaces + [Interface(link, resolution.value)];
      } else if b.kind == EPB || b.kind == SPB {
        var p := if b.kind == EPB then DecodeEpb(e, interfaces, b.body) else DecodeSpb(e, interfaces, b.body);
        if p.Err? {
          return Err(p.error);
        }
        packets := packets + [p.value];
        emitted := emitted + 1;
      } else {
        if b.kind == OPB {
          opb := opb + 1;
        }
        skipped := skipped + 1;
      }
    }
    assert blocks[..|blocks|] == blocks;
    r := Ok(Walked(packets, interfaces, skipped, opb));
  }

  lemma EmptyWalk(e: Endian)
    ensures Walk(e, []) == Ok(NOTHING)
  {
  }

  /** One more block: it takes the step, and if it fails so does the whole walk. */
  lemma WalkMore(e: Endian, blocks: seq<Block>, i: nat)
    requires i < |blocks| && Walk(e, blocks[..i]).Ok?
    ensures Walk(e, blocks[..i + 1]) == Step(e, Walk(e, blocks[..i]).value, blocks[i])
    ensures Walk(e, blocks[..i + 1]).Err? ==> Walk(e, blocks) == Walk(e, blocks[..i + 1])
  {
    hide Step;
    assert blocks[..i + 1][..i] == blocks[..i];
    Sticky(e, blocks, i + 1);
  }

  /** An error at some block is the error of the whole walk. */
  lemma {:induction false} Sticky(e: Endian, blocks: seq<Block>, k: nat)
    requires k <= |blocks|
    ensures Walk(e, blocks[..k]).Err? ==> Walk(e, blocks) == Walk(e, blocks[..k])
    decreases |blocks|
  {
    if k == |blocks| {
      assert blocks[..k] == blocks;
    } else {
      var n := |blocks| - 1;
      assert blocks[..n][..k] == blocks[..k];
      Sticky(e, blocks[..n], k);
    }
  }

  // ---- the specification in two passes ---------------------------------------------------------

  /** No second section header, and no interface after a packet. */
  predicate Ordered(blocks: seq<Block>) {
    && (forall i :: 0 <= i < |blocks| ==> blocks[i].kind != SHB)
    && (forall i, j :: 0 <= i < j < |blocks| && IsPacket(blocks[i]) ==> blocks[j].kind != IDB)
  }

  /** First pass: all interfaces, wherever they stand. */
  function Interfaces(e: Endian, blocks: seq<Block>): Option<seq<Interface>> {
    if blocks == [] then Some([])
    else
      var n := |blocks| - 1;
      var ifs := Interfaces(e, blocks[..n]);
      if ifs.None? || blocks[n].kind != IDB then ifs
      else if |ifs.value| >= MAX_INTERFACES then None
      else
        var r := DecodeInterface(e, ifs.value, blocks[n].body);
        if r.Err? then None else Some(ifs.value + [r.value])
  }

  /** Second pass: all packets, each against the finished interface table. */
  function Packets(e: Endian, ifs: seq<Interface>, blocks: seq<Block>): Option<seq<Packet>> {
    if blocks == [] then Some([])
    else
      var n := |blocks| - 1;
      var ps := Packets(e, ifs, blocks[..n]);
      if ps.None? || !IsPacket(blocks[n]) then ps
      else
        var r := DecodePacket(e, ifs, blocks[n]);
        if r.Err? then None else Some(ps.value + [r.value])
  }

  function Tally(blocks: seq<Block>, which: Block -> bool): nat {
    if blocks == [] then 0
    else Tally(blocks[..|blocks| - 1], which) + if which(blocks[|blocks| - 1]) then 1 else 0
  }

  ghost predicate TwoPassAccepts(e: Endian, blocks: seq<Block>) {
    Ordered(blocks) && Interfaces(e, blocks).Some? && Packets(e, Interfaces(e, blocks).value, blocks).Some?
  }

  ghost function TwoPass(e: Endian, blocks: seq<Block>): Walked
    requires TwoPassAccepts(e, blocks)
  {
    var ifs := Interfaces(e, blocks).value;
    Walked(Packets(e, ifs, blocks).value, ifs, Tally(blocks, IsSkipped), Tally(blocks, (b: Block) => b.kind == OPB))
  }

  lemma {:induction false} NoPackets(e: Endian, ifs: seq<Interface>, blocks: seq<Block>)
    requires forall i :: 0 <= i < |blocks| ==> !IsPacket(blocks[i])
    ensures Packets(e, ifs, blocks) == Some([])
  {
    if blocks != [] {
      NoPackets(e, ifs, blocks[..|blocks| - 1]);
    }
  }

  lemma {:induction false} PacketCount(e: Endian, ifs: seq<Interface>, blocks: seq<Block>)
    requires Packets(e, ifs, blocks) == Some([])
    ensures forall i :: 0 <= i < |blocks| ==> !IsPacket(blocks[i])
  {
    if blocks != [] {
      PacketCount(e, ifs, blocks[..|blocks| - 1]);
    }
  }

  ghost predicate Same(e: Endian, blocks: seq<Block>) {
    && (Walk(e, blocks).Ok? <==> TwoPassAccepts(e, blocks))
    && (Walk(e, blocks).Ok? ==> Walk(e, blocks).value == TwoPass(e, blocks))
  }

  lemma OrderedMore(before: seq<Block>, b: Block)
    ensures Ordered(before + [b]) <==>
            && Ordered(before) && b.kind != SHB
            && (b.kind == IDB ==> forall i :: 0 <= i < |before| ==> !IsPacket(before[i]))
  {
    var blocks := before + [b];
    assert blocks[|before|] == b;
    assert forall i :: 0 <= i < |before| ==> blocks[i] == before[i];
    if Ordered(blocks) && b.kind == IDB {
      forall i | 0 <= i < |before| ensures !IsPacket(before[i]) {
        assert blocks[i] == before[i];
      }
    }
  }

  lemma SameInterface(e: Endian, before: seq<Block>, b: Block)
    requires Same(e, before) && b.kind == IDB
    ensures Same(e, before + [b])
  {
    hide DecodePacket, DecodeInterface, Ordered;
    OrderedMore(before, b);
    assert (before + [b])[..|before|] == before;
    var ifs, ifs' := Interfaces(e, before), Interfaces(e, before + [b]);
    if forall i :: 0 <= i < |before| ==> !IsPacket(before[i]) {
      if ifs.Some? {
        NoPackets(e, ifs.value, before);
      }
      if ifs'.Some? {
        NoPackets(e, ifs'.value, before);
      }
    } else if Walk(e, before).Ok? && Walk(e, before).value.packets == [] {
      PacketCount(e, ifs.value, before);
    }
  }

  lemma SameOther(e: Endian, before: seq<Block>, b: Block)
    requires Same(e, before) && b.kind != IDB
    ensures Same(e, before + [b])
  {
    hide DecodePacket, DecodeInterface, Ordered;
    OrderedMore(before, b);
    assert (before + [b])[..|before|] == before;
  }

  /** The single pass accepts exactly what the two passes accept, with the same result. */
  lemma {:induction false} OnePassIsTwoPass(e: Endian, blocks: seq<Block>)
    ensures Walk(e, blocks).Ok? <==> TwoPassAccepts(e, blocks)
    ensures Walk(e, blocks).Ok? ==> Walk(e, blocks).value == TwoPass(e, blocks)
  {
    if blocks != [] {
      var n := |blocks| - 1;
      OnePassIsTwoPass(e, blocks[..n]);
      assert blocks == blocks[..n] + [blocks[n]];
      if blocks[n].kind == IDB {
        SameInterface(e, blocks[..n], blocks[n]);
      } else {
        SameOther(e, blocks[..n], blocks[n]);
      }
    }
  }

  // ---- consequences ----------------------------------------------------------------------------

  /** Accepted captures: one supported link type, a bounded table, and every block accounted for. */
  lemma {:induction false} AcceptedShape(e: Endian, blocks: seq<Block>)
    requires Walk(e, blocks).Ok?
    ensures var w := Walk(e, blocks).value;
            && |w.interfaces| <= 65_535
            && (w.interfaces == [] ==> LinkOf(w) == 0)
            && (forall i :: 0 <= i < |w.interfaces| ==>
                  w.interfaces[i].link == LinkOf(w) && IsSupportedLink(w.interfaces[i].link))
            && |blocks| == |w.interfaces| + |w.packets| + w.skipped
            && w.opbSkipped <= w.skipped
  {
    hide DecodePacket;
    if blocks != [] {
      AcceptedShape(e, blocks[..|blocks| - 1]);
    }
  }

  /** Every prefix of an accepted capture is accepted, with a prefix of its interfaces and packets. */
  lemma {:induction false} PrefixAccepted(e: Endian, blocks: seq<Block>, k: nat)
    requires k <= |blocks| && Walk(e, blocks).Ok?
    ensures Walk(e, blocks[..k]).Ok?
    ensures Walk(e, blocks[..k]).value.packets <= Walk(e, blocks).value.packets
    ensures Walk(e, blocks[..k]).value.interfaces <= Walk(e, blocks).value.interfaces
    decreases |blocks|
  {
    hide DecodePacket, DecodeInterface;
    if k == |blocks| {
      assert blocks[..k] == blocks;
    } else {
      var n := |blocks| - 1;
      assert blocks[..n][..k] == blocks[..k];
      PrefixAccepted(e, blocks[..n], k);
    }
  }

  function WithoutSkipped(blocks: seq<Block>): seq<Block> {
    if blocks == [] then []
    else
      var n := |blocks| - 1;
      WithoutSkipped(blocks[..n]) + if IsSkipped(blocks[n]) then [] else [blocks[n]]
  }

  /** Blocks that are stepped over influence neither the outcome nor the packets nor the interfaces. */
  lemma {:induction false} SkippedBlocksDoNotMatter(e: Endian, blocks: seq<Block>)
    ensures match Walk(e, blocks)
            case Err(err) => Walk(e, WithoutSkipped(blocks)) == Err(err)
            case Ok(w) => Walk(e, WithoutSkipped(blocks)) == Ok(Uncounted(w))
  {
    hide Step, IsSkipped;
    if blocks != [] {
      var n := |blocks| - 1;
      SkippedBlocksDoNotMatter(e, blocks[..n]);
      var kept := WithoutSkipped(blocks[..n]);
      if Walk(e, blocks[..n]).Ok? {
        StepIgnoresCounts(e, Walk(e, blocks[..n]).value, blocks[n]);
      }
      if IsSkipped(blocks[n]) {
        assert WithoutSkipped(blocks) == kept;
      } else {
        assert WithoutSkipped(blocks) == kept + [blocks[n]];
        assert (kept + [blocks[n]])[..|kept|] == kept;
      }
    }
  }

  function Uncounted(w: Walked): Walked { w.(skipped := 0, opbSkipped := 0) }

  /** A block that is not stepped over acts on packets and interfaces alone; one that is acts on the counts alone. */
  lemma StepIgnoresCounts(e: Endian, w: Walked, b: Block)
    ensures match Step(e, w, b)
            case Err(err) => !IsSkipped(b) && Step(e, Uncounted(w), b) == Err(err)
            case Ok(v) => if IsSkipped(b) then Uncounted(v) == Uncounted(w)
                          else Step(e, Uncounted(w), b) == Ok(Uncounted(v))
  {
    hide DecodePacket, DecodeInterface;
  }

  /** An interface block that stands before all packets and finds room in the table. */
  ghost predicate Placed(w: Walked, b: Block) {
    b.kind == 1 && w.packets == [] && |w.interfaces| < 65_535
  }

  /** The link type field of an interface block. */
  function LinkField(e: Endian, body: seq<byte>): nat
    requires |body| >= 8
  {
    var first: int, second: int := body[0], body[1];
    if e.BigEndian? then 256 * first + second else first + 256 * second
  }

  /** After `w`, the block `b` is what an error stands for. */
  ghost predicate Offends(e: Endian, w: Walked, b: Block, err: Error) {
    var known := {1, 101, 113, 228, 229};
    match err
    case SecondSection012 => b.kind == 0x0A0D_0D0A
    case LateInterface013 => b.kind == 1 && w.packets != []
    case TooManyInterfaces015 => b.kind == 1 && w.packets == [] && |w.interfaces| >= 65_535
    case UnsupportedLink001 => Placed(w, b) && |b.body| >= 8 && LinkField(e, b.body) !in known
    case LinkConflict011 =>
      && Placed(w, b) && |b.body| >= 8 && LinkField(e, b.body) in known
      && w.interfaces != [] && w.interfaces[0].link != LinkField(e, b.body)
    case NoInterface009 => w.interfaces == [] && ((b.kind == 6 && |b.body| >= 20) || b.kind == 3)
    case InterfaceRange010 => b.kind == 6 && |b.body| >= 20 && 0 < |w.interfaces| <= At32(e, b.body, 0)
    case Malformed008 =>
      || (Placed(w, b) && |b.body| < 8)
      || (Placed(w, b) && |b.body| >= 8 && LinkField(e, b.body) in known
          && (w.interfaces == [] || w.interfaces[0].link == LinkField(e, b.body)) && Resolution(e, b.body).Err?)
      || (b.kind == 6 && |b.body| < 20)
      || (b.kind == 6 && |b.body| >= 20 && At32(e, b.body, 0) < |w.interfaces|
          && 20 + Padded(At32(e, b.body, 12)) > |b.body|)
      || (b.kind == 3 && w.interfaces != [] && |b.body| < 4)
  }

  lemma StepRejects(e: Endian, w: Walked, b: Block, err: Error)
    ensures Step(e, w, b) == Err(err) <==> Offends(e, w, b, err)
  {
    hide Resolution, ToSecsUsecs, Read32;
  }

  /** The capture up to the k-th block is accepted, and that block is what the error stands for. */
  ghost predicate OffendsAt(e: Endian, blocks: seq<Block>, k: nat, err: Error)
    requires k < |blocks|
  {
    Walk(e, blocks[..k]).Ok? && Offends(e, Walk(e, blocks[..k]).value, blocks[k], err)
  }

  lemma OffendsBefore(e: Endian, blocks: seq<Block>, n: nat, k: nat, err: Error)
    requires k < n <= |blocks|
    ensures OffendsAt(e, blocks, k, err) <==> OffendsAt(e, blocks[..n], k, err)
    ensures Walk(e, blocks[..n]).Ok? ==> !OffendsAt(e, blocks, k, err)
  {
    hide Offends, Walk;
    var before := blocks[..n];
    assert before[..k] == blocks[..k];
    if Walk(e, before).Ok? && Walk(e, before[..k]).Ok? {
      WalkMore(e, before, k);
      StepRejects(e, Walk(e, before[..k]).value, before[k], err);
    }
  }

  /** Each error stands for one kind of first offending block. */
  lemma {:induction false} RejectedIff(e: Endian, blocks: seq<Block>, err: Error)
    ensures Walk(e, blocks) == Err(err) <==> exists k: nat :: k < |blocks| && OffendsAt(e, blocks, k, err)
  {
    hide Step, OffendsAt;
    if blocks != [] {
      var n := |blocks| - 1;
      RejectedIff(e, blocks[..n], err);
      OffendsLast(e, blocks, err);
      forall k: nat | k < n
        ensures OffendsAt(e, blocks, k, err) <==> OffendsAt(e, blocks[..n], k, err)
        ensures Walk(e, blocks[..n]).Ok? ==> !OffendsAt(e, blocks, k, err)
      {
        OffendsBefore(e, blocks, n, k, err);
      }
      if k: nat :| k < n && OffendsAt(e, blocks[..n], k, err) {
        assert OffendsAt(e, blocks, k, err);
      }
    }
  }

  lemma OffendsLast(e: Endian, blocks: seq<Block>, err: Error)
    requires blocks != []
    ensures var n := |blocks| - 1;
            OffendsAt(e, blocks, n, err) <==>
            Walk(e, blocks[..n]).Ok? && Step(e, Walk(e, blocks[..n]).value, blocks[n]) == Err(err)
  {
    hide Step, Offends, Walk;
    var n := |blocks| - 1;
    if Walk(e, blocks[..n]).Ok? {
      StepRejects(e, Walk(e, blocks[..n]).value, blocks[n], err);
    }
  }

  /**
   An Enhanced Packet Block is accepted exactly when its fixed part is there, its interface is known and its data with
   padding fits; the packet is then the announced slice of the body at the time of that interface's clock.
   */
  lemma EpbAcceptedIff(e: Endian, ifs: seq<Interface>, body: seq<byte>)
    ensures var r := DecodeEpb(e, ifs, body);
            && (r.Ok? <==> |body| >= 20 && At32(e, body, 0) < |ifs| && 20 + Padded(At32(e, body, 12)) <= |body|)
            && (r.Ok? ==>
                  && |r.value.data| == At32(e, body, 12) && r.value.data <= body[20..]
                  && (r.value.secs, r.value.usecs) ==
                     ToSecsUsecs(At32(e, body, 4) * 0x1_0000_0000 + At32(e, body, 8), ifs[At32(e, body, 0)].resolution))
            && (r.Err? ==>
                  && (r.error == NoInterface009 <==> |body| >= 20 && ifs == [])
                  && (r.error == InterfaceRange010 <==> |body| >= 20 && ifs != [] && At32(e, body, 0) >= |ifs|))
  {
    hide Read32, ToSecsUsecs;
    if |body| >= 20 && At32(e, body, 0) < |ifs| && 20 + Padded(At32(e, body, 12)) <= |body| {
      var n := At32(e, body, 12);
      assert body[20..20 + n] == body[20..][..n];
    }
  }

  /** An Enhanced Packet Block body as a writer lays it out: the upper half of the 64-bit tick comes first. */
  function EncodeEpb(e: Endian, id: nat, ticks: nat, data: seq<byte>, original: nat, rest: seq<byte>): seq<byte>
    requires id <= U32_MAX && ticks <= U64_MAX && |data| <= U32_MAX && original <= U32_MAX
  {
    Write32(e, id) + Write32(e, ticks / 0x1_0000_0000) + Write32(e, ticks % 0x1_0000_0000) + Write32(e, |data|)
    + Write32(e, original) + (data + rest)
  }

  /** The packet comes back with its data and its time; padding and options behind the data do not matter. */
  lemma EpbRoundTrip(e: Endian, ifs: seq<Interface>, id: nat, ticks: nat, data: seq<byte>, original: nat,
                     rest: seq<byte>)
    requires id < |ifs| && id <= U32_MAX && ticks <= U64_MAX && |data| <= U32_MAX
    requires original <= U32_MAX && |data| + |rest| >= Padded(|data|)
    ensures var (secs, usecs) := ToSecsUsecs(ticks, ifs[id].resolution);
            DecodeEpb(e, ifs, EncodeEpb(e, id, ticks, data, original, rest)) == Ok(Packet(secs, usecs, data))
  {
    hide ToSecsUsecs, Write32, Read32, Ticks;
    TicksOfHalves(ticks);
    var high, low := ticks / 0x1_0000_0000, ticks % 0x1_0000_0000;
    var body := EncodeEpb(e, id, ticks, data, original, rest);
    Layout(Write32(e, id), Write32(e, high), Write32(e, low), Write32(e, |data|), Write32(e, original), data + rest,
           body);
    At32Is(e, body, 0, id);
    At32Is(e, body, 4, high);
    At32Is(e, body, 8, low);
    At32Is(e, body, 12, |data|);
    assert body[EPB_FIXED..EPB_FIXED + |data|] == body[EPB_FIXED..][..|data|];
  }

  lemma Layout(a: seq<byte>, b: seq<byte>, c: seq<byte>, d: seq<byte>, f: seq<byte>, tail: seq<byte>, body: seq<byte>)
    requires |a| == |b| == |c| == |d| == |f| == 4 && body == a + b + c + d + f + tail
    ensures |body| == 20 + |tail| && body[0..4] == a && body[4..8] == b && body[8..12] == c && body[12..16] == d
    ensures body[20..] == tail
  {
  }

  lemma At32Is(e: Endian, body: seq<byte>, i: nat, n: nat)
    requires i + 4 <= |body| && n <= U32_MAX && body[i..i + 4] == Write32(e, n)
    ensures At32(e, body, i) == n
  {
    var w := body[i..i + 4];
    assert w[0] == body[i] && w[1] == body[i + 1] && w[2] == body[i + 2] && w[3] == body[i + 3];
  }

  /** A Simple Packet Block yields as many octets as it announces, or all it holds, at time zero. */
  lemma SpbRoundTrip(e: Endian, ifs: seq<Interface>, original: nat, payload: seq<byte>)
    requires ifs != [] && original <= U32_MAX
    ensures DecodeSpb(e, ifs, Write32(e, original) + payload) ==
            Ok(Packet(0, 0, payload[..Min(original, |payload|)]))
  {
    hide Write32, Read32;
    var body := Write32(e, original) + payload;
    assert body[0..4] == Write32(e, original) && body[4..] == payload;
    At32Is(e, body, 0, original);
    var n := Min(original, |payload|);
    assert body[SPB_FIXED..SPB_FIXED + n] == body[4..][..n];
  }
}
