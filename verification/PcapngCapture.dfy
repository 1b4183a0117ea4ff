/** Whole captures: what a writer lays out is what the block walk returns. */
module PcapngCapture {
  import opened Octets
  import opened PcapngTime
  import opened PcapngOptions
  import opened PcapngWalk

  /** An interface as a writer describes it; `fixed` holds the reserved field and the snap length. */
  datatype Source = Source(link: nat, fixed: seq<byte>, items: seq<Item>) {
    predicate Valid() { link in {1, 101, 113, 228, 229} && |fixed| == 6 && AllValid(items) && Meaning(items).Ok? }

    function Described(): Interface
      requires Valid()
    {
      Interface(link, Meaning(items).value)
    }
  }

  /** A packet as a writer records it; `rest` is the padding and the options behind the data. */
  datatype Record =
    | Enhanced(id: nat, ticks: nat, data: seq<byte>, original: nat, rest: seq<byte>)
    | Simple(original: nat, payload: seq<byte>)
  {
    /** Fields fit their width, the padding is there, and an enhanced packet names one of `n` interfaces. */
    predicate Valid(n: nat) {
      match this
      case Enhanced(id, ticks, data, original, rest) =>
        && id < n && id <= U32_MAX && ticks <= U64_MAX && |data| <= U32_MAX && original <= U32_MAX
        && |data| + |rest| >= Padded(|data|)
      case Simple(original, _) => n > 0 && original <= U32_MAX
    }

    /** What was recorded: data and time by the clock of the interface, or the announced octets at time zero. */
    function Recorded(ifs: seq<Interface>): Packet
      requires Valid(|ifs|)
    {
      match this
      case Enhanced(id, ticks, data, _, _) =>
        var (secs, usecs) := ToSecsUsecs(ticks, ifs[id].resolution);
        Packet(secs, usecs, data)
      case Simple(original, payload) => Packet(0, 0, payload[..Min(original, |payload|)])
    }
  }

  predicate AllSources(sources: seq<Source>) {
    && |sources| <= 65_535
    && forall i :: 0 <= i < |sources| ==> sources[i].Valid() && sources[i].link == sources[0].link
  }

  predicate AllRecords(records: seq<Record>, n: nat) {
    forall i :: 0 <= i < |records| ==> records[i].Valid(n)
  }

  function Described(sources: seq<Source>): (ifs: seq<Interface>)
    requires AllSources(sources)
    ensures |ifs| == |sources| && forall i :: 0 <= i < |ifs| ==> ifs[i] == sources[i].Described()
  {
    seq(|sources|, i requires 0 <= i < |sources| => sources[i].Described())
  }

  function Recorded(records: seq<Record>, ifs: seq<Interface>): (ps: seq<Packet>)
    requires AllRecords(records, |ifs|)
    ensures |ps| == |records| && forall i :: 0 <= i < |ps| ==> ps[i] == records[i].Recorded(ifs)
  {
    seq(|records|, i requires 0 <= i < |records| => records[i].Recorded(ifs))
  }

  // ---- the writer ------------------------------------------------------------------------------

  function SourceBlock(e: Endian, s: Source): Block
    requires s.Valid()
  {
    Block(1, Write16(e, s.link) + s.fixed + EncodeItems(e, s.items))
  }

  function RecordBlock(e: Endian, r: Record, n: nat): Block
    requires r.Valid(n)
  {
    match r
    case Enhanced(id, ticks, data, original, rest) => Block(6, EncodeEpb(e, id, ticks, data, original, rest))
    case Simple(original, payload) => Block(3, Write32(e, original) + payload)
  }

  function SourceBlocks(e: Endian, sources: seq<Source>): seq<Block>
    requires AllSources(sources)
  {
    seq(|sources|, i requires 0 <= i < |sources| => SourceBlock(e, sources[i]))
  }

  function RecordBlocks(e: Endian, records: seq<Record>, n: nat): seq<Block>
    requires AllRecords(records, n)
  {
    seq(|records|, i requires 0 <= i < |records| => RecordBlock(e, records[i], n))
  }

  // ---- the reader ------------------------------------------------------------------------------

  lemma SourceRead(e: Endian, ifs: seq<Interface>, s: Source)
    requires s.Valid() && (ifs != [] ==> ifs[0].link == s.link)
    ensures DecodeInterface(e, ifs, SourceBlock(e, s).body) == Ok(s.Described())
  {
    hide Read16, Write16, EncodeItems, Resolution, Meaning;
    var link, options := Write16(e, s.link), EncodeItems(e, s.items);
    var body := link + s.fixed + options;
    assert body[0] == link[0] && body[1] == link[1];
    OptionsRoundTrip(e, link + s.fixed, s.items);
  }

  lemma {:induction false} SourcesRead(e: Endian, sources: seq<Source>)
    requires AllSources(sources)
    ensures Walk(e, SourceBlocks(e, sources)) == Ok(Walked([], Described(sources), 0, 0))
  {
    hide Walk, SourceBlock, Source.Described, Source.Valid;
    if sources == [] {
      EmptyWalk(e);
    } else {
      var n := |sources| - 1;
      SourcesRead(e, sources[..n]);
      assert SourceBlocks(e, sources) == SourceBlocks(e, sources[..n]) + [SourceBlock(e, sources[n])];
      DescribedLink(sources, n);
      SourceAfter(e, SourceBlocks(e, sources[..n]), Described(sources[..n]), sources[n]);
      assert Described(sources) == Described(sources[..n]) + [sources[n].Described()];
    }
  }

  lemma SourceAfter(e: Endian, blocks: seq<Block>, ifs: seq<Interface>, s: Source)
    requires Walk(e, blocks) == Ok(Walked([], ifs, 0, 0)) && s.Valid()
    requires |ifs| < MAX_INTERFACES && (ifs != [] ==> ifs[0].link == s.link)
    ensures Walk(e, blocks + [SourceBlock(e, s)]) == Ok(Walked([], ifs + [s.Described()], 0, 0))
  {
    hide DecodeInterface, SourceBlock, Source.Described, Source.Valid;
    assert (blocks + [SourceBlock(e, s)])[..|blocks|] == blocks;
    SourceKind(e, s);
    SourceRead(e, ifs, s);
  }

  lemma SourceKind(e: Endian, s: Source)
    requires s.Valid()
    ensures SourceBlock(e, s).kind == IDB
  {
  }

  lemma DescribedLink(sources: seq<Source>, n: nat)
    requires AllSources(sources) && n < |sources|
    ensures n > 0 ==> Described(sources[..n])[0].link == sources[n].link
  {
  }

  lemma RecordRead(e: Endian, ifs: seq<Interface>, r: Record)
    requires r.Valid(|ifs|)
    ensures IsPacket(RecordBlock(e, r, |ifs|))
    ensures DecodePacket(e, ifs, RecordBlock(e, r, |ifs|)) == Ok(r.Recorded(ifs))
  {
    hide DecodeEpb, DecodeSpb, EncodeEpb, ToSecsUsecs, Padded, Write32;
    match r
    case Enhanced(id, ticks, data, original, rest) => EpbRoundTrip(e, ifs, id, ticks, data, original, rest);
    case Simple(original, payload) => SpbRoundTrip(e, ifs, original, payload);
  }

  lemma {:induction false} RecordsRead(e: Endian, sources: seq<Source>, records: seq<Record>)
    requires AllSources(sources) && AllRecords(records, |sources|)
    ensures var ifs := Described(sources);
            Walk(e, SourceBlocks(e, sources) + RecordBlocks(e, records, |sources|)) ==
            Ok(Walked(Recorded(records, ifs), ifs, 0, 0))
    decreases |records|
  {
    hide SourceBlocks, Walk, RecordBlock, Record.Recorded, Record.Valid, Described;
    var a, b, ifs := SourceBlocks(e, sources), RecordBlocks(e, records, |sources|), Described(sources);
    if records == [] {
      SourcesRead(e, sources);
      assert a + b == a;
    } else {
      var n := |records| - 1;
      RecordsRead(e, sources, records[..n]);
      assert b[..n] == RecordBlocks(e, records[..n], |sources|);
      assert a + b == a + b[..n] + [RecordBlock(e, records[n], |sources|)];
      RecordAfter(e, a + b[..n], Walked(Recorded(records[..n], ifs), ifs, 0, 0), records[n]);
      assert Recorded(records, ifs) == Recorded(records[..n], ifs) + [records[n].Recorded(ifs)];
    }
  }

  lemma RecordAfter(e: Endian, blocks: seq<Block>, w: Walked, r: Record)
    requires Walk(e, blocks) == Ok(w) && r.Valid(|w.interfaces|)
    ensures Walk(e, blocks + [RecordBlock(e, r, |w.interfaces|)]) ==
            Ok(w.(packets := w.packets + [r.Recorded(w.interfaces)]))
  {
    hide DecodePacket, RecordBlock, Record.Recorded, Record.Valid;
    assert (blocks + [RecordBlock(e, r, |w.interfaces|)])[..|blocks|] == blocks;
    RecordRead(e, w.interfaces, r);
  }

  /**
   Round trip of a capture. Any interfaces of one supported link type with any valid options, and any packets naming
   them, laid out in either byte order with any other blocks anywhere between, are read back: exactly those interfaces,
   exactly those packets with their converted times, and every other block counted as skipped.
   */
  lemma CaptureRoundTrip(e: Endian, sources: seq<Source>, records: seq<Record>, blocks: seq<Block>)
    requires AllSources(sources) && AllRecords(records, |sources|)
    requires WithoutSkipped(blocks) == SourceBlocks(e, sources) + RecordBlocks(e, records, |sources|)
    ensures var ifs := Described(sources);
            var w := Walk(e, blocks);
            && w.Ok? && w.value.interfaces == ifs && w.value.packets == Recorded(records, ifs)
            && w.value.skipped == |blocks| - |sources| - |records|
  {
    hide Walk, SourceBlocks, RecordBlocks, Described, Recorded;
    RecordsRead(e, sources, records);
    SkippedBlocksDoNotMatter(e, blocks);
    AcceptedShape(e, blocks);
  }
}
