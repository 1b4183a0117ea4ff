/** Coverage gaps: what is counted for flows nobody analyzed, and when that count points at a supported protocol. */
module CoverageGaps {
  import opened Octets
  import opened Flows
  import opened Tables
  import opened Dispatcher

  // ---- the protocol catalog --------------------------------------------------------------------

  datatype Layer = OverTcp | OverUdp | LinkLayer

  datatype Protocol = Protocol(layer: Layer, ports: set<nat>)

  /** In catalog order and in the catalog's blocks; names and link-layer details do not matter to a lookup by port. */
  const SUPPORTED_BLOCK: seq<Protocol> := [
    Protocol(OverTcp, {502}), Protocol(OverTcp, {20000}), Protocol(OverTcp, {44818}), Protocol(OverTcp, {443, 8443}),
    Protocol(LinkLayer, {}), Protocol(OverUdp, {53}), Protocol(OverTcp, {80, 8080})]
  const ICS_BLOCK: seq<Protocol> := [
    Protocol(OverTcp, {102}), Protocol(OverTcp, {102}), Protocol(OverTcp, {2404}), Protocol(OverTcp, {102}),
    Protocol(OverUdp, {47808}), Protocol(OverTcp, {4840}), Protocol(OverUdp, {34962, 34963, 34964}),
    Protocol(OverTcp, {102}), Protocol(OverUdp, {5094})]
  const LINK_BLOCK: seq<Protocol> := [
    Protocol(LinkLayer, {}), Protocol(LinkLayer, {}), Protocol(LinkLayer, {}), Protocol(LinkLayer, {}),
    Protocol(LinkLayer, {})]
  const IT_BLOCK: seq<Protocol> := [
    Protocol(OverTcp, {22}), Protocol(OverTcp, {445}), Protocol(OverTcp, {3389}), Protocol(OverTcp, {21}),
    Protocol(OverTcp, {23}), Protocol(OverUdp, {161, 162}), Protocol(OverUdp, {123}), Protocol(OverTcp, {25}),
    Protocol(OverTcp, {389})]
  const KNOWN_PROTOCOLS: seq<Protocol> := SUPPORTED_BLOCK + ICS_BLOCK + LINK_BLOCK + IT_BLOCK

  const SUPPORTED_PORTS: set<nat> := {502, 20000, 44818, 2404, 443, 8443, 80, 8080, 53}

  datatype GapState = KnownSupported | KnownUnsupported | Unknown

  function LayerOf(t: Transport): Layer { if t.Tcp? then OverTcp else OverUdp }

  predicate IsSupported(p: Protocol) { exists port :: port in p.ports && port in SUPPORTED_PORTS }

  function FindFirst(catalog: seq<Protocol>, layer: Layer, port: nat): (r: Option<Protocol>)
    ensures r.Some? ==> r.value in catalog && r.value.layer == layer && port in r.value.ports
    ensures r.None? ==> forall p :: p in catalog ==> !(p.layer == layer && port in p.ports)
  {
    if catalog == [] then None
    else if catalog[0].layer == layer && port in catalog[0].ports then Some(catalog[0])
    else FindFirst(catalog[1..], layer, port)
  }

  function Lookup(t: Transport, port: nat): GapState {
    var p := FindFirst(KNOWN_PROTOCOLS, LayerOf(t), port);
    if p.None? then Unknown else if IsSupported(p.value) then KnownSupported else KnownUnsupported
  }

  // ---- the catalog, port by port ---------------------------------------------------------------

  /** The ports for which the dispatcher has a rule. */
  predicate DispatchedPort(port: nat) { port in {502, 20000, 44818, 2404, 443, 8443, 80, 8080} }

  predicate OtherTcpPort(port: nat) { port in {102, 4840, 22, 445, 3389, 21, 23, 25, 389} }

  predicate OtherUdpPort(port: nat) { port in {47808, 34962, 34963, 34964, 5094, 161, 162, 123} }

  /** What the lookup says of a protocol found under a port. */
  ghost predicate Listed(p: Protocol, port: nat) {
    port in p.ports ==>
      && (p.layer.OverTcp? ==> if IsSupported(p) then DispatchedPort(port) else OtherTcpPort(port))
      && (p.layer.OverUdp? ==> if IsSupported(p) then port == 53 else OtherUdpPort(port))
      && !p.layer.LinkLayer?
  }

  ghost predicate Has(catalog: seq<Protocol>, layer: Layer, port: nat) {
    exists p :: p in catalog && p.layer == layer && port in p.ports
  }

  lemma SupportedBlock(port: nat)
    ensures forall p :: p in SUPPORTED_BLOCK ==> Listed(p, port)
    ensures DispatchedPort(port) && port != 2404 ==> Has(SUPPORTED_BLOCK, OverTcp, port)
    ensures port == 53 ==> Has(SUPPORTED_BLOCK, OverUdp, port)
  {
    assert Protocol(OverTcp, {502}) in SUPPORTED_BLOCK && Protocol(OverTcp, {20000}) in SUPPORTED_BLOCK;
    assert Protocol(OverTcp, {44818}) in SUPPORTED_BLOCK && Protocol(OverTcp, {443, 8443}) in SUPPORTED_BLOCK;
    assert Protocol(OverTcp, {80, 8080}) in SUPPORTED_BLOCK && Protocol(OverUdp, {53}) in SUPPORTED_BLOCK;
  }

  lemma IcsBlock(port: nat)
    ensures forall p :: p in ICS_BLOCK ==> Listed(p, port)
  {
  }

  lemma IcsPorts(port: nat)
    ensures port in {102, 2404, 4840} ==> Has(ICS_BLOCK, OverTcp, port)
    ensures port in {47808, 34962, 34963, 34964, 5094} ==> Has(ICS_BLOCK, OverUdp, port)
  {
    assert Protocol(OverTcp, {102}) in ICS_BLOCK && Protocol(OverTcp, {2404}) in ICS_BLOCK;
    assert Protocol(OverTcp, {4840}) in ICS_BLOCK && Protocol(OverUdp, {47808}) in ICS_BLOCK;
    assert Protocol(OverUdp, {34962, 34963, 34964}) in ICS_BLOCK && Protocol(OverUdp, {5094}) in ICS_BLOCK;
  }

  lemma OtherBlocks(port: nat)
    ensures forall p :: p in LINK_BLOCK ==> Listed(p, port)
    ensures forall p :: p in IT_BLOCK ==> Listed(p, port)
  {
  }

  lemma ItPorts(port: nat)
    ensures port in {22, 445, 3389, 21, 23, 25, 389} ==> Has(IT_BLOCK, OverTcp, port)
    ensures port in {161, 162, 123} ==> Has(IT_BLOCK, OverUdp, port)
  {
    assert Protocol(OverTcp, {22}) in IT_BLOCK && Protocol(OverTcp, {445}) in IT_BLOCK;
    assert Protocol(OverTcp, {3389}) in IT_BLOCK && Protocol(OverTcp, {21}) in IT_BLOCK;
    assert Protocol(OverTcp, {23}) in IT_BLOCK && Protocol(OverTcp, {25}) in IT_BLOCK;
    assert Protocol(OverTcp, {389}) in IT_BLOCK && Protocol(OverUdp, {161, 162}) in IT_BLOCK;
    assert Protocol(OverUdp, {123}) in IT_BLOCK;
  }

  lemma HasInBlock(block: seq<Protocol>, layer: Layer, port: nat)
    requires block == SUPPORTED_BLOCK || block == ICS_BLOCK || block == LINK_BLOCK || block == IT_BLOCK
    ensures Has(block, layer, port) ==> Has(KNOWN_PROTOCOLS, layer, port)
  {
    if Has(block, layer, port) {
      var p :| p in block && p.layer == layer && port in p.ports;
      assert p in KNOWN_PROTOCOLS;
    }
  }

  /**
   Over TCP the supported ports are exactly those with a dispatch rule, over UDP only DNS; the ports known and not
   supported, and so the unknown ones, are these.
   */
  lemma SupportedPorts(port: nat)
    ensures Lookup(Tcp, port) == KnownSupported <==> DispatchedPort(port)
    ensures Lookup(Udp, port) == KnownSupported <==> port == 53
    ensures Lookup(Tcp, port) == KnownUnsupported <==> OtherTcpPort(port)
    ensures Lookup(Udp, port) == KnownUnsupported <==> OtherUdpPort(port)
  {
    hide IsSupported, FindFirst;
    SupportedBlock(port);
    IcsPorts(port);
    ItPorts(port);
    forall layer: Layer
      ensures Has(SUPPORTED_BLOCK, layer, port) || Has(ICS_BLOCK, layer, port) || Has(IT_BLOCK, layer, port) ==>
              Has(KNOWN_PROTOCOLS, layer, port)
    {
      HasInBlock(SUPPORTED_BLOCK, layer, port);
      HasInBlock(ICS_BLOCK, layer, port);
      HasInBlock(IT_BLOCK, layer, port);
    }
    LookupListed(Tcp, port);
    LookupListed(Udp, port);
  }

  lemma LookupListed(t: Transport, port: nat)
    ensures Lookup(t, port) == Unknown <==> !Has(KNOWN_PROTOCOLS, LayerOf(t), port)
    ensures Lookup(t, port) != Unknown ==>
              exists p :: p in KNOWN_PROTOCOLS && p.layer == LayerOf(t) && port in p.ports
                          && (Lookup(t, port) == KnownSupported <==> IsSupported(p)) && Listed(p, port)
  {
    hide IsSupported, Listed;
    SupportedBlock(port);
    IcsBlock(port);
    OtherBlocks(port);
  }

  // ---- TCP -------------------------------------------------------------------------------------

  lemma AddGapSum(m: PortCounts, k: (Transport, nat))
    ensures Sum(AddGap(m, k)) == Sum(m) + 1
  {
    SumUpdate(m, k, (if k in m then m[k] else 0) + 1);
  }

  /** With gap counting on, the per-port counts add up to the unclassified flows. */
  lemma {:induction false} GapsAddUp(cfg: Config, ops: seq<Op>)
    requires cfg.countGaps
    ensures Sum(Run(cfg, ops).gaps) == Run(cfg, ops).unclassified
  {
    hide Classify, AddGap;
    if ops != [] {
      var n := |ops| - 1;
      GapsAddUp(cfg, ops[..n]);
      AddGapSum(Run(cfg, ops[..n]).gaps, (Tcp, ops[n].key.ServicePort()));
    }
  }

  /** The lower of the two ports, which names the service. */
  predicate Serves(key: FlowKey, port: nat) {
    (port == key.lowerPort || port == key.upperPort) && port <= key.lowerPort && port <= key.upperPort
  }

  /** The i-th operation closes a flow whose chunks were all passed over. */
  ghost predicate ClosesGap(cfg: Config, ops: seq<Op>, i: nat, port: nat)
    requires i < |ops|
  {
    && ops[i].Close? && Serves(ops[i].key, port)
    && Decide(Budget(cfg.cap), ops[i].key, Since(ops[..i], ops[i].key)) == Unclassified
  }

  lemma {:induction false} GapKeys(cfg: Config, ops: seq<Op>, port: nat)
    requires cfg.analyzers != {} && cfg.countGaps
    ensures (Tcp, port) in Run(cfg, ops).gaps <==> exists i: nat :: i < |ops| && ClosesGap(cfg, ops, i, port)
    ensures (Udp, port) !in Run(cfg, ops).gaps
  {
    hide Classify, Decide;
    if ops != [] {
      var n := |ops| - 1;
      var before := ops[..n];
      GapKeys(cfg, before, port);
      assert forall i: nat :: i < n ==> ops[..i] == before[..i] && ops[i] == before[i];
      assert forall i: nat :: i < n ==> (ClosesGap(cfg, ops, i, port) <==> ClosesGap(cfg, before, i, port));
      RunTracks(cfg, before, ops[n].key);
      if (Tcp, port) in Run(cfg, ops).gaps && (Tcp, port) !in Run(cfg, before).gaps {
        assert ClosesGap(cfg, ops, n, port);
      }
    }
  }

  /** How many closes of passed-over flows of a service there were; without a service, of any. */
  ghost function GapCloses(cfg: Config, ops: seq<Op>, port: Option<nat>): nat {
    if ops == [] then 0
    else
      var n := |ops| - 1;
      GapCloses(cfg, ops[..n], port)
      + Count(&& ops[n].Close?
              && Decide(Budget(cfg.cap), ops[n].key, Since(ops[..n], ops[n].key)) == Unclassified
              && (port.None? || Serves(ops[n].key, port.value)))
  }

  /**
   The unclassified flows are the closes of passed-over flows, whether or not gaps are counted per port; the count of a
   port is how many of them were of its service. Without an analyzer nothing is counted or remembered.
   */
  lemma {:induction false} GapCounts(cfg: Config, ops: seq<Op>, port: nat)
    ensures var st := Run(cfg, ops);
            && (cfg.analyzers == {} ==> st == START)
            && (cfg.analyzers != {} ==> st.unclassified == GapCloses(cfg, ops, None))
            && (!cfg.countGaps ==> st.gaps == map[])
            && (cfg.analyzers != {} && cfg.countGaps ==>
                  (if (Tcp, port) in st.gaps then st.gaps[(Tcp, port)] else 0) == GapCloses(cfg, ops, Some(port)))
  {
    hide Classify, Decide;
    if ops != [] {
      var before, op := ops[..|ops| - 1], ops[|ops| - 1];
      GapCounts(cfg, before, port);
      if cfg.analyzers != {} {
        RunTracks(cfg, before, op.key);
      }
    }
  }

  /** The i-th operation closes a flow of that service without any chunk since its last close. */
  ghost predicate ClosesUnheard(ops: seq<Op>, i: nat, port: nat)
    requires i < |ops|
  {
    ops[i].Close? && Serves(ops[i].key, port) && Since(ops[..i], ops[i].key) == []
  }

  lemma UnclassifiedPorts(budget: nat, key: FlowKey, chunks: seq<seq<byte>>, port: nat)
    requires budget >= 1 && chunks != [] && Decide(budget, key, chunks) == Unclassified && Serves(key, port)
    ensures !DispatchedPort(port)
  {
    DecideIsFirst(budget, key, chunks, Tls);
    assert Classify(chunks[0], key) == Unclassified;
  }

  /**
   A TCP gap is reported for a supported protocol exactly when a flow of that service was closed without having
   delivered anything; if every closed flow delivered a chunk, it never happens.
   */
  lemma SupportedGapIffUnheard(cfg: Config, ops: seq<Op>, port: nat)
    requires cfg.analyzers != {} && cfg.countGaps
    ensures (Tcp, port) in Run(cfg, ops).gaps && Lookup(Tcp, port) == KnownSupported <==>
            DispatchedPort(port) && exists i: nat :: i < |ops| && ClosesUnheard(ops, i, port)
  {
    hide Decide, Classify, Lookup, Run;
    GapKeys(cfg, ops, port);
    SupportedPorts(port);
    if DispatchedPort(port) {
      forall i: nat | i < |ops| ensures ClosesGap(cfg, ops, i, port) <==> ClosesUnheard(ops, i, port) {
        var key := ops[i].key;
        var chunks := Since(ops[..i], key);
        if ClosesGap(cfg, ops, i, port) && chunks != [] {
          UnclassifiedPorts(Budget(cfg.cap), key, chunks, port);
        }
        EmptyDecides(Budget(cfg.cap), key);
      }
    }
  }

  lemma EmptyDecides(budget: nat, key: FlowKey)
    ensures Decide(budget, key, []) == Unclassified
  {
  }

  // ---- UDP -------------------------------------------------------------------------------------

  predicate IsDns(src: nat, dst: nat) { src == 53 || dst == 53 }

  function UdpGapKey(src: nat, dst: nat, dnsHandles: bool): Option<(Transport, nat)> {
    if dnsHandles then None else Some((Udp, if src <= dst then src else dst))
  }

  /**
   A UDP gap never names a supported protocol, as DNS traffic in either direction is left out. All other traffic has
   one, under the lower of its two ports.
   */
  lemma UdpGapIsNeverSupported(src: nat, dst: nat)
    ensures UdpGapKey(src, dst, IsDns(src, dst)).None? <==> src == 53 || dst == 53
    ensures var k := UdpGapKey(src, dst, IsDns(src, dst));
            k.Some? ==> k.value.0 == Udp && k.value.1 in {src, dst} && k.value.1 <= src && k.value.1 <= dst
    ensures UdpGapKey(src, dst, IsDns(src, dst)) == UdpGapKey(dst, src, IsDns(dst, src))
    ensures var k := UdpGapKey(src, dst, IsDns(src, dst));
            k.Some? ==> Lookup(k.value.0, k.value.1) != KnownSupported
  {
    SupportedPorts(if src <= dst then src else dst);
  }
}
