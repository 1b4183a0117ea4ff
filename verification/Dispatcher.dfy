/** The stream dispatcher: content-first classification, a route cache and a retry budget. */
module Dispatcher {
  import opened Octets
  import opened Flows

  datatype Target = Http | Tls | Modbus | Dnp3 | Enip | Iec104 | Unclassified

  /** The tokens that begin an HTTP message: GET, POST, PUT, DELETE, HEAD, OPTIONS, PATCH, CONNECT, TRACE, HTTP/. */
  const HTTP_TOKENS: seq<seq<byte>> := [
    [71, 69, 84, 32], [80, 79, 83, 84, 32], [80, 85, 84, 32], [68, 69, 76, 69, 84, 69, 32], [72, 69, 65, 68, 32],
    [79, 80, 84, 73, 79, 78, 83, 32], [80, 65, 84, 67, 72, 32], [67, 79, 78, 78, 69, 67, 84, 32],
    [84, 82, 65, 67, 69, 32], [72, 84, 84, 80, 47]]

  predicate HasPort(key: FlowKey, port: nat) { key.lowerPort == port || key.upperPort == port }

  function ByPort(key: FlowKey): Target {
    if HasPort(key, 443) || HasPort(key, 8443) then Tls
    else if HasPort(key, 80) || HasPort(key, 8080) then Http
    else if HasPort(key, 502) then Modbus
    else if HasPort(key, 20000) then Dnp3
    else if HasPort(key, 44818) then Enip
    else if HasPort(key, 2404) then Iec104
    else Unclassified
  }

  function Classify(data: seq<byte>, key: FlowKey): Target {
    if |data| >= 5 && data[0] == 0x16 && data[1] == 0x03 then Tls
    else if exists token :: token in HTTP_TOKENS && token <= data then Http
    else ByPort(key)
  }

  // ---- what classification says, port by port and word by word ---------------------------------

  /** The words that an HTTP message can begin with. */
  const HTTP_WORDS: seq<string> := [
    "GET ", "POST ", "PUT ", "DELETE ", "HEAD ", "OPTIONS ", "PATCH ", "CONNECT ", "TRACE ", "HTTP/"]

  ghost predicate Spells(data: seq<byte>, word: string) {
    |data| >= |word| && forall i :: 0 <= i < |word| ==> data[i] == word[i] as int
  }

  ghost predicate IsTlsRecord(data: seq<byte>) { |data| >= 5 && data[0] == 22 && data[1] == 3 }

  ghost predicate IsHttpMessage(data: seq<byte>) {
    !IsTlsRecord(data) && exists word :: word in HTTP_WORDS && Spells(data, word)
  }

  /** One of the two ports of the flow. */
  ghost predicate On(key: FlowKey, ports: set<nat>) { key.lowerPort in ports || key.upperPort in ports }

  /** Neither the content nor a port of TLS or HTTP says what the flow is. */
  ghost predicate ByIcsPort(data: seq<byte>, key: FlowKey) {
    !IsTlsRecord(data) && !IsHttpMessage(data) && !On(key, {443, 8443, 80, 8080})
  }

  lemma SpellsToken(data: seq<byte>, i: nat)
    requires i < 10
    ensures Spells(data, HTTP_WORDS[i]) <==> HTTP_TOKENS[i] <= data
  {
    var token, word := HTTP_TOKENS[i], HTTP_WORDS[i];
    assert |token| == |word| && forall k :: 0 <= k < |word| ==> token[k] == word[k] as int;
    if Spells(data, word) {
      assert data[..|token|] == token;
    }
    if token <= data {
      assert forall k :: 0 <= k < |token| ==> data[k] == token[k];
    }
  }

  lemma TokenIsWord(data: seq<byte>)
    ensures (exists token :: token in HTTP_TOKENS && token <= data) <==>
            (exists word :: word in HTTP_WORDS && Spells(data, word))
  {
    hide Spells;
    if token :| token in HTTP_TOKENS && token <= data {
      var i: nat :| i < 10 && HTTP_TOKENS[i] == token;
      SpellsToken(data, i);
      assert HTTP_WORDS[i] in HTTP_WORDS;
    }
    if word :| word in HTTP_WORDS && Spells(data, word) {
      var i: nat :| i < 10 && HTTP_WORDS[i] == word;
      SpellsToken(data, i);
      assert HTTP_TOKENS[i] in HTTP_TOKENS;
    }
  }

  /** Content decides before ports, TLS before HTTP, and those before the control protocols in this order. */
  lemma ClassifyIff(data: seq<byte>, key: FlowKey)
    ensures Classify(data, key) == Tls <==>
            IsTlsRecord(data) || (!IsHttpMessage(data) && On(key, {443, 8443}))
    ensures Classify(data, key) == Http <==>
            IsHttpMessage(data) || (!IsTlsRecord(data) && !On(key, {443, 8443}) && On(key, {80, 8080}))
    ensures Classify(data, key) == Modbus <==> ByIcsPort(data, key) && On(key, {502})
    ensures Classify(data, key) == Dnp3 <==> ByIcsPort(data, key) && On(key, {20000}) && !On(key, {502})
    ensures Classify(data, key) == Enip <==> ByIcsPort(data, key) && On(key, {44818}) && !On(key, {502, 20000})
    ensures Classify(data, key) == Iec104 <==>
            ByIcsPort(data, key) && On(key, {2404}) && !On(key, {502, 20000, 44818})
    ensures Classify(data, key) == Unclassified <==>
            ByIcsPort(data, key) && !On(key, {502, 20000, 44818, 2404})
  {
    hide Spells;
    TokenIsWord(data);
  }

  datatype Transport = Tcp | Udp

  type PortCounts = map<(Transport, nat), nat>

  datatype State = State(routes: map<FlowKey, Target>, attempts: map<FlowKey, nat>, unclassified: nat, gaps: PortCounts)

  /** Which analyzers are present does not change during a run. */
  datatype Config = Config(cap: nat, analyzers: set<Target>, countGaps: bool)

  const START := State(map[], map[], 0, map[])

  /** The new state, and where the chunk is sent; nothing happens without an analyzer. */
  function OnData(cfg: Config, st: State, key: FlowKey, data: seq<byte>): (State, Target) {
    if cfg.analyzers == {} then (st, Unclassified)
    else if key in st.routes then (st, st.routes[key])
    else
      var target := Classify(data, key);
      if target != Unclassified then
        (st.(routes := st.routes[key := target], attempts := st.attempts - {key}), target)
      else
        var count := (if key in st.attempts then st.attempts[key] else 0) + 1;
        if count >= cfg.cap then
          (st.(routes := st.routes[key := Unclassified], attempts := st.attempts - {key}), Unclassified)
        else (st.(attempts := st.attempts[key := count]), Unclassified)
  }

  function AddGap(gaps: PortCounts, k: (Transport, nat)): PortCounts {
    gaps[k := (if k in gaps then gaps[k] else 0) + 1]
  }

  /** The new state, and the analyzer that is told about the close, if any. */
  function OnClose(cfg: Config, st: State, key: FlowKey): (State, Target) {
    var target := if key in st.routes then st.routes[key] else Unclassified;
    var st1 := st.(routes := st.routes - {key}, attempts := st.attempts - {key});
    if target == Unclassified && cfg.analyzers != {} then
      (st1.(unclassified := st.unclassified + 1,
            gaps := if cfg.countGaps then AddGap(st.gaps, (Tcp, key.ServicePort())) else st.gaps), target)
    else (st1, target)
  }

  datatype Op = Chunk(key: FlowKey, data: seq<byte>) | Close(key: FlowKey)

  function Step(cfg: Config, st: State, op: Op): State {
    match op
    case Chunk(key, data) => OnData(cfg, st, key, data).0
    case Close(key) => OnClose(cfg, st, key).0
  }

  function Run(cfg: Config, ops: seq<Op>): State {
    if ops == [] then START else Step(cfg, Run(cfg, ops[..|ops| - 1]), ops[|ops| - 1])
  }

  // ---- the specification, flow by flow ---------------------------------------------------------

  /** The chunks of a flow since it was last closed. */
  function Since(ops: seq<Op>, key: FlowKey): seq<seq<byte>> {
    if ops == [] then []
    else
      var op := ops[|ops| - 1];
      var before := Since(ops[..|ops| - 1], key);
      if op.key != key then before else if op.Close? then [] else before + [op.data]
  }

  /** How many chunks are looked at: the cap, but never none. */
  function Budget(cap: nat): nat { if cap == 0 then 1 else cap }

  /** The first recognised class among the chunks within the budget. */
  function Decide(budget: nat, key: FlowKey, chunks: seq<seq<byte>>): Target {
    if chunks == [] then Unclassified
    else
      var n := |chunks| - 1;
      var earlier := Decide(budget, key, chunks[..n]);
      if earlier != Unclassified || n >= budget then earlier else Classify(chunks[n], key)
  }

  /** Nothing within the budget before chunk j was recognised. */
  ghost predicate NothingBefore(key: FlowKey, chunks: seq<seq<byte>>, j: nat) {
    forall i :: 0 <= i < j && i < |chunks| ==> Classify(chunks[i], key) == Unclassified
  }

  lemma {:induction false} DecideIsFirst(budget: nat, key: FlowKey, chunks: seq<seq<byte>>, t: Target)
    requires t != Unclassified
    ensures Decide(budget, key, chunks) == t <==>
            exists j: nat :: j < |chunks| && j < budget && Classify(chunks[j], key) == t && NothingBefore(key, chunks, j)
    ensures Decide(budget, key, chunks) == Unclassified <==> NothingBefore(key, chunks, budget)
  {
    hide Classify;
    if chunks != [] {
      var n := |chunks| - 1;
      var before := chunks[..n];
      assert forall i :: 0 <= i < n ==> chunks[i] == before[i];
      DecideIsFirst(budget, key, before, t);
      if j: nat :| j < n && j < budget && Classify(before[j], key) == t && NothingBefore(key, before, j) {
        assert Classify(chunks[j], key) == t && NothingBefore(key, chunks, j);
      }
      if n < budget && NothingBefore(key, before, budget) && Classify(chunks[n], key) == t {
        assert NothingBefore(key, chunks, n);
      }
      if j: nat :| j < |chunks| && j < budget && Classify(chunks[j], key) == t && NothingBefore(key, chunks, j) {
        if j < n {
          assert Classify(before[j], key) == t && NothingBefore(key, before, j);
        } else {
          assert NothingBefore(key, before, budget);
        }
      }
    }
  }

  /** The cache entry and the counter of a flow are functions of its chunks since the last close. */
  ghost predicate Tracks(cfg: Config, st: State, key: FlowKey, chunks: seq<seq<byte>>) {
    var budget := Budget(cfg.cap);
    var target := Decide(budget, key, chunks);
    && (key in st.routes <==> target != Unclassified || |chunks| >= budget)
    && (key in st.routes ==> st.routes[key] == target)
    && (key in st.attempts <==> target == Unclassified && 1 <= |chunks| < budget)
    && (key in st.attempts ==> st.attempts[key] == |chunks|)
  }

  lemma ChunkTracks(cfg: Config, st: State, key: FlowKey, chunks: seq<seq<byte>>, data: seq<byte>)
    requires cfg.analyzers != {} && Tracks(cfg, st, key, chunks)
    ensures var r := OnData(cfg, st, key, data);
            Tracks(cfg, r.0, key, chunks + [data]) && r.1 == Decide(Budget(cfg.cap), key, chunks + [data])
  {
    hide Classify, Decide;
    DecideMore(Budget(cfg.cap), key, chunks, data);
  }

  lemma DecideMore(budget: nat, key: FlowKey, chunks: seq<seq<byte>>, data: seq<byte>)
    ensures var earlier := Decide(budget, key, chunks);
            Decide(budget, key, chunks + [data]) ==
            if earlier != Unclassified || |chunks| >= budget then earlier else Classify(data, key)
  {
    hide Classify;
    assert (chunks + [data])[..|chunks|] == chunks;
  }

  /** In every run, over any interleaving of flows and closes, the cache is what the specification says. */
  lemma {:induction false} RunTracks(cfg: Config, ops: seq<Op>, key: FlowKey)
    requires cfg.analyzers != {}
    ensures Tracks(cfg, Run(cfg, ops), key, Since(ops, key))
  {
    hide Classify;
    if ops != [] {
      var before, op := ops[..|ops| - 1], ops[|ops| - 1];
      RunTracks(cfg, before, key);
      if op.Chunk? && op.key == key {
        ChunkTracks(cfg, Run(cfg, before), key, Since(before, key), op.data);
      }
    }
  }

  /**
   A chunk is sent to the first recognised class among its flow's first chunks, from the chunk that showed it on, and
   nowhere before that or once the budget is spent; a close is told to the analyzer that had the flow.
   */
  lemma RoutingIsSpecified(cfg: Config, ops: seq<Op>, key: FlowKey, data: seq<byte>)
    requires cfg.analyzers != {}
    ensures OnData(cfg, Run(cfg, ops), key, data).1 == Decide(Budget(cfg.cap), key, Since(ops, key) + [data])
    ensures OnClose(cfg, Run(cfg, ops), key).1 == Decide(Budget(cfg.cap), key, Since(ops, key))
  {
    RunTracks(cfg, ops, key);
    ChunkTracks(cfg, Run(cfg, ops), key, Since(ops, key), data);
  }

  /** Cached keys and counted keys are disjoint, and a counter is at least 1 and below the cap. */
  lemma CacheAndCountersApart(cfg: Config, ops: seq<Op>, key: FlowKey)
    requires cfg.analyzers != {}
    ensures var st := Run(cfg, ops);
            && !(key in st.routes && key in st.attempts)
            && (key in st.attempts ==> 1 <= st.attempts[key] < cfg.cap)
  {
    RunTracks(cfg, ops, key);
  }

  /** A cap of 0 does not switch classification off: it is a cap of 1. */
  lemma {:induction false} CapZeroIsCapOne(cfg: Config, ops: seq<Op>)
    requires cfg.cap == 0
    ensures Run(cfg, ops) == Run(cfg.(cap := 1), ops)
  {
    hide Classify;
    if ops != [] {
      CapZeroIsCapOne(cfg, ops[..|ops| - 1]);
    }
  }

  // ---- the program's own form ------------------------------------------------------------------

  class StreamDispatcher {
    const cfg: Config
    var routes: map<FlowKey, Target>
    var attempts: map<FlowKey, nat>
    var unclassified: nat
    var gaps: PortCounts

    ghost function Model(): State
      reads this
    {
      State(routes, attempts, unclassified, gaps)
    }

    constructor (cfg: Config)
      ensures this.cfg == cfg && Model() == START
    {
      this.cfg := cfg;
      routes, attempts, unclassified, gaps := map[], map[], 0, map[];
    }

    method OnChunk(key: FlowKey, data: seq<byte>) returns (target: Target)
      modifies this`routes, this`attempts
      ensures (Model(), target) == OnData(cfg, old(Model()), key, data)
    {
      hide Classify;
      if cfg.analyzers == {} {
        return Unclassified;
      }
      if key in routes {
        return routes[key];
      }
      target := Classify(data, key);
      if target == Unclassified {
        var count := (if key in attempts then attempts[key] else 0) + 1;
        attempts := attempts[key := count];
        if count >= cfg.cap {
          routes := routes[key := Unclassified];
          attempts := attempts - {key};
          assert attempts == old(attempts) - {key};
        }
      } else {
        routes := routes[key := target];
        attempts := attempts - {key};
      }
    }

    method OnFlowClose(key: FlowKey) returns (target: Target)
      modifies this
      ensures (Model(), target) == OnClose(cfg, old(Model()), key)
    {
      attempts := attempts - {key};
      target := if key in routes then routes[key] else Unclassified;
      routes := routes - {key};
      if target == Unclassified && cfg.analyzers != {} {
        unclassified := unclassified + 1;
        if cfg.countGaps {
          gaps := AddGap(gaps, (Tcp, key.ServicePort()));
        }
      }
    }
  }
}
