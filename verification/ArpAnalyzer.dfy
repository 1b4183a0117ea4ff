/** The ARP analyzer: what one frame does to the binding table, the storm counters and the totals. */
module ArpAnalyzer {
  import opened Octets
  import opened Findings
  import opened Tables
  import opened ArpTable

  const MAX_BINDINGS: nat := 65_536
  const MAX_STORMS: nat := 4_096
  const WINDOW_SECS: nat := 60
  const ZERO_IP := Ip(0)
  const BROADCAST_IP := Ip(0xFFFF_FFFF)

  datatype ArpFrame = ArpFrame(operation: nat, senderMac: Mac, senderIp: Ip, targetIp: Ip, outerSrcMac: Option<Mac>)

  datatype Finding = Mismatch | Storm | Garp(confidence: Confidence) | Spoof(confidence: Confidence)

  datatype Counter = Counter(count: nat, start: nat, emitted: bool)

  datatype Config = Config(threshold: nat, rate: nat, ipOrder: Order<Ip>, macOrder: Order<Mac>)

  datatype State = State(
    bindings: map<Ip, Entry>, storms: map<Mac, Counter>,
    frames: nat, requests: nat, replies: nat, others: nat,
    spoofs: nat, garps: nat, stormFindings: nat, mismatches: nat,
    bindingsEvicted: nat, stormsEvicted: nat)

  const START := State(map[], map[], 0, 0, 0, 0, 0, 0, 0, 0, 0, 0)

  /** Thresholds are at least 1, as the command line enforces. */
  ghost predicate ValidConfig(cfg: Config) {
    1 <= cfg.threshold <= U32_MAX && 1 <= cfg.rate && IsOrder(cfg.ipOrder) && IsOrder(cfg.macOrder)
  }

  predicate IsGratuitous(f: ArpFrame) { f.senderIp == f.targetIp }

  /** Frames from the zero and the broadcast address are only counted. */
  predicate Accepted(f: ArpFrame) { f.senderIp != ZERO_IP && f.senderIp != BROADCAST_IP }

  // ---- rebinding -------------------------------------------------------------------------------

  predicate FlapExpired(e: Entry, ts: nat) {
    e.firstRebind.Some? && SatSub(ts, e.firstRebind.value) > WINDOW_SECS
  }

  /** The escalation state after one more rebind; the MAC is the caller's to change. */
  function Rebound(e: Entry, threshold: nat, ts: nat): Entry {
    var e0 := if FlapExpired(e, ts) then e.(rebinds := 0, firstRebind := None, high := false) else e;
    var n := SatInc32(e0.rebinds);
    var first := if e0.firstRebind.None? then ts else e0.firstRebind.value;
    e0.(rebinds := n, firstRebind := Some(first),
        high := e0.high || (n >= threshold && SatSub(ts, first) <= WINDOW_SECS))
  }

  function ReboundConfidence(e: Entry, threshold: nat, ts: nat): Confidence {
    if Rebound(e, threshold, ts).high && (FlapExpired(e, ts) || !e.high) then High else Medium
  }

  datatype Observed = Observed(bindings: map<Ip, Entry>, evicted: bool, spoof: Option<Confidence>)

  /** One accepted sender, gratuitous or not. */
  function Observe(cfg: Config, b: map<Ip, Entry>, n: nat, ip: Ip, mac: Mac, ts: nat): Observed
    requires ValidConfig(cfg)
  {
    if ip !in b then
      var r := InsertBinding(cfg.ipOrder, n, b, ip, mac, MAX_BINDINGS);
      Observed(r.table[ip := r.table[ip].(lastSeen := ts)], r.evicted, None)
    else if b[ip].mac == mac then Observed(b[ip := b[ip].(lastSeen := ts)], false, None)
    else Observed(b[ip := Rebound(b[ip], cfg.threshold, ts).(mac := mac, lastSeen := ts)], false,
                  Some(ReboundConfidence(b[ip], cfg.threshold, ts)))
  }

  // ---- storms ----------------------------------------------------------------------------------

  function Starts(m: map<Mac, Counter>): (a: map<Mac, nat>)
    ensures a.Keys == m.Keys
  {
    map k | k in m :: m[k].start
  }

  function Max1(n: nat): nat { if n == 0 then 1 else n }

  function Counted(m: map<Mac, Counter>, mac: Mac, ts: nat): Counter {
    if mac in m && SatSub(ts, m[mac].start) <= WINDOW_SECS then m[mac].(count := m[mac].count + 1)
    else Counter(1, ts, false)
  }

  /** Integer division: a fractional rate is cut off. */
  predicate RateReached(rate: nat, c: Counter, ts: nat) {
    c.count / Max1(SatSub(ts, c.start)) >= rate
  }

  datatype Put = Put(storms: map<Mac, Counter>, evicted: bool)

  /** Writes a counter; a sender without one displaces the counter with the earliest window start if need be. */
  function PutCounter(order: Order<Mac>, n: nat, m: map<Mac, Counter>, mac: Mac, c: Counter): (r: Put)
    requires IsOrder(order)
    ensures mac in r.storms && r.storms[mac] == c
    ensures forall k :: k in r.storms && k != mac ==> k in m && r.storms[k] == m[k]
    ensures |m| <= MAX_STORMS ==> |r.storms| <= MAX_STORMS
    ensures !r.evicted ==> r.storms == m[mac := c]
    ensures r.evicted ==> |m| >= MAX_STORMS && mac !in m
  {
    if mac !in m && |m| >= MAX_STORMS then
      assert m.Keys != {};
      var v := Victim(order, n, Starts(m));
      SwapSize(m, v, mac, c);
      Put((m - {v})[mac := c], true)
    else
      AddSize(m, mac, c);
      Put(m[mac := c], false)
  }

  /** A displaced counter is one whose window started no later than any other. */
  lemma DisplacedIsEarliest(order: Order<Mac>, n: nat, m: map<Mac, Counter>, mac: Mac, c: Counter, k: Mac, p: Mac)
    requires IsOrder(order) && k in m && k !in PutCounter(order, n, m, mac, c).storms && p in m
    ensures m[k].start <= m[p].start
  {
    var v := Victim(order, n, Starts(m));
    assert Starts(m)[v] <= Starts(m)[p];
  }

  lemma PutAgain(order: Order<Mac>, n: nat, m: map<Mac, Counter>, mac: Mac, c: Counter, c1: Counter)
    requires IsOrder(order)
    ensures PutCounter(order, n, m, mac, c1) ==
            PutCounter(order, n, m, mac, c).(storms := PutCounter(order, n, m, mac, c).storms[mac := c1])
  {
  }

  datatype StormStep = StormStep(storms: map<Mac, Counter>, evicted: bool, emitted: bool)

  /** Counts in the running window or starts a new one, then looks at the rate. */
  function CountFrame(cfg: Config, m: map<Mac, Counter>, n: nat, mac: Mac, ts: nat): StormStep
    requires ValidConfig(cfg)
  {
    var c := Counted(m, mac, ts);
    var hit := RateReached(cfg.rate, c, ts) && !c.emitted;
    var put := PutCounter(cfg.macOrder, n, m, mac, c.(emitted := c.emitted || hit));
    StormStep(put.storms, put.evicted, hit)
  }

  // ---- one frame -------------------------------------------------------------------------------

  function Tally(st: State, f: ArpFrame): State {
    st.(frames := st.frames + 1, requests := st.requests + Count(f.operation == 1),
        replies := st.replies + Count(f.operation == 2),
        others := st.others + Count(f.operation != 1 && f.operation != 2))
  }

  predicate IsMismatch(f: ArpFrame) { f.outerSrcMac.Some? && f.outerSrcMac.value != f.senderMac }

  function SenderFindings(f: ArpFrame, s: StormStep): seq<Finding> {
    (if IsMismatch(f) then [Mismatch] else []) + (if s.emitted then [Storm] else [])
  }

  /** A gratuitous frame that conflicts is reported more confidently and together with the spoofing. */
  function BindingFindings(f: ArpFrame, o: Observed): seq<Finding> {
    (if IsGratuitous(f) then [Garp(if o.spoof.Some? then Medium else Low)] else [])
    + (if o.spoof.Some? then [Spoof(o.spoof.value)] else [])
  }

  function Process(cfg: Config, st: State, f: ArpFrame, ts: nat): (State, seq<Finding>)
    requires ValidConfig(cfg)
  {
    var st1 := Tally(st, f);
    if !Accepted(f) then (st1, [])
    else
      var s := CountFrame(cfg, st.storms, st.stormsEvicted, f.senderMac, ts);
      var o := Observe(cfg, st.bindings, st.bindingsEvicted, f.senderIp, f.senderMac, ts);
      (st1.(bindings := o.bindings, bindingsEvicted := st.bindingsEvicted + Count(o.evicted),
            storms := s.storms, stormsEvicted := st.stormsEvicted + Count(s.evicted),
            spoofs := st.spoofs + Count(o.spoof.Some?), garps := st.garps + Count(IsGratuitous(f)),
            stormFindings := st.stormFindings + Count(s.emitted), mismatches := st.mismatches + Count(IsMismatch(f))),
       SenderFindings(f, s) + BindingFindings(f, o))
  }

  // ---- the program's own form ------------------------------------------------------------------

  /** Table insertion with the scan for the entry seen longest ago. */
  method InsertBindingLru(order: Order<Ip>, n: nat, b: map<Ip, Entry>, ip: Ip, mac: Mac, cap: nat)
    returns (after: map<Ip, Entry>, evicted: bool)
    requires IsOrder(order)
    ensures Inserted(after, evicted) == InsertBinding(order, n, b, ip, mac, cap)
  {
    if ip in b {
      return b[ip := b[ip].(mac := mac)], false;
    }
    after, evicted := b, |b| >= cap;
    if evicted && b != map[] {
      assert b.Keys != {};
      var keys := order(n, Ages(b).Keys);
      assert Lists(keys, Ages(b).Keys);
      ghost var k :| k in b.Keys;
      assert k in keys;
      var victim := ScanOldest(keys, Ages(b));
      after := b - {victim};
    }
    after := after[ip := Entry(mac, 0, None, false, 0)];
  }

  class Analyzer {
    const cfg: Config
    var bindings: map<Ip, Entry>
    var storms: map<Mac, Counter>
    var frames: nat
    var requests: nat
    var replies: nat
    var others: nat
    var spoofs: nat
    var garps: nat
    var stormFindings: nat
    var mismatches: nat
    var bindingsEvicted: nat
    var stormsEvicted: nat

    ghost function Model(): State
      reads this
    {
      State(bindings, storms, frames, requests, replies, others, spoofs, garps, stormFindings, mismatches,
            bindingsEvicted, stormsEvicted)
    }

    constructor (cfg: Config)
      ensures this.cfg == cfg && Model() == START
    {
      this.cfg := cfg;
      bindings, storms := map[], map[];
      frames, requests, replies, others := 0, 0, 0, 0;
      spoofs, garps, stormFindings, mismatches := 0, 0, 0, 0;
      bindingsEvicted, stormsEvicted := 0, 0;
    }

    method InsertStormCounterLru(mac: Mac, ts: nat)
      requires ValidConfig(cfg)
      modifies this`storms, this`stormsEvicted
      ensures var put := PutCounter(cfg.macOrder, old(stormsEvicted), old(storms), mac, Counter(1, ts, false));
              storms == put.storms && stormsEvicted == old(stormsEvicted) + Count(put.evicted)
    {
      if mac !in storms && |storms| >= MAX_STORMS {
        assert storms.Keys != {};
        var keys := cfg.macOrder(stormsEvicted, Starts(storms).Keys);
        assert Lists(keys, Starts(storms).Keys);
        ghost var k :| k in storms.Keys;
        assert k in keys;
        var victim := ScanOldest(keys, Starts(storms));
        storms := storms - {victim};
        stormsEvicted := stormsEvicted + 1;
      }
      storms := storms[mac := Counter(1, ts, false)];
    }

    method DetectStorm(mac: Mac, ts: nat) returns (emitted: bool)
      requires ValidConfig(cfg)
      modifies this`storms, this`stormsEvicted
      ensures var s := CountFrame(cfg, old(storms), old(stormsEvicted), mac, ts);
              storms == s.storms && stormsEvicted == old(stormsEvicted) + Count(s.evicted) && emitted == s.emitted
    {
      hide PutCounter, RateReached;
      ghost var c0 := Counted(storms, mac, ts);
      PutAgain(cfg.macOrder, stormsEvicted, storms, mac, c0, c0.(emitted := true));
      if mac !in storms || SatSub(ts, storms[mac].start) > WINDOW_SECS {
        InsertStormCounterLru(mac, ts);
      } else {
        storms := storms[mac := storms[mac].(count := storms[mac].count + 1)];
      }
      var c := storms[mac];
      emitted := RateReached(cfg.rate, c, ts) && !c.emitted;
      if emitted {
        storms := storms[mac := c.(emitted := true)];
      }
    }

    /** Records a rebind of a known address; the MAC is written last. */
    method EmitSpoof(ip: Ip, mac: Mac, ts: nat) returns (finding: Finding)
      requires ip in bindings
      modifies this`bindings, this`spoofs
      ensures bindings == old(bindings)[ip := Rebound(old(bindings)[ip], cfg.threshold, ts).(mac := mac)]
      ensures spoofs == old(spoofs) + 1 && finding == Spoof(ReboundConfidence(old(bindings)[ip], cfg.threshold, ts))
    {
      var e := bindings[ip];
      if e.firstRebind.Some? && SatSub(ts, e.firstRebind.value) > WINDOW_SECS {
        e := e.(rebinds := 0, firstRebind := None, high := false);
      }
      e := e.(rebinds := SatInc32(e.rebinds));
      if e.firstRebind.None? {
        e := e.(firstRebind := Some(ts));
      }
      var confidence := Medium;
      if e.rebinds >= cfg.threshold && SatSub(ts, e.firstRebind.value) <= WINDOW_SECS && !e.high {
        e := e.(high := true);
        confidence := High;
      }
      bindings := bindings[ip := e.(mac := mac)];
      spoofs := spoofs + 1;
      finding := Spoof(confidence);
    }

    /** Registers a sender the table does not know. */
    method Learn(ip: Ip, mac: Mac)
      requires ValidConfig(cfg)
      modifies this`bindings, this`bindingsEvicted
      ensures var r := InsertBinding(cfg.ipOrder, old(bindingsEvicted), old(bindings), ip, mac, MAX_BINDINGS);
              bindings == r.table && bindingsEvicted == old(bindingsEvicted) + Count(r.evicted)
    {
      var after, evicted := InsertBindingLru(cfg.ipOrder, bindingsEvicted, bindings, ip, mac, MAX_BINDINGS);
      bindings := after;
      bindingsEvicted := bindingsEvicted + Count(evicted);
    }

    /** The gratuitous branch and the ordinary one. */
    method ObserveSender(f: ArpFrame, ts: nat) returns (findings: seq<Finding>)
      requires ValidConfig(cfg)
      modifies this`bindings, this`bindingsEvicted, this`spoofs, this`garps
      ensures var o := Observe(cfg, old(bindings), old(bindingsEvicted), f.senderIp, f.senderMac, ts);
              && bindings == o.bindings && bindingsEvicted == old(bindingsEvicted) + Count(o.evicted)
              && spoofs == old(spoofs) + Count(o.spoof.Some?) && garps == old(garps) + Count(IsGratuitous(f))
              && findings == BindingFindings(f, o)
    {
      hide Rebound, ReboundConfidence, InsertBinding;
      var ip, mac := f.senderIp, f.senderMac;
      findings := [];
      if IsGratuitous(f) {
        garps := garps + 1;
        if ip in bindings && bindings[ip].mac != mac {
          var spoof := EmitSpoof(ip, mac, ts);
          findings := [Garp(Medium), spoof];
        } else {
          findings := [Garp(Low)];
          if ip !in bindings {
            Learn(ip, mac);
          }
        }
        bindings := bindings[ip := bindings[ip].(lastSeen := ts, mac := mac)];
        return;
      }
      if ip in bindings {
        if bindings[ip].mac != mac {
          var spoof := EmitSpoof(ip, mac, ts);
          findings := [spoof];
        }
      } else {
        Learn(ip, mac);
      }
      bindings := bindings[ip := bindings[ip].(lastSeen := ts)];
    }

    method TallyFrame(f: ArpFrame)
      modifies this`frames, this`requests, this`replies, this`others
      ensures frames == old(frames) + 1 && requests == old(requests) + Count(f.operation == 1)
      ensures replies == old(replies) + Count(f.operation == 2)
      ensures others == old(others) + Count(f.operation != 1 && f.operation != 2)
    {
      frames := frames + 1;
      if f.operation == 1 {
        requests := requests + 1;
      } else if f.operation == 2 {
        replies := replies + 1;
      } else {
        others := others + 1;
      }
    }

    /** The checks that do not look at the binding table. */
    method CheckSender(f: ArpFrame, ts: nat) returns (findings: seq<Finding>)
      requires ValidConfig(cfg)
      modifies this`mismatches, this`storms, this`stormsEvicted, this`stormFindings
      ensures var s := CountFrame(cfg, old(storms), old(stormsEvicted), f.senderMac, ts);
              && storms == s.storms && stormsEvicted == old(stormsEvicted) + Count(s.evicted)
              && stormFindings == old(stormFindings) + Count(s.emitted)
              && mismatches == old(mismatches) + Count(IsMismatch(f))
              && findings == SenderFindings(f, s)
    {
      hide CountFrame;
      findings := [];
      if f.outerSrcMac.Some? && f.outerSrcMac.value != f.senderMac {
        mismatches := mismatches + 1;
        findings := findings + [Mismatch];
      }
      var storm := DetectStorm(f.senderMac, ts);
      if storm {
        stormFindings := stormFindings + 1;
        findings := findings + [Storm];
      }
    }

    method ProcessArp(f: ArpFrame, ts: nat) returns (findings: seq<Finding>)
      requires ValidConfig(cfg)
      modifies this
      ensures (Model(), findings) == Process(cfg, old(Model()), f, ts)
    {
      hide CountFrame, Observe, BindingFindings, SenderFindings;
      findings := [];
      TallyFrame(f);
      if f.senderIp == ZERO_IP || f.senderIp == BROADCAST_IP {
        return;
      }
      var first := CheckSender(f, ts);
      var second := ObserveSender(f, ts);
      findings := first + second;
    }
  }
}
