/** Whole captures: the ARP tables against what an analyzer with unlimited memory would know. */
module ArpRuns {
  import opened Octets
  import opened Findings
  import opened Tables
  import opened Windows
  import opened ArpTable
  import opened ArpAnalyzer

  datatype Event = Event(frame: ArpFrame, ts: nat)

  function Run(cfg: Config, es: seq<Event>): State
    requires ValidConfig(cfg)
  {
    if es == [] then START
    else
      var n := |es| - 1;
      Process(cfg, Run(cfg, es[..n]), es[n].frame, es[n].ts).0
  }

  /** Frames from the addresses 0.0.0.0 and 255.255.255.255 say nothing about a sender. */
  predicate Genuine(f: ArpFrame) { f.senderIp != Ip(0) && f.senderIp != Ip(0xFFFF_FFFF) }

  /** The last MAC and time of every accepted sender, with nothing ever forgotten. */
  function LastWriter(es: seq<Event>): map<Ip, (Mac, nat)> {
    if es == [] then map[]
    else
      var n := |es| - 1;
      var f := es[n].frame;
      if Genuine(f) then LastWriter(es[..n])[f.senderIp := (f.senderMac, es[n].ts)] else LastWriter(es[..n])
  }

  ghost predicate Monotone(es: seq<Event>) {
    forall i, j :: 0 <= i < j < |es| ==> es[i].ts <= es[j].ts
  }

  // ---- one observation -------------------------------------------------------------------------

  /** What an insertion leaves alone, and what it may remove. */
  lemma InsertShape(order: Order<Ip>, n: nat, b: map<Ip, Entry>, ip: Ip, mac: Mac, cap: nat)
    requires IsOrder(order) && cap >= 1 && ip !in b
    ensures var r := InsertBinding(order, n, b, ip, mac, cap);
            && r.table[ip] == Entry(mac, 0, None, false, 0)
            && (forall k :: k in r.table && k != ip ==> k in b && r.table[k] == b[k])
            && (forall k, p :: k in b && k !in r.table && p in b ==> b[k].lastSeen <= b[p].lastSeen)
            && (!r.evicted ==> r.table == b[ip := Entry(mac, 0, None, false, 0)])
            && (r.evicted ==> |b| >= cap)
  {
    if |b| >= cap {
      assert b.Keys != {};
      var v := Victim(order, n, Ages(b));
      assert forall p :: p in b ==> Ages(b)[v] <= Ages(b)[p];
    }
  }

  lemma ObserveShape(cfg: Config, b: map<Ip, Entry>, n: nat, ip: Ip, mac: Mac, ts: nat)
    requires ValidConfig(cfg)
    ensures var o := Observe(cfg, b, n, ip, mac, ts);
            && ip in o.bindings && o.bindings[ip].mac == mac && o.bindings[ip].lastSeen == ts
            && (forall k :: k in o.bindings && k != ip ==> k in b && o.bindings[k] == b[k])
            && (forall k, p :: k in b && k !in o.bindings && p in b ==> b[k].lastSeen <= b[p].lastSeen)
            && (!o.evicted ==> o.bindings.Keys == b.Keys + {ip})
            && (o.evicted ==> |b| >= MAX_BINDINGS && ip !in b)
            && (o.spoof.Some? <==> ip in b && b[ip].mac != mac)
  {
    hide InsertBinding, Rebound, ReboundConfidence;
    if ip !in b {
      InsertShape(cfg.ipOrder, n, b, ip, mac, MAX_BINDINGS);
    }
  }

  // ---- the binding table is a cache ------------------------------------------------------------

  ghost predicate Agrees(b: map<Ip, Entry>, lw: map<Ip, (Mac, nat)>) {
    forall ip :: ip in b ==> ip in lw && lw[ip] == (b[ip].mac, b[ip].lastSeen)
  }

  ghost predicate OlderOutside(b: map<Ip, Entry>, lw: map<Ip, (Mac, nat)>) {
    forall a, p :: a in lw && a !in b && p in b ==> lw[a].1 <= b[p].lastSeen
  }

  /** Every entry is exactly what the last accepted frame of its address said, in whatever order time runs. */
  lemma {:induction false} CacheAgrees(cfg: Config, es: seq<Event>)
    requires ValidConfig(cfg)
    ensures Agrees(Run(cfg, es).bindings, LastWriter(es))
  {
    hide CountFrame, Observe;
    if es != [] {
      var n := |es| - 1;
      CacheAgrees(cfg, es[..n]);
      var st, f := Run(cfg, es[..n]), es[n].frame;
      ObserveShape(cfg, st.bindings, st.bindingsEvicted, f.senderIp, f.senderMac, es[n].ts);
    }
  }

  lemma {:induction false} NoLaterThan(es: seq<Event>, t: nat)
    requires forall i :: 0 <= i < |es| ==> es[i].ts <= t
    ensures forall ip :: ip in LastWriter(es) ==> LastWriter(es)[ip].1 <= t
  {
    if es != [] {
      NoLaterThan(es[..|es| - 1], t);
    }
  }

  /** If time does not run backwards, what was forgotten was seen no later than anything kept: true LRU up to ties. */
  lemma {:induction false} EvictionIsLru(cfg: Config, es: seq<Event>)
    requires ValidConfig(cfg) && Monotone(es)
    ensures OlderOutside(Run(cfg, es).bindings, LastWriter(es))
  {
    hide CountFrame, Observe;
    if es != [] {
      var n := |es| - 1;
      EvictionIsLru(cfg, es[..n]);
      CacheAgrees(cfg, es[..n]);
      NoLaterThan(es[..n], es[n].ts);
      var st, f := Run(cfg, es[..n]), es[n].frame;
      ObserveShape(cfg, st.bindings, st.bindingsEvicted, f.senderIp, f.senderMac, es[n].ts);
      assert Monotone(es[..n]);
    }
  }

  /** How often an address entered the table. */
  function Insertions(cfg: Config, es: seq<Event>): nat
    requires ValidConfig(cfg)
  {
    if es == [] then 0
    else
      var n := |es| - 1;
      Insertions(cfg, es[..n])
      + Count(Genuine(es[n].frame) && es[n].frame.senderIp !in Run(cfg, es[..n]).bindings)
  }

  lemma ObserveSize(cfg: Config, b: map<Ip, Entry>, n: nat, ip: Ip, mac: Mac, ts: nat)
    requires ValidConfig(cfg) && |b| <= MAX_BINDINGS
    ensures var o := Observe(cfg, b, n, ip, mac, ts);
            |o.bindings| <= MAX_BINDINGS && |b| + Count(ip !in b) == |o.bindings| + Count(o.evicted)
  {
    hide InsertBinding, Rebound, ReboundConfidence;
    if ip in b {
      AddSize(b, ip, Observe(cfg, b, n, ip, mac, ts).bindings[ip]);
    } else {
      var r := InsertBinding(cfg.ipOrder, n, b, ip, mac, MAX_BINDINGS);
      AddSize(r.table, ip, r.table[ip].(lastSeen := ts));
    }
  }

  /** The table stays within its cap, and every insertion is still there or was evicted. */
  lemma {:induction false} BindingsConserved(cfg: Config, es: seq<Event>)
    requires ValidConfig(cfg)
    ensures |Run(cfg, es).bindings| <= 65_536
    ensures Insertions(cfg, es) == Run(cfg, es).bindingsEvicted + |Run(cfg, es).bindings|
  {
    hide CountFrame, Observe;
    if es != [] {
      var n := |es| - 1;
      BindingsConserved(cfg, es[..n]);
      var st, f := Run(cfg, es[..n]), es[n].frame;
      ObserveSize(cfg, st.bindings, st.bindingsEvicted, f.senderIp, f.senderMac, es[n].ts);
    }
  }

  // ---- spoofing --------------------------------------------------------------------------------

  /** Accepted frames whose MAC differs from that of the previous accepted frame of the same address. */
  function MacChanges(es: seq<Event>): nat {
    if es == [] then 0
    else
      var n := |es| - 1;
      var f := es[n].frame;
      var lw := LastWriter(es[..n]);
      MacChanges(es[..n]) + Count(Genuine(f) && f.senderIp in lw && lw[f.senderIp].0 != f.senderMac)
  }

  lemma LastWriterGrows(es: seq<Event>)
    requires es != []
    ensures LastWriter(es[..|es| - 1]).Keys <= LastWriter(es).Keys
  {
  }

  lemma SubsetSize<T>(a: set<T>, b: set<T>)
    requires a <= b
    ensures |a| <= |b|
  {
    if a != {} {
      var x :| x in a;
      SubsetSize(a - {x}, b - {x});
    }
  }

  /** With at most 65,536 senders nothing is forgotten. */
  lemma {:induction false} NothingForgotten(cfg: Config, es: seq<Event>)
    requires ValidConfig(cfg) && |LastWriter(es).Keys| <= MAX_BINDINGS
    ensures Run(cfg, es).bindings.Keys == LastWriter(es).Keys && Run(cfg, es).bindingsEvicted == 0
  {
    hide CountFrame, Observe;
    if es != [] {
      var n := |es| - 1;
      LastWriterGrows(es);
      SubsetSize(LastWriter(es[..n]).Keys, LastWriter(es).Keys);
      NothingForgotten(cfg, es[..n]);
      var st, f := Run(cfg, es[..n]), es[n].frame;
      ObserveShape(cfg, st.bindings, st.bindingsEvicted, f.senderIp, f.senderMac, es[n].ts);
      if Genuine(f) && f.senderIp !in st.bindings {
        assert LastWriter(es).Keys == LastWriter(es[..n]).Keys + {f.senderIp};
      }
    }
  }

  /** Spoof findings never exceed the MAC changes, and equal them when at most 65,536 senders appear. */
  lemma {:induction false} SpoofsAreMacChanges(cfg: Config, es: seq<Event>)
    requires ValidConfig(cfg)
    ensures Run(cfg, es).spoofs <= MacChanges(es)
    ensures |LastWriter(es).Keys| <= 65_536 ==> Run(cfg, es).spoofs == MacChanges(es)
  {
    hide CountFrame, Observe;
    if es != [] {
      var n := |es| - 1;
      SpoofsAreMacChanges(cfg, es[..n]);
      CacheAgrees(cfg, es[..n]);
      LastWriterGrows(es);
      SubsetSize(LastWriter(es[..n]).Keys, LastWriter(es).Keys);
      if |LastWriter(es).Keys| <= MAX_BINDINGS {
        NothingForgotten(cfg, es[..n]);
      }
      var st, f := Run(cfg, es[..n]), es[n].frame;
      ObserveShape(cfg, st.bindings, st.bindingsEvicted, f.senderIp, f.senderMac, es[n].ts);
    }
  }

  /** MAC changes of addresses that the table had forgotten when they came. */
  function MissedChanges(cfg: Config, es: seq<Event>): nat
    requires ValidConfig(cfg)
  {
    if es == [] then 0
    else
      var n := |es| - 1;
      var f, lw := es[n].frame, LastWriter(es[..n]);
      MissedChanges(cfg, es[..n])
      + Count(Genuine(f) && f.senderIp in lw && lw[f.senderIp].0 != f.senderMac
              && f.senderIp !in Run(cfg, es[..n]).bindings)
  }

  /** However many senders: a MAC change is reported or its address had been evicted, and nothing else is reported. */
  lemma {:induction false} ChangesReportedOrMissed(cfg: Config, es: seq<Event>)
    requires ValidConfig(cfg)
    ensures MacChanges(es) == Run(cfg, es).spoofs + MissedChanges(cfg, es)
  {
    hide CountFrame, Observe, LastWriter;
    if es != [] {
      var n := |es| - 1;
      ChangesReportedOrMissed(cfg, es[..n]);
      CacheAgrees(cfg, es[..n]);
      var st, f := Run(cfg, es[..n]), es[n].frame;
      ObserveShape(cfg, st.bindings, st.bindingsEvicted, f.senderIp, f.senderMac, es[n].ts);
    }
  }

  /** The flap or storm window that is open after events at these times. */
  function RunningWindow(times: seq<nat>): seq<nat> { Running(times, Moment, 60) }

  /** Times at which an address changed its MAC since it last entered the table. */
  function RebindTimes(cfg: Config, es: seq<Event>, ip: Ip): seq<nat>
    requires ValidConfig(cfg)
  {
    if es == [] then []
    else
      var n := |es| - 1;
      var f := es[n].frame;
      var b := Run(cfg, es[..n]).bindings;
      if !Genuine(f) || f.senderIp != ip then RebindTimes(cfg, es[..n], ip)
      else if ip !in b then []
      else if b[ip].mac != f.senderMac then RebindTimes(cfg, es[..n], ip) + [es[n].ts]
      else RebindTimes(cfg, es[..n], ip)
  }

  /** Times at which the accepted frames of an address changed its MAC. */
  function ChangeTimes(es: seq<Event>, ip: Ip): seq<nat> {
    if es == [] then []
    else
      var n := |es| - 1;
      var f, lw := es[n].frame, LastWriter(es[..n]);
      ChangeTimes(es[..n], ip)
      + if Genuine(f) && f.senderIp == ip && ip in lw && lw[ip].0 != f.senderMac then [es[n].ts] else []
  }

  /** With at most 65,536 senders the rebinds of an address are its MAC changes, whatever the table does. */
  lemma {:induction false} RebindsAreChanges(cfg: Config, es: seq<Event>, ip: Ip)
    requires ValidConfig(cfg) && |LastWriter(es).Keys| <= 65_536
    ensures RebindTimes(cfg, es, ip) == ChangeTimes(es, ip)
    ensures ip !in LastWriter(es) ==> ChangeTimes(es, ip) == []
  {
    hide CountFrame, Observe, Run;
    if es != [] {
      var n := |es| - 1;
      LastWriterGrows(es);
      SubsetSize(LastWriter(es[..n]).Keys, LastWriter(es).Keys);
      RebindsAreChanges(cfg, es[..n], ip);
      NothingForgotten(cfg, es[..n]);
      CacheAgrees(cfg, es[..n]);
    }
  }

  /** The entry's escalation fields are those of the flap window `w`. */
  ghost predicate Escalation(e: Entry, w: seq<nat>, threshold: nat) {
    && e.rebinds == (if |w| <= 0xFFFF_FFFF then |w| else 0xFFFF_FFFF)
    && e.firstRebind == (if w == [] then None else Some(w[0]))
    && (e.high <==> |w| >= threshold)
  }

  /** One rebind: the window moves on, and HIGH is reported exactly when it reaches the threshold. */
  lemma ReboundEscalates(e: Entry, times: seq<nat>, threshold: nat, ts: nat)
    requires 1 <= threshold <= U32_MAX && Escalation(e, RunningWindow(times), threshold)
    ensures var w := RunningWindow(times + [ts]);
            && Escalation(Rebound(e, threshold, ts), w, threshold)
            && (ReboundConfidence(e, threshold, ts) == High <==> |w| == threshold)
  {
    hide Running;
    RunningMore(times, ts, Moment, 60);
  }

  lemma {:induction false} EntriesEscalate(cfg: Config, es: seq<Event>, ip: Ip)
    requires ValidConfig(cfg) && ip in Run(cfg, es).bindings
    ensures Escalation(Run(cfg, es).bindings[ip], RunningWindow(RebindTimes(cfg, es, ip)), cfg.threshold)
  {
    hide CountFrame, Rebound, ReboundConfidence, InsertBinding, RunningWindow;
    var n := |es| - 1;
    var st, f := Run(cfg, es[..n]), es[n].frame;
    if Genuine(f) {
      ObserveShape(cfg, st.bindings, st.bindingsEvicted, f.senderIp, f.senderMac, es[n].ts);
      if f.senderIp !in st.bindings {
        InsertShape(cfg.ipOrder, st.bindingsEvicted, st.bindings, f.senderIp, f.senderMac, MAX_BINDINGS);
      }
    }
    if ip in st.bindings {
      EntriesEscalate(cfg, es[..n], ip);
      ReboundEscalates(st.bindings[ip], RebindTimes(cfg, es[..n], ip), cfg.threshold, es[n].ts);
    }
    EmptyWindow();
  }

  lemma EmptyWindow()
    ensures RunningWindow([]) == []
  {
  }

  /** Over any capture, in any order of time: guards match counts, and HIGH is the threshold-th rebind of a window. */
  lemma SpoofGuards(cfg: Config, es: seq<Event>, ip: Ip)
    requires ValidConfig(cfg) && ip in Run(cfg, es).bindings
    ensures var e := Run(cfg, es).bindings[ip];
            && (e.high <==> e.rebinds >= cfg.threshold)
            && (e.firstRebind.Some? <==> e.rebinds > 0)
  {
    EntriesEscalate(cfg, es, ip);
  }

  lemma HighIsThresholdth(cfg: Config, es: seq<Event>, f: ArpFrame, ts: nat)
    requires ValidConfig(cfg) && Genuine(f)
    ensures var b := Run(cfg, es).bindings;
            var rebind := f.senderIp in b && b[f.senderIp].mac != f.senderMac;
            var found := Process(cfg, Run(cfg, es), f, ts).1;
            && ((exists c :: Spoof(c) in found) <==> rebind)
            && (Spoof(High) in found <==>
                rebind && |RunningWindow(RebindTimes(cfg, es, f.senderIp) + [ts])| == cfg.threshold)
  {
    hide CountFrame, Rebound, ReboundConfidence, InsertBinding, RunningWindow, Run, RebindTimes;
    var st := Run(cfg, es);
    if f.senderIp in st.bindings {
      EntriesEscalate(cfg, es, f.senderIp);
      ReboundEscalates(st.bindings[f.senderIp], RebindTimes(cfg, es, f.senderIp), cfg.threshold, ts);
    }
    var o := Observe(cfg, st.bindings, st.bindingsEvicted, f.senderIp, f.senderMac, ts);
    var s := CountFrame(cfg, st.storms, st.stormsEvicted, f.senderMac, ts);
    assert forall c :: Spoof(c) !in SenderFindings(f, s);
    assert forall c :: Spoof(c) in BindingFindings(f, o) <==> o.spoof == Some(c);
  }

  /** The same without looking into the table: with at most 65,536 senders, by the frames alone. */
  lemma HighByFrames(cfg: Config, es: seq<Event>, f: ArpFrame, ts: nat)
    requires ValidConfig(cfg) && Genuine(f) && |LastWriter(es).Keys| <= 65_536
    ensures var lw, ip := LastWriter(es), f.senderIp;
            Spoof(High) in Process(cfg, Run(cfg, es), f, ts).1 <==>
            ip in lw && lw[ip].0 != f.senderMac && |RunningWindow(ChangeTimes(es, ip) + [ts])| == cfg.threshold
  {
    hide Process, Run, LastWriter, RunningWindow, RebindTimes, ChangeTimes;
    HighIsThresholdth(cfg, es, f, ts);
    RebindsAreChanges(cfg, es, f.senderIp);
    NothingForgotten(cfg, es);
    CacheAgrees(cfg, es);
  }

  // ---- storms ----------------------------------------------------------------------------------

  /** The integer division hides no rounding: the rate is reached when count >= rate * seconds. */
  lemma RateReachedIff(rate: nat, c: Counter, ts: nat)
    ensures RateReached(rate, c, ts) <==> c.count >= rate * Max1(SatSub(ts, c.start))
  {
    QuotientAtLeast(c.count, Max1(SatSub(ts, c.start)), rate);
  }

  lemma QuotientAtLeast(n: nat, d: nat, rate: nat)
    requires d >= 1
    ensures n / d >= rate <==> n >= rate * d
  {
    var q := n / d;
    assert q * d <= n < q * d + d;
    if q >= rate {
      assert q * d >= rate * d;
    } else {
      assert (q + 1) * d <= rate * d;
    }
  }

  /** At its i-th frame the window has reached the rate: as many frames as seconds, at least one, times the rate. */
  ghost predicate Reaches(rate: nat, w: seq<nat>, i: nat)
    requires i < |w|
  {
    i + 1 >= rate * if w[i] <= w[0] + 1 then 1 else w[i] - w[0]
  }

  /** The counter is the summary of the window `w`. */
  ghost predicate Summarizes(c: Counter, w: seq<nat>, rate: nat) {
    && w != [] && c.count == |w| && c.start == w[0]
    && (c.emitted <==> exists i: nat :: i < |w| && Reaches(rate, w, i))
  }

  ghost predicate FirstReached(rate: nat, w: seq<nat>) {
    && w != [] && Reaches(rate, w, |w| - 1)
    && forall i: nat :: i < |w| - 1 ==> !Reaches(rate, w, i)
  }

  /** Times of a sender's accepted frames since its counter last entered the table. */
  function FrameTimes(cfg: Config, es: seq<Event>, mac: Mac): seq<nat>
    requires ValidConfig(cfg)
  {
    if es == [] then []
    else
      var n := |es| - 1;
      if !Genuine(es[n].frame) || es[n].frame.senderMac != mac then FrameTimes(cfg, es[..n], mac)
      else if mac in Run(cfg, es[..n]).storms then FrameTimes(cfg, es[..n], mac) + [es[n].ts]
      else [es[n].ts]
  }

  /** What counting a frame leaves alone. A sender with a counter never displaces another. */
  lemma CountShape(cfg: Config, m: map<Mac, Counter>, n: nat, mac: Mac, ts: nat)
    requires ValidConfig(cfg) && |m| <= MAX_STORMS
    ensures var s := CountFrame(cfg, m, n, mac, ts);
            && mac in s.storms && |s.storms| <= MAX_STORMS
            && (forall k :: k in s.storms && k != mac ==> k in m && s.storms[k] == m[k])
            && (mac in m ==> !s.evicted)
            && (!s.evicted ==> s.storms.Keys == m.Keys + {mac})
            && (s.evicted ==> |m| == MAX_STORMS && mac !in m)
  {
    hide RateReached, Counted, PutCounter;
  }

  /** Appending a time to a window that has not expired keeps what it reached before. */
  lemma ReachesPrefix(rate: nat, w: seq<nat>, t: nat)
    requires w != []
    ensures forall i: nat :: i < |w| ==> (Reaches(rate, w + [t], i) <==> Reaches(rate, w, i))
  {
  }

  lemma CountSummarizes(cfg: Config, m: map<Mac, Counter>, n: nat, mac: Mac, times: seq<nat>, ts: nat)
    requires ValidConfig(cfg) && |m| <= MAX_STORMS
    requires if mac in m then Summarizes(m[mac], RunningWindow(times), cfg.rate) else times == []
    ensures var s := CountFrame(cfg, m, n, mac, ts);
            var w := RunningWindow(times + [ts]);
            && mac in s.storms && Summarizes(s.storms[mac], w, cfg.rate)
            && (s.emitted <==> FirstReached(cfg.rate, w))
  {
    hide PutCounter, Counted, Reaches, RateReached, RunningWindow;
    CountShape(cfg, m, n, mac, ts);
    var c, w := Counted(m, mac, ts), RunningWindow(times + [ts]);
    CountedWindow(cfg.rate, m, mac, times, ts);
    RateReachedIff(cfg.rate, c, ts);
    ReachesLast(cfg.rate, w);
  }

  /** The counter before the rate is looked at: it counts the new window and remembers what came before `ts`. */
  lemma CountedWindow(rate: nat, m: map<Mac, Counter>, mac: Mac, times: seq<nat>, ts: nat)
    requires if mac in m then Summarizes(m[mac], RunningWindow(times), rate) else times == []
    ensures var c, w := Counted(m, mac, ts), RunningWindow(times + [ts]);
            && w != [] && c.count == |w| && c.start == w[0] && w[|w| - 1] == ts
            && (c.emitted <==> exists i: nat :: i < |w| - 1 && Reaches(rate, w, i))
  {
    hide Reaches, Running;
    RunningMore(times, ts, Moment, 60);
    var prev, w := RunningWindow(times), RunningWindow(times + [ts]);
    if mac in m && SatSub(ts, prev[0]) <= WINDOW_SECS {
      assert w == prev + [ts];
      ReachesPrefix(rate, prev, ts);
      if m[mac].emitted {
        var i: nat :| i < |prev| && Reaches(rate, prev, i);
        assert Reaches(rate, w, i);
      }
    } else {
      assert w == [ts];
    }
  }

  lemma ReachesLast(rate: nat, w: seq<nat>)
    requires w != []
    ensures Reaches(rate, w, |w| - 1) <==> |w| >= rate * Max1(SatSub(w[|w| - 1], w[0]))
  {
  }

  lemma {:induction false} StormsStay(cfg: Config, es: seq<Event>)
    requires ValidConfig(cfg)
    ensures |Run(cfg, es).storms| <= 4_096
  {
    hide CountFrame, Observe;
    if es != [] {
      var n := |es| - 1;
      StormsStay(cfg, es[..n]);
      CountShape(cfg, Run(cfg, es[..n]).storms, Run(cfg, es[..n]).stormsEvicted, es[n].frame.senderMac, es[n].ts);
    }
  }

  /** Every counter is the summary of its sender's running window. */
  lemma {:induction false} CountersSummarize(cfg: Config, es: seq<Event>, mac: Mac)
    requires ValidConfig(cfg) && mac in Run(cfg, es).storms
    ensures Summarizes(Run(cfg, es).storms[mac], RunningWindow(FrameTimes(cfg, es, mac)), cfg.rate)
  {
    hide CountFrame, Observe, RunningWindow, Summarizes;
    var n := |es| - 1;
    var st, f, ts := Run(cfg, es[..n]), es[n].frame, es[n].ts;
    StormsStay(cfg, es[..n]);
    CountShape(cfg, st.storms, st.stormsEvicted, f.senderMac, ts);
    if mac in st.storms {
      CountersSummarize(cfg, es[..n], mac);
    }
    if Genuine(f) && f.senderMac == mac {
      var times := if mac in st.storms then FrameTimes(cfg, es[..n], mac) else [];
      CountSummarizes(cfg, st.storms, st.stormsEvicted, mac, times, ts);
      assert [] + [ts] == [ts];
    }
  }

  /** The storm finding comes with the first frame of a window at which the rate is reached, and with no other. */
  lemma StormIsFirstReached(cfg: Config, es: seq<Event>, f: ArpFrame, ts: nat)
    requires ValidConfig(cfg) && Genuine(f)
    ensures var known := f.senderMac in Run(cfg, es).storms;
            var times := if known then FrameTimes(cfg, es, f.senderMac) else [];
            Storm in Process(cfg, Run(cfg, es), f, ts).1 <==> FirstReached(cfg.rate, RunningWindow(times + [ts]))
  {
    hide CountFrame, Observe, RunningWindow, Run, FrameTimes, FirstReached;
    var st := Run(cfg, es);
    StormsStay(cfg, es);
    var times := if f.senderMac in st.storms then FrameTimes(cfg, es, f.senderMac) else [];
    if f.senderMac in st.storms {
      CountersSummarize(cfg, es, f.senderMac);
    }
    CountSummarizes(cfg, st.storms, st.stormsEvicted, f.senderMac, times, ts);
    var o := Observe(cfg, st.bindings, st.bindingsEvicted, f.senderIp, f.senderMac, ts);
    assert Storm !in BindingFindings(f, o);
  }

  /** Senders of accepted frames, and all the times of one. */
  function Senders(es: seq<Event>): set<Mac> {
    if es == [] then {}
    else Senders(es[..|es| - 1])
         + if Genuine(es[|es| - 1].frame) then {es[|es| - 1].frame.senderMac} else {}
  }

  function AllTimes(es: seq<Event>, mac: Mac): seq<nat> {
    if es == [] then []
    else
      var last := es[|es| - 1];
      AllTimes(es[..|es| - 1], mac) + if Genuine(last.frame) && last.frame.senderMac == mac then [last.ts] else []
  }

  /** With at most 4,096 senders no counter is lost, so a counter's frames are all the frames of its sender. */
  lemma {:induction false} NoCounterLost(cfg: Config, es: seq<Event>, mac: Mac)
    requires ValidConfig(cfg) && |Senders(es)| <= MAX_STORMS
    ensures Run(cfg, es).storms.Keys == Senders(es) && Run(cfg, es).stormsEvicted == 0
    ensures FrameTimes(cfg, es, mac) == AllTimes(es, mac)
    ensures mac !in Senders(es) ==> AllTimes(es, mac) == []
  {
    hide CountFrame, Observe;
    if es != [] {
      var n := |es| - 1;
      SubsetSize(Senders(es[..n]), Senders(es));
      NoCounterLost(cfg, es[..n], mac);
      var st, f := Run(cfg, es[..n]), es[n].frame;
      CountShape(cfg, st.storms, st.stormsEvicted, f.senderMac, es[n].ts);
      if Genuine(f) && f.senderMac !in Senders(es[..n]) {
        assert Senders(es) == Senders(es[..n]) + {f.senderMac};
      }
    }
  }

  /** With at most 4,096 senders the storm finding depends on the sender's frames alone. */
  lemma StormByFrames(cfg: Config, es: seq<Event>, f: ArpFrame, ts: nat)
    requires ValidConfig(cfg) && Genuine(f) && |Senders(es)| <= 4_096
    ensures Storm in Process(cfg, Run(cfg, es), f, ts).1 <==>
            FirstReached(cfg.rate, RunningWindow(AllTimes(es, f.senderMac) + [ts]))
  {
    hide Process, Run, Senders, RunningWindow, FrameTimes, AllTimes, FirstReached;
    StormIsFirstReached(cfg, es, f, ts);
    NoCounterLost(cfg, es, f.senderMac);
  }

  // ---- everything that is reported, by the frames alone ----------------------------------------

  /** What a frame is reported for after the frames `es`, in order. */
  ghost function Report(threshold: nat, rate: nat, es: seq<Event>, f: ArpFrame, ts: nat): seq<Finding> {
    if !Genuine(f) then []
    else
      var lw, ip, mac := LastWriter(es), f.senderIp, f.senderMac;
      var changed := ip in lw && lw[ip].0 != mac;
      var storm := FirstReached(rate, RunningWindow(AllTimes(es, mac) + [ts]));
      var high := |RunningWindow(ChangeTimes(es, ip) + [ts])| == threshold;
      (if f.outerSrcMac.Some? && f.outerSrcMac.value != mac then [Mismatch] else [])
      + (if storm then [Storm] else [])
      + (if ip == f.targetIp then [Garp(if changed then Medium else Low)] else [])
      + (if changed then [Spoof(if high then High else Medium)] else [])
  }

  /** Without looking into any table: a frame is reported for exactly what the frames before it make of it. */
  lemma ReportByFrames(cfg: Config, es: seq<Event>, f: ArpFrame, ts: nat)
    requires ValidConfig(cfg) && |LastWriter(es).Keys| <= 65_536 && |Senders(es)| <= 4_096
    ensures Process(cfg, Run(cfg, es), f, ts).1 == Report(cfg.threshold, cfg.rate, es, f, ts)
  {
    hide CountFrame, Observe, Run, LastWriter, RunningWindow, RebindTimes, ChangeTimes, Senders, FrameTimes, AllTimes,
         FirstReached;
    var st := Run(cfg, es);
    if Genuine(f) {
      var s := CountFrame(cfg, st.storms, st.stormsEvicted, f.senderMac, ts);
      var o := Observe(cfg, st.bindings, st.bindingsEvicted, f.senderIp, f.senderMac, ts);
      var garp := if f.senderIp == f.targetIp then [Garp(if o.spoof.Some? then Medium else Low)] else [];
      var spoof := if o.spoof.Some? then [Spoof(o.spoof.value)] else [];
      assert SenderFindings(f, s) + BindingFindings(f, o) == SenderFindings(f, s) + garp + spoof;
      StormByFrames(cfg, es, f, ts);
      StormFound(cfg, st, f, ts);
      HighByFrames(cfg, es, f, ts);
      HighFound(cfg, st, f, ts);
      NothingForgotten(cfg, es);
      CacheAgrees(cfg, es);
      var lw, window := LastWriter(es), RunningWindow(ChangeTimes(es, f.senderIp) + [ts]);
      assert o.spoof.Some? <==> f.senderIp in lw && lw[f.senderIp].0 != f.senderMac;
      assert o.spoof.Some? ==> o.spoof.value == if |window| == cfg.threshold then High else Medium;
      assert Report(cfg.threshold, cfg.rate, es, f, ts) == SenderFindings(f, s) + garp + spoof;
    }
  }

  lemma StormFound(cfg: Config, st: State, f: ArpFrame, ts: nat)
    requires ValidConfig(cfg) && Genuine(f)
    ensures Storm in Process(cfg, st, f, ts).1 <==>
            CountFrame(cfg, st.storms, st.stormsEvicted, f.senderMac, ts).emitted
  {
    hide CountFrame, Observe;
    var o := Observe(cfg, st.bindings, st.bindingsEvicted, f.senderIp, f.senderMac, ts);
    assert Storm !in BindingFindings(f, o);
  }

  lemma HighFound(cfg: Config, st: State, f: ArpFrame, ts: nat)
    requires ValidConfig(cfg) && Genuine(f)
    ensures var o := Observe(cfg, st.bindings, st.bindingsEvicted, f.senderIp, f.senderMac, ts);
            && (Spoof(High) in Process(cfg, st, f, ts).1 <==> o.spoof == Some(High))
            && o.spoof != Some(Low)
            && (o.spoof.Some? <==> f.senderIp in st.bindings && st.bindings[f.senderIp].mac != f.senderMac)
  {
    hide CountFrame, Rebound, InsertBinding;
    var s := CountFrame(cfg, st.storms, st.stormsEvicted, f.senderMac, ts);
    assert Spoof(High) !in SenderFindings(f, s);
  }

  datatype Kind = Any | Operation(code: nat) | OtherOperation | Gratuitous | Mismatched

  predicate Is(f: ArpFrame, k: Kind) {
    match k
    case Any => true
    case Operation(code) => f.operation == code
    case OtherOperation => f.operation != 1 && f.operation != 2
    case Gratuitous => Genuine(f) && f.senderIp == f.targetIp
    case Mismatched => Genuine(f) && f.outerSrcMac.Some? && f.outerSrcMac.value != f.senderMac
  }

  function Frames(es: seq<Event>, k: Kind): nat {
    if es == [] then 0 else Frames(es[..|es| - 1], k) + Count(Is(es[|es| - 1].frame, k))
  }

  /** How many frames were reported as storms. */
  ghost function StormReports(cfg: Config, es: seq<Event>): nat
    requires ValidConfig(cfg)
  {
    if es == [] then 0
    else
      var n := |es| - 1;
      StormReports(cfg, es[..n]) + Count(Storm in Process(cfg, Run(cfg, es[..n]), es[n].frame, es[n].ts).1)
  }

  /** The totals of any capture are plain counts of its frames and reports. */
  lemma {:induction false} TotalsByFrames(cfg: Config, es: seq<Event>)
    requires ValidConfig(cfg)
    ensures var st := Run(cfg, es);
            && st.frames == |es| == st.requests + st.replies + st.others
            && st.requests == Frames(es, Operation(1)) && st.replies == Frames(es, Operation(2))
            && st.others == Frames(es, OtherOperation)
            && st.garps == Frames(es, Gratuitous) && st.mismatches == Frames(es, Mismatched)
            && st.stormFindings == StormReports(cfg, es)
  {
    hide CountFrame, Observe;
    if es != [] {
      var n := |es| - 1;
      TotalsByFrames(cfg, es[..n]);
      if Genuine(es[n].frame) {
        StormFound(cfg, Run(cfg, es[..n]), es[n].frame, es[n].ts);
      }
    }
  }
}
