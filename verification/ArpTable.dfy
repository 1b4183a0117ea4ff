/** The bounded IP-to-MAC table: insertion with eviction of the least recently seen entry, and its array surrogate. */
module ArpTable {
  import opened Octets
  import opened Tables

  /** Addresses are only ever compared, so their octets are read as one number. */
  datatype Ip = Ip(value: nat)
  datatype Mac = Mac(value: nat)

  datatype Entry = Entry(mac: Mac, rebinds: nat, firstRebind: Option<nat>, high: bool, lastSeen: nat)

  function Ages(b: map<Ip, Entry>): (a: map<Ip, nat>)
    ensures a.Keys == b.Keys
  {
    map ip | ip in b :: b[ip].lastSeen
  }

  datatype Inserted = Inserted(table: map<Ip, Entry>, evicted: bool)

  /** A known address only has its MAC replaced; a new one enters with time 0, which the caller then sets. */
  function InsertBinding(order: Order<Ip>, n: nat, b: map<Ip, Entry>, ip: Ip, mac: Mac, cap: nat): (r: Inserted)
    requires IsOrder(order)
    ensures ip in r.table && r.table[ip].mac == mac
    ensures cap >= 1 && |b| <= cap ==> |r.table| <= cap
    ensures cap >= 1 && ip !in b ==> |b| + 1 == |r.table| + (if r.evicted then 1 else 0)
  {
    var entry := Entry(mac, 0, None, false, 0);
    if ip in b then
      AddSize(b, ip, b[ip].(mac := mac));
      Inserted(b[ip := b[ip].(mac := mac)], false)
    else if |b| >= cap then
      if b == map[] then Inserted(b[ip := entry], true)
      else
        assert b.Keys != {};
        var victim := Victim(order, n, Ages(b));
        SwapSize(b, victim, ip, entry);
        Inserted((b - {victim})[ip := entry], true)
    else
      AddSize(b, ip, entry);
      Inserted(b[ip := entry], false)
  }

  // ---- the array surrogate ---------------------------------------------------------------------

  /** Address, MAC, time last seen. */
  type Row = (Ip, Mac, nat)
  type View = map<Ip, (Mac, nat)>

  ghost predicate Distinct(rows: seq<Row>) {
    forall i, j :: 0 <= i < j < |rows| ==> rows[i].0 != rows[j].0
  }

  /** The last row of an address decides; with distinct addresses there is only one. */
  ghost function Abs(rows: seq<Row>): View {
    if rows == [] then map[]
    else
      var last := rows[|rows| - 1];
      Abs(rows[..|rows| - 1])[last.0 := (last.1, last.2)]
  }

  lemma {:induction false} AbsKeys(rows: seq<Row>, ip: Ip)
    ensures ip in Abs(rows) <==> exists i :: 0 <= i < |rows| && rows[i].0 == ip
  {
    if rows != [] {
      var n := |rows| - 1;
      AbsKeys(rows[..n], ip);
      if i :| 0 <= i < |rows| && rows[i].0 == ip {
        assert i == n || rows[..n][i].0 == ip;
      }
    }
  }

  lemma {:induction false} AbsAt(rows: seq<Row>, i: nat)
    requires Distinct(rows) && i < |rows|
    ensures rows[i].0 in Abs(rows) && Abs(rows)[rows[i].0] == (rows[i].1, rows[i].2)
  {
    var n := |rows| - 1;
    if i < n {
      AbsAt(rows[..n], i);
    }
  }

  lemma {:induction false} AbsSize(rows: seq<Row>)
    requires Distinct(rows)
    ensures |Abs(rows)| == |rows|
  {
    if rows != [] {
      var n := |rows| - 1;
      AbsSize(rows[..n]);
      AbsKeys(rows[..n], rows[n].0);
      AddSize(Abs(rows[..n]), rows[n].0, (rows[n].1, rows[n].2));
    }
  }

  /** A map that agrees with every row and has no other address is the abstraction. */
  lemma AbsIs(rows: seq<Row>, m: View)
    requires Distinct(rows)
    requires forall i :: 0 <= i < |rows| ==> rows[i].0 in m && m[rows[i].0] == (rows[i].1, rows[i].2)
    requires forall ip :: ip in m ==> exists i :: 0 <= i < |rows| && rows[i].0 == ip
    ensures Abs(rows) == m
  {
    forall ip ensures ip in m <==> ip in Abs(rows) {
      AbsKeys(rows, ip);
    }
    forall ip | ip in m ensures Abs(rows)[ip] == m[ip] {
      var i :| 0 <= i < |rows| && rows[i].0 == ip;
      AbsAt(rows, i);
    }
  }

  ghost predicate Oldest(m: View, victim: Ip) {
    victim in m && forall ip :: ip in m ==> m[victim].1 <= m[ip].1
  }

  /** What the map version may do, seen without the escalation fields. */
  ghost predicate Allowed(m: View, m': View, ip: Ip, mac: Mac, cap: nat) {
    if ip in m then m' == m[ip := (mac, m[ip].1)]
    else if |m| >= cap then exists victim :: Oldest(m, victim) && m' == (m - {victim})[ip := (mac, 0)]
    else m' == m[ip := (mac, 0)]
  }

  /** Linear lookup, minimum scan, swap-remove, append. */
  method InsertBindingArray(entries: array<Row>, len: nat, ip: Ip, mac: Mac, cap: nat) returns (newLen: nat)
    requires 1 <= cap <= entries.Length && len <= entries.Length && Distinct(entries[..len])
    modifies entries
    ensures newLen <= entries.Length && Distinct(entries[..newLen])
    ensures Allowed(old(Abs(entries[..len])), Abs(entries[..newLen]), ip, mac, cap)
    ensures len <= cap ==> newLen <= cap
  {
    hide Abs, Oldest;
    ghost var rows := entries[..len];
    AbsSize(rows);
    AbsKeys(rows, ip);
    var j := 0;
    while j < len
      invariant j <= len && entries[..len] == rows
      invariant forall i :: 0 <= i < j ==> rows[i].0 != ip
    {
      if entries[j].0 == ip {
        UpdateRow(rows, j, mac);
        entries[j] := (ip, mac, entries[j].2);
        assert entries[..len] == rows[j := (ip, mac, rows[j].2)];
        return len;
      }
      j := j + 1;
    }
    newLen := len;
    ghost var kept := rows;
    if len >= cap {
      var min, k := 0, 1;
      while k < len
        invariant 1 <= k <= len && min < k && entries[..len] == rows
        invariant forall i :: 0 <= i < k ==> rows[min].2 <= rows[i].2
      {
        if entries[k].2 < entries[min].2 {
          min := k;
        }
        k := k + 1;
      }
      OldestRow(rows, min);
      SwapRemove(rows, min);
      entries[min] := entries[len - 1];
      newLen := len - 1;
      kept := rows[min := rows[len - 1]][..len - 1];
      assert entries[..newLen] == kept;
    }
    AppendRow(kept, (ip, mac, 0));
    entries[newLen] := (ip, mac, 0);
    newLen := newLen + 1;
    assert entries[..newLen] == kept + [(ip, mac, 0)];
  }

  lemma UpdateRow(rows: seq<Row>, j: nat, mac: Mac)
    requires Distinct(rows) && j < |rows|
    ensures rows[j].0 in Abs(rows) && Abs(rows)[rows[j].0].1 == rows[j].2
    ensures Distinct(rows[j := (rows[j].0, mac, rows[j].2)])
    ensures Abs(rows[j := (rows[j].0, mac, rows[j].2)]) == Abs(rows)[rows[j].0 := (mac, rows[j].2)]
  {
    hide Abs;
    var rows' := rows[j := (rows[j].0, mac, rows[j].2)];
    var m := Abs(rows)[rows[j].0 := (mac, rows[j].2)];
    AbsAt(rows, j);
    forall i | 0 <= i < |rows'| ensures rows'[i].0 in m && m[rows'[i].0] == (rows'[i].1, rows'[i].2) {
      AbsAt(rows, i);
    }
    forall ip | ip in m ensures exists i :: 0 <= i < |rows'| && rows'[i].0 == ip {
      AbsKeys(rows, ip);
      var i :| 0 <= i < |rows| && rows[i].0 == ip;
      assert rows'[i].0 == ip;
    }
    AbsIs(rows', m);
  }

  lemma SwapRemove(rows: seq<Row>, v: nat)
    requires Distinct(rows) && v < |rows|
    ensures var kept := rows[v := rows[|rows| - 1]][..|rows| - 1];
            Distinct(kept) && Abs(kept) == Abs(rows) - {rows[v].0}
  {
    hide Abs;
    var n := |rows| - 1;
    var kept := rows[v := rows[n]][..n];
    var m := Abs(rows) - {rows[v].0};
    assert forall i :: 0 <= i < n ==> kept[i] == rows[if i == v then n else i];
    forall i | 0 <= i < n ensures kept[i].0 in m && m[kept[i].0] == (kept[i].1, kept[i].2) {
      AbsAt(rows, if i == v then n else i);
    }
    forall ip | ip in m ensures exists i :: 0 <= i < n && kept[i].0 == ip {
      AbsKeys(rows, ip);
      var i :| 0 <= i <= n && rows[i].0 == ip;
      assert kept[if i == n then v else i].0 == ip;
    }
    AbsIs(kept, m);
  }

  /** A row found by the minimum scan is an oldest entry. */
  lemma OldestRow(rows: seq<Row>, v: nat)
    requires Distinct(rows) && v < |rows| && forall i :: 0 <= i < |rows| ==> rows[v].2 <= rows[i].2
    ensures Oldest(Abs(rows), rows[v].0)
  {
    hide Abs;
    AbsAt(rows, v);
    forall ip | ip in Abs(rows) ensures Abs(rows)[rows[v].0].1 <= Abs(rows)[ip].1 {
      AbsKeys(rows, ip);
      var i :| 0 <= i < |rows| && rows[i].0 == ip;
      AbsAt(rows, i);
    }
  }

  lemma AppendRow(rows: seq<Row>, row: Row)
    requires Distinct(rows) && forall i :: 0 <= i < |rows| ==> rows[i].0 != row.0
    ensures Distinct(rows + [row]) && Abs(rows + [row]) == Abs(rows)[row.0 := (row.1, row.2)]
  {
    assert (rows + [row])[..|rows|] == rows;
  }

  // ---- the map version allows exactly that -----------------------------------------------------

  ghost function Project(b: map<Ip, Entry>): (m: View)
    ensures m.Keys == b.Keys
  {
    map ip | ip in b :: (b[ip].mac, b[ip].lastSeen)
  }

  lemma ProjectInsert(order: Order<Ip>, n: nat, b: map<Ip, Entry>, ip: Ip, mac: Mac, cap: nat)
    requires IsOrder(order) && cap >= 1
    ensures |Project(b)| == |b|
    ensures ip !in b && |b| >= cap ==> b.Keys != {}
    ensures var m, m' := Project(b), Project(InsertBinding(order, n, b, ip, mac, cap).table);
            if ip in b then m' == m[ip := (mac, m[ip].1)]
            else if |b| >= cap then m' == (m - {Victim(order, n, Ages(b))})[ip := (mac, 0)]
            else m' == m[ip := (mac, 0)]
  {
    hide Victim;
    assert |Project(b)| == |Project(b).Keys| == |b.Keys| == |b|;
  }

  lemma MapVersionAllowed(order: Order<Ip>, n: nat, b: map<Ip, Entry>, ip: Ip, mac: Mac, cap: nat)
    requires IsOrder(order) && cap >= 1
    ensures Allowed(Project(b), Project(InsertBinding(order, n, b, ip, mac, cap).table), ip, mac, cap)
  {
    hide InsertBinding, Victim;
    ProjectInsert(order, n, b, ip, mac, cap);
    if ip !in b && |b| >= cap {
      assert Oldest(Project(b), Victim(order, n, Ages(b)));
    }
  }

  ghost function ListSet(keys: set<Ip>): (s: seq<Ip>)
    ensures Lists(s, keys)
  {
    if keys == {} then []
    else
      var k :| k in keys;
      assert {k} + (keys - {k}) == keys;
      [k] + ListSet(keys - {k})
  }

  ghost function Starting(v: Ip, keys: set<Ip>): (s: seq<Ip>)
    ensures Lists(s, keys) && (v in keys ==> s != [] && s[0] == v)
  {
    if v in keys then
      assert {v} + (keys - {v}) == keys;
      [v] + ListSet(keys - {v})
    else ListSet(keys)
  }

  lemma {:induction false} FirstStays(s: seq<Ip>, age: map<Ip, nat>)
    requires s != [] && (forall k :: k in s ==> k in age) && forall k :: k in s ==> age[s[0]] <= age[k]
    ensures Tables.Oldest(s, age) == s[0]
  {
    if |s| > 1 {
      assert s[..|s| - 1][0] == s[0];
      FirstStays(s[..|s| - 1], age);
    }
  }

  /** Conversely, every allowed outcome is the map version's under some iteration order. */
  lemma AllowedIsReachable(n: nat, b: map<Ip, Entry>, m': View, ip: Ip, mac: Mac, cap: nat) returns (order: Order<Ip>)
    requires cap >= 1 && Allowed(Project(b), m', ip, mac, cap)
    ensures IsOrder(order) && Project(InsertBinding(order, n, b, ip, mac, cap).table) == m'
  {
    hide InsertBinding;
    var m := Project(b);
    var v := ip;
    if ip !in m && |m| >= cap {
      v :| Oldest(m, v) && m' == (m - {v})[ip := (mac, 0)];
    }
    order := (k: nat, keys: set<Ip>) => Starting(v, keys);
    ProjectInsert(order, n, b, ip, mac, cap);
    if ip !in m && |m| >= cap {
      FirstStays(order(n, Ages(b).Keys), Ages(b));
    }
  }
}
