/** The option list of an Interface Description Block, and the timestamp resolution found in it. */
module PcapngOptions {
  import opened Octets

  datatype OptionError = Overrun | ResolutionLength

  const IDB_FIXED: nat := 8
  const DEFAULT_RESOLUTION: byte := 6
  const END_OF_OPTIONS: nat := 0
  const TS_RESOLUTION: nat := 9

  function Padded(n: nat): (m: nat)
    ensures n <= m < n + 4 && m % 4 == 0
  {
    (n + 3) / 4 * 4
  }

  /** The walk from a cursor: code, length, value, padding. Padding may run past the end, a value may not. */
  function Scan(e: Endian, o: seq<byte>, cursor: nat): Result<byte, OptionError>
    decreases if cursor <= |o| then |o| - cursor else 0
  {
    if cursor + 4 > |o| then Ok(DEFAULT_RESOLUTION)
    else
      var code := Read16(e, o[cursor], o[cursor + 1]);
      var len := Read16(e, o[cursor + 2], o[cursor + 3]);
      if code == END_OF_OPTIONS then Ok(DEFAULT_RESOLUTION)
      else if cursor + 4 + len > |o| then Err(Overrun)
      else if code == TS_RESOLUTION then
        if len != 1 then Err(ResolutionLength) else Ok(o[cursor + 4])
      else Scan(e, o, cursor + 4 + Padded(len))
  }

  /** The resolution byte of a whole block body. */
  function Resolution(e: Endian, body: seq<byte>): Result<byte, OptionError> {
    if |body| > IDB_FIXED then Scan(e, body[IDB_FIXED..], 0) else Ok(DEFAULT_RESOLUTION)
  }

  /** The walk as the program runs it, on any octets; every read is in range and it ends. */
  method ParseIdbOptions(e: Endian, body: seq<byte>) returns (r: Result<byte, OptionError>)
    ensures r == Resolution(e, body)
  {
    if |body| <= IDB_FIXED {
      return Ok(DEFAULT_RESOLUTION);
    }
    var o := body[IDB_FIXED..];
    var cursor := 0;
    while cursor + 4 <= |o|
      invariant Scan(e, o, cursor) == Resolution(e, body)
      decreases |o| - cursor
    {
      var code := Read16(e, o[cursor], o[cursor + 1]);
      var len := Read16(e, o[cursor + 2], o[cursor + 3]);
      if code == END_OF_OPTIONS {
        break;
      }
      if cursor + 4 + len > |o| {
        return Err(Overrun);
      }
      if code == TS_RESOLUTION {
        if len != 1 {
          return Err(ResolutionLength);
        }
        return Ok(o[cursor + 4]);
      }
      cursor := cursor + 4 + Padded(len);
    }
    r := Ok(DEFAULT_RESOLUTION);
  }

  // ---- the writer's side -----------------------------------------------------------------------

  /** An option with the octets that pad its value to a multiple of four. */
  datatype Item = Item(code: nat, value: seq<byte>, padding: seq<byte>) {
    predicate Valid() {
      code < 0x1_0000 && |value| < 0x1_0000 && |value| + |padding| == Padded(|value|)
    }
  }

  predicate AllValid(items: seq<Item>) {
    forall i :: i in items ==> i.Valid()
  }

  function EncodeItem(e: Endian, i: Item): seq<byte>
    requires i.Valid()
  {
    Write16(e, i.code) + Write16(e, |i.value|) + i.value + i.padding
  }

  function EncodeItems(e: Endian, items: seq<Item>): seq<byte>
    requires AllValid(items)
  {
    if items == [] then []
    else
      assert items[0] in items;
      EncodeItem(e, items[0]) + EncodeItems(e, items[1..])
  }

  /** What the list says: the first option 9 before an option 0 decides, and 6 stands for none. */
  function Meaning(items: seq<Item>): Result<byte, OptionError> {
    if items == [] || items[0].code == 0 then Ok(6)
    else if items[0].code != 9 then Meaning(items[1..])
    else if |items[0].value| == 1 then Ok(items[0].value[0])
    else Err(ResolutionLength)
  }

  lemma ItemFields(e: Endian, i: Item, o: seq<byte>, cursor: nat, rest: seq<byte>)
    requires i.Valid() && cursor <= |o| && o[cursor..] == EncodeItem(e, i) + rest
    ensures cursor + 4 + Padded(|i.value|) <= |o| && o[cursor + 4 + Padded(|i.value|)..] == rest
    ensures Read16(e, o[cursor], o[cursor + 1]) == i.code && Read16(e, o[cursor + 2], o[cursor + 3]) == |i.value|
    ensures o[cursor + 4..cursor + 4 + |i.value|] == i.value
  {
    var bs := EncodeItem(e, i) + rest;
    var head, len := Write16(e, i.code), Write16(e, |i.value|);
    assert bs == head + (len + (i.value + (i.padding + rest)));
    assert forall k :: 0 <= k < |bs| ==> o[cursor + k] == bs[k];
    assert bs[0] == head[0] && bs[1] == head[1] && bs[2] == len[0] && bs[3] == len[1];
    assert bs[4..4 + |i.value|] == i.value;
    assert bs[4 + Padded(|i.value|)..] == rest;
  }

  /** Some option of the list decides: an option 9, or an option 0 that ends the list. */
  predicate Decides(items: seq<Item>) {
    items != [] && (items[0].code == 9 || items[0].code == 0 || Decides(items[1..]))
  }

  /** Over encoded options the walk finds what the list says; if nothing decides, it goes on with what follows. */
  lemma {:induction false} ScanEncoded(e: Endian, items: seq<Item>, tail: seq<byte>, o: seq<byte>, cursor: nat)
    requires AllValid(items) && cursor <= |o| && o[cursor..] == EncodeItems(e, items) + tail
    ensures |tail| <= |o|
    ensures Scan(e, o, cursor) == if Decides(items) then Meaning(items) else Scan(e, o, |o| - |tail|)
    decreases |items|
  {
    hide EncodeItem, Scan, Padded;
    assert |o| - cursor == |EncodeItems(e, items)| + |tail|;
    if items != [] {
      assert items[0] in items;
      var i, rest := items[0], EncodeItems(e, items[1..]) + tail;
      assert o[cursor..] == EncodeItem(e, i) + rest;
      ScanItem(e, i, o, cursor, rest);
      if i.code != 0 && i.code != 9 {
        ScanEncoded(e, items[1..], tail, o, cursor + 4 + Padded(|i.value|));
      }
    }
  }

  /** One encoded option: it decides, or the walk goes on behind its padding. */
  lemma ScanItem(e: Endian, i: Item, o: seq<byte>, cursor: nat, rest: seq<byte>)
    requires i.Valid() && cursor <= |o| && o[cursor..] == EncodeItem(e, i) + rest
    ensures var next := cursor + 4 + Padded(|i.value|);
            && next <= |o| && o[next..] == rest
            && Scan(e, o, cursor) ==
               if i.code == 0 then Ok(6)
               else if i.code != 9 then Scan(e, o, next)
               else if |i.value| == 1 then Ok(i.value[0])
               else Err(ResolutionLength)
  {
    hide EncodeItem, Read16, Padded;
    ItemFields(e, i, o, cursor, rest);
    assert |i.value| >= 1 ==> o[cursor + 4] == o[cursor + 4..cursor + 4 + |i.value|][0];
  }

  lemma {:induction false} UndecidedMeansDefault(items: seq<Item>)
    requires !Decides(items)
    ensures Meaning(items) == Ok(6)
  {
    if items != [] {
      UndecidedMeansDefault(items[1..]);
    }
  }

  /**
   Round trip: whatever options are written, with whatever padding and in either byte order, the reader finds what
   the list says, and reports an error exactly when the deciding option is not one octet long.
   */
  lemma OptionsRoundTrip(e: Endian, fixed: seq<byte>, items: seq<Item>)
    requires |fixed| == 8 && AllValid(items)
    ensures Resolution(e, fixed + EncodeItems(e, items)) == Meaning(items)
  {
    EncodedWithTail(e, fixed, items, []);
    assert fixed + EncodeItems(e, items) + [] == fixed + EncodeItems(e, items);
    if !Decides(items) {
      UndecidedMeansDefault(items);
    }
  }

  /** What the reader makes of a body: the list decides, or else what stands behind it. */
  lemma EncodedWithTail(e: Endian, fixed: seq<byte>, items: seq<Item>, tail: seq<byte>)
    requires |fixed| == 8 && AllValid(items)
    ensures var body := fixed + EncodeItems(e, items) + tail;
            Resolution(e, body) ==
            if Decides(items) then Meaning(items) else Scan(e, body[8..], |body| - 8 - |tail|)
  {
    hide EncodeItems, Scan, Decides, Meaning;
    EmptyScan(e);
    var body := fixed + EncodeItems(e, items) + tail;
    assert body[8..] == EncodeItems(e, items) + tail;
    assert body[8..][0..] == EncodeItems(e, items) + tail;
    ScanEncoded(e, items, tail, body[8..], 0);
  }

  lemma EmptyScan(e: Endian)
    ensures Scan(e, [], 0) == Ok(6)
  {
  }

  /** Fewer than four octets behind options that do not decide are no option. */
  lemma LeftoverIsNothing(e: Endian, fixed: seq<byte>, items: seq<Item>, tail: seq<byte>)
    requires |fixed| == 8 && AllValid(items) && !Decides(items) && |tail| < 4
    ensures Resolution(e, fixed + EncodeItems(e, items) + tail) == Ok(6)
  {
    EncodedWithTail(e, fixed, items, tail);
  }

  /** A last option that announces more octets than there are is an error, whatever it is. */
  lemma TruncatedIsOverrun(e: Endian, fixed: seq<byte>, items: seq<Item>, code: nat, length: nat, value: seq<byte>)
    requires |fixed| == 8 && AllValid(items) && !Decides(items)
    requires 0 < code < 0x1_0000 && |value| < length < 0x1_0000
    ensures Resolution(e, fixed + EncodeItems(e, items) + (Write16(e, code) + Write16(e, length) + value)) ==
            Err(Overrun)
  {
    hide Read16;
    var tail := Write16(e, code) + Write16(e, length) + value;
    var o := (fixed + EncodeItems(e, items) + tail)[8..];
    EncodedWithTail(e, fixed, items, tail);
    TailFields(e, o, code, length, value);
  }

  /** A last option without its padding counts like any other. */
  lemma UnpaddedIsRead(e: Endian, fixed: seq<byte>, items: seq<Item>, code: nat, value: seq<byte>, padding: seq<byte>)
    requires |fixed| == 8 && AllValid(items) && !Decides(items)
    requires code < 0x1_0000 && |value| < 0x1_0000 && |value| + |padding| < Padded(|value|)
    ensures var tail := Write16(e, code) + Write16(e, |value|) + (value + padding);
            Resolution(e, fixed + EncodeItems(e, items) + tail) ==
            Meaning([Item(code, value, padding)])
  {
    hide Read16, Padded, EncodeItems, Decides, Write16, Resolution, Scan;
    var tail := Write16(e, code) + Write16(e, |value|) + (value + padding);
    var o := (fixed + EncodeItems(e, items) + tail)[8..];
    EncodedWithTail(e, fixed, items, tail);
    assert o == EncodeItems(e, items) + tail;
    assert o[|o| - |tail|..] == tail;
    UnpaddedTail(e, o, code, value, padding);
  }

  lemma UnpaddedTail(e: Endian, o: seq<byte>, code: nat, value: seq<byte>, padding: seq<byte>)
    requires code < 0x1_0000 && |value| < 0x1_0000 && |value| + |padding| < Padded(|value|)
    requires |o| >= 4 + |value + padding|
    requires o[|o| - 4 - |value + padding|..] == Write16(e, code) + Write16(e, |value|) + (value + padding)
    ensures Scan(e, o, |o| - 4 - |value + padding|) == Meaning([Item(code, value, padding)])
  {
    hide Read16, Padded, Write16;
    TailFields(e, o, code, |value|, value + padding);
  }

  lemma TailFields(e: Endian, o: seq<byte>, code: nat, length: nat, value: seq<byte>)
    requires code < 0x1_0000 && length < 0x1_0000 && |o| >= 4 + |value|
    requires o[|o| - 4 - |value|..] == Write16(e, code) + Write16(e, length) + value
    ensures var at := |o| - 4 - |value|;
            && Read16(e, o[at], o[at + 1]) == code && Read16(e, o[at + 2], o[at + 3]) == length
            && (value != [] ==> o[at + 4] == value[0])
  {
    hide Read16;
    var at, head, len := |o| - 4 - |value|, Write16(e, code), Write16(e, length);
    var tail := head + len + value;
    assert forall k :: 0 <= k < |tail| ==> o[at + k] == tail[k];
    assert tail[0] == head[0] && tail[1] == head[1] && tail[2] == len[0] && tail[3] == len[1];
    assert value != [] ==> tail[4] == value[0];
  }
}
