/** The DNP3 data-link frame (IEEE Std 1815-2012): header fields, frame length, function codes. */
module Dnp3Wire {
  import opened Octets

  const SYNC0: byte := 0x05
  const SYNC1: byte := 0x64
  const MAX_FRAME_LEN: nat := 292

  datatype Header = Header(start1: byte, start2: byte, length: byte, control: byte, destination: nat, source: nat)

  datatype FcClass = Read | Write | Control | Restart | Management | Response | Unknown

  /** Needs the ten octets of the header and its CRC; checks nothing else. */
  function ParseHeader(data: seq<byte>): Option<Header> {
    if |data| < 10 then None
    else Some(Header(data[0], data[1], data[2], data[3],
                     Read16(LittleEndian, data[4], data[5]), Read16(LittleEndian, data[6], data[7])))
  }

  predicate IsValidHeader(h: Header) {
    h.start1 == SYNC0 && h.start2 == SYNC1 && h.length >= 5
  }

  function ClassifyFc(fc: byte): FcClass {
    if fc == 0x01 then Read
    else if fc == 0x02 then Write
    else if 0x03 <= fc <= 0x06 then Control
    else if fc == 0x00 || 0x07 <= fc <= 0x0C || 0x0F <= fc <= 0x1A then Management
    else if fc == 0x0D || fc == 0x0E then Restart
    else if 0x81 <= fc <= 0x83 then Response
    else Unknown
  }

  /** The class of every code, by its codes. */
  lemma ClassOf(fc: byte)
    ensures ClassifyFc(fc) == Read <==> fc == 1
    ensures ClassifyFc(fc) == Write <==> fc == 2
    ensures ClassifyFc(fc) == Control <==> fc in {3, 4, 5, 6}
    ensures ClassifyFc(fc) == Restart <==> fc in {13, 14}
    ensures ClassifyFc(fc) == Management <==>
            fc in {0, 7, 8, 9, 10, 11, 12, 15, 16, 17, 18, 19, 20, 21, 22, 23, 24, 25, 26}
    ensures ClassifyFc(fc) == Response <==> fc in {129, 130, 131}
  {
  }

  /** Octets on the wire for a LENGTH field, or nothing when LENGTH is below 5. */
  function FrameLen(length: byte): (n: Option<nat>)
    ensures n.Some? <==> length >= 5
    ensures n.Some? ==> 10 <= n.value <= MAX_FRAME_LEN
  {
    if length < 5 then None
    else
      var user := length - 5;
      var blocks := (user + 15) / 16;
      Some(5 + length + 2 * blocks)
  }

  // Masks are written out arithmetically: & 0x40, & 0x0F and & 0x80.
  predicate TransportIsFir(octet: byte) { octet / 64 % 2 == 1 }

  predicate HasUserData(control: byte) { control % 16 == 3 || control % 16 == 4 }

  predicate IsMasterFrame(control: byte) { control >= 0x80 }

  predicate IsBroadcast(destination: nat) { destination >= 0xFFFD }

  /** A complete frame: sync word, acceptable LENGTH, and exactly the octets LENGTH announces. */
  predicate IsFrame(f: seq<byte>) {
    |f| >= 3 && f[0] == SYNC0 && f[1] == SYNC1 && FrameLen(f[2]) == Some(|f|)
  }

  // ---------------------------------------------------------------------------------------------
  // The sender's side: a link frame as the standard lays it out. The analyzer never looks at the
  // CRC octets, so the checksum is a parameter.

  datatype Message = Message(control: byte, destination: nat, source: nat, user: seq<byte>) {
    predicate Valid() { destination < 0x1_0000 && source < 0x1_0000 && |user| <= 250 }
  }

  type Checksum = seq<byte> -> (byte, byte)

  function WithCrc(crc: Checksum, block: seq<byte>): seq<byte> {
    block + [crc(block).0, crc(block).1]
  }

  /** User octets travel in blocks of sixteen, each followed by its CRC. */
  function DataBlocks(crc: Checksum, user: seq<byte>): seq<byte> {
    if user == [] then []
    else if |user| <= 16 then WithCrc(crc, user)
    else WithCrc(crc, user[..16]) + DataBlocks(crc, user[16..])
  }

  function HeaderOctets(m: Message): (h: seq<byte>)
    requires m.Valid()
    ensures |h| == 8
  {
    [SYNC0, SYNC1, 5 + |m.user|, m.control]
    + Write16(LittleEndian, m.destination) + Write16(LittleEndian, m.source)
  }

  function EncodeFrame(crc: Checksum, m: Message): seq<byte>
    requires m.Valid()
  {
    WithCrc(crc, HeaderOctets(m)) + DataBlocks(crc, m.user)
  }

  lemma {:induction false} DataBlocksLength(crc: Checksum, user: seq<byte>)
    ensures |DataBlocks(crc, user)| == |user| + 2 * ((|user| + 15) / 16)
  {
    if |user| > 16 {
      DataBlocksLength(crc, user[16..]);
    }
  }

  /** The length formula is the length of the laid-out frame, and the receiver reads the sender's header back. */
  lemma EncodedFrame(crc: Checksum, m: Message)
    requires m.Valid()
    ensures IsFrame(EncodeFrame(crc, m))
    ensures ParseHeader(EncodeFrame(crc, m)) ==
            Some(Header(SYNC0, SYNC1, 5 + |m.user|, m.control, m.destination, m.source))
  {
    DataBlocksLength(crc, m.user);
    var f := EncodeFrame(crc, m);
    assert f[..8] == HeaderOctets(m);
    assert forall i :: 0 <= i < 8 ==> f[i] == f[..8][i];
  }

  /**
   Octet 12, which the analyzer takes as the application function code, is the third user octet exactly when
   LENGTH is at least 8. LENGTH 6 and 7 pass its `frame_len >= 13` test with a CRC octet in that place.
   */
  lemma FunctionCodeOctet(crc: Checksum, m: Message)
    requires m.Valid()
    ensures |EncodeFrame(crc, m)| >= 13 <==> |m.user| >= 1
    ensures |m.user| >= 3 ==> EncodeFrame(crc, m)[10..13] == m.user[..3]
    ensures |m.user| == 2 ==> EncodeFrame(crc, m)[12] == crc(m.user).0
    ensures |m.user| == 1 ==> EncodeFrame(crc, m)[12] == crc(m.user).1
  {
    DataBlocksLength(crc, m.user);
    var blocks := DataBlocks(crc, m.user);
    var f := EncodeFrame(crc, m);
    assert f[10..] == blocks;
    if |m.user| >= 3 {
      assert blocks[..3] == m.user[..3];
      assert f[10..13] == f[10..][..3];
    } else if |m.user| >= 1 {
      assert f[12] == f[10..][2];
    }
  }
}
