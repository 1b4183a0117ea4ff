/** A frame octet by octet, as the standard numbers them; the statements about runs are made in these terms. */
module Dnp3Reading {
  import opened Octets
  import opened Dnp3Wire
  import opened Dnp3Framing
  import opened Dnp3Detection

  /** A 16-bit address, low octet first. */
  function Address(low: byte, high: byte): nat { low + 256 * high }

  predicate IsWhole(s: Segment) { s.Frame? && |s.bytes| >= 10 }

  /** Bit 7 of the control octet: the frame goes from a master to an outstation. */
  predicate FromMaster(s: Segment) { IsWhole(s) && s.bytes[3] >= 128 }

  function DestinationOf(s: Segment): nat
    requires IsWhole(s)
  {
    Address(s.bytes[4], s.bytes[5])
  }

  function SourceOf(s: Segment): nat
    requires IsWhole(s)
  {
    Address(s.bytes[6], s.bytes[7])
  }

  /**
   Octet 12, for a frame of 13 or more whose link function (the low half of the control octet) is 3 or 4, user data
   confirmed or not, and whose transport octet has bit 6 set, the first fragment.
   */
  function CodeOf(s: Segment): (fc: Option<byte>)
    ensures fc.Some? ==> IsWhole(s) && |s.bytes| >= 13
  {
    if IsWhole(s) && |s.bytes| >= 13 && s.bytes[3] % 16 in {3, 4} && s.bytes[10] / 64 in {1, 3} then Some(s.bytes[12])
    else None
  }

  predicate IsCode(s: Segment, fc: byte) { CodeOf(s) == Some(fc) }

  /** The low half of the application control octet. */
  function SequenceOf(s: Segment): nat
    requires CodeOf(s).Some?
  {
    s.bytes[11] % 16
  }

  /** SELECT, OPERATE, DIRECT_OPERATE and DIRECT_OPERATE_NR. */
  predicate IsControl(s: Segment) { CodeOf(s).Some? && 3 <= CodeOf(s).value <= 6 }

  /** COLD_RESTART and WARM_RESTART. */
  predicate IsRestart(s: Segment) { CodeOf(s).Some? && CodeOf(s).value in {13, 14} }

  /** What the analyzer takes from a frame is what its octets say. */
  lemma FrameReads(s: Segment)
    requires SegmentOk(s) && s.Frame?
    ensures IsWhole(s) && ParseHeader(s.bytes).Some?
    ensures var h, app := ParseHeader(s.bytes).value, ApplicationOf(s.bytes);
            && h.destination == DestinationOf(s) && h.source == SourceOf(s)
            && (IsMasterFrame(h.control) <==> FromMaster(s))
            && app == (if CodeOf(s).None? then None else Some(Application(CodeOf(s).value, SequenceOf(s))))
            && (app.Some? ==>
                  && (ClassifyFc(app.value.fc).Control? <==> IsControl(s))
                  && (ClassifyFc(app.value.fc).Restart? <==> IsRestart(s)))
  {
    hide FrameLen;
  }
}
