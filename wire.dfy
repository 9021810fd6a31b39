/**
 * The physical-layer transform of the bus: every byte is inverted (XOR 0xFF)
 * when it is read from the UART and again when a frame is written to it.
 */
module Wire {
  import opened BsbTypes

  /** One byte through the physical-layer transform. */
  function Invert(b: Byte): (r: Byte)
    ensures r as int == 0xFF - b as int
  {
    b ^ 0xFF
  }

  /** A whole buffer through the transform, byte by byte. */
  function InvertAll(s: seq<Byte>): (r: seq<Byte>)
    ensures |r| == |s|
    ensures forall i :: 0 <= i < |s| ==> r[i] == s[i] ^ 0xFF
  {
    seq(|s|, i requires 0 <= i < |s| => Invert(s[i]))
  }

  /** The transform undoes itself. */
  lemma InvertInvolutive(b: Byte)
    ensures Invert(Invert(b)) == b
  {
  }

  /** Inverting a buffer twice gives it back. */
  lemma InvertAllInvolutive(s: seq<Byte>)
    ensures InvertAll(InvertAll(s)) == s
  {
    forall i | 0 <= i < |s|
      ensures InvertAll(InvertAll(s))[i] == s[i]
    {
      InvertInvolutive(s[i]);
    }
  }

  /** The transform distributes over concatenation, so a stream may be inverted in pieces. */
  lemma InvertAllAppend(a: seq<Byte>, b: seq<Byte>)
    ensures InvertAll(a + b) == InvertAll(a) + InvertAll(b)
  {
  }

  /**
   * The body of write_packet: copy the frame and invert every byte of the
   * copy in place, giving the bytes handed to write_array.
   */
  method InvertedCopy(buffer: seq<Byte>) returns (frame: seq<Byte>)
    ensures |frame| == |buffer|
    ensures forall i :: 0 <= i < |buffer| ==> frame[i] == buffer[i] ^ 0xFF
  {
    var a := new Byte[|buffer|](i requires 0 <= i < |buffer| => buffer[i]);
    var i := 0;
    while i < a.Length
      invariant 0 <= i <= a.Length
      invariant forall j :: 0 <= j < i ==> a[j] == buffer[j] ^ 0xFF
      invariant forall j :: i <= j < a.Length ==> a[j] == buffer[j]
    {
      a[i] := a[i] ^ 0xFF;
      i := i + 1;
    }
    frame := a[..];
  }

  /**
   * The UART output after write_packet: nothing is written for an empty
   * buffer, otherwise the inverted frame is written as one block.
   */
  function Transmit(written: seq<seq<Byte>>, p: Packet): (r: seq<seq<Byte>>)
    ensures |p.buffer| == 0 ==> r == written
    ensures |p.buffer| > 0 ==> |r| == |written| + 1 && r[..|written|] == written
    ensures |p.buffer| > 0 ==> |r[|written|]| == |p.buffer|
    ensures |p.buffer| > 0 ==> forall i :: 0 <= i < |p.buffer| ==> r[|written|][i] == p.buffer[i] ^ 0xFF
  {
    if |p.buffer| == 0 then written else written + [InvertAll(p.buffer)]
  }

  /** The UART output after a scan that may or may not have chosen a packet. */
  function Emit(written: seq<seq<Byte>>, sent: Option<Packet>): (r: seq<seq<Byte>>)
    ensures |written| <= |r| <= |written| + 1 && r[..|written|] == written
    ensures sent.None? ==> r == written
  {
    match sent
    case None => written
    case Some(p) => Transmit(written, p)
  }

  /** A written block, once inverted again on the far side, is exactly the frame that was sent. */
  lemma WrittenFrameRoundTrip(written: seq<seq<Byte>>, p: Packet)
    requires |p.buffer| > 0
    ensures InvertAll(Transmit(written, p)[|written|]) == p.buffer
  {
    InvertAllInvolutive(p.buffer);
  }
}
