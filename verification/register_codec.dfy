/**
 Decoding of one measurement from the registers a read returns. The words are
 flattened into bytes, most significant byte first (`u16::to_be_bytes` under
 `flat_map`), and the first four bytes are reassembled big-endian into the
 32-bit pattern of an IEEE-754 float. A response with fewer than two words
 leaves fewer than four bytes, and taking the four-byte prefix then panics.

 `JoinBytes` and `SplitPattern` are reference inverses used to state the
 round trips; they have no counterpart in the program.
 */
module RegisterCodec {
  import opened Results
  import opened MachineInts

  /** Number of bytes the float decoder consumes. */
  const PatternBytes: nat := 4

  /** `u16::to_be_bytes`: high byte, then low byte. */
  function WordToBeBytes(w: u16): (r: seq<u8>)
    ensures |r| == 2
    ensures r[0] * ByteRange + r[1] == w
  {
    [w / ByteRange, w % ByteRange]
  }

  /** The response words flattened into bytes, each word most significant byte first. */
  function FlattenWords(ws: seq<u16>): (r: seq<u8>)
    ensures |r| == 2 * |ws|
    ensures forall i :: 0 <= i < |ws| ==> r[2 * i] == ws[i] / ByteRange && r[2 * i + 1] == ws[i] % ByteRange
  {
    if ws == [] then []
    else
      var rest := FlattenWords(ws[1..]);
      assert forall i :: 1 <= i < |ws| ==> ws[i] == ws[1..][i - 1];
      WordToBeBytes(ws[0]) + rest
  }

  /** Reference inverse of `FlattenWords`: pairs of bytes back into big-endian words. */
  function JoinBytes(bs: seq<u8>): (r: seq<u16>)
    requires |bs| % 2 == 0
    ensures 2 * |r| == |bs|
    ensures forall i :: 0 <= i < |r| ==> r[i] == bs[2 * i] * ByteRange + bs[2 * i + 1]
  {
    if bs == [] then []
    else
      var rest := JoinBytes(bs[2..]);
      assert forall i :: 2 <= i < |bs| ==> bs[i] == bs[2..][i - 2];
      [bs[0] * ByteRange + bs[1]] + rest
  }

  /** Flattening loses nothing: joining the bytes again gives back the words. */
  lemma {:induction false} JoinFlattenRoundTrip(ws: seq<u16>)
    ensures JoinBytes(FlattenWords(ws)) == ws
  {
    if ws != [] {
      var bs := FlattenWords(ws);
      assert bs[2..] == FlattenWords(ws[1..]);
      JoinFlattenRoundTrip(ws[1..]);
      assert ws == [ws[0]] + ws[1..];
    }
  }

  /** `u32::from_be_bytes` on exactly four bytes: the float's bit pattern. */
  function BeBytesToPattern(b: seq<u8>): (r: u32)
    requires |b| == PatternBytes
    ensures r / WordRange == b[0] * ByteRange + b[1]
    ensures r % WordRange == b[2] * ByteRange + b[3]
  {
    ((b[0] * ByteRange + b[1]) * ByteRange + b[2]) * ByteRange + b[3]
  }

  /** Reading four bytes as a pattern and writing the pattern back gives the same bytes. */
  lemma BytesPatternRoundTrip(b: seq<u8>)
    requires |b| == PatternBytes
    ensures PatternToBeBytes(BeBytesToPattern(b)) == b
  {
  }

  /**
   Decoding one read response: flatten the words, take the first four bytes
   and reassemble them. `None` models the panic of the four-byte slice when
   the response holds fewer than two words; once the slice succeeds it has
   exactly four bytes, so the conversion to a four-byte array cannot fail.
   */
  function DecodeResponse(ws: seq<u16>): (r: Option<u32>)
    ensures r.Some? <==> |ws| >= 2
    ensures r.Some? ==> r.value == ws[0] * WordRange + ws[1]
  {
    var bytes := FlattenWords(ws);
    if |bytes| < PatternBytes then None
    else Some(BeBytesToPattern(bytes[..PatternBytes]))
  }

  /** The two registers that hold a bit pattern: high word first. */
  function SplitPattern(x: u32): (ws: seq<u16>)
    ensures |ws| == 2
    ensures ws[0] * WordRange + ws[1] == x
  {
    [x / WordRange, x % WordRange]
  }

  /** The four big-endian bytes of a bit pattern, as the registers holding it flatten to. */
  function PatternToBeBytes(x: u32): (r: seq<u8>)
    ensures |r| == PatternBytes
    ensures BeBytesToPattern(r) == x
  {
    FlattenWords(SplitPattern(x))
  }

  /** Splitting a pattern into its words and decoding them reproduces the pattern exactly. */
  lemma SplitDecodeRoundTrip(x: u32)
    ensures DecodeResponse(SplitPattern(x)) == Some(x)
  {
  }

  /** A two-word response is determined by the pattern it decodes to. */
  lemma DecodeSplitRoundTrip(ws: seq<u16>)
    requires |ws| == 2
    ensures DecodeResponse(ws).Some?
    ensures SplitPattern(DecodeResponse(ws).value) == ws
  {
  }

  /** Words after the first two do not influence the decoded pattern. */
  lemma DecodeIgnoresTrailingWords(ws: seq<u16>, extra: seq<u16>)
    requires |ws| == 2
    ensures DecodeResponse(ws + extra) == DecodeResponse(ws)
  {
  }

  /** The pattern of 3.14: registers 0x4048, 0xF5C3 give bytes 40 48 F5 C3. */
  lemma DecodeExample()
    ensures FlattenWords([0x4048, 0xF5C3]) == [0x40, 0x48, 0xF5, 0xC3]
    ensures DecodeResponse([0x4048, 0xF5C3]) == Some(0x4048_F5C3)
  {
  }
}
