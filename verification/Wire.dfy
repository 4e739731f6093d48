/** The frame header every transport shares: its layout in bytes, and the
    bound check that each codec makes before it trusts a header. */
module Wire {

  type Byte = x: int | 0 <= x < 256

  datatype Option<+T> = None | Some(value: T)

  const HEADER_SIZE: nat := 12
  const MAX_OFFSET: nat := 16
  const MAX_IF: nat := 7

  function Le16(lo: Byte, hi: Byte): (n: nat)
    ensures n < 0x1_0000
  {
    lo + 256 * hi
  }

  function PutLe16(n: nat): (s: seq<Byte>)
    requires n < 0x1_0000
    ensures |s| == 2 && Le16(s[0], s[1]) == n
  {
    [n % 256, n / 256]
  }

  // Header fields. The interface type is the low nibble of the first byte.
  function IfType(s: seq<Byte>): nat
    requires |s| >= HEADER_SIZE
  {
    s[0] % 16
  }

  function PayloadLen(s: seq<Byte>): nat
    requires |s| >= HEADER_SIZE
  {
    Le16(s[4], s[5])
  }

  function Offset(s: seq<Byte>): nat
    requires |s| >= HEADER_SIZE
  {
    Le16(s[6], s[7])
  }

  predicate OffsetValid(offset: nat) {
    HEADER_SIZE <= offset <= MAX_OFFSET
  }

  /** The frame length, when the span fits; subtraction only after the
      comparison that makes it safe. */
  function SpanFrameLen(payloadLen: nat, offset: nat, available: nat): (r: Option<nat>)
    ensures r.Some? <==> 0 < payloadLen && OffsetValid(offset) && offset + payloadLen <= available
    ensures r.Some? ==> r.value == offset + payloadLen
  {
    if payloadLen == 0 || !OffsetValid(offset) then None
    else if offset > available || payloadLen > available - offset then None
    else Some(offset + payloadLen)
  }

  /** The least multiple of four that is at least n. */
  function Align4(n: nat): (r: nat)
    ensures n <= r < n + 4 && r % 4 == 0
  {
    (n + 3) / 4 * 4
  }

  function Zeros(n: nat): (s: seq<Byte>)
    ensures |s| == n && forall i :: 0 <= i < n ==> s[i] == 0
  {
    seq(n, i => 0)
  }

  function Flatten(chunks: seq<seq<Byte>>): seq<Byte> {
    if chunks == [] then [] else chunks[0] + Flatten(chunks[1..])
  }

  /** A frame with zeros up to the next multiple of four. */
  function Padded(f: seq<Byte>): seq<Byte> {
    f + Zeros(Align4(|f|) - |f|)
  }

  /** Frames back to back, each padded. */
  function Pack(frames: seq<seq<Byte>>): seq<Byte> {
    if frames == [] then [] else Padded(frames[0]) + Pack(frames[1..])
  }
}
