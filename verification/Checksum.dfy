/** The word-at-a-time checksum (host/include/adapter.h): four bytes are added
    as two 16-bit lanes of one 32-bit sum. */
module Checksum {
  import opened Wire

  const U32: nat := 0x1_0000_0000
  const LANE: nat := 0x1_0000

  /** The checksum a byte loop would compute, before truncation. */
  function ByteSum(s: seq<Byte>): nat {
    if s == [] then 0 else s[0] + ByteSum(s[1..])
  }

  lemma {:induction false} ByteSumAppend(a: seq<Byte>, b: seq<Byte>)
    ensures ByteSum(a + b) == ByteSum(a) + ByteSum(b)
  {
    if a == [] {
      assert a + b == b;
    } else {
      assert (a + b)[1..] == a[1..] + b;
      ByteSumAppend(a[1..], b);
    }
  }

  lemma {:induction false} ByteSumBound(s: seq<Byte>)
    ensures ByteSum(s) <= 255 * |s|
  {
    if s != [] {
      ByteSumBound(s[1..]);
    }
  }

  /** A word in memory order, least significant byte first. */
  function Word(b0: Byte, b1: Byte, b2: Byte, b3: Byte): nat {
    b0 + 0x100 * b1 + 0x1_0000 * b2 + 0x100_0000 * b3
  }

  /** word & 0x00ff00ff */
  function EvenBytes(word: nat): nat {
    word % 0x100 + 0x1_0000 * (word / 0x1_0000 % 0x100)
  }

  /** The masks of the source, on machine words, keep what EvenBytes keeps. */
  lemma MasksSplitTheWord(b0: bv32, b1: bv32, b2: bv32, b3: bv32)
    requires b0 < 0x100 && b1 < 0x100 && b2 < 0x100 && b3 < 0x100
    ensures var word := b0 | (b1 << 8) | (b2 << 16) | (b3 << 24);
            && word & 0x00ff00ff == b0 + (b2 << 16)
            && (word >> 8) & 0x00ff00ff == b1 + (b3 << 16)
  {
  }

  /** One word adds its bytes to the two lanes, two to each. */
  lemma WordPairs(b0: nat, b1: nat, b2: nat, b3: nat)
    requires b0 < 256 && b1 < 256 && b2 < 256 && b3 < 256
    ensures var word := Word(b0, b1, b2, b3);
            EvenBytes(word) + EvenBytes(word / 0x100) == (b0 + b1) + LANE * (b2 + b3)
  {
    var low, high := b0 + 0x100 * b1, b2 + 0x100 * b3;
    var shifted := b1 + 0x100 * high;
    assert Word(b0, b1, b2, b3) == b0 + 0x100 * shifted == low + 0x1_0000 * high;
    Divide(b0, shifted, 0x100);
    Divide(low, high, 0x1_0000);
    Divide(b1, high, 0x100);
    Divide(b2, b3, 0x100);
    assert shifted == (b1 + 0x100 * b2) + 0x1_0000 * b3;
    Divide(b1 + 0x100 * b2, b3, 0x1_0000);
  }

  lemma Divide(r: nat, q: nat, d: nat)
    requires r < d && (d == 0x100 || d == 0x1_0000)
    ensures (r + d * q) % d == r && (r + d * q) / d == q
  {
  }

  function At(buf: seq<Byte>, i: nat): (n: nat)
    requires i < |buf|
    ensures n < 256
  {
    buf[i]
  }

  function WordAt(buf: seq<Byte>, at: nat): nat
    requires at + 4 <= |buf|
  {
    Word(buf[at], buf[at + 1], buf[at + 2], buf[at + 3])
  }

  /** What one word adds to each lane. */
  function LowPair(buf: seq<Byte>, at: nat): (n: nat)
    requires at + 4 <= |buf|
    ensures n <= 510
  {
    At(buf, at) + At(buf, at + 1)
  }

  function HighPair(buf: seq<Byte>, at: nat): (n: nat)
    requires at + 4 <= |buf|
    ensures n <= 510
  {
    At(buf, at + 2) + At(buf, at + 3)
  }

  lemma LanesHold(lo: nat, hi: nat, k: nat, e: nat, o: nat)
    requires k < 64 && lo <= 510 * k && hi <= 510 * k && e <= 510 && o <= 510
    ensures (lo + LANE * hi + (e + LANE * o)) % U32 == (lo + e) + LANE * (hi + o)
    ensures lo + e <= 510 * (k + 1) < LANE && hi + o <= 510 * (k + 1) < LANE
  {
  }

  lemma LanesApart(lo: nat, hi: nat)
    requires lo < LANE
    ensures (lo + LANE * hi) % LANE == lo && (lo + LANE * hi) / LANE == hi
  {
  }

  /** At most 64 words: neither lane reaches 16 bits, so no carry passes from
      one to the other, and their sum is the sum of the bytes. */
  method SumWords(buf: seq<Byte>, pos: nat, words: nat) returns (pairs: nat)
    requires words <= 64 && pos + 4 * words <= |buf|
    ensures pairs % LANE + pairs / LANE == ByteSum(buf[pos..pos + 4 * words])
  {
    pairs := 0;
    ghost var lo: nat, hi: nat := 0, 0;
    for k := 0 to words
      invariant pairs == lo + LANE * hi && lo <= 510 * k && hi <= 510 * k
      invariant lo + hi == ByteSum(buf[pos..pos + 4 * k])
    {
      var at := pos + 4 * k;
      var word := WordAt(buf, at);
      WordPairs(buf[at], buf[at + 1], buf[at + 2], buf[at + 3]);
      FourBytes(buf, pos, at);
      LanesHold(lo, hi, k, LowPair(buf, at), HighPair(buf, at));
      pairs := (pairs + (EvenBytes(word) + EvenBytes(word / 0x100))) % U32;
      lo, hi := lo + LowPair(buf, at), hi + HighPair(buf, at);
    }
    LanesApart(lo, hi);
  }

  lemma FourBytes(buf: seq<Byte>, pos: nat, at: nat)
    requires pos <= at && at + 4 <= |buf|
    ensures ByteSum(buf[pos..at + 4]) == ByteSum(buf[pos..at]) + LowPair(buf, at) + HighPair(buf, at)
  {
    var four := buf[at..at + 4];
    assert buf[pos..at + 4] == buf[pos..at] + four;
    ByteSumAppend(buf[pos..at], four);
    assert four[1..][1..][1..] == [buf[at + 3]];
    assert ByteSum(four[1..][1..][1..]) == At(buf, at + 3) + ByteSum([]);
    assert ByteSum(four[1..][1..]) == At(buf, at + 2) + ByteSum(four[1..][1..][1..]);
    assert ByteSum(four[1..]) == At(buf, at + 1) + ByteSum(four[1..][1..]);
  }

  lemma SumTo(buf: seq<Byte>, pos: nat, next: nat)
    requires pos <= next <= |buf|
    ensures ByteSum(buf[..next]) == ByteSum(buf[..pos]) + ByteSum(buf[pos..next])
  {
    assert buf[..next] == buf[..pos] + buf[pos..next];
    ByteSumAppend(buf[..pos], buf[pos..next]);
  }

  /** No 32-bit addition overflows: no buffer has more than 65535 bytes. */
  lemma NoOverflow(buf: seq<Byte>, pos: nat)
    requires pos <= |buf| <= 0xFFFF
    ensures ByteSum(buf[..pos]) < U32
  {
    ByteSumBound(buf[..pos]);
  }

  /** One byte. */
  method AddByte(buf: seq<Byte>, pos: nat, sum: nat) returns (checksum: nat)
    requires pos < |buf| <= 0xFFFF && sum == ByteSum(buf[..pos])
    ensures checksum == ByteSum(buf[..pos + 1])
  {
    SumTo(buf, pos, pos + 1);
    assert buf[pos..pos + 1] == [buf[pos]] && ByteSum([buf[pos]]) == At(buf, pos) + ByteSum([]);
    NoOverflow(buf, pos + 1);
    checksum := (sum + At(buf, pos)) % U32;
  }

  /** Up to 64 words. */
  method AddBlock(buf: seq<Byte>, pos: nat, words: nat, sum: nat) returns (checksum: nat)
    requires words <= 64 && pos + 4 * words <= |buf| <= 0xFFFF && sum == ByteSum(buf[..pos])
    ensures checksum == ByteSum(buf[..pos + 4 * words])
  {
    var pairs := SumWords(buf, pos, words);
    SumTo(buf, pos, pos + 4 * words);
    NoOverflow(buf, pos + 4 * words);
    checksum := (sum + (pairs % LANE + pairs / LANE)) % U32;
  }

  /** compute_checksum for a buffer at any address: the sum of all its bytes,
      modulo 65536. */
  method Compute(buf: seq<Byte>, addr: nat) returns (r: nat)
    requires |buf| <= 0xFFFF
    ensures r == ByteSum(buf) % 0x1_0000
  {
    var checksum, pos := 0, 0;
    while pos < |buf| && (addr + pos) % 4 != 0
      invariant pos <= |buf| && checksum == ByteSum(buf[..pos])
    {
      checksum := AddByte(buf, pos, checksum);
      pos := pos + 1;
    }
    while |buf| - pos >= 4
      invariant pos <= |buf| && checksum == ByteSum(buf[..pos])
      decreases |buf| - pos
    {
      var words := if (|buf| - pos) / 4 > 64 then 64 else (|buf| - pos) / 4;
      checksum := AddBlock(buf, pos, words, checksum);
      pos := pos + 4 * words;
    }
    while pos < |buf|
      invariant pos <= |buf| && checksum == ByteSum(buf[..pos])
    {
      checksum := AddByte(buf, pos, checksum);
      pos := pos + 1;
    }
    assert buf[..|buf|] == buf;
    r := checksum % 0x1_0000;
  }
}
