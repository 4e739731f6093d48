/** Wrapping flow-control counters: SDIO receive length and transmit credits
    (host/sdio/esp_sdio.c), SPI-HD segment credits (host/spi_hd/esp_spi_hd.c).

    The host sees only wrapped registers. Beside each stands the count it
    wraps; the slave keeps its outstanding window below the modulus. */
module Counters {
  import opened Wire

  const RX_MAX: nat := 0x10_0000
  const TX_MAX: nat := 0x1000
  const MAX_BUF: nat := 10
  const BLOCK: nat := 512
  const RETRIES: nat := 2000
  const U32: nat := 0x1_0000_0000
  const LIVE_MAX: nat := 32

  // ------------------------------------------------------------ SDIO receive

  /** esp_sdio_rx_len_delta */
  function RxDelta(raw: nat, count: nat): nat
    requires raw < RX_MAX && count < RX_MAX
  {
    if raw >= count then (raw + RX_MAX - count) % RX_MAX else RX_MAX - count + raw
  }

  /** The delta is the number of bytes published and not yet consumed. */
  lemma RxDeltaIsTrue(published: nat, consumed: nat)
    requires consumed <= published < consumed + RX_MAX
    ensures RxDelta(published % RX_MAX, consumed % RX_MAX) == published - consumed
  {
    var ahead := consumed % RX_MAX + (published - consumed);
    assert published % RX_MAX == if ahead < RX_MAX then ahead else ahead - RX_MAX;
  }

  /** The read loop of read_packet: whole blocks first, then the rest in one
      read; the cursor moves by the payload bytes, not by the padding. */
  method ReadAll(len: nat, cursor: nat) returns (moved: nat, got: nat)
    requires len > 0 && cursor < RX_MAX
    ensures moved == (cursor + len) % RX_MAX && got == Align4(len)
  {
    var dataLeft, payloadLeft := Align4(len), len;
    moved, got := cursor, 0;
    while dataLeft > 0
      invariant 0 <= payloadLeft <= len && moved == (cursor + (len - payloadLeft)) % RX_MAX
      invariant dataLeft == Align4(payloadLeft) && got + dataLeft == Align4(len)
      decreases dataLeft
    {
      var blocks := payloadLeft / BLOCK;
      var toRead := if blocks > 0 then blocks * BLOCK else payloadLeft;
      var readLen := if blocks > 0 then toRead else Align4(toRead);
      AlignAfterBlocks(payloadLeft, blocks);
      CursorMoves(cursor, len - payloadLeft, toRead);
      dataLeft := dataLeft - readLen;
      payloadLeft := payloadLeft - toRead;
      moved := (moved + toRead) % RX_MAX;
      got := got + readLen;
    }
  }

  lemma AlignAfterBlocks(n: nat, blocks: nat)
    requires blocks * BLOCK <= n
    ensures Align4(n - blocks * BLOCK) == Align4(n) - blocks * BLOCK
  {
  }

  lemma CursorMoves(c: nat, a: nat, b: nat)
    ensures ((c + a) % RX_MAX + b) % RX_MAX == (c + (a + b)) % RX_MAX
  {
  }

  /** One full read, as the host performs it: what the register says is read,
      and the cursor ends where the slave's count stood. */
  lemma CursorFollowsSlave(published: nat, consumed: nat)
    requires consumed <= published < consumed + RX_MAX
    ensures (consumed % RX_MAX + RxDelta(published % RX_MAX, consumed % RX_MAX)) % RX_MAX == published % RX_MAX
  {
    RxDeltaIsTrue(published, consumed);
    CursorMoves(consumed, 0, published - consumed);
  }

  /** Each read finds the slave ahead by less than the modulus. */
  predicate Windowed(consumed: nat, tops: seq<nat>)
    decreases |tops|
  {
    tops == [] || (consumed <= tops[0] < consumed + RX_MAX && Windowed(tops[0], tops[1..]))
  }

  /** Reads one after the other, each when the slave's count is the next of
      tops: the cursor, and how many bytes were read in all. */
  function ReadRun(cursor: nat, tops: seq<nat>): (nat, nat)
    requires cursor < RX_MAX
    decreases |tops|
  {
    if tops == [] then (cursor, 0)
    else
      var n := RxDelta(tops[0] % RX_MAX, cursor);
      var rest := ReadRun((cursor + n) % RX_MAX, tops[1..]);
      (rest.0, n + rest.1)
  }

  function Last(consumed: nat, tops: seq<nat>): nat {
    if tops == [] then consumed else tops[|tops| - 1]
  }

  /** Over any number of reads and wraps: every published byte is read once,
      and the cursor is the slave's count. */
  lemma {:induction false} EveryByteReadOnce(consumed: nat, tops: seq<nat>)
    requires Windowed(consumed, tops)
    ensures Last(consumed, tops) >= consumed
    ensures ReadRun(consumed % RX_MAX, tops) == (Last(consumed, tops) % RX_MAX, Last(consumed, tops) - consumed)
    decreases |tops|
  {
    if tops != [] {
      RxDeltaIsTrue(tops[0], consumed);
      CursorFollowsSlave(tops[0], consumed);
      EveryByteReadOnce(tops[0], tops[1..]);
      assert Last(consumed, tops) == Last(tops[0], tops[1..]);
    }
  }

  // ----------------------------------------------------------- SDIO transmit

  /** esp_slave_get_tx_buffer_num */
  function TxBuffers(raw: nat, count: nat): (n: nat)
    requires raw < TX_MAX && count < TX_MAX
    ensures n <= MAX_BUF
  {
    var n := (raw + TX_MAX - count) % TX_MAX;
    if n > MAX_BUF then MAX_BUF else n
  }

  /** What the register shows as free are the buffers posted and not used, ten
      of them at most. */
  lemma TxBuffersNeverTooMany(posted: nat, written: nat)
    requires written <= posted < written + TX_MAX
    ensures TxBuffers(posted % TX_MAX, written % TX_MAX) == if posted - written > 10 then 10 else posted - written
  {
    assert (posted % TX_MAX + TX_MAX - written % TX_MAX) % TX_MAX == posted - written;
  }

  /** posted: buffers the slave has posted; written: aggregates it was sent.
      reserved: a credit taken for an aggregate not yet written. */
  class SdioCredits {
    var available: nat
    var txCount: nat
    var reserved: nat
    var posted: nat
    var written: nat

    /** Cached and reserved credits are buffers posted and not yet used. */
    predicate Valid()
      reads this
    {
      && txCount == written % TX_MAX && posted < written + TX_MAX
      && written + reserved + available <= posted
    }

    /** esp_sdio_baseline_tx_credits, for a new incarnation that has posted
        this many buffers so far. */
    constructor (raw: nat)
      requires raw < TX_MAX
      ensures Valid() && available == 0 && reserved == 0 && posted == raw
      ensures written == if raw >= MAX_BUF then raw - MAX_BUF else 0
    {
      txCount := if raw >= MAX_BUF then raw - MAX_BUF else 0;
      available, reserved, posted := 0, 0, raw;
      written := if raw >= MAX_BUF then raw - MAX_BUF else 0;
    }

    /** The slave posts more buffers, within its window. */
    method Post(more: nat)
      requires Valid() && posted + more < written + TX_MAX
      modifies `posted
      ensures Valid() && posted == old(posted) + more
    {
      posted := posted + more;
    }

    /** is_sdio_write_buffer_available for one buffer: the register is read
        again while it shows none. arrivals: what the slave posts meanwhile. It
        fails only when, at the last look, there is nothing posted and unused. */
    method Reserve(arrivals: seq<nat>) returns (ok: bool)
      requires Valid() && reserved == 0 && |arrivals| == RETRIES
      requires posted + Sum(arrivals) < written + TX_MAX
      modifies `available, `posted, `reserved
      ensures Valid() && ok == (reserved == 1) && (!ok ==> reserved == 0 && available == 0)
      ensures ok <==> posted > written
    {
      var tries := 0;
      while available < 1 && tries < RETRIES
        invariant Valid() && reserved == 0 && tries <= RETRIES
        invariant posted + Sum(arrivals[tries..]) < written + TX_MAX
        invariant tries > 0 && available == 0 ==> posted == written
      {
        Post(arrivals[tries]);
        TxBuffersNeverTooMany(posted, written);
        available := TxBuffers(posted % TX_MAX, txCount);
        tries := tries + 1;
      }
      ok := available >= 1;
      if ok {
        available, reserved := available - 1, 1;
      }
    }

    /** The aggregate is written: the slave has used one buffer. */
    method Written()
      requires Valid() && reserved == 1
      modifies `txCount, `written, `reserved
      ensures Valid() && reserved == 0 && written == old(written) + 1 <= posted
    {
      txCount := (txCount + 1) % TX_MAX;
      written, reserved := written + 1, 0;
    }

    /** The aggregate is dropped before it is written: start from the register. */
    method Abandon()
      requires Valid()
      modifies `available, `reserved
      ensures Valid() && available == 0 && reserved == 0
    {
      available, reserved := 0, 0;
    }
  }

  function Sum(q: seq<nat>): nat {
    if q == [] then 0 else q[0] + Sum(q[1..])
  }

  // ------------------------------------------------------------------ SPI-HD

  /** (s32)(a - b) on 32-bit numbers. */
  function Ahead(a: nat, b: nat): (d: int)
    requires a < U32 && b < U32
    ensures -0x8000_0000 <= d < 0x8000_0000
  {
    var d := (a - b) % 0x1_0000_0000;
    if d >= 0x8000_0000 then d - U32 else d
  }

  /** A reading is taken as a credit only when it is a little ahead. */
  predicate Accepted(word: nat, sent: nat)
    requires word < U32 && sent < U32
  {
    0 < Ahead(word, sent) <= LIVE_MAX
  }

  /** a on a 32-bit register that has reached at most twice its range. */
  function Wrap(a: nat): nat {
    if a < U32 then a else a - U32
  }

  lemma WordFromAhead(word: nat, s: nat)
    requires word < U32 && s < U32 && Ahead(word, s) >= 0
    ensures word == Wrap(s + Ahead(word, s))
  {
  }

  lemma ModFromAhead(shown: nat, sent: nat)
    requires sent <= shown < sent + U32
    ensures shown % U32 == Wrap(sent % U32 + (shown - sent))
  {
  }

  /** A read of the cumulative counter may be torn: its low byte belongs to one
      of the values the counter had during the read, the others to any. If such
      a reading is accepted, it is that very value, and nothing else. */
  lemma AcceptedReadIsTrue(word: nat, shown: nat, sent: nat)
    requires word < U32 && word % 256 == shown % 256 && sent <= shown <= sent + LIVE_MAX
    requires Accepted(word, sent % U32)
    ensures word == shown % U32
    ensures Ahead(word, sent % U32) == shown - sent
  {
    var s, d, k := sent % U32, Ahead(word, sent % U32), shown - sent;
    WordFromAhead(word, s);
    ModFromAhead(shown, sent);
    LowByte(s + d);
    LowByte(s + k);
    WholeWord(shown);
    SmallAndCongruent(s, d, k);
  }

  lemma WholeWord(n: nat)
    ensures n % U32 % 256 == n % 256
  {
  }

  /** The wrap at 2^32 leaves the low byte alone. */
  lemma LowByte(n: nat)
    ensures Wrap(n) % 256 == n % 256
  {
  }

  lemma SmallAndCongruent(s: nat, d: nat, k: nat)
    requires d <= LIVE_MAX && k <= LIVE_MAX && (s + d) % 256 == (s + k) % 256
    ensures d == k
  {
  }

  /** And a reading that is not torn is accepted whenever it shows a credit. */
  lemma TrueReadIsAccepted(shown: nat, sent: nat)
    requires sent <= shown <= sent + LIVE_MAX
    ensures Accepted(shown % U32, sent % U32) <==> sent < shown
  {
    LimitAhead(shown, sent);
  }

  lemma NextSegment(sent: nat)
    ensures (sent % U32 + 1) % U32 == (sent + 1) % U32
  {
    var s := sent % U32;
    assert (sent + 1) % U32 == if s + 1 < U32 then s + 1 else 0;
  }

  /** published: descriptors the slave has armed; sent: segments written;
      limit: the last credit accepted, unwrapped. */
  class SpiCredits {
    var creditLimit: nat
    var segmentCount: nat
    var published: nat
    var sent: nat
    ghost var limit: nat

    ghost predicate Valid()
      reads this
    {
      && segmentCount == sent % U32 && creditLimit == limit % U32
      && sent <= limit <= published <= sent + LIVE_MAX
    }

    constructor (base: nat)
      ensures Valid() && sent == base && published == base
    {
      creditLimit, segmentCount := base % U32, base % U32;
      published, sent, limit := base, base, base;
    }

    /** The slave arms descriptors, within its window. */
    method Arm(more: nat)
      requires Valid() && published + more <= sent + LIVE_MAX
      modifies `published
      ensures Valid() && published == old(published) + more
    {
      published := published + more;
    }

    /** One look at a reading, torn or not. shown: the value its low byte is of. */
    method Look(word: nat, ghost shown: nat) returns (ok: bool)
      requires Valid() && word < U32 && word % 256 == shown % 256 && sent <= shown <= published
      modifies `creditLimit, `limit
      ensures Valid() && ok == Accepted(word, segmentCount)
      ensures ok ==> limit == shown > sent
      ensures !ok ==> limit == old(limit)
    {
      var free := Ahead(word, segmentCount);
      ok := 0 < free <= LIVE_MAX;
      if ok {
        AcceptedReadIsTrue(word, shown, sent);
        creditLimit := word;
        limit := shown;
      }
    }

    /** spihd_wait_tx_credit: a credit seen before is used first; otherwise
        every reading is looked at until one is accepted. */
    method WaitCredit(readings: seq<nat>, ghost shown: seq<nat>) returns (ok: bool)
      requires Valid() && |shown| == |readings|
      requires forall i :: 0 <= i < |readings| ==>
                 readings[i] < U32 && readings[i] % 256 == shown[i] % 256 && sent <= shown[i] <= published
      modifies `creditLimit, `limit
      ensures Valid() && (ok ==> sent < limit)
      ensures old(limit) > sent ==> ok
      ensures (exists i :: 0 <= i < |readings| && readings[i] == shown[i] % U32 && shown[i] > sent) ==> ok
    {
      LimitAhead(limit, sent);
      if Ahead(creditLimit, segmentCount) > 0 {
        return true;
      }
      ok := false;
      for i := 0 to |readings|
        invariant Valid()
        invariant forall k :: 0 <= k < i && readings[k] == shown[k] % U32 ==> shown[k] == sent
      {
        TrueReadIsAccepted(shown[i], sent);
        var accepted := Look(readings[i], shown[i]);
        if accepted {
          return true;
        }
      }
    }

    /** One segment of spihd_send_frame, after its credit. */
    method SendSegment()
      requires Valid() && sent < limit
      modifies `segmentCount, `sent
      ensures Valid() && sent == old(sent) + 1 <= published
    {
      NextSegment(sent);
      segmentCount := (segmentCount + 1) % U32;
      sent := sent + 1;
    }
  }

  lemma LimitAhead(limit: nat, sent: nat)
    requires sent <= limit <= sent + LIVE_MAX
    ensures Ahead(limit % U32, sent % U32) == limit - sent
  {
    var s, k := sent % U32, limit - sent;
    assert limit % U32 == if s + k < U32 then s + k else s + k - U32;
  }
}
