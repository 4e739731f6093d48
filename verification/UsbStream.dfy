/** The USB byte stream: the device's writer
    (esp/esp_driver/network_adapter/main/usb/esp_usb_device.c) and the host's
    reassembler (host/usb/esp_usb.c).

    `Drain` says what the parser does to an unbroken run of bytes. `UsbRx`
    is the parser itself, which meets the stream in arbitrary pieces and
    shifts its buffer in place. `Written` and `Reads` say, without the parser,
    what the device writes and what a stream of bytes means. */
module UsbStream {
  import opened Wire

  const MAX_XFER: nat := 16384
  const STREAM_CAP: nat := 2 * MAX_XFER

  /** esp_usb_valid_header: the frame length announced by a header. */
  function FrameLenAt(s: seq<Byte>): (r: Option<nat>)
    requires |s| >= HEADER_SIZE
    ensures r.Some? ==> HEADER_SIZE < r.value <= MAX_XFER
  {
    if IfType(s) >= MAX_IF then None
    else SpanFrameLen(PayloadLen(s), Offset(s), MAX_XFER)
  }

  /** A frame as the device builds it, byte by byte: an interface type below 7
      in the low nibble of byte 0, a payload length above 0 in bytes 4 and 5, an
      offset from 12 to 16 in bytes 6 and 7, low byte first, and as many bytes
      as the two add up to, 16384 at most. */
  predicate UsbFrame(f: seq<Byte>) {
    && 12 <= |f| <= 16384
    && f[0] % 16 < 7
    && f[4] as int + 256 * f[5] as int > 0
    && 12 <= f[6] as int + 256 * f[7] as int <= 16
    && |f| == (f[6] as int + 256 * f[7] as int) + (f[4] as int + 256 * f[5] as int)
  }

  /** The parser takes a frame for one exactly when it is one. */
  lemma FrameIsFrame(f: seq<Byte>)
    ensures UsbFrame(f) <==> |f| >= HEADER_SIZE && FrameLenAt(f) == Some(|f|)
  {
  }

  /** The parser looks for a pad byte after such a frame. */
  predicate PadFollows(mps: nat, frameLen: nat) {
    mps != 0 && frameLen < MAX_XFER && frameLen % mps == 0
  }

  /** frames: queued, in order. rest, pad: the parser's state afterwards.
      offered: how many allocations have been asked for so far. */
  datatype Outcome = Outcome(frames: seq<seq<Byte>>, rest: seq<Byte>, pad: bool, loss: bool, offered: nat)
  {
    function Then(next: Outcome): Outcome {
      Outcome(frames + next.frames, next.rest, next.pad, loss || next.loss, next.offered)
    }
  }

  /** A pad is looked for only once a byte is there, and only once. */
  function SkipPad(buf: seq<Byte>, pad: bool): (r: (seq<Byte>, bool))
    ensures |r.0| <= |buf|
  {
    if pad && |buf| > 0 then (if buf[0] == 0 then buf[1..] else buf, false) else (buf, pad)
  }

  /** What parsing buf yields. alloc(k) is the outcome of the k-th allocation. */
  function Drain(mps: nat, alloc: nat -> bool, buf: seq<Byte>, pad: bool, offered: nat): (r: Outcome)
    ensures |r.rest| < MAX_XFER
    decreases |buf|
  {
    var (b, p) := SkipPad(buf, pad);
    if |b| < HEADER_SIZE then Outcome([], b, p, false, offered)
    else match FrameLenAt(b)
      case None => Outcome([], b[1..], p, true, offered).Then(Drain(mps, alloc, b[1..], p, offered))
      case Some(n) =>
        if |b| < n then Outcome([], b, p, false, offered)
        else
          FrameOutcome(alloc, b[..n], offered).Then(Drain(mps, alloc, b[n..], PadFollows(mps, n), offered + 1))
  }

  /** A frame that cannot be allocated is lost, and said to be lost. */
  function FrameOutcome(alloc: nat -> bool, f: seq<Byte>, offered: nat): Outcome {
    Outcome(if alloc(offered) then [f] else [], [], false, !alloc(offered), offered + 1)
  }

  // ---------------------------------------------------------------- chunking

  lemma HeaderIsPrefix(b: seq<Byte>, more: seq<Byte>)
    requires |b| >= HEADER_SIZE
    ensures FrameLenAt(b + more) == FrameLenAt(b)
  {
    assert forall i :: 0 <= i < HEADER_SIZE ==> (b + more)[i] == b[i];
  }

  /** Once the pad question is settled for buf, appending cannot reopen it. */
  lemma DrainSkipsPad(mps: nat, alloc: nat -> bool, buf: seq<Byte>, more: seq<Byte>, pad: bool, offered: nat)
    requires |buf| > 0
    ensures !SkipPad(buf, pad).1
    ensures Drain(mps, alloc, buf + more, pad, offered)
            == Drain(mps, alloc, SkipPad(buf, pad).0 + more, false, offered)
  {
    var (b, p) := SkipPad(buf, pad);
    assert (buf + more)[0] == buf[0];
    assert buf[1..] + more == (buf + more)[1..];
    assert SkipPad(buf + more, pad) == (b + more, p);
    assert SkipPad(b + more, p) == (b + more, p);
  }

  /** Bytes that arrive later are parsed as if they had been there from the
      start: the parser forgets nothing it still needs. */
  lemma {:induction false} DrainSplit(mps: nat, alloc: nat -> bool, buf: seq<Byte>, more: seq<Byte>, pad: bool,
                                      offered: nat)
    ensures var first := Drain(mps, alloc, buf, pad, offered);
            Drain(mps, alloc, buf + more, pad, offered)
            == first.Then(Drain(mps, alloc, first.rest + more, first.pad, first.offered))
    decreases |buf|
  {
    if |buf| == 0 {
      assert buf + more == more;
    } else {
      DrainSkipsPad(mps, alloc, buf, more, pad, offered);
      DrainSkipsPad(mps, alloc, buf, [], pad, offered);
      var (b, p) := SkipPad(buf, pad);
      assert buf + [] == buf && b + [] == b;
      DrainSplitNoPad(mps, alloc, b, more, offered);
    }
  }

  lemma DrainResync(mps: nat, alloc: nat -> bool, b: seq<Byte>, offered: nat)
    requires |b| >= HEADER_SIZE && FrameLenAt(b).None?
    ensures Drain(mps, alloc, b, false, offered)
            == Outcome([], b[1..], false, true, offered).Then(Drain(mps, alloc, b[1..], false, offered))
  {
  }

  lemma DrainFrame(mps: nat, alloc: nat -> bool, b: seq<Byte>, n: nat, offered: nat)
    requires |b| >= HEADER_SIZE && FrameLenAt(b) == Some(n) && n <= |b|
    ensures Drain(mps, alloc, b, false, offered)
            == FrameOutcome(alloc, b[..n], offered).Then(Drain(mps, alloc, b[n..], PadFollows(mps, n), offered + 1))
  {
  }

  lemma DrainStuck(mps: nat, alloc: nat -> bool, b: seq<Byte>, offered: nat)
    requires |b| >= HEADER_SIZE ==> FrameLenAt(b).Some? && FrameLenAt(b).value > |b|
    ensures Drain(mps, alloc, b, false, offered) == Outcome([], b, false, false, offered)
  {
  }

  lemma {:induction false} DrainSplitNoPad(mps: nat, alloc: nat -> bool, b: seq<Byte>, more: seq<Byte>, offered: nat)
    ensures var first := Drain(mps, alloc, b, false, offered);
            Drain(mps, alloc, b + more, false, offered)
            == first.Then(Drain(mps, alloc, first.rest + more, first.pad, first.offered))
    decreases |b|, 0
  {
    if |b| < HEADER_SIZE || (FrameLenAt(b).Some? && FrameLenAt(b).value > |b|) {
      DrainStuck(mps, alloc, b, offered);
      var last := Drain(mps, alloc, b + more, false, offered);
      assert [] + last.frames == last.frames;
    } else {
      HeaderIsPrefix(b, more);
      var k, pad, next := if FrameLenAt(b).None? then 1 else FrameLenAt(b).value,
                          FrameLenAt(b).Some? && PadFollows(mps, FrameLenAt(b).value),
                          if FrameLenAt(b).None? then offered else offered + 1;
      var head := if FrameLenAt(b).None? then Outcome([], b[1..], false, true, offered)
                  else FrameOutcome(alloc, b[..k], offered);
      var first := Drain(mps, alloc, b[k..], pad, next);
      var last := Drain(mps, alloc, first.rest + more, first.pad, first.offered);
      assert Drain(mps, alloc, b, false, offered) == head.Then(first) by {
        if FrameLenAt(b).None? { DrainResync(mps, alloc, b, offered); } else { DrainFrame(mps, alloc, b, k, offered); }
      }
      assert Drain(mps, alloc, b + more, false, offered) == head.Then(first.Then(last)) by {
        assert (b + more)[k..] == b[k..] + more;
        assert (b + more)[..k] == b[..k];
        DrainSplit(mps, alloc, b[k..], more, pad, next);
        if FrameLenAt(b).None? {
          DrainResync(mps, alloc, b + more, offered);
        } else {
          DrainFrame(mps, alloc, b + more, k, offered);
        }
      }
      ThenAssociates(head, first, last);
    }
  }

  lemma ThenAssociates(a: Outcome, b: Outcome, c: Outcome)
    ensures a.Then(b).Then(c) == a.Then(b.Then(c))
  {
    assert a.frames + b.frames + c.frames == a.frames + (b.frames + c.frames);
  }

  /** The state reached once the bytes held are parsed as far as they go. */
  function Parsed(mps: nat, alloc: nat -> bool, st: Outcome): Outcome {
    st.Then(Drain(mps, alloc, st.rest, st.pad, st.offered))
  }

  /** The state once the bytes held and the new ones are parsed as one run. */
  function Ingested(mps: nat, alloc: nat -> bool, st: Outcome, data: seq<Byte>): Outcome {
    Parsed(mps, alloc, st.(rest := st.rest + data))
  }

  /** The parser's state after taking in the chunks one by one. */
  function Feed(mps: nat, alloc: nat -> bool, st: Outcome, chunks: seq<seq<Byte>>): Outcome
    decreases |chunks|
  {
    if chunks == [] then st
    else
      Feed(mps, alloc, Ingested(mps, alloc, st, chunks[0]), chunks[1..])
  }

  const START := Outcome([], [], false, false, 0)

  lemma {:induction false} FeedIsDrain(mps: nat, alloc: nat -> bool, before: seq<Byte>, chunks: seq<seq<Byte>>)
    ensures Feed(mps, alloc, Drain(mps, alloc, before, false, 0), chunks)
            == Drain(mps, alloc, before + Flatten(chunks), false, 0)
    decreases |chunks|
  {
    if chunks == [] {
      assert before + [] == before;
    } else {
      DrainSplit(mps, alloc, before, chunks[0], false, 0);
      FeedIsDrain(mps, alloc, before + chunks[0], chunks[1..]);
      assert before + Flatten(chunks) == before + chunks[0] + Flatten(chunks[1..]);
    }
  }

  /** Main result: how the stream was cut makes no difference to the frames,
      the leftover, the pad flag or the accumulated loss, and the leftover
      always leaves room, malformed input included. */
  lemma ChunkingIndependence(mps: nat, alloc: nat -> bool, one: seq<seq<Byte>>, other: seq<seq<Byte>>)
    requires Flatten(one) == Flatten(other)
    ensures Feed(mps, alloc, START, one) == Feed(mps, alloc, START, other)
    ensures |Feed(mps, alloc, START, one).rest| < MAX_XFER
  {
    assert Drain(mps, alloc, [], false, 0) == START;
    FeedIsDrain(mps, alloc, [], one);
    FeedIsDrain(mps, alloc, [], other);
    assert [] + Flatten(one) == Flatten(one);
  }

  // -------------------------------------------------------------- round trip

  /** n bytes sent as packets of mps leave the last packet full. */
  predicate FillsLastPacket(mps: nat, n: nat)
    decreases n
  {
    mps > 0 && (n == mps || (n > mps && FillsLastPacket(mps, n - mps)))
  }

  /** The byte behind a frame: a frame shorter than a whole transfer that fills
      its last packet is followed by one zero, any other by nothing. */
  function PadAfter(mps: nat, n: nat): seq<Byte> {
    if n < 16384 && FillsLastPacket(mps, n) then [0] else []
  }

  lemma MulAtLeast(d: nat, m: nat)
    requires d >= 1
    ensures d * m >= m
  {
    assert d * m == (d - 1) * m + m;
  }

  lemma SameRemainder(m: nat, q: nat, r: nat, k: nat, s: nat)
    requires r < m && s < m && q * m + r == k * m + s
    ensures r == s
  {
    assert (q - k) * m == q * m - k * m && (k - q) * m == k * m - q * m;
    if q > k {
      MulAtLeast(q - k, m);
    } else if k > q {
      MulAtLeast(k - q, m);
    }
  }

  lemma ModAddsOne(n: nat, m: nat)
    requires 0 < m <= n
    ensures n % m == (n - m) % m
  {
    assert n == ((n - m) / m + 1) * m + (n - m) % m;
    SameRemainder(m, n / m, n % m, (n - m) / m + 1, (n - m) % m);
  }

  lemma {:induction false} FillsIsMultiple(mps: nat, n: nat)
    requires n > 0
    ensures FillsLastPacket(mps, n) <==> mps != 0 && n % mps == 0
    decreases n
  {
    if 0 < mps < n {
      ModAddsOne(n, mps);
      FillsIsMultiple(mps, n - mps);
    }
  }

  /** The parser looks for a pad where the device writes one. */
  lemma PadIsWritten(mps: nat, n: nat)
    requires n > 0
    ensures PadAfter(mps, n) == if PadFollows(mps, n) then [0] else []
  {
    FillsIsMultiple(mps, n);
  }

  /** What the device writes: each frame, then its pad byte where one is due. */
  function Written(mps: nat, frames: seq<seq<Byte>>): seq<Byte> {
    if frames == [] then [] else frames[0] + PadAfter(mps, |frames[0]|) + Written(mps, frames[1..])
  }

  ghost predicate Plenty(alloc: nat -> bool) {
    forall k: nat :: alloc(k)
  }

  lemma DrainFrameFirst(mps: nat, alloc: nat -> bool, f: seq<Byte>, after: seq<Byte>, offered: nat)
    requires UsbFrame(f)
    ensures Drain(mps, alloc, f + after, false, offered)
            == FrameOutcome(alloc, f, offered).Then(Drain(mps, alloc, after, PadFollows(mps, |f|), offered + 1))
  {
    FrameIsFrame(f);
    HeaderIsPrefix(f, after);
    DrainFrame(mps, alloc, f + after, |f|, offered);
    assert (f + after)[..|f|] == f && (f + after)[|f|..] == after;
  }

  /** What follows a frame, read with the pad expected or not. */
  function AfterPad(pad: bool, after: seq<Byte>): (tail: seq<Byte>)
    ensures |tail| <= |after|
  {
    if pad && |after| > 0 && after[0] == 0 then after[1..] else after
  }

  lemma DrainAfterPad(mps: nat, alloc: nat -> bool, pad: bool, after: seq<Byte>, offered: nat)
    ensures var r, t := Drain(mps, alloc, after, pad, offered), Drain(mps, alloc, AfterPad(pad, after), false, offered);
            r == if after == [] then t.(pad := pad) else t
  {
    if |after| > 0 {
      DrainSkipsPad(mps, alloc, after, [], pad, offered);
      assert after + [] == after && AfterPad(pad, after) + [] == AfterPad(pad, after);
    }
  }

  lemma {:induction false} DrainWritten(mps: nat, alloc: nat -> bool, frames: seq<seq<Byte>>, offered: nat)
    requires forall i :: 0 <= i < |frames| ==> UsbFrame(frames[i])
    requires Plenty(alloc)
    ensures Drain(mps, alloc, Written(mps, frames), false, offered)
            == Outcome(frames, [], false, false, offered + |frames|)
    decreases |frames|
  {
    if frames != [] {
      var f, tail := frames[0], Written(mps, frames[1..]);
      var pad := PadFollows(mps, |f|);
      var after := (if pad then [0] else []) + tail;
      PadIsWritten(mps, |f|);
      assert Written(mps, frames) == f + after;
      assert AfterPad(pad, after) == tail;
      DrainFrameFirst(mps, alloc, f, after, offered);
      DrainAfterPad(mps, alloc, pad, after, offered + 1);
      DrainWritten(mps, alloc, frames[1..], offered + 1);
      assert [f] + frames[1..] == frames;
    }
  }

  /** Main result: any list of valid frames, written by the device and cut
      in any way, arrives complete, in order and with no loss reported. */
  lemma RoundTrip(mps: nat, alloc: nat -> bool, frames: seq<seq<Byte>>, chunks: seq<seq<Byte>>)
    requires forall i :: 0 <= i < |frames| ==> UsbFrame(frames[i])
    requires Plenty(alloc)
    requires Flatten(chunks) == Written(mps, frames)
    ensures Feed(mps, alloc, START, chunks) == Outcome(frames, [], false, false, |frames|)
  {
    assert Drain(mps, alloc, [], false, 0) == START;
    FeedIsDrain(mps, alloc, [], chunks);
    assert [] + Flatten(chunks) == Flatten(chunks);
    DrainWritten(mps, alloc, frames, 0);
  }

  // -------------------------------------------- every byte is accounted for

  /** The beginning of a frame, and not the whole of it; a header cut short is
      not looked at. */
  ghost predicate Partial(rest: seq<Byte>) {
    |rest| < 12 || exists more: seq<Byte> :: more != [] && UsbFrame(rest + more)
  }

  /** What a stream means: frames one after the other, between them the zero
      bytes that were due, and at the end a frame begun. */
  ghost predicate Reads(mps: nat, s: seq<Byte>, frames: seq<seq<Byte>>, rest: seq<Byte>)
    decreases |frames|
  {
    if frames == [] then s == rest && Partial(rest)
    else
      && UsbFrame(frames[0]) && frames[0] <= s
      && Reads(mps, WithoutPad(mps, |frames[0]|, s[|frames[0]|..]), frames[1..], rest)
  }

  function WithoutPad(mps: nat, n: nat, after: seq<Byte>): seq<Byte> {
    if after != [] && PadAfter(mps, n) == after[..1] then after[1..] else after
  }

  lemma PadIsSkipped(mps: nat, n: nat, after: seq<Byte>)
    requires n > 0
    ensures WithoutPad(mps, n, after) == AfterPad(PadFollows(mps, n), after)
  {
    PadIsWritten(mps, n);
    if after != [] {
      assert after[..1] == [after[0]];
    }
  }

  /** Where the parser stops, a frame has begun. */
  lemma StuckIsPartial(s: seq<Byte>)
    requires |s| >= HEADER_SIZE ==> FrameLenAt(s).Some? && FrameLenAt(s).value > |s|
    ensures Partial(s)
  {
    if |s| >= HEADER_SIZE {
      var more := Zeros(FrameLenAt(s).value - |s|);
      HeaderIsPrefix(s, more);
      FrameIsFrame(s + more);
      assert more != [];
    }
  }

  lemma PartialIsStuck(s: seq<Byte>)
    requires Partial(s) && |s| >= HEADER_SIZE
    ensures FrameLenAt(s).Some? && FrameLenAt(s).value > |s|
  {
    var more: seq<Byte> :| more != [] && UsbFrame(s + more);
    HeaderIsPrefix(s, more);
    FrameIsFrame(s + more);
  }

  /** When no loss is reported, the frames queued and the leftover are what the
      stream means: every byte lies in a queued frame, in a zero byte that was
      due, or in the frame begun. */
  lemma {:induction false} NoLossReads(mps: nat, alloc: nat -> bool, s: seq<Byte>, offered: nat)
    requires !Drain(mps, alloc, s, false, offered).loss
    ensures Reads(mps, s, Drain(mps, alloc, s, false, offered).frames, Drain(mps, alloc, s, false, offered).rest)
    decreases |s|
  {
    if |s| < HEADER_SIZE || (FrameLenAt(s).Some? && FrameLenAt(s).value > |s|) {
      DrainStuck(mps, alloc, s, offered);
      StuckIsPartial(s);
    } else if FrameLenAt(s).None? {
      DrainResync(mps, alloc, s, offered);
      assert false;
    } else {
      var n := FrameLenAt(s).value;
      var f, after, pad := s[..n], s[n..], PadFollows(mps, n);
      assert s == f + after;
      HeaderIsPrefix(f, after);
      FrameIsFrame(f);
      PadIsSkipped(mps, n, after);
      DrainFrameFirst(mps, alloc, f, after, offered);
      DrainAfterPad(mps, alloc, pad, after, offered + 1);
      NoLossReads(mps, alloc, AfterPad(pad, after), offered + 1);
      var t := Drain(mps, alloc, AfterPad(pad, after), false, offered + 1);
      assert ([f] + t.frames)[1..] == t.frames;
    }
  }

  /** And a stream with a meaning is parsed to it, without loss. */
  lemma {:induction false} MeaningIsParsed(mps: nat, alloc: nat -> bool, s: seq<Byte>, frames: seq<seq<Byte>>,
                                           rest: seq<Byte>, offered: nat)
    requires Reads(mps, s, frames, rest) && Plenty(alloc)
    ensures var r := Drain(mps, alloc, s, false, offered); r.frames == frames && r.rest == rest && !r.loss
    decreases |frames|
  {
    if frames == [] {
      if |s| >= HEADER_SIZE {
        PartialIsStuck(s);
      }
      DrainStuck(mps, alloc, s, offered);
    } else {
      var f, after := frames[0], s[|frames[0]|..];
      var pad := PadFollows(mps, |f|);
      assert s == f + after;
      PadIsSkipped(mps, |f|, after);
      DrainFrameFirst(mps, alloc, f, after, offered);
      DrainAfterPad(mps, alloc, pad, after, offered + 1);
      MeaningIsParsed(mps, alloc, AfterPad(pad, after), frames[1..], rest, offered + 1);
      assert [f] + frames[1..] == frames;
    }
  }

  ghost predicate HasMeaning(mps: nat, s: seq<Byte>) {
    exists frames: seq<seq<Byte>>, rest: seq<Byte> :: Reads(mps, s, frames, rest)
  }

  lemma LossIsNoMeaning(mps: nat, alloc: nat -> bool, s: seq<Byte>)
    requires Plenty(alloc)
    ensures !Drain(mps, alloc, s, false, 0).loss <==> HasMeaning(mps, s)
  {
    if HasMeaning(mps, s) {
      var frames: seq<seq<Byte>>, rest: seq<Byte> :| Reads(mps, s, frames, rest);
      MeaningIsParsed(mps, alloc, s, frames, rest, 0);
    } else if !Drain(mps, alloc, s, false, 0).loss {
      NoLossReads(mps, alloc, s, 0);
    }
  }

  /** Main result: with memory to spare, loss is reported for exactly the
      streams that mean nothing, however they are cut; and any other arrives as
      what it means. */
  lemma LossExactly(mps: nat, alloc: nat -> bool, chunks: seq<seq<Byte>>)
    requires Plenty(alloc)
    ensures var r := Feed(mps, alloc, START, chunks);
            && (!r.loss <==> HasMeaning(mps, Flatten(chunks)))
            && (!r.loss ==> Reads(mps, Flatten(chunks), r.frames, r.rest))
  {
    assert Drain(mps, alloc, [], false, 0) == START;
    FeedIsDrain(mps, alloc, [], chunks);
    assert [] + Flatten(chunks) == Flatten(chunks);
    LossIsNoMeaning(mps, alloc, Flatten(chunks));
    if !Drain(mps, alloc, Flatten(chunks), false, 0).loss {
      NoLossReads(mps, alloc, Flatten(chunks), 0);
    }
  }

  // --------------------------------------------------------- the device's side

  class UsbDevice {
    const epMps: nat
    var wire: seq<Byte>

    constructor (epMps: nat)
      requires epMps > 0
      ensures this.epMps == epMps && wire == []
    {
      this.epMps, wire := epMps, [];
    }

    /** tud_vendor_n_write takes as much as it likes; after so many refusals the
        deadline has passed. */
    method Accept(data: seq<Byte>) returns (written: nat)
      modifies this
      ensures written <= |data| && wire == old(wire) + data[..written]
    {
      written :| written <= |data|;
      wire := wire + data[..written];
    }

    /** usb_write_all: the frame piece by piece, then the pad byte. */
    method WriteAll(data: seq<Byte>, patience: nat) returns (ok: bool)
      requires epMps > 0
      modifies this
      ensures old(wire) <= wire <= old(wire) + data + PadAfter(epMps, |data|)
      ensures ok <==> data != [] && wire == old(wire) + data + PadAfter(epMps, |data|)
    {
      if data == [] {
        return false;
      }
      var sent, tries := 0, patience;
      while sent < |data|
        invariant sent <= |data| && wire == old(wire) + data[..sent]
        decreases |data| - sent, tries
      {
        var written := Accept(data[sent..]);
        assert data[..sent] + data[sent..][..written] == data[..sent + written];
        sent := sent + written;
        if written == 0 {
          if tries == 0 {
            return false;
          }
          tries := tries - 1;
        }
      }
      assert data[..sent] == data;
      FillsIsMultiple(epMps, |data|);
      if |data| % epMps == 0 && |data| < MAX_XFER {
        var written := Accept([0]);
        return written == 1;
      }
      assert old(wire) + data + [] == old(wire) + data;
      return true;
    }
  }

  // ------------------------------------------------------------- the parser

  lemma ParsedAfterPad(mps: nat, alloc: nat -> bool, st: Outcome, b: seq<Byte>, p: bool)
    requires (b, p) == SkipPad(st.rest, st.pad)
    ensures Parsed(mps, alloc, st) == Parsed(mps, alloc, st.(rest := b, pad := p))
    ensures |b| > 0 ==> !p
  {
    if |st.rest| > 0 {
      DrainSkipsPad(mps, alloc, st.rest, [], st.pad, st.offered);
      assert st.rest + [] == st.rest && b + [] == b;
    }
  }

  lemma ParsedStuck(mps: nat, alloc: nat -> bool, st: Outcome)
    requires st.pad ==> st.rest == []
    requires |st.rest| >= HEADER_SIZE ==> FrameLenAt(st.rest).Some? && FrameLenAt(st.rest).value > |st.rest|
    ensures Parsed(mps, alloc, st) == st && |st.rest| < MAX_XFER
  {
    assert st.frames + [] == st.frames;
  }

  lemma ParsedAfterHead(mps: nat, alloc: nat -> bool, st: Outcome, head: Outcome, rest: seq<Byte>, pad: bool)
    requires Drain(mps, alloc, st.rest, st.pad, st.offered) == head.Then(Drain(mps, alloc, rest, pad, head.offered))
    ensures Parsed(mps, alloc, st) == Parsed(mps, alloc, st.Then(head).(rest := rest, pad := pad))
  {
    var c := Drain(mps, alloc, rest, pad, head.offered);
    assert st.frames + (head.frames + c.frames) == st.frames + head.frames + c.frames;
  }

  lemma ParsedResync(mps: nat, alloc: nat -> bool, st: Outcome)
    requires |st.rest| >= HEADER_SIZE && FrameLenAt(st.rest).None? && !st.pad
    ensures Parsed(mps, alloc, st) == Parsed(mps, alloc, st.(rest := st.rest[1..], loss := true))
  {
    DrainResync(mps, alloc, st.rest, st.offered);
    ParsedAfterHead(mps, alloc, st, Outcome([], st.rest[1..], false, true, st.offered), st.rest[1..], false);
    assert st.frames + [] == st.frames;
  }

  /** The first n bytes held are handed over as a frame. */
  function TakeFrame(mps: nat, alloc: nat -> bool, st: Outcome, n: nat): Outcome
    requires n <= |st.rest|
  {
    st.Then(FrameOutcome(alloc, st.rest[..n], st.offered)).(rest := st.rest[n..], pad := PadFollows(mps, n))
  }

  lemma ParsedFrame(mps: nat, alloc: nat -> bool, st: Outcome, n: nat)
    requires |st.rest| >= HEADER_SIZE && FrameLenAt(st.rest) == Some(n) && n <= |st.rest| && !st.pad
    ensures Parsed(mps, alloc, st) == Parsed(mps, alloc, TakeFrame(mps, alloc, st, n))
  {
    DrainFrame(mps, alloc, st.rest, n, st.offered);
    ParsedAfterHead(mps, alloc, st, FrameOutcome(alloc, st.rest[..n], st.offered), st.rest[n..], PadFollows(mps, n));
  }

  /** Nothing more can be parsed out of the bytes held. */
  ghost predicate Settled(mps: nat, alloc: nat -> bool, st: Outcome) {
    && |st.rest| < MAX_XFER
    && Drain(mps, alloc, st.rest, st.pad, st.offered) == Outcome([], st.rest, st.pad, false, st.offered)
  }

  lemma SettledIngest(mps: nat, alloc: nat -> bool, st: Outcome)
    requires Settled(mps, alloc, st)
    ensures st == Ingested(mps, alloc, st, [])
  {
    assert st.rest + [] == st.rest && st.frames + [] == st.frames;
  }

  lemma {:induction false} DrainSettles(mps: nat, alloc: nat -> bool, buf: seq<Byte>, pad: bool, offered: nat)
    ensures Settled(mps, alloc, Drain(mps, alloc, buf, pad, offered))
    decreases |buf|
  {
    if |buf| > 0 {
      DrainSkipsPad(mps, alloc, buf, [], pad, offered);
      var b := SkipPad(buf, pad).0;
      assert buf + [] == buf && b + [] == b;
      if |b| < HEADER_SIZE || (FrameLenAt(b).Some? && FrameLenAt(b).value > |b|) {
        DrainStuck(mps, alloc, b, offered);
      } else if FrameLenAt(b).None? {
        DrainResync(mps, alloc, b, offered);
        DrainSettles(mps, alloc, b[1..], false, offered);
      } else {
        var n := FrameLenAt(b).value;
        DrainFrame(mps, alloc, b, n, offered);
        DrainSettles(mps, alloc, b[n..], PadFollows(mps, n), offered + 1);
      }
    }
  }

  /** One turn of the copy loop carries the result so far over the piece. */
  lemma IngestStep(mps: nat, alloc: nat -> bool, st0: Outcome, taken: seq<Byte>, piece: seq<Byte>, st: Outcome)
    requires st == Ingested(mps, alloc, st0, taken)
    ensures var next := Ingested(mps, alloc, st, piece);
            next == Ingested(mps, alloc, st0, taken + piece) && Settled(mps, alloc, next)
  {
    var r := Drain(mps, alloc, st0.rest + taken, st0.pad, st0.offered);
    DrainSplit(mps, alloc, st0.rest + taken, piece, st0.pad, st0.offered);
    assert st0.rest + taken + piece == st0.rest + (taken + piece);
    var t := Drain(mps, alloc, r.rest + piece, r.pad, r.offered);
    ThenAssociates(st0, r, t);
    DrainSettles(mps, alloc, r.rest + piece, r.pad, r.offered);
  }

  class UsbRx {
    const mps: nat
    const alloc: nat -> bool
    const rxStream: array<Byte>
    var rxStreamLen: nat
    var rxPadExpected: bool
    var rxQueue: seq<seq<Byte>>
    var offered: nat
    var streamLoss: bool

    ghost predicate Valid()
      reads this, rxStream
    {
      rxStream.Length == STREAM_CAP && rxStreamLen <= STREAM_CAP
    }

    /** Everything the parser has produced and still holds. */
    ghost function State(): Outcome
      requires Valid()
      reads this, rxStream
    {
      Outcome(rxQueue, rxStream[..rxStreamLen], rxPadExpected, streamLoss, offered)
    }

    constructor (mps: nat, alloc: nat -> bool)
      ensures Valid() && State() == START && fresh(rxStream)
      ensures this.mps == mps && this.alloc == alloc
    {
      this.mps, this.alloc := mps, alloc;
      rxStream := new Byte[STREAM_CAP];
      rxStreamLen, rxPadExpected, rxQueue, offered, streamLoss := 0, false, [], 0, false;
    }

    /** Drop the first n bytes held, moving the rest down in place. */
    method Shift(n: nat)
      requires Valid() && n <= rxStreamLen
      modifies rxStream, `rxStreamLen
      ensures Valid() && rxStream[..rxStreamLen] == old(rxStream[n..rxStreamLen])
    {
      var remaining := rxStreamLen - n;
      for i := 0 to remaining
        invariant forall k :: 0 <= k < i ==> rxStream[k] == old(rxStream[k + n])
        invariant forall k :: i <= k < rxStream.Length ==> rxStream[k] == old(rxStream[k])
      {
        rxStream[i] := rxStream[i + n];
      }
      rxStreamLen := remaining;
    }

    method DropPad()
      requires Valid()
      modifies rxStream, `rxStreamLen, `rxPadExpected
      ensures Valid()
      ensures (rxStream[..rxStreamLen], rxPadExpected) == SkipPad(old(rxStream[..rxStreamLen]), old(rxPadExpected))
    {
      if rxPadExpected && rxStreamLen > 0 {
        if rxStream[0] == 0 {
          Shift(1);
        }
        rxPadExpected := false;
      }
    }

    method HandOver(n: nat) returns (queued: bool)
      requires Valid() && n <= rxStreamLen
      modifies this, rxStream
      ensures Valid() && State() == TakeFrame(mps, alloc, old(State()), n)
      ensures rxStreamLen == old(rxStreamLen) - n && queued == old(alloc(offered))
    {
      queued := alloc(offered);
      if queued {
        rxQueue := rxQueue + [rxStream[..n]];
        assert rxStream[..n] == rxStream[..rxStreamLen][..n];
      } else {
        streamLoss := true;
      }
      offered := offered + 1;
      rxPadExpected := mps != 0 && n < MAX_XFER && n % mps == 0;
      assert rxStream[n..rxStreamLen] == rxStream[..rxStreamLen][n..];
      Shift(n);
    }

    /** Step over the first byte of a header that cannot be one. */
    method Resync()
      requires Valid() && rxStreamLen > 0
      modifies rxStream, `rxStreamLen, `streamLoss
      ensures Valid() && rxStreamLen == old(rxStreamLen) - 1
      ensures var st := old(State()); State() == st.(rest := st.rest[1..], loss := true)
    {
      assert rxStream[1..rxStreamLen] == rxStream[..rxStreamLen][1..];
      Shift(1);
      streamLoss := true;
    }

    /** The loop's body after the pad; more says whether it goes round again. */
    method TakeOne() returns (more: bool, queued: bool)
      requires Valid() && (rxPadExpected ==> rxStreamLen == 0)
      modifies this, rxStream
      ensures Valid() && Parsed(mps, alloc, State()) == Parsed(mps, alloc, old(State()))
      ensures more ==> rxStreamLen < old(rxStreamLen)
      ensures !more ==> State() == Parsed(mps, alloc, State()) && rxStreamLen < MAX_XFER && !queued
      ensures |rxQueue| == |old(rxQueue)| + if queued then 1 else 0
    {
      ghost var st := State();
      if rxStreamLen < HEADER_SIZE {
        ParsedStuck(mps, alloc, st);
        return false, false;
      }
      var frameLen := FrameLenAt(rxStream[..rxStreamLen]);
      if frameLen.None? {
        ParsedResync(mps, alloc, st);
        Resync();
        return true, false;
      }
      if rxStreamLen < frameLen.value {
        ParsedStuck(mps, alloc, st);
        return false, false;
      }
      ParsedFrame(mps, alloc, st, frameLen.value);
      queued := HandOver(frameLen.value);
      return true, queued;
    }

    method ParseOnce() returns (more: bool, queued: bool)
      requires Valid()
      modifies this, rxStream
      ensures Valid() && Parsed(mps, alloc, State()) == Parsed(mps, alloc, old(State()))
      ensures more ==> rxStreamLen < old(rxStreamLen)
      ensures !more ==> State() == Parsed(mps, alloc, State()) && rxStreamLen < MAX_XFER
      ensures |rxQueue| == |old(rxQueue)| + if queued then 1 else 0
    {
      ghost var st := State();
      DropPad();
      assert State() == st.(rest := State().rest, pad := rxPadExpected);
      ParsedAfterPad(mps, alloc, st, State().rest, rxPadExpected);
      more, queued := TakeOne();
    }

    /** esp_usb_parse_stream_locked */
    method ParseStream() returns (queued: bool)
      requires Valid()
      modifies this, rxStream
      ensures Valid() && State() == Parsed(mps, alloc, old(State())) && rxStreamLen < MAX_XFER
      ensures |rxQueue| >= |old(rxQueue)| && (queued <==> |rxQueue| > |old(rxQueue)|)
    {
      queued := false;
      var more := true;
      while more
        invariant Valid() && Parsed(mps, alloc, State()) == Parsed(mps, alloc, old(State()))
        invariant !more ==> State() == Parsed(mps, alloc, State()) && rxStreamLen < MAX_XFER
        invariant |rxQueue| >= |old(rxQueue)| && (queued <==> |rxQueue| > |old(rxQueue)|)
        decreases more, rxStreamLen
      {
        var q: bool;
        more, q := ParseOnce();
        queued := queued || q;
      }
    }

    /** memcpy to the end of the bytes held. */
    method Append(data: seq<Byte>)
      requires Valid() && |data| <= STREAM_CAP - rxStreamLen
      modifies rxStream, `rxStreamLen
      ensures Valid() && rxStream[..rxStreamLen] == old(rxStream[..rxStreamLen]) + data
    {
      var at := rxStreamLen;
      for i := 0 to |data|
        invariant rxStreamLen == at && rxStream[..at] == old(rxStream[..rxStreamLen])
        invariant rxStream[at..at + i] == data[..i]
      {
        rxStream[at + i] := data[i];
      }
      rxStreamLen := at + |data|;
      assert rxStream[..rxStreamLen] == rxStream[..at] + rxStream[at..at + |data|];
    }

    /** One turn of the copy loop; reset says whether the full buffer had to
        be thrown away. */
    method IngestPiece(data: seq<Byte>) returns (taken: nat, queued: bool, reset: bool)
      requires Valid() && |data| > 0
      modifies this, rxStream
      ensures Valid() && rxStreamLen < MAX_XFER && 0 < taken <= |data|
      ensures reset <==> old(rxStreamLen) == STREAM_CAP
      ensures !reset ==> var st := old(State());
                         State() == Ingested(mps, alloc, st, data[..taken])
      ensures |rxQueue| >= |old(rxQueue)| && (queued <==> |rxQueue| > |old(rxQueue)|)
    {
      reset := rxStreamLen == STREAM_CAP;
      if reset {
        rxStreamLen := 0;
        streamLoss := true;
      }
      taken := if |data| < STREAM_CAP - rxStreamLen then |data| else STREAM_CAP - rxStreamLen;
      Append(data[..taken]);
      queued := ParseStream();
    }

    /** esp_usb_ingest_stream. Precondition: what every earlier call leaves
        behind. The result is that of parsing the bytes held and the new
        ones as one run; the buffer-full reset on the way never fires. */
    method Ingest(data: seq<Byte>) returns (queued: bool)
      requires Valid() && Settled(mps, alloc, State())
      modifies this, rxStream
      ensures Valid() && Settled(mps, alloc, State())
      ensures State() == Ingested(mps, alloc, old(State()), data)
      ensures queued <==> |rxQueue| > |old(rxQueue)|
    {
      queued := false;
      var done := 0;
      ghost var st0 := State();
      SettledIngest(mps, alloc, st0);
      while done < |data|
        invariant done <= |data| && Valid() && rxStreamLen < MAX_XFER
        invariant Settled(mps, alloc, State()) && State() == Ingested(mps, alloc, st0, data[..done])
        invariant |rxQueue| >= |old(rxQueue)| && (queued <==> |rxQueue| > |old(rxQueue)|)
      {
        ghost var st := State();
        var taken, q, reset := IngestPiece(data[done..]);
        assert !reset;
        queued := queued || q;
        IngestStep(mps, alloc, st0, data[..done], data[done..][..taken], st);
        assert data[..done] + data[done..][..taken] == data[..done + taken];
        done := done + taken;
      }
      assert data[..done] == data;
    }

    /** A run: a new parser meets the pieces one URB at a time. */
    method IngestAll(chunks: seq<seq<Byte>>)
      requires Valid() && Settled(mps, alloc, State())
      modifies this, rxStream
      ensures Valid() && Settled(mps, alloc, State())
      ensures State() == Feed(mps, alloc, old(State()), chunks)
    {
      for i := 0 to |chunks|
        invariant Valid() && Settled(mps, alloc, State())
        invariant Feed(mps, alloc, State(), chunks[i..]) == Feed(mps, alloc, old(State()), chunks)
      {
        assert chunks[i..][1..] == chunks[i + 1..];
        var _ := Ingest(chunks[i]);
      }
    }
  }
}
