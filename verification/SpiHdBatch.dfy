/** SPI-HD receive batches (host/spi_hd/esp_spi_hd.c): frames padded to four
    bytes, the last one perhaps not, all published or none. */
module SpiHdBatch {
  import opened Wire

  const BUF_SIZE: nat := 1600
  const INTERNAL_IF: nat := 3
  const HCI_IF: nat := 2

  /** The length of the frame at the start of b, if its header is acceptable. */
  function FrameLen(b: seq<Byte>): (r: Option<nat>)
    ensures r.Some? ==> HEADER_SIZE < r.value <= |b|
  {
    if |b| < HEADER_SIZE || IfType(b) >= MAX_IF then None
    else if SpanFrameLen(PayloadLen(b), Offset(b), BUF_SIZE).None? then None
    else SpanFrameLen(PayloadLen(b), Offset(b), |b|)
  }

  /** A frame that ends the batch needs no padding. */
  function SpanOf(n: nat, total: nat): nat {
    if n == total then n else Align4(n)
  }

  predicate AllZero(b: seq<Byte>) {
    forall i :: 0 <= i < |b| ==> b[i] == 0
  }

  /** What the header at the start of b spans, padding included, if b holds it
      and the padding is clean. */
  function SpanAt(b: seq<Byte>): (r: Option<nat>)
    ensures r.Some? ==> FrameLen(b).Some? && FrameLen(b).value <= r.value <= |b| && r.value > 0
  {
    match FrameLen(b)
    case None => None
    case Some(n) =>
      var span := SpanOf(n, |b|);
      if span > |b| || !AllZero(b[n..span]) then None else Some(span)
  }

  /** The frames of a batch; None when any of it is malformed. */
  function Split(b: seq<Byte>): (r: Option<seq<seq<Byte>>>)
    ensures r.Some? ==> r.value != []
    decreases |b|
  {
    match SpanAt(b)
    case None => None
    case Some(span) =>
      var f := b[..FrameLen(b).value];
      if span == |b| then Some([f])
      else
        match Split(b[span..])
        case None => None
        case Some(more) => Some([f] + more)
  }

  /** A frame as the firmware sends it, byte by byte: an interface type below 7
      in the low nibble of byte 0, a payload length above 0 in bytes 4 and 5, an
      offset from 12 to 16 in bytes 6 and 7, low byte first, and as many bytes
      as the two add up to, 1600 at most. */
  predicate HdFrame(f: seq<Byte>) {
    && 12 <= |f| <= 1600
    && f[0] % 16 < 7
    && f[4] as int + 256 * f[5] as int > 0
    && 12 <= f[6] as int + 256 * f[7] as int <= 16
    && |f| == (f[6] as int + 256 * f[7] as int) + (f[4] as int + 256 * f[5] as int)
  }

  /** The validator takes a frame for one exactly when it is one. */
  lemma FrameIsFrame(f: seq<Byte>)
    ensures HdFrame(f) <==> FrameLen(f) == Some(|f|)
  {
  }

  /** b is these frames back to back, each padded, the last perhaps not. */
  predicate LaidOut(frames: seq<seq<Byte>>, b: seq<Byte>)
    decreases |frames|
  {
    && frames != [] && HdFrame(frames[0])
    && if |frames| == 1 then b == frames[0] || b == Padded(frames[0])
       else Padded(frames[0]) <= b && LaidOut(frames[1..], b[|Padded(frames[0])|..])
  }

  lemma HeaderOfPrefix(f: seq<Byte>, b: seq<Byte>)
    requires HdFrame(f) && f <= b
    ensures FrameLen(b) == Some(|f|)
  {
    FrameIsFrame(f);
    assert forall i :: 0 <= i < HEADER_SIZE ==> b[i] == f[i];
  }

  lemma {:induction false} LaidOutIsLong(frames: seq<seq<Byte>>, b: seq<Byte>)
    requires LaidOut(frames, b)
    ensures |b| > HEADER_SIZE && frames[0] <= b
    decreases |frames|
  {
    var f := frames[0];
    assert Padded(f)[..|f|] == f;
    if |frames| > 1 {
      LaidOutIsLong(frames[1..], b[|Padded(f)|..]);
    }
  }

  /** What the splitter makes of a frame in front. */
  lemma FrameInFront(f: seq<Byte>, b: seq<Byte>)
    requires HdFrame(f) && (b == f || Padded(f) <= b)
    ensures FrameLen(b) == Some(|f|) && b[..|f|] == f
    ensures SpanAt(b) == Some(if b == f then |f| else |Padded(f)|)
  {
    assert Padded(f)[..|f|] == f;
    HeaderOfPrefix(f, b);
    if b != f {
      assert b[..|Padded(f)|] == Padded(f);
      assert b[|f|..|Padded(f)|] == Zeros(|Padded(f)| - |f|);
    }
  }

  lemma {:induction false} LaidOutSplits(frames: seq<seq<Byte>>, b: seq<Byte>)
    requires LaidOut(frames, b)
    ensures Split(b) == Some(frames)
    decreases |frames|
  {
    var f := frames[0];
    FrameInFront(f, b);
    if |frames| == 1 {
      assert frames == [f];
    } else {
      LaidOutIsLong(frames[1..], b[|Padded(f)|..]);
      LaidOutSplits(frames[1..], b[|Padded(f)|..]);
      assert frames == [f] + frames[1..];
    }
  }

  lemma PrefixIsFrame(b: seq<Byte>)
    requires FrameLen(b).Some?
    ensures HdFrame(b[..FrameLen(b).value])
  {
    var f := b[..FrameLen(b).value];
    assert forall i :: 0 <= i < HEADER_SIZE ==> f[i] == b[i];
    FrameIsFrame(f);
  }

  lemma {:induction false} SplitIsLaidOut(b: seq<Byte>)
    requires Split(b).Some?
    ensures LaidOut(Split(b).value, b)
    decreases |b|
  {
    var n, span, frames := FrameLen(b).value, SpanAt(b).value, Split(b).value;
    var f := b[..n];
    PrefixIsFrame(b);
    assert b[n..span] == Zeros(span - n);
    assert b[..span] == f + b[n..span];
    if span != |b| {
      SplitIsLaidOut(b[span..]);
      assert frames[1..] == Split(b[span..]).value;
      assert Padded(f) == b[..span];
    }
  }

  /** Main result: a batch is accepted exactly when it is the padded
      concatenation of some frames, and then of no others. */
  lemma SplitIsTheOnlyLayout(frames: seq<seq<Byte>>, b: seq<Byte>)
    ensures Split(b) == Some(frames) <==> LaidOut(frames, b)
  {
    if LaidOut(frames, b) {
      LaidOutSplits(frames, b);
    } else if Split(b) == Some(frames) {
      SplitIsLaidOut(b);
    }
  }

  /** What a sender packs is accepted, whether or not it pads the last frame. */
  lemma {:induction false} PackedIsLaidOut(frames: seq<seq<Byte>>)
    requires frames != [] && forall i :: 0 <= i < |frames| ==> HdFrame(frames[i])
    ensures LaidOut(frames, Pack(frames))
    decreases |frames|
  {
    if |frames| == 1 {
      assert Pack(frames) == Padded(frames[0]) + [] == Padded(frames[0]);
    } else {
      PackedIsLaidOut(frames[1..]);
      assert Pack(frames)[|Padded(frames[0])|..] == Pack(frames[1..]);
    }
  }

  lemma {:induction false} FramesAreFrames(frames: seq<seq<Byte>>, b: seq<Byte>, i: nat)
    requires LaidOut(frames, b) && i < |frames|
    ensures HdFrame(frames[i])
    decreases |frames|
  {
    if i > 0 {
      FramesAreFrames(frames[1..], b[|Padded(frames[0])|..], i - 1);
    }
  }

  // ------------------------------------------------------------------ queues

  datatype Prio = High | Mid | Low

  function PrioOf(f: seq<Byte>): Prio
    requires |f| >= HEADER_SIZE
  {
    if IfType(f) == INTERNAL_IF then High else if IfType(f) == HCI_IF then Mid else Low
  }

  /** Where a frame belongs by its interface type: 3, internal, is urgent, 2,
      HCI, is next, and all the rest is last. */
  predicate GoesTo(f: seq<Byte>, p: Prio) {
    && |f| >= 12
    && match p
       case High => f[0] % 16 == 3
       case Mid => f[0] % 16 == 2
       case Low => f[0] % 16 != 3 && f[0] % 16 != 2
  }

  /** Those of the frames that go to this queue, in order. */
  function Routed(frames: seq<seq<Byte>>, p: Prio): seq<seq<Byte>> {
    if frames == [] then [] else (if GoesTo(frames[0], p) then [frames[0]] else []) + Routed(frames[1..], p)
  }

  lemma {:induction false} RoutedAppend(a: seq<seq<Byte>>, f: seq<Byte>, p: Prio)
    requires |f| >= HEADER_SIZE
    ensures Routed(a + [f], p) == Routed(a, p) + if GoesTo(f, p) then [f] else []
  {
    if a == [] {
      assert [f][1..] == [];
    } else {
      assert (a + [f])[1..] == a[1..] + [f];
      RoutedAppend(a[1..], f, p);
    }
  }

  /** One step of the split, as the loops take it. */
  lemma SplitStep(b: seq<Byte>)
    requires b != []
    ensures Split(b).Some? ==> SpanAt(b).Some?
    ensures SpanAt(b).Some? ==>
              var f, left := b[..FrameLen(b).value], b[SpanAt(b).value..];
              && (left == [] ==> Split(b) == Some([f]))
              && (left != [] ==> (Split(b).Some? <==> Split(left).Some?))
              && (left != [] && Split(b).Some? ==> Split(b).value == [f] + Split(left).value)
  {
    if SpanAt(b).Some? {
      assert SpanAt(b).value == |b| <==> b[SpanAt(b).value..] == [];
    }
  }

  /** spihd_validate_rx_batch: how many frames, without touching any. */
  method Validate(b: seq<Byte>) returns (count: Option<nat>)
    ensures count.Some? <==> Split(b).Some?
    ensures count.Some? ==> count.value == |Split(b).value|
  {
    if b == [] {
      return None;
    }
    var left, n := b, 0;
    while left != []
      invariant left != [] ==> (Split(b).Some? <==> Split(left).Some?)
      invariant left != [] && Split(b).Some? ==> |Split(b).value| == n + |Split(left).value|
      invariant left == [] ==> Split(b).Some? && |Split(b).value| == n
      decreases |left|
    {
      SplitStep(left);
      var span := SpanAt(left);
      if span.None? {
        return None;
      }
      left := left[span.value..];
      n := n + 1;
    }
    count := Some(n);
  }

  /** The queue once f has been put where it belongs. */
  function Add(q: seq<seq<Byte>>, f: seq<Byte>, p: Prio): seq<seq<Byte>>
    requires |f| >= HEADER_SIZE
  {
    if GoesTo(f, p) then q + [f] else q
  }

  lemma RoutedAdd(q: seq<seq<Byte>>, frames: seq<seq<Byte>>, f: seq<Byte>, p: Prio)
    requires |f| >= HEADER_SIZE
    ensures Add(q + Routed(frames, p), f, p) == q + Routed(frames + [f], p)
  {
    RoutedAppend(frames, f, p);
    assert q + Routed(frames, p) + [f] == q + (Routed(frames, p) + [f]);
  }

  /** The first n allocations succeed. */
  ghost predicate Memory(memory: nat -> bool, n: nat) {
    forall k: nat :: k < n ==> memory(k)
  }

  /** One turn of the copy: one frame more, and the rest still to come. */
  lemma CopyStep(b: seq<Byte>, copied: seq<seq<Byte>>, left: seq<Byte>)
    requires left != [] && Split(left).Some? && Split(b) == Some(copied + Split(left).value)
    ensures SpanAt(left).Some? && |copied| < |Split(b).value|
    ensures var now, more := copied + [left[..FrameLen(left).value]], left[SpanAt(left).value..];
            && (more == [] ==> Split(b) == Some(now))
            && (more != [] ==> Split(more).Some? && Split(b) == Some(now + Split(more).value))
  {
    SplitStep(left);
    var f, more := left[..FrameLen(left).value], left[SpanAt(left).value..];
    if more != [] {
      assert copied + ([f] + Split(more).value) == copied + [f] + Split(more).value;
    }
  }

  /** Every frame is copied before any is published; a failed allocation gives
      up the whole batch. memory(k) is the outcome of the k-th allocation. */
  method CopyOut(b: seq<Byte>, memory: nat -> bool) returns (packets: Option<seq<seq<Byte>>>)
    requires Split(b).Some?
    ensures packets.Some? ==> packets == Split(b)
    ensures packets.Some? <==> Memory(memory, |Split(b).value|)
  {
    var left, copied := b, [];
    assert copied + Split(b).value == Split(b).value;
    while left != []
      invariant left != [] ==> Split(left).Some? && Split(b) == Some(copied + Split(left).value)
      invariant left == [] ==> Split(b) == Some(copied)
      invariant Memory(memory, |copied|)
      decreases |left|
    {
      CopyStep(b, copied, left);
      if !memory(|copied|) {
        return None;
      }
      var n := FrameLen(left).value;
      copied := copied + [left[..n]];
      left := left[SpanOf(n, |left|)..];
    }
    packets := Some(copied);
  }

  predicate BufOk(skb: seq<Byte>) {
    |skb| >= HEADER_SIZE && IfType(skb) < MAX_IF && SpanFrameLen(PayloadLen(skb), Offset(skb), |skb|).Some?
  }

  /** What the validator accepted, the per-frame check accepts too: no batch
      fails half way through. */
  lemma ValidatedIsAccepted(b: seq<Byte>, i: nat)
    requires Split(b).Some? && i < |Split(b).value|
    ensures var f := Split(b).value[i]; BufOk(f) && f[..Offset(f) + PayloadLen(f)] == f
  {
    SplitIsLaidOut(b);
    FramesAreFrames(Split(b).value, b, i);
    var f := Split(b).value[i];
    assert f[..|f|] == f;
  }

  /** A batch of one frame can be trimmed in place. */
  lemma SoleFrame(b: seq<Byte>)
    requires Split(b).Some? && |Split(b).value| == 1
    ensures BufOk(b) && [b[..Offset(b) + PayloadLen(b)]] == Split(b).value
  {
    SplitStep(b);
  }

  class Receiver {
    var high: seq<seq<Byte>>
    var mid: seq<seq<Byte>>
    var low: seq<seq<Byte>>

    /** The queues hold what they held, and these frames behind it. */
    ghost predicate Holds(h: seq<seq<Byte>>, m: seq<seq<Byte>>, l: seq<seq<Byte>>, frames: seq<seq<Byte>>)
      reads this
    {
      high == h + Routed(frames, High) && mid == m + Routed(frames, Mid) && low == l + Routed(frames, Low)
    }

    /** spihd_process_rx_buf: trims to the frame and queues it. */
    method ProcessBuf(skb: seq<Byte>) returns (ok: bool)
      modifies this
      ensures ok <==> BufOk(skb)
      ensures ok ==> var f := skb[..Offset(skb) + PayloadLen(skb)];
                high == Add(old(high), f, High) && mid == Add(old(mid), f, Mid) && low == Add(old(low), f, Low)
      ensures !ok ==> high == old(high) && mid == old(mid) && low == old(low)
    {
      ok := BufOk(skb);
      if ok {
        var f := skb[..Offset(skb) + PayloadLen(skb)];
        assert IfType(f) == IfType(skb);
        match PrioOf(f) {
          case High => high := high + [f];
          case Mid => mid := mid + [f];
          case Low => low := low + [f];
        }
      }
    }

    /** Frame after frame; the branch for a frame that is refused here is never
        taken. */
    method Publish(packets: seq<seq<Byte>>)
      requires forall i :: 0 <= i < |packets| ==>
                 BufOk(packets[i]) && packets[i][..Offset(packets[i]) + PayloadLen(packets[i])] == packets[i]
      modifies this
      ensures Holds(old(high), old(mid), old(low), packets)
    {
      for i := 0 to |packets|
        invariant Holds(old(high), old(mid), old(low), packets[..i])
      {
        var f := packets[i];
        assert packets[..i + 1] == packets[..i] + [f];
        RoutedAdd(old(high), packets[..i], f, High);
        RoutedAdd(old(mid), packets[..i], f, Mid);
        RoutedAdd(old(low), packets[..i], f, Low);
        var queued := ProcessBuf(f);
        assert queued;
      }
      assert packets[..|packets|] == packets;
    }

    /** spihd_process_rx_batch: all or nothing. */
    method ProcessBatch(b: seq<Byte>, memory: nat -> bool) returns (ok: bool)
      modifies this
      ensures ok <==>
                Split(b).Some? && (|Split(b).value| == 1 || Memory(memory, |Split(b).value|))
      ensures ok ==> Holds(old(high), old(mid), old(low), Split(b).value)
      ensures !ok ==> high == old(high) && mid == old(mid) && low == old(low)
    {
      var count := Validate(b);
      if count.None? {
        return false;
      }
      ghost var frames := Split(b).value;
      if count.value == 1 {
        SoleFrame(b);
        assert [] + frames == frames;
        RoutedAdd(high, [], frames[0], High);
        RoutedAdd(mid, [], frames[0], Mid);
        RoutedAdd(low, [], frames[0], Low);
        ok := ProcessBuf(b);
        return;
      }
      var packets := CopyOut(b, memory);
      if packets.None? {
        return false;
      }
      forall i | 0 <= i < |frames|
        ensures BufOk(frames[i]) && frames[i][..Offset(frames[i]) + PayloadLen(frames[i])] == frames[i]
      {
        ValidatedIsAccepted(b, i);
      }
      Publish(packets.value);
      ok := true;
    }
  }
}
