/** SDIO aggregates, both ways (esp/esp_driver/network_adapter/main/app_main.c,
    host/sdio/esp_sdio.c): frames padded to four bytes, back to back.

    The two unpackers differ in which frames they accept, the two packers in
    what ends an aggregate; `Reader` and `Side` say how. */
module SdioAggr {
  import opened Wire

  const RX_BUFFER_SIZE: nat := 15872
  const BLOCK_SIZE: nat := 512

  // ---------------------------------------------------------------- unpacking

  /** rxBuf: the firmware's receive buffer size. */
  datatype Reader = HostSide | FirmwareSide(rxBuf: nat)

  predicate Fits(rd: Reader, payloadLen: nat, frameLen: nat) {
    match rd
    case HostSide => payloadLen <= RX_BUFFER_SIZE
    case FirmwareSide(rxBuf) => frameLen <= rxBuf
  }

  predicate ZeroHeader(b: seq<Byte>)
    requires |b| >= HEADER_SIZE
  {
    forall i :: 0 <= i < HEADER_SIZE ==> b[i] == 0
  }

  /** The frame at the start of b, when its header is acceptable. */
  function FrameAt(rd: Reader, b: seq<Byte>): (r: Option<nat>)
    requires |b| >= HEADER_SIZE
    ensures r.Some? ==> HEADER_SIZE < r.value <= |b|
  {
    var n := SpanFrameLen(PayloadLen(b), Offset(b), |b|);
    if n.Some? && Fits(rd, PayloadLen(b), n.value) then n else None
  }

  /** What is left once a frame and its padding have been passed. */
  function After(b: seq<Byte>, frameLen: nat): (r: seq<Byte>)
    requires frameLen <= |b|
    ensures |r| <= |b| - frameLen
  {
    if Align4(frameLen) <= |b| then b[Align4(frameLen)..] else []
  }

  datatype Unpacked = Unpacked(frames: seq<seq<Byte>>, ok: bool)

  /** The walk over an aggregate. A header of zeros ends it, though not as the
      very first; anything else that is not a frame is an error, and what was
      read before it stands. */
  function Walk(rd: Reader, b: seq<Byte>, first: bool): Unpacked
    decreases |b|
  {
    if |b| < HEADER_SIZE then Unpacked([], true)
    else if PayloadLen(b) == 0 then Unpacked([], !first && ZeroHeader(b))
    else
      match FrameAt(rd, b)
      case None => Unpacked([], false)
      case Some(n) =>
        var more := Walk(rd, After(b, n), false);
        Unpacked([b[..n]] + more.frames, more.ok)
  }

  /** read_packet: a first frame that fills the aggregate is returned as it is. */
  function HostUnpack(b: seq<Byte>): Unpacked
    requires |b| >= HEADER_SIZE
  {
    match FrameAt(HostSide, b)
    case None => Unpacked([], false)
    case Some(n) => if Align4(n) >= |b| then Unpacked([b[..n]], true) else Walk(HostSide, b, false)
  }

  /** The fast path reads what the walk would. */
  lemma FastPathIsWalk(b: seq<Byte>)
    requires |b| >= HEADER_SIZE
    ensures HostUnpack(b) == Walk(HostSide, b, true)
  {
    var f := FrameAt(HostSide, b);
    if f.Some? && Align4(f.value) >= |b| {
      assert After(b, f.value) == [];
      assert [b[..f.value]] + [] == [b[..f.value]];
    }
  }

  /** A frame the reader accepts, byte by byte: a payload length above 0 in bytes 4 and 5, an offset
      from 12 to 16 in bytes 6 and 7, low byte first, and as many bytes as the
      two add up to; the host limits the payload, the firmware the frame. */
  predicate Readable(rd: Reader, f: seq<Byte>) {
    && |f| >= 12
    && f[4] as int + 256 * f[5] as int > 0
    && 12 <= f[6] as int + 256 * f[7] as int <= 16
    && |f| == (f[6] as int + 256 * f[7] as int) + (f[4] as int + 256 * f[5] as int)
    && if rd.HostSide? then f[4] as int + 256 * f[5] as int <= 15872 else |f| <= rd.rxBuf
  }

  lemma FrameInFront(rd: Reader, f: seq<Byte>, more: seq<Byte>)
    requires Readable(rd, f)
    ensures var b := Padded(f) + more;
            && |b| >= HEADER_SIZE && PayloadLen(b) == PayloadLen(f) && PayloadLen(b) != 0
            && FrameAt(rd, b) == Some(|f|) && b[..|f|] == f && After(b, |f|) == more
  {
    var b := Padded(f) + more;
    assert forall i :: 0 <= i < |f| ==> b[i] == f[i];
    assert b[..|f|] == f;
    assert b[Align4(|f|)..] == more;
  }

  lemma ZerosEnd(rd: Reader, k: nat)
    ensures Walk(rd, Zeros(k), false) == Unpacked([], true)
  {
  }

  /** Unpacking undoes packing, with any number of zeros behind. */
  lemma {:induction false} WalkUndoesPack(rd: Reader, frames: seq<seq<Byte>>, k: nat, first: bool)
    requires forall i :: 0 <= i < |frames| ==> Readable(rd, frames[i])
    requires first ==> frames != []
    ensures Walk(rd, Pack(frames) + Zeros(k), first) == Unpacked(frames, true)
    decreases |frames|
  {
    if frames == [] {
      assert Pack(frames) + Zeros(k) == Zeros(k);
      ZerosEnd(rd, k);
    } else {
      var more := Pack(frames[1..]) + Zeros(k);
      assert Pack(frames) + Zeros(k) == Padded(frames[0]) + more;
      FrameInFront(rd, frames[0], more);
      WalkUndoesPack(rd, frames[1..], k, false);
      assert frames == [frames[0]] + frames[1..];
    }
  }

  /** What the firmware packs, the host unpacks. */
  lemma HostReadsFirmware(frames: seq<seq<Byte>>)
    requires frames != [] && forall i :: 0 <= i < |frames| ==> Readable(HostSide, frames[i])
    ensures |Pack(frames)| >= HEADER_SIZE && HostUnpack(Pack(frames)) == Unpacked(frames, true)
  {
    WalkUndoesPack(HostSide, frames, 0, true);
    assert Pack(frames) + Zeros(0) == Pack(frames);
    FastPathIsWalk(Pack(frames));
  }

  // What an aggregate means, without the walk.

  /** b does not go on with a frame. It ends well if nothing is left that could
      be a header, or if there are zeros, and they are not the very first. */
  ghost predicate Ends(rd: Reader, b: seq<Byte>, ok: bool, first: bool) {
    && (forall n: nat :: n <= |b| ==> !Readable(rd, b[..n]))
    && (ok <==> |b| < 12 || (!first && forall i :: 0 <= i < 12 ==> b[i] == 0))
  }

  /** b is these frames, each filled up to a multiple of four, and an end. */
  ghost predicate Means(rd: Reader, b: seq<Byte>, frames: seq<seq<Byte>>, ok: bool, first: bool)
    decreases |frames|
  {
    if frames == [] then Ends(rd, b, ok, first)
    else
      && Readable(rd, frames[0]) && frames[0] <= b
      && Means(rd, After(b, |frames[0]|), frames[1..], ok, false)
  }

  lemma FrameIsFrame(rd: Reader, b: seq<Byte>, n: nat)
    requires n <= |b|
    ensures Readable(rd, b[..n]) <==> |b| >= HEADER_SIZE && FrameAt(rd, b) == Some(n)
  {
    if n >= 12 {
      assert forall i :: 0 <= i < 12 ==> b[..n][i] == b[i];
    }
  }

  lemma NoFrameIsEnd(rd: Reader, b: seq<Byte>, first: bool)
    requires |b| >= HEADER_SIZE ==> FrameAt(rd, b).None?
    ensures Ends(rd, b, Walk(rd, b, first).ok, first) && Walk(rd, b, first).frames == []
  {
    forall n: nat | n <= |b| ensures !Readable(rd, b[..n]) {
      FrameIsFrame(rd, b, n);
    }
    if |b| >= HEADER_SIZE {
      assert ZeroHeader(b) ==> PayloadLen(b) == 0;
    }
  }

  lemma {:induction false} WalkMeans(rd: Reader, b: seq<Byte>, first: bool)
    ensures Means(rd, b, Walk(rd, b, first).frames, Walk(rd, b, first).ok, first)
    decreases |b|
  {
    if |b| < HEADER_SIZE || FrameAt(rd, b).None? {
      NoFrameIsEnd(rd, b, first);
    } else {
      var n := FrameAt(rd, b).value;
      FrameIsFrame(rd, b, n);
      WalkMeans(rd, After(b, n), false);
      assert Walk(rd, b, first).frames[1..] == Walk(rd, After(b, n), false).frames;
    }
  }

  lemma WalkFirst(rd: Reader, b: seq<Byte>, f: seq<Byte>, first: bool)
    requires Readable(rd, f) && f <= b
    ensures var more := Walk(rd, After(b, |f|), false); Walk(rd, b, first) == Unpacked([f] + more.frames, more.ok)
  {
    assert b[..|f|] == f;
    FrameIsFrame(rd, b, |f|);
  }

  lemma EndIsNoFrame(rd: Reader, b: seq<Byte>, ok: bool, first: bool)
    requires Ends(rd, b, ok, first)
    ensures Walk(rd, b, first) == Unpacked([], ok)
  {
    if |b| >= HEADER_SIZE && FrameAt(rd, b).Some? {
      FrameIsFrame(rd, b, FrameAt(rd, b).value);
    }
    NoFrameIsEnd(rd, b, first);
  }

  lemma {:induction false} MeaningIsWalked(rd: Reader, b: seq<Byte>, frames: seq<seq<Byte>>, ok: bool, first: bool)
    requires Means(rd, b, frames, ok, first)
    ensures Walk(rd, b, first) == Unpacked(frames, ok)
    decreases |frames|
  {
    if frames == [] {
      EndIsNoFrame(rd, b, ok, first);
    } else {
      WalkFirst(rd, b, frames[0], first);
      MeaningIsWalked(rd, After(b, |frames[0]|), frames[1..], ok, false);
      assert [frames[0]] + frames[1..] == frames;
    }
  }

  /** Main result: any aggregate, well-formed or not, is read as what it means,
      and as nothing else: its frames up to the first place where there is none,
      and an error unless that is a proper end. */
  lemma WalkIsMeaning(rd: Reader, b: seq<Byte>, first: bool, frames: seq<seq<Byte>>, ok: bool)
    ensures Walk(rd, b, first) == Unpacked(frames, ok) <==> Means(rd, b, frames, ok, first)
  {
    if Means(rd, b, frames, ok, first) {
      MeaningIsWalked(rd, b, frames, ok, first);
    } else {
      WalkMeans(rd, b, first);
    }
  }

  /** The host fills its writes up to whole blocks. */
  function BlockPad(n: nat): (k: nat)
    ensures k < BLOCK_SIZE && (n + k) % BLOCK_SIZE == 0
  {
    (BLOCK_SIZE - n % BLOCK_SIZE) % BLOCK_SIZE
  }

  /** What the host packs and pads to whole blocks, the firmware unpacks. */
  lemma FirmwareReadsHost(frames: seq<seq<Byte>>, rxBuf: nat)
    requires frames != [] && forall i :: 0 <= i < |frames| ==> Readable(FirmwareSide(rxBuf), frames[i])
    ensures var b := Pack(frames) + Zeros(BlockPad(|Pack(frames)|));
            |b| % BLOCK_SIZE == 0 && Walk(FirmwareSide(rxBuf), b, true) == Unpacked(frames, true)
  {
    WalkUndoesPack(FirmwareSide(rxBuf), frames, BlockPad(|Pack(frames)|), true);
  }

  // ------------------------------------------------------------------ packing

  datatype Drop = Keep | Early | Late

  /** A queued packet as its packer sees it: the frame it becomes; whether it
      must travel alone; whether it is dropped, before or after the packer has
      decided that it would go into this aggregate; and its priority, 0 first. */
  datatype Item = Item(frame: seq<Byte>, alone: bool, drop: Drop, prio: nat)

  datatype Side = HostPacks | FirmwarePacks

  /** The packer stops in front of this item. */
  predicate Stops(side: Side, size: nat, frames: seq<seq<Byte>>, it: Item) {
    (it.alone && frames != []) || |Pack(frames)| + Align4(|it.frame|) > size
  }

  /** What becomes of the packet at the head of the queue. */
  datatype Turn = Halt | Discard | PutLast | Put

  function TurnOf(side: Side, size: nat, q: seq<Item>, frames: seq<seq<Byte>>): (t: Turn)
    ensures q == [] ==> t.Halt?
  {
    if q == [] || (side.HostPacks? && |Pack(frames)| >= size) then Halt
    else if q[0].drop.Early? then Discard
    else if Stops(side, size, frames, q[0]) then Halt
    else if q[0].drop.Late? then Discard
    else if q[0].alone then PutLast
    else Put
  }

  /** One aggregate: the frames that go in, and what stays queued. */
  function Fill(side: Side, size: nat, q: seq<Item>, frames: seq<seq<Byte>>): (r: (seq<seq<Byte>>, seq<Item>))
    ensures |r.1| <= |q|
    decreases |q|
  {
    match TurnOf(side, size, q, frames)
    case Halt => (frames, q)
    case Discard => Fill(side, size, q[1..], frames)
    case PutLast => (frames + [q[0].frame], q[1..])
    case Put => Fill(side, size, q[1..], frames + [q[0].frame])
  }

  /** The frames of the items that are to be delivered, in order. */
  function Good(q: seq<Item>): seq<seq<Byte>> {
    if q == [] then [] else (if q[0].drop.Keep? then [q[0].frame] else []) + Good(q[1..])
  }

  lemma Reassociate<T>(a: seq<T>, b: seq<T>, c: seq<T>)
    ensures (a + b) + c == a + (b + c)
  {
  }

  lemma GoodFirst(x: Item, q: seq<Item>)
    ensures Good([x] + q) == (if x.drop.Keep? then [x.frame] else []) + Good(q)
  {
    assert ([x] + q)[1..] == q;
  }

  lemma {:induction false} GoodAppend(a: seq<Item>, b: seq<Item>)
    ensures Good(a + b) == Good(a) + Good(b)
  {
    if a == [] {
      assert a + b == b;
    } else {
      var x, more := a[0], a[1..];
      GoodAppend(more, b);
      GoodFirst(x, more);
      GoodFirst(x, more + b);
      assert a == [x] + more && a + b == [x] + (more + b);
      Reassociate(if x.drop.Keep? then [x.frame] else [], Good(more), Good(b));
    }
  }

  lemma GoodHead(q: seq<Item>, frames: seq<seq<Byte>>)
    requires q != []
    ensures q[0].drop.Keep? ==> frames + Good(q) == (frames + [q[0].frame]) + Good(q[1..])
    ensures !q[0].drop.Keep? ==> Good(q) == Good(q[1..])
  {
    if q[0].drop.Keep? {
      assert frames + ([q[0].frame] + Good(q[1..])) == (frames + [q[0].frame]) + Good(q[1..]);
    } else {
      assert [] + Good(q[1..]) == Good(q[1..]);
    }
  }

  /** Nothing is lost, repeated or reordered: what goes in and what stays are,
      together, what there was. */
  lemma {:induction false} FillConserves(side: Side, size: nat, q: seq<Item>, frames: seq<seq<Byte>>)
    ensures var (got, left) := Fill(side, size, q, frames); got + Good(left) == frames + Good(q)
    decreases |q|
  {
    var turn := TurnOf(side, size, q, frames);
    if !turn.Halt? {
      GoodHead(q, frames);
      if turn.Discard? {
        FillConserves(side, size, q[1..], frames);
      } else if turn.Put? {
        FillConserves(side, size, q[1..], frames + [q[0].frame]);
      }
    }
  }

  lemma {:induction false} PackAppend(a: seq<seq<Byte>>, f: seq<Byte>)
    ensures Pack(a + [f]) == Pack(a) + Padded(f)
  {
    if a == [] {
      assert [f][1..] == [];
    } else {
      assert (a + [f])[1..] == a[1..] + [f];
      PackAppend(a[1..], f);
    }
  }

  /** An aggregate never exceeds its size. */
  lemma {:induction false} FillFits(side: Side, size: nat, q: seq<Item>, frames: seq<seq<Byte>>)
    requires |Pack(frames)| <= size
    ensures |Pack(Fill(side, size, q, frames).0)| <= size
    decreases |q|
  {
    var turn := TurnOf(side, size, q, frames);
    if !turn.Halt? {
      PackAppend(frames, q[0].frame);
      if turn.Discard? {
        FillFits(side, size, q[1..], frames);
      } else if turn.Put? {
        FillFits(side, size, q[1..], frames + [q[0].frame]);
      }
    }
  }

  /** So an aggregate that holds anything takes exactly one of the slave's
      buffers, whose size is that of the aggregate. */
  lemma OneBufferEach(side: Side, size: nat, q: seq<Item>)
    requires size > 0 && |Pack(Fill(side, size, q, []).0)| > 0
    ensures (|Pack(Fill(side, size, q, []).0)| + size - 1) / size == 1
  {
    FillFits(side, size, q, []);
    OneQuotient(|Pack(Fill(side, size, q, []).0)|, size);
  }

  lemma OneQuotient(n: nat, size: nat)
    requires 0 < n <= size
    ensures (n + size - 1) / size == 1
  {
    assert n + size - 1 == size * 1 + (n - 1);
  }

  /** Every item that may go in fits into an aggregate of its own. */
  predicate EachFits(q: seq<Item>, size: nat) {
    size > 0 && forall i :: 0 <= i < |q| ==> q[i].drop.Early? || 0 < Align4(|q[i].frame|) <= size
  }

  /** Then every aggregate takes something off the queue. */
  lemma FillProgresses(side: Side, size: nat, q: seq<Item>)
    requires q != [] && EachFits(q, size)
    ensures |Fill(side, size, q, []).1| < |q|
  {
    var none: seq<seq<Byte>> := [];
    assert |Pack(none)| == 0 && (q[0].drop.Early? || 0 < Align4(|q[0].frame|) <= size);
    assert !TurnOf(side, size, q, none).Halt?;
  }

  /** The queue is taken from the front. */
  lemma {:induction false} FillKeepsTail(side: Side, size: nat, q: seq<Item>, frames: seq<seq<Byte>>)
    ensures var left := Fill(side, size, q, frames).1; left == q[|q| - |left|..]
    decreases |q|
  {
    var turn := TurnOf(side, size, q, frames);
    if turn.Discard? {
      FillKeepsTail(side, size, q[1..], frames);
    } else if turn.Put? {
      FillKeepsTail(side, size, q[1..], frames + [q[0].frame]);
    }
  }

  // Arrivals between aggregates. The queues of the different priorities stand
  // one behind the other; a packet arrives at the end of its own.

  predicate Sorted(q: seq<Item>) {
    forall i, j :: 0 <= i < j < |q| ==> q[i].prio <= q[j].prio
  }

  function Insert(q: seq<Item>, it: Item): (r: seq<Item>)
    ensures forall x :: x in r ==> x in q || x == it
  {
    if q == [] || q[0].prio > it.prio then [it] + q else [q[0]] + Insert(q[1..], it)
  }

  function InsertAll(q: seq<Item>, batch: seq<Item>): (r: seq<Item>)
    ensures forall x :: x in r ==> x in q || x in batch
    decreases |batch|
  {
    if batch == [] then q else InsertAll(Insert(q, batch[0]), batch[1..])
  }

  /** The items of one priority. */
  function Of(c: nat, q: seq<Item>): seq<Item> {
    if q == [] then [] else (if q[0].prio == c then [q[0]] else []) + Of(c, q[1..])
  }

  lemma OfFirst(c: nat, x: Item, q: seq<Item>)
    ensures Of(c, [x] + q) == (if x.prio == c then [x] else []) + Of(c, q)
  {
    assert ([x] + q)[1..] == q;
  }

  lemma {:induction false} OfAppend(c: nat, a: seq<Item>, b: seq<Item>)
    ensures Of(c, a + b) == Of(c, a) + Of(c, b)
  {
    if a == [] {
      assert a + b == b;
    } else {
      var x, more := a[0], a[1..];
      OfAppend(c, more, b);
      OfFirst(c, x, more);
      OfFirst(c, x, more + b);
      assert a == [x] + more && a + b == [x] + (more + b);
      Reassociate(if x.prio == c then [x] else [], Of(c, more), Of(c, b));
    }
  }

  lemma {:induction false} OfAbove(c: nat, q: seq<Item>)
    requires forall i :: 0 <= i < |q| ==> q[i].prio > c
    ensures Of(c, q) == []
  {
    if q != [] {
      OfAbove(c, q[1..]);
    }
  }

  lemma {:induction false} InsertSorted(q: seq<Item>, it: Item)
    requires Sorted(q)
    ensures Sorted(Insert(q, it))
  {
    if q != [] && q[0].prio <= it.prio {
      InsertSorted(q[1..], it);
      var r := Insert(q[1..], it);
      forall j | 0 <= j < |r| ensures q[0].prio <= r[j].prio {
        assert r[j] in r;
      }
    }
  }

  lemma {:induction false} InsertIsLast(c: nat, q: seq<Item>, it: Item)
    requires Sorted(q)
    ensures Of(c, Insert(q, it)) == Of(c, q) + Of(c, [it])
  {
    if q == [] || q[0].prio > it.prio {
      OfAppend(c, [it], q);
      if c == it.prio {
        OfAbove(c, q);
      }
    } else {
      InsertIsLast(c, q[1..], it);
      OfAppend(c, [q[0]], Insert(q[1..], it));
      OfAppend(c, [q[0]], q[1..]);
      assert [q[0]] + q[1..] == q;
    }
  }

  lemma {:induction false} InsertAllIsLast(c: nat, q: seq<Item>, batch: seq<Item>)
    requires Sorted(q)
    ensures Sorted(InsertAll(q, batch)) && Of(c, InsertAll(q, batch)) == Of(c, q) + Of(c, batch)
    decreases |batch|
  {
    if batch != [] {
      InsertSorted(q, batch[0]);
      InsertIsLast(c, q, batch[0]);
      InsertAllIsLast(c, Insert(q, batch[0]), batch[1..]);
      OfAppend(c, [batch[0]], batch[1..]);
      assert [batch[0]] + batch[1..] == batch;
    }
  }

  /** The items that leave the queue with one aggregate. */
  function Taken(side: Side, size: nat, q: seq<Item>): seq<Item> {
    q[..|q| - |Fill(side, size, q, []).1|]
  }

  /** They are the front of the queue, and the aggregate holds their frames. */
  lemma FillTakes(side: Side, size: nat, q: seq<Item>)
    ensures var (frames, left) := Fill(side, size, q, []);
            q == Taken(side, size, q) + left && frames == Good(Taken(side, size, q))
  {
    var (frames, left) := Fill(side, size, q, []);
    var taken := Taken(side, size, q);
    FillKeepsTail(side, size, q, []);
    FillConserves(side, size, q, []);
    GoodAppend(taken, left);
    assert q == taken + left && frames + Good(left) == [] + (Good(taken) + Good(left));
    assert |frames| == |Good(taken)|;
    assert frames == (frames + Good(left))[..|frames|] == Good(taken);
  }

  /** A batch of packets arrives, one aggregate is sent, and so on: the
      aggregates, the items that left with them, and the queue. */
  datatype Sent = Sent(aggregates: seq<seq<seq<Byte>>>, items: seq<Item>, left: seq<Item>)

  function SendRun(side: Side, size: nat, q: seq<Item>, batches: seq<seq<Item>>): Sent
    decreases |batches|
  {
    if batches == [] then Sent([], [], q)
    else
      var now := InsertAll(q, batches[0]);
      var (frames, left) := Fill(side, size, now, []);
      var more := SendRun(side, size, left, batches[1..]);
      Sent([frames] + more.aggregates, Taken(side, size, now) + more.items, more.left)
  }

  function Arrived<T>(batches: seq<seq<T>>): seq<T> {
    if batches == [] then [] else batches[0] + Arrived(batches[1..])
  }

  /** Across aggregates and arrivals, in each priority: what left, followed by
      what is still queued, is what ever arrived, in its order. */
  lemma {:induction false} RunConserves(side: Side, size: nat, q: seq<Item>, batches: seq<seq<Item>>, c: nat)
    requires Sorted(q)
    ensures var s := SendRun(side, size, q, batches);
            Of(c, s.items) + Of(c, s.left) == Of(c, q) + Of(c, Arrived(batches))
    decreases |batches|
  {
    if batches == [] {
      assert [] + Of(c, q) == Of(c, q) == Of(c, q) + [];
    } else {
      var now := InsertAll(q, batches[0]);
      var taken, left := Taken(side, size, now), Fill(side, size, now, []).1;
      var more := SendRun(side, size, left, batches[1..]);
      InsertAllIsLast(c, q, batches[0]);
      FillTakes(side, size, now);
      RunConserves(side, size, left, batches[1..], c);
      OfAppend(c, taken, left);
      OfAppend(c, taken, more.items);
      OfAppend(c, batches[0], Arrived(batches[1..]));
      Regroup(Of(c, taken), Of(c, more.items), Of(c, more.left), Of(c, left), Of(c, Arrived(batches[1..])),
              Of(c, q), Of(c, batches[0]));
    }
  }

  lemma Regroup(f: seq<Item>, j: seq<Item>, r: seq<Item>, l: seq<Item>, a: seq<Item>, q: seq<Item>, b: seq<Item>)
    requires j + r == l + a && f + l == q + b
    ensures (f + j) + r == q + (b + a)
  {
    assert (f + j) + r == f + (l + a) == (f + l) + a == q + (b + a);
  }

  /** An empty queue is reached by sending as often as there are packets. */
  function SendAll(side: Side, size: nat, q: seq<Item>): seq<seq<seq<Byte>>>
    requires EachFits(q, size)
    decreases |q|
  {
    if q == [] then []
    else
      FillProgresses(side, size, q);
      FillKeepsTail(side, size, q, []);
      var (frames, left) := Fill(side, size, q, []);
      [frames] + SendAll(side, size, left)
  }

  function UnpackAll(rd: Reader, aggregates: seq<seq<seq<Byte>>>, pad: bool): seq<seq<Byte>> {
    if aggregates == [] then []
    else
      var b := Pack(aggregates[0]);
      Walk(rd, b + Zeros(if pad then BlockPad(|b|) else 0), true).frames + UnpackAll(rd, aggregates[1..], pad)
  }

  predicate AllReadable(rd: Reader, q: seq<Item>) {
    forall x :: x in q && x.drop.Keep? ==> Readable(rd, x.frame)
  }

  lemma {:induction false} GoodReadable(rd: Reader, q: seq<Item>)
    requires AllReadable(rd, q)
    ensures forall i :: 0 <= i < |Good(q)| ==> Readable(rd, Good(q)[i])
  {
    if q != [] {
      assert q[0] in q;
      GoodReadable(rd, q[1..]);
    }
  }

  /** One aggregate arrives as it was filled, empty or not. */
  lemma AggregateArrives(side: Side, rd: Reader, size: nat, q: seq<Item>, pad: bool)
    requires AllReadable(rd, q)
    ensures var b := Pack(Fill(side, size, q, []).0);
            Walk(rd, b + Zeros(if pad then BlockPad(|b|) else 0), true).frames == Good(Taken(side, size, q))
  {
    var frames := Fill(side, size, q, []).0;
    var k := if pad then BlockPad(|Pack(frames)|) else 0;
    FillTakes(side, size, q);
    GoodReadable(rd, Taken(side, size, q));
    if frames == [] {
      assert Walk(rd, Pack(frames) + Zeros(k), true).frames == [];
    } else {
      WalkUndoesPack(rd, frames, k, true);
    }
  }

  /** Main result: whatever the queue holds, and however it is cut into
      aggregates, the other side receives exactly its good frames, in order. */
  lemma {:induction false} EndToEnd(side: Side, rd: Reader, size: nat, q: seq<Item>, pad: bool)
    requires EachFits(q, size) && AllReadable(rd, q)
    ensures UnpackAll(rd, SendAll(side, size, q), pad) == Good(q)
    decreases |q|
  {
    if q != [] {
      FillProgresses(side, size, q);
      FillKeepsTail(side, size, q, []);
      AggregateArrives(side, rd, size, q, pad);
      FillTakes(side, size, q);
      var (frames, left) := Fill(side, size, q, []);
      GoodAppend(Taken(side, size, q), left);
      EndToEnd(side, rd, size, left, pad);
      UnpackHead(rd, frames, SendAll(side, size, left), pad);
    }
  }

  lemma UnpackHead(rd: Reader, frames: seq<seq<Byte>>, more: seq<seq<seq<Byte>>>, pad: bool)
    ensures var b := Pack(frames);
            UnpackAll(rd, [frames] + more, pad)
            == Walk(rd, b + Zeros(if pad then BlockPad(|b|) else 0), true).frames + UnpackAll(rd, more, pad)
  {
    assert ([frames] + more)[1..] == more;
  }

  /** The same with packets arriving all the while: what the other side has
      received are the good frames of the items that left. With RunConserves:
      in each priority a prefix of what arrived. */
  lemma {:induction false} RunArrives(side: Side, rd: Reader, size: nat, q: seq<Item>, batches: seq<seq<Item>>,
                                      pad: bool)
    requires AllReadable(rd, q) && forall i :: 0 <= i < |batches| ==> AllReadable(rd, batches[i])
    ensures var s := SendRun(side, size, q, batches); UnpackAll(rd, s.aggregates, pad) == Good(s.items)
    decreases |batches|
  {
    if batches != [] {
      var now := InsertAll(q, batches[0]);
      var (frames, left) := Fill(side, size, now, []);
      var more := SendRun(side, size, left, batches[1..]);
      AggregateArrives(side, rd, size, now, pad);
      FillTakes(side, size, now);
      RunArrives(side, rd, size, left, batches[1..], pad);
      GoodAppend(Taken(side, size, now), more.items);
      UnpackHead(rd, frames, more.aggregates, pad);
    }
  }

  lemma {:induction false} OneClass(q: seq<Item>)
    requires forall x :: x in q ==> x.prio == 0
    ensures Of(0, q) == q
  {
    if q != [] {
      assert q[0] in q;
      OneClass(q[1..]);
    }
  }

  lemma {:induction false} ArrivedMembers(batches: seq<seq<Item>>, x: Item)
    ensures x in Arrived(batches) ==> exists i :: 0 <= i < |batches| && x in batches[i]
  {
    if batches != [] && x in Arrived(batches) && x !in batches[0] {
      ArrivedMembers(batches[1..], x);
      var i :| 0 <= i < |batches[1..]| && x in batches[1..][i];
      assert x in batches[i + 1];
    }
  }

  lemma {:induction false} RunMembers(side: Side, size: nat, q: seq<Item>, batches: seq<seq<Item>>, x: Item)
    ensures var s := SendRun(side, size, q, batches); x in s.items || x in s.left ==> x in q || x in Arrived(batches)
    decreases |batches|
  {
    if batches != [] {
      var now := InsertAll(q, batches[0]);
      FillTakes(side, size, now);
      RunMembers(side, size, Fill(side, size, now, []).1, batches[1..], x);
    }
  }

  /** With one priority, from an empty queue: the other side has received what
      is good of all that arrived but for the last packets, still queued. */
  lemma OneQueueArrives(side: Side, rd: Reader, size: nat, batches: seq<seq<Item>>, pad: bool)
    requires forall i :: 0 <= i < |batches| ==> AllReadable(rd, batches[i])
    requires forall i, x :: 0 <= i < |batches| && x in batches[i] ==> x.prio == 0
    ensures var s := SendRun(side, size, [], batches); var all := Arrived(batches);
            |s.left| <= |all| && UnpackAll(rd, s.aggregates, pad) == Good(all[..|all| - |s.left|])
  {
    var s := SendRun(side, size, [], batches);
    RunArrives(side, rd, size, [], batches, pad);
    RunConserves(side, size, [], batches, 0);
    forall x | x in Arrived(batches) ensures x.prio == 0 {
      ArrivedMembers(batches, x);
    }
    forall x | x in s.items || x in s.left ensures x.prio == 0 {
      RunMembers(side, size, [], batches, x);
    }
    OneClass(s.items);
    OneClass(s.left);
    OneClass(Arrived(batches));
    assert s.items + s.left == [] + Arrived(batches) == Arrived(batches);
    assert s.items == (s.items + s.left)[..|s.items|];
  }

  // Higher priorities go first, and some packets travel alone.

  /** No packet leaves while one of a higher priority is left behind. */
  lemma HigherGoesFirst(side: Side, size: nat, q: seq<Item>, x: Item, y: Item)
    requires Sorted(q) && x in Taken(side, size, q) && y in Fill(side, size, q, []).1
    ensures x.prio <= y.prio
  {
    FillTakes(side, size, q);
    var taken, left := Taken(side, size, q), Fill(side, size, q, []).1;
    var i :| 0 <= i < |taken| && taken[i] == x;
    var j :| 0 <= j < |left| && left[j] == y;
    assert q[i] == x && q[|taken| + j] == y;
  }

  /** An aggregate is closed only when the queue is empty, it is full, the next
      frame does not fit or must travel alone, or its own frame must. */
  lemma {:induction false} AggregateIsFull(side: Side, size: nat, q: seq<Item>, frames: seq<seq<Byte>>)
    ensures var (got, left) := Fill(side, size, q, frames);
            || left == [] || |Pack(got)| >= size
            || (got != [] && left[0].alone) || |Pack(got)| + Align4(|left[0].frame|) > size
            || (|left| < |q| && q[|q| - |left| - 1].alone)
    decreases |q|
  {
    var turn := TurnOf(side, size, q, frames);
    if turn.Discard? {
      AggregateIsFull(side, size, q[1..], frames);
    } else if turn.Put? {
      AggregateIsFull(side, size, q[1..], frames + [q[0].frame]);
    }
  }

  /** A frame that must travel alone is the only one of its aggregate. */
  lemma {:induction false} AloneIsAlone(side: Side, size: nat, q: seq<Item>, frames: seq<seq<Byte>>, i: nat)
    requires i < |q| - |Fill(side, size, q, frames).1| && q[i].alone && q[i].drop.Keep?
    ensures frames == [] && Fill(side, size, q, frames).0 == [q[i].frame]
    decreases |q|
  {
    var turn := TurnOf(side, size, q, frames);
    if turn.Halt? {
      assert false;
    } else if turn.Discard? {
      AloneIsAlone(side, size, q[1..], frames, i - 1);
    } else if turn.Put? {
      AloneIsAlone(side, size, q[1..], frames + [q[0].frame], i - 1);
      assert false;
    }
  }

  // -------------------------------------------------------------- the packers

  /** memcpy and memset into an aggregate buffer. */
  method Write(dst: array<Byte>, at: nat, src: seq<Byte>)
    requires at + |src| <= dst.Length
    modifies dst
    ensures dst[..at + |src|] == old(dst[..at]) + src
  {
    for i := 0 to |src|
      invariant dst[..at + i] == old(dst[..at]) + src[..i]
    {
      dst[at + i] := src[i];
    }
  }

  /** A packet in the firmware's queue. lead and trail: the header bytes around
      the length and offset fields. */
  datatype Packet = Packet(lead: seq<Byte>, trail: seq<Byte>, payload: seq<Byte>)

  predicate PacketOk(p: Packet) {
    |p.lead| == 4 && |p.trail| == 4 && |p.payload| <= 0xFFFF
  }

  function FrameOf(p: Packet): (f: seq<Byte>)
    requires PacketOk(p)
    ensures |f| == HEADER_SIZE + |p.payload|
  {
    p.lead + PutLe16(|p.payload|) + PutLe16(HEADER_SIZE) + p.trail + p.payload
  }

  /** A packet that is empty or too long for any aggregate is dropped; a small
      one is not held back behind others. */
  function ItemOf(size: nat, bypass: nat, p: Packet): Item
    requires PacketOk(p)
  {
    Item(FrameOf(p), |p.payload| <= bypass,
         if |p.payload| == 0 || |p.payload| + HEADER_SIZE > size then Early else Keep, 0)
  }

  /** Every frame the firmware builds is one the host accepts. */
  lemma FirmwareFrameIsReadable(p: Packet)
    requires PacketOk(p) && 0 < |p.payload| <= RX_BUFFER_SIZE
    ensures Readable(HostSide, FrameOf(p)) && FrameOf(p)[HEADER_SIZE..] == p.payload
  {
    var f := FrameOf(p);
    assert f[4] == PutLe16(|p.payload|)[0] && f[5] == PutLe16(|p.payload|)[1];
    assert f[6] == PutLe16(HEADER_SIZE)[0] && f[7] == PutLe16(HEADER_SIZE)[1];
  }

  function ItemsOf(size: nat, bypass: nat, ps: seq<Packet>): (q: seq<Item>)
    requires forall i :: 0 <= i < |ps| ==> PacketOk(ps[i])
    ensures |q| == |ps| && forall i :: 0 <= i < |q| ==> q[i] == ItemOf(size, bypass, ps[i])
  {
    seq(|ps|, i requires 0 <= i < |ps| => ItemOf(size, bypass, ps[i]))
  }

  lemma ItemsHead(size: nat, bypass: nat, ps: seq<Packet>)
    requires ps != [] && forall i :: 0 <= i < |ps| ==> PacketOk(ps[i])
    ensures ItemsOf(size, bypass, ps)[0] == ItemOf(size, bypass, ps[0])
    ensures ItemsOf(size, bypass, ps)[1..] == ItemsOf(size, bypass, ps[1..])
  {
  }

  /** The branches of the firmware's packer, for n bytes of payload that meet
      len bytes in the aggregate. */
  function FirmwareTurn(size: nat, bypass: nat, n: nat, len: nat): Turn {
    if n == 0 || n + HEADER_SIZE > size then Discard
    else if len != 0 && (n <= bypass || len + Align4(n + HEADER_SIZE) > size) then Halt
    else if n <= bypass then PutLast
    else Put
  }

  lemma AlignFits(n: nat, size: nat)
    requires n <= size && size % 4 == 0
    ensures Align4(n) <= size
  {
  }

  lemma FirmwareTurnIsTurn(size: nat, bypass: nat, q: seq<Item>, n: nat, frames: seq<seq<Byte>>)
    requires q != [] && size % 4 == 0 && (|Pack(frames)| == 0 <==> frames == [])
    requires |q[0].frame| == n + HEADER_SIZE && q[0].alone == (n <= bypass)
    requires q[0].drop == if n == 0 || n + HEADER_SIZE > size then Early else Keep
    ensures TurnOf(FirmwarePacks, size, q, frames) == FirmwareTurn(size, bypass, n, |Pack(frames)|)
  {
    if n + HEADER_SIZE <= size {
      AlignFits(n + HEADER_SIZE, size);
    }
  }

  /** process_low_prio_tx_packets: the LOW queue, and one packet set aside. */
  class FirmwarePacker {
    const size: nat
    const bypass: nat
    var queue: seq<Packet>
    var deferred: Option<Packet>
    const aggr: array<Byte>
    var aggrLen: nat

    predicate Valid()
      reads this
    {
      && aggr.Length == size && size % 4 == 0 && size <= 0xFFFC
      && (forall i :: 0 <= i < |queue| ==> PacketOk(queue[i]))
      && (deferred.Some? ==> PacketOk(deferred.value))
    }

    /** What is still to be sent: the packet set aside comes first. */
    function Waiting(): seq<Packet>
      reads this
    {
      (if deferred.Some? then [deferred.value] else []) + queue
    }

    constructor (size: nat, bypass: nat)
      requires size % 4 == 0 && size <= 0xFFFC
      ensures Valid() && Waiting() == [] && this.size == size && this.bypass == bypass && fresh(aggr)
    {
      this.size, this.bypass := size, bypass;
      queue, deferred, aggrLen := [], None, 0;
      aggr := new Byte[size];
    }

    /** The packet set aside, or else the next in the queue. */
    method Next() returns (p: Packet)
      requires Valid() && Waiting() != []
      modifies `queue, `deferred
      ensures Valid() && deferred.None? && PacketOk(p) && [p] + queue == old(Waiting())
    {
      if deferred.Some? {
        p := deferred.value;
        deferred := None;
      } else {
        p := queue[0];
        queue := queue[1..];
      }
    }

    /** One frame, header and padding included, at the end of the aggregate. */
    method Put(p: Packet, ghost frames: seq<seq<Byte>>)
      requires Valid() && PacketOk(p) && aggrLen <= size && aggr[..aggrLen] == Pack(frames)
      requires aggrLen + Align4(HEADER_SIZE + |p.payload|) <= size
      modifies `aggrLen, aggr
      ensures old(aggrLen) < aggrLen <= size && aggr[..aggrLen] == Pack(frames + [FrameOf(p)])
    {
      var f := FrameOf(p);
      PackAppend(frames, f);
      assert Pack(frames) + f + Zeros(Align4(|f|) - |f|) == Pack(frames) + Padded(f);
      Write(aggr, aggrLen, f);
      if Align4(|f|) > |f| {
        Write(aggr, aggrLen + |f|, Zeros(Align4(|f|) - |f|));
      }
      aggrLen := aggrLen + Align4(|f|);
    }

    /** What happens to the next packet; Halt puts it aside. */
    method TakeOne(ghost frames: seq<seq<Byte>>) returns (turn: Turn)
      requires Valid() && Waiting() != []
      requires aggrLen <= size && aggr[..aggrLen] == Pack(frames) && (aggrLen == 0 <==> frames == [])
      modifies `queue, `deferred, `aggrLen, aggr
      ensures Valid() && aggrLen <= size
      ensures turn == FirmwareTurn(size, bypass, |old(Waiting())[0].payload|, old(aggrLen))
      ensures Waiting() == if turn.Halt? then old(Waiting()) else old(Waiting())[1..]
      ensures aggr[..aggrLen] == Pack(if turn.Put? || turn.PutLast? then frames + [FrameOf(old(Waiting())[0])] else frames)
      ensures aggrLen == 0 <==> (turn.Halt? || turn.Discard?) && frames == []
    {
      ghost var q := Waiting();
      var p := Next();
      assert q[0] == p && q[1..] == queue == Waiting();
      if |p.payload| == 0 || |p.payload| + HEADER_SIZE > size {
        return Discard;
      }
      var alone := |p.payload| <= bypass;
      if aggrLen != 0 && (alone || aggrLen + Align4(|p.payload| + HEADER_SIZE) > size) {
        deferred := Some(p);
        return Halt;
      }
      Put(p, frames);
      turn := if alone then PutLast else Turn.Put;
    }

    /** One aggregate. */
    method PackOne() returns (ghost frames: seq<seq<Byte>>)
      requires Valid()
      modifies `queue, `deferred, `aggrLen, aggr
      ensures Valid() && aggrLen <= size && aggr[..aggrLen] == Pack(frames)
      ensures (frames, ItemsOf(size, bypass, Waiting()))
              == Fill(FirmwarePacks, size, ItemsOf(size, bypass, old(Waiting())), [])
    {
      aggrLen, frames := 0, [];
      ghost var all := ItemsOf(size, bypass, Waiting());
      while Waiting() != []
        invariant Valid() && aggrLen <= size && aggr[..aggrLen] == Pack(frames) && (aggrLen == 0 <==> frames == [])
        invariant Fill(FirmwarePacks, size, ItemsOf(size, bypass, Waiting()), frames) == Fill(FirmwarePacks, size, all, [])
        decreases |Waiting()|
      {
        ghost var q := Waiting();
        ItemsHead(size, bypass, q);
        FirmwareTurnIsTurn(size, bypass, ItemsOf(size, bypass, q), |q[0].payload|, frames);
        var turn := TakeOne(frames);
        if turn.Put? || turn.PutLast? {
          frames := frames + [FrameOf(q[0])];
        }
        if turn.Halt? || turn.PutLast? {
          break;
        }
      }
    }
  }

  lemma ItemsFit(size: nat, bypass: nat, ps: seq<Packet>)
    requires 0 < size <= RX_BUFFER_SIZE && size % 4 == 0 && forall i :: 0 <= i < |ps| ==> PacketOk(ps[i])
    ensures EachFits(ItemsOf(size, bypass, ps), size) && AllReadable(HostSide, ItemsOf(size, bypass, ps))
  {
    var q := ItemsOf(size, bypass, ps);
    forall i | 0 <= i < |q| && !q[i].drop.Early?
      ensures 0 < Align4(|q[i].frame|) <= size && Readable(HostSide, q[i].frame)
    {
      AlignFits(|q[i].frame|, size);
      FirmwareFrameIsReadable(ps[i]);
    }
  }

  /** The packets that are neither empty nor, with their header of 12 bytes,
      too long for an aggregate. */
  function Sendable(size: nat, ps: seq<Packet>): seq<Packet> {
    if ps == [] then []
    else (if 0 < |ps[0].payload| && |ps[0].payload| + 12 <= size then [ps[0]] else []) + Sendable(size, ps[1..])
  }

  /** What a reader of the frame finds: the header bytes around the length and
      offset, and the payload behind 12 bytes of header. */
  function PacketIn(f: seq<Byte>): Packet {
    if |f| < 12 then Packet([], [], []) else Packet(f[..4], f[8..12], f[12..])
  }

  function PacketsIn(frames: seq<seq<Byte>>): seq<Packet> {
    if frames == [] then [] else [PacketIn(frames[0])] + PacketsIn(frames[1..])
  }

  lemma {:induction false} GoodIsSendable(size: nat, bypass: nat, ps: seq<Packet>)
    requires forall i :: 0 <= i < |ps| ==> PacketOk(ps[i])
    ensures PacketsIn(Good(ItemsOf(size, bypass, ps))) == Sendable(size, ps)
  {
    if ps != [] {
      ItemsHead(size, bypass, ps);
      GoodIsSendable(size, bypass, ps[1..]);
      var f, more := FrameOf(ps[0]), Good(ItemsOf(size, bypass, ps[1..]));
      assert f[..4] == ps[0].lead && f[8..12] == ps[0].trail && f[12..] == ps[0].payload;
      assert ([f] + more)[1..] == more && [] + more == more;
    }
  }

  /** Firmware to host: any packets, any latency limit: the host reads exactly
      those that are neither empty nor too long, in order. */
  lemma FirmwareToHost(size: nat, bypass: nat, ps: seq<Packet>)
    requires 0 < size <= RX_BUFFER_SIZE && size % 4 == 0 && forall i :: 0 <= i < |ps| ==> PacketOk(ps[i])
    ensures var q := ItemsOf(size, bypass, ps);
            && EachFits(q, size)
            && PacketsIn(UnpackAll(HostSide, SendAll(FirmwarePacks, size, q), false)) == Sendable(size, ps)
  {
    ItemsFit(size, bypass, ps);
    EndToEnd(FirmwarePacks, HostSide, size, ItemsOf(size, bypass, ps), false);
    GoodIsSendable(size, bypass, ps);
  }

  predicate PacketsOk(batches: seq<seq<Packet>>) {
    forall i, k :: 0 <= i < |batches| && 0 <= k < |batches[i]| ==> PacketOk(batches[i][k])
  }

  function FirmwareBatches(size: nat, bypass: nat, batches: seq<seq<Packet>>): seq<seq<Item>>
    requires PacketsOk(batches)
  {
    seq(|batches|, i requires 0 <= i < |batches| => ItemsOf(size, bypass, batches[i]))
  }

  lemma {:induction false} FirmwareArrived(size: nat, bypass: nat, batches: seq<seq<Packet>>)
    requires PacketsOk(batches)
    ensures (forall i :: 0 <= i < |Arrived(batches)| ==> PacketOk(Arrived(batches)[i]))
    ensures Arrived(FirmwareBatches(size, bypass, batches)) == ItemsOf(size, bypass, Arrived(batches))
    decreases |batches|
  {
    if batches != [] {
      FirmwareArrived(size, bypass, batches[1..]);
      assert FirmwareBatches(size, bypass, batches)[1..] == FirmwareBatches(size, bypass, batches[1..]);
    }
  }

  /** A payload of up to bypass bytes is not held back behind others: it is the
      only one of its aggregate. */
  lemma SmallTravelsAlone(size: nat, bypass: nat, ps: seq<Packet>, i: nat)
    requires forall k :: 0 <= k < |ps| ==> PacketOk(ps[k])
    requires i < |ps| - |Fill(FirmwarePacks, size, ItemsOf(size, bypass, ps), []).1|
    requires 0 < |ps[i].payload| <= bypass && |ps[i].payload| + 12 <= size
    ensures PacketsIn(Fill(FirmwarePacks, size, ItemsOf(size, bypass, ps), []).0) == [ps[i]]
  {
    AloneIsAlone(FirmwarePacks, size, ItemsOf(size, bypass, ps), [], i);
    var f := FrameOf(ps[i]);
    assert f[..4] == ps[i].lead && f[8..12] == ps[i].trail && f[12..] == ps[i].payload;
  }

  lemma BatchesAreReadable(size: nat, bypass: nat, batches: seq<seq<Packet>>, i: nat)
    requires 0 < size <= RX_BUFFER_SIZE && size % 4 == 0 && PacketsOk(batches) && i < |batches|
    ensures AllReadable(HostSide, FirmwareBatches(size, bypass, batches)[i])
  {
    ItemsFit(size, bypass, batches[i]);
  }

  lemma FirstItems(size: nat, bypass: nat, ps: seq<Packet>, n: nat)
    requires n <= |ps| && forall i :: 0 <= i < |ps| ==> PacketOk(ps[i])
    ensures ItemsOf(size, bypass, ps)[..n] == ItemsOf(size, bypass, ps[..n])
  {
  }

  /** With packets queued between aggregates: the host has read exactly the
      sendable ones of all that were ever queued but the last, which are those
      deferred and still queued. */
  lemma FirmwareStream(size: nat, bypass: nat, batches: seq<seq<Packet>>)
    requires 0 < size <= RX_BUFFER_SIZE && size % 4 == 0 && PacketsOk(batches)
    ensures var s := SendRun(FirmwarePacks, size, [], FirmwareBatches(size, bypass, batches)); var all := Arrived(batches);
            && |s.left| <= |all|
            && PacketsIn(UnpackAll(HostSide, s.aggregates, false)) == Sendable(size, all[..|all| - |s.left|])
  {
    var items, all := FirmwareBatches(size, bypass, batches), Arrived(batches);
    forall i | 0 <= i < |items| ensures AllReadable(HostSide, items[i]) {
      BatchesAreReadable(size, bypass, batches, i);
    }
    OneQueueArrives(FirmwarePacks, HostSide, size, items, false);
    FirmwareArrived(size, bypass, batches);
    var n := |all| - |SendRun(FirmwarePacks, size, [], items).left|;
    FirstItems(size, bypass, all, n);
    GoodIsSendable(size, bypass, all[..n]);
  }

  // ---------------------------------------------------------- the host's side

  const HOST_BYPASS: nat := 256

  const HIGH: nat := 0
  const MID: nat := 1
  const LOW: nat := 2

  const HCI_IF: nat := 2
  const INTERNAL_IF: nat := 3
  const RCP_IF: nat := 5

  /** A packet in the host's queues. cmd: it is a command; stale: one that is no
      longer the current command. */
  datatype Skb = Skb(data: seq<Byte>, cmd: bool, stale: bool)

  predicate SkbOk(k: Skb) {
    |k.data| >= HEADER_SIZE
  }

  /** Which of the three queues a packet goes into. */
  function Prio(k: Skb): (p: nat)
    requires SkbOk(k)
    ensures p <= LOW
  {
    if IfType(k.data) == INTERNAL_IF then HIGH
    else if IfType(k.data) == HCI_IF || IfType(k.data) == RCP_IF then MID
    else LOW
  }

  predicate WellFormed(k: Skb)
    requires SkbOk(k)
  {
    OffsetValid(Offset(k.data)) && PayloadLen(k.data) != 0 && Offset(k.data) + PayloadLen(k.data) <= |k.data|
  }

  predicate Alone(k: Skb)
    requires SkbOk(k)
  {
    k.cmd || IfType(k.data) == RCP_IF || (Prio(k) == LOW && PayloadLen(k.data) <= HOST_BYPASS)
  }

  function HostItem(k: Skb): Item
    requires SkbOk(k)
  {
    if !WellFormed(k) then Item(k.data, Alone(k), Early, Prio(k))
    else Item(k.data[..Offset(k.data) + PayloadLen(k.data)], Alone(k), if k.cmd && k.stale then Late else Keep, Prio(k))
  }

  function HostItems(ks: seq<Skb>): (q: seq<Item>)
    requires forall i :: 0 <= i < |ks| ==> SkbOk(ks[i])
    ensures |q| == |ks| && forall i :: 0 <= i < |q| ==> q[i] == HostItem(ks[i])
  {
    seq(|ks|, i requires 0 <= i < |ks| => HostItem(ks[i]))
  }

  lemma HostItemsHead(ks: seq<Skb>)
    requires ks != [] && forall i :: 0 <= i < |ks| ==> SkbOk(ks[i])
    ensures HostItems(ks)[0] == HostItem(ks[0]) && HostItems(ks)[1..] == HostItems(ks[1..])
  {
  }

  lemma HostFrameIsReadable(k: Skb, rxBuf: nat)
    requires SkbOk(k) && WellFormed(k) && Offset(k.data) + PayloadLen(k.data) <= rxBuf
    ensures Readable(FirmwareSide(rxBuf), HostItem(k).frame)
  {
    var f := HostItem(k).frame;
    assert forall i :: 0 <= i < |f| ==> f[i] == k.data[i];
  }

  /** Each well-formed packet fits into an aggregate and into the firmware's
      receive buffer. */
  predicate SkbsFit(size: nat, rxBuf: nat, ks: seq<Skb>) {
    && (forall i :: 0 <= i < |ks| ==> SkbOk(ks[i]))
    && (forall i :: 0 <= i < |ks| && WellFormed(ks[i]) ==>
          && Align4(Offset(ks[i].data) + PayloadLen(ks[i].data)) <= size
          && Offset(ks[i].data) + PayloadLen(ks[i].data) <= rxBuf)
  }

  lemma HostItemsFit(size: nat, rxBuf: nat, ks: seq<Skb>)
    requires size > 0 && SkbsFit(size, rxBuf, ks)
    ensures EachFits(HostItems(ks), size) && AllReadable(FirmwareSide(rxBuf), HostItems(ks))
  {
    var q := HostItems(ks);
    forall i | 0 <= i < |q| && !q[i].drop.Early?
      ensures 0 < Align4(|q[i].frame|) <= size && Readable(FirmwareSide(rxBuf), q[i].frame)
    {
      HostFrameIsReadable(ks[i], rxBuf);
    }
  }

  /** The frame a packet carries, byte by byte: the offset in bytes 6 and 7, the
      length in bytes 4 and 5, low byte first; none if they do not fit, or if the
      packet is a command that is not the current one. */
  function Carried(k: Skb): seq<seq<Byte>> {
    if |k.data| < 12 then []
    else
      var offset, len := k.data[6] as int + 256 * k.data[7] as int, k.data[4] as int + 256 * k.data[5] as int;
      if 12 <= offset <= 16 && 0 < len && offset + len <= |k.data| && (!k.cmd || !k.stale) then [k.data[..offset + len]]
      else []
  }

  function AllCarried(ks: seq<Skb>): seq<seq<Byte>> {
    if ks == [] then [] else Carried(ks[0]) + AllCarried(ks[1..])
  }

  lemma {:induction false} GoodIsCarried(ks: seq<Skb>)
    requires forall i :: 0 <= i < |ks| ==> SkbOk(ks[i])
    ensures Good(HostItems(ks)) == AllCarried(ks)
  {
    if ks != [] {
      HostItemsHead(ks);
      GoodIsCarried(ks[1..]);
    }
  }

  /** Host to firmware: the firmware's walk over the block-padded writes gives
      exactly the frames that the packets carry, in order. */
  lemma HostToFirmware(size: nat, rxBuf: nat, ks: seq<Skb>)
    requires size > 0 && SkbsFit(size, rxBuf, ks)
    ensures var q := HostItems(ks);
            EachFits(q, size) && UnpackAll(FirmwareSide(rxBuf), SendAll(HostPacks, size, q), true) == AllCarried(ks)
  {
    HostItemsFit(size, rxBuf, ks);
    EndToEnd(HostPacks, FirmwareSide(rxBuf), size, HostItems(ks), true);
    GoodIsCarried(ks);
  }

  predicate SkbsOk(batches: seq<seq<Skb>>) {
    forall i, k :: 0 <= i < |batches| && 0 <= k < |batches[i]| ==> SkbOk(batches[i][k])
  }

  function HostBatches(batches: seq<seq<Skb>>): seq<seq<Item>>
    requires SkbsOk(batches)
  {
    seq(|batches|, i requires 0 <= i < |batches| => HostItems(batches[i]))
  }

  /** A command, an 802.15.4 frame, or a data frame with up to 256 bytes of
      payload is the only one of its aggregate. */
  lemma UrgentTravelsAlone(size: nat, ks: seq<Skb>, i: nat)
    requires forall k :: 0 <= k < |ks| ==> SkbOk(ks[k])
    requires i < |ks| - |Fill(HostPacks, size, HostItems(ks), []).1| && Carried(ks[i]) != []
    requires ks[i].cmd || ks[i].data[0] % 16 == 5
             || (Class(ks[i].data) == 2 && ks[i].data[4] as int + 256 * ks[i].data[5] as int <= 256)
    ensures Fill(HostPacks, size, HostItems(ks), []).0 == Carried(ks[i])
  {
    AloneIsAlone(HostPacks, size, HostItems(ks), [], i);
  }

  /** The class of a packet or frame by its first byte: 0 for commands and the
      other internal traffic, 1 for Bluetooth and 802.15.4, 2 for all else. */
  function Class(data: seq<Byte>): nat {
    if data == [] then 2
    else if data[0] % 16 == 3 then 0
    else if data[0] % 16 == 2 || data[0] % 16 == 5 then 1
    else 2
  }

  function SkbsOf(c: nat, ks: seq<Skb>): seq<Skb> {
    if ks == [] then [] else (if Class(ks[0].data) == c then [ks[0]] else []) + SkbsOf(c, ks[1..])
  }

  function FramesOf(c: nat, frames: seq<seq<Byte>>): seq<seq<Byte>> {
    if frames == [] then [] else (if Class(frames[0]) == c then [frames[0]] else []) + FramesOf(c, frames[1..])
  }

  /** Every item has the priority of the class that its frame shows. */
  predicate Classed(q: seq<Item>) {
    forall x :: x in q ==> x.prio == Class(x.frame)
  }

  lemma FramesOfFirst(c: nat, f: seq<Byte>, frames: seq<seq<Byte>>)
    ensures FramesOf(c, [f] + frames) == (if Class(f) == c then [f] else []) + FramesOf(c, frames)
  {
    assert ([f] + frames)[1..] == frames;
  }

  lemma {:induction false} FramesOfGood(c: nat, q: seq<Item>)
    requires Classed(q)
    ensures FramesOf(c, Good(q)) == Good(Of(c, q))
  {
    if q != [] {
      var x, more := q[0], q[1..];
      assert q == [x] + more && x in q;
      FramesOfGood(c, more);
      OfFirst(c, x, more);
      GoodFirst(x, more);
      GoodFirst(x, Of(c, more));
      FramesOfFirst(c, x.frame, Good(more));
      assert [] + Good(more) == Good(more) && [] + Of(c, more) == Of(c, more);
    }
  }

  lemma HostItemsAreClassed(ks: seq<Skb>)
    requires forall i :: 0 <= i < |ks| ==> SkbOk(ks[i])
    ensures Classed(HostItems(ks))
  {
  }

  lemma {:induction false} SkbsOfOk(c: nat, ks: seq<Skb>)
    requires forall i :: 0 <= i < |ks| ==> SkbOk(ks[i])
    ensures forall i :: 0 <= i < |SkbsOf(c, ks)| ==> SkbOk(SkbsOf(c, ks)[i])
  {
    if ks != [] {
      SkbsOfOk(c, ks[1..]);
    }
  }

  lemma HostItemsCons(k: Skb, ks: seq<Skb>)
    requires SkbOk(k) && forall i :: 0 <= i < |ks| ==> SkbOk(ks[i])
    ensures HostItems([k] + ks) == [HostItem(k)] + HostItems(ks)
  {
  }

  lemma {:induction false} OfHostItems(c: nat, ks: seq<Skb>)
    requires forall i :: 0 <= i < |ks| ==> SkbOk(ks[i])
    requires forall i :: 0 <= i < |SkbsOf(c, ks)| ==> SkbOk(SkbsOf(c, ks)[i])
    ensures Of(c, HostItems(ks)) == HostItems(SkbsOf(c, ks))
  {
    if ks != [] {
      HostItemsHead(ks);
      SkbsOfOk(c, ks[1..]);
      OfHostItems(c, ks[1..]);
      assert Prio(ks[0]) == Class(ks[0].data);
      if Class(ks[0].data) == c {
        HostItemsCons(ks[0], SkbsOf(c, ks[1..]));
      }
    }
  }

  lemma {:induction false} HostArrived(batches: seq<seq<Skb>>)
    requires SkbsOk(batches)
    ensures (forall i :: 0 <= i < |Arrived(batches)| ==> SkbOk(Arrived(batches)[i]))
    ensures Arrived(HostBatches(batches)) == HostItems(Arrived(batches))
    decreases |batches|
  {
    if batches != [] {
      HostArrived(batches[1..]);
      assert HostBatches(batches)[1..] == HostBatches(batches[1..]);
    }
  }

  /** The items of one class that have left are the first of all that came. */
  lemma SentOfClass(size: nat, batches: seq<seq<Skb>>, c: nat)
    requires SkbsOk(batches)
    ensures var s := SendRun(HostPacks, size, [], HostBatches(batches)); var mine := SkbsOf(c, Arrived(batches));
            && |Of(c, s.left)| <= |mine| && (forall i :: 0 <= i < |mine| ==> SkbOk(mine[i]))
            && Of(c, s.items) == HostItems(mine[..|mine| - |Of(c, s.left)|])
  {
    var s, mine := SendRun(HostPacks, size, [], HostBatches(batches)), SkbsOf(c, Arrived(batches));
    RunConserves(HostPacks, size, [], HostBatches(batches), c);
    HostArrived(batches);
    SkbsOfOk(c, Arrived(batches));
    OfHostItems(c, Arrived(batches));
    assert Of(c, s.items) + Of(c, s.left) == [] + HostItems(mine) == HostItems(mine);
    assert Of(c, s.items) == HostItems(mine)[..|Of(c, s.items)|];
    assert HostItems(mine)[..|Of(c, s.items)|] == HostItems(mine[..|Of(c, s.items)|]);
  }

  /** With packets queued between aggregates: of each class the firmware has read
      exactly the frames carried by all packets ever queued but the last, which
      are those still waiting, in order. Between classes there is no such order:
      a command overtakes data. */
  lemma HostStream(size: nat, rxBuf: nat, batches: seq<seq<Skb>>, c: nat)
    requires size > 0 && SkbsOk(batches) && forall i :: 0 <= i < |batches| ==> SkbsFit(size, rxBuf, batches[i])
    ensures var s := SendRun(HostPacks, size, [], HostBatches(batches)); var mine := SkbsOf(c, Arrived(batches));
            && |Of(c, s.left)| <= |mine|
            && FramesOf(c, UnpackAll(FirmwareSide(rxBuf), s.aggregates, true))
               == AllCarried(mine[..|mine| - |Of(c, s.left)|])
  {
    var items := HostBatches(batches);
    forall i | 0 <= i < |items| ensures AllReadable(FirmwareSide(rxBuf), items[i]) {
      HostItemsFit(size, rxBuf, batches[i]);
    }
    var s, mine := SendRun(HostPacks, size, [], items), SkbsOf(c, Arrived(batches));
    RunArrives(HostPacks, FirmwareSide(rxBuf), size, [], items, true);
    SentOfClass(size, batches, c);
    HostArrived(batches);
    HostItemsAreClassed(Arrived(batches));
    forall x | x in s.items ensures x.prio == Class(x.frame) {
      RunMembers(HostPacks, size, [], items, x);
    }
    FramesOfGood(c, s.items);
    GoodIsCarried(mine[..|mine| - |Of(c, s.left)|]);
  }

  lemma {:induction false} InsertAt(a: seq<Item>, b: seq<Item>, it: Item)
    requires (forall i :: 0 <= i < |a| ==> a[i].prio <= it.prio) && (forall i :: 0 <= i < |b| ==> b[i].prio > it.prio)
    ensures Insert(a + b, it) == a + [it] + b
  {
    if a == [] {
      assert a + b == b && a + [it] + b == [it] + b;
    } else {
      assert (a + b)[1..] == a[1..] + b;
      InsertAt(a[1..], b, it);
      assert [a[0]] + (a[1..] + [it] + b) == a + [it] + b;
    }
  }

  lemma HostItemsAppend(a: seq<Skb>, b: seq<Skb>)
    requires (forall i :: 0 <= i < |a| ==> SkbOk(a[i])) && (forall i :: 0 <= i < |b| ==> SkbOk(b[i]))
    ensures (forall i :: 0 <= i < |a + b| ==> SkbOk((a + b)[i])) && HostItems(a + b) == HostItems(a) + HostItems(b)
  {
  }

  lemma QueuedBehind(before: seq<Skb>, after: seq<Skb>, k: Skb)
    requires SkbOk(k) && (forall i :: 0 <= i < |before| ==> SkbOk(before[i]) && Prio(before[i]) <= Prio(k))
    requires forall i :: 0 <= i < |after| ==> SkbOk(after[i]) && Prio(after[i]) > Prio(k)
    ensures (forall i :: 0 <= i < |before + [k] + after| ==> SkbOk((before + [k] + after)[i]))
    ensures (forall i :: 0 <= i < |before + after| ==> SkbOk((before + after)[i]))
    ensures HostItems(before + [k] + after) == Insert(HostItems(before + after), HostItem(k))
  {
    HostItemsAppend(before, after);
    HostItemsAppend(before, [k]);
    HostItemsAppend(before + [k], after);
    assert HostItems([k]) == [HostItem(k)];
    InsertAt(HostItems(before), HostItems(after), HostItem(k));
  }

  predicate QueueOf(q: seq<Skb>, prio: nat) {
    forall i :: 0 <= i < |q| ==> SkbOk(q[i]) && Prio(q[i]) == prio
  }

  predicate QueuesOk(high: seq<Skb>, mid: seq<Skb>, low: seq<Skb>) {
    QueueOf(high, HIGH) && QueueOf(mid, MID) && QueueOf(low, LOW)
  }

  predicate Queued(was: seq<Skb>, now: seq<Skb>, k: Skb)
    requires SkbOk(k)
  {
    && (forall i :: 0 <= i < |was| ==> SkbOk(was[i])) && (forall i :: 0 <= i < |now| ==> SkbOk(now[i]))
    && HostItems(now) == Insert(HostItems(was), HostItem(k))
  }

  lemma QueuedHigh(high: seq<Skb>, mid: seq<Skb>, low: seq<Skb>, k: Skb)
    requires QueuesOk(high, mid, low) && SkbOk(k) && Prio(k) == HIGH
    ensures Queued(high + mid + low, (high + [k]) + mid + low, k)
  {
    QueuedBehind(high, mid + low, k);
    assert high + (mid + low) == high + mid + low;
    assert (high + [k]) + (mid + low) == (high + [k]) + mid + low;
  }

  lemma QueuedMid(high: seq<Skb>, mid: seq<Skb>, low: seq<Skb>, k: Skb)
    requires QueuesOk(high, mid, low) && SkbOk(k) && Prio(k) == MID
    ensures Queued(high + mid + low, high + (mid + [k]) + low, k)
  {
    QueuedBehind(high + mid, low, k);
    assert (high + mid) + [k] + low == high + (mid + [k]) + low;
  }

  lemma QueuedLow(high: seq<Skb>, mid: seq<Skb>, low: seq<Skb>, k: Skb)
    requires QueuesOk(high, mid, low) && SkbOk(k) && Prio(k) == LOW
    ensures Queued(high + mid + low, high + mid + (low + [k]), k)
  {
    QueuedBehind(high + mid + low, [], k);
    assert (high + mid + low) + [] == high + mid + low;
    assert (high + mid + low) + [k] + [] == high + mid + (low + [k]);
  }

  /** The aggregation loop of tx_process, over three queues. */
  class HostPacker {
    const size: nat
    var high: seq<Skb>
    var mid: seq<Skb>
    var low: seq<Skb>
    const aggr: array<Byte>
    var aggrLen: nat

    predicate Valid()
      reads this
    {
      && aggr.Length == size && size % 4 == 0 && (forall i :: 0 <= i < |Waiting()| ==> SkbOk(Waiting()[i]))
      && QueuesOk(high, mid, low)
    }

    /** What is queued, in the order in which it is sent. */
    function Waiting(): seq<Skb>
      reads this
    {
      high + mid + low
    }

    constructor (size: nat)
      requires size % 4 == 0
      ensures Valid() && Waiting() == [] && this.size == size && fresh(aggr)
    {
      this.size := size;
      high, mid, low, aggrLen := [], [], [], 0;
      aggr := new Byte[size];
    }

    /** The end of write_packet: a packet goes to the end of its own queue. */
    method Enqueue(k: Skb)
      requires Valid() && SkbOk(k)
      modifies `high, `mid, `low
      ensures Valid() && HostItems(Waiting()) == Insert(HostItems(old(Waiting())), HostItem(k))
    {
      if Prio(k) == HIGH {
        QueuedHigh(high, mid, low, k);
        high := high + [k];
      } else if Prio(k) == MID {
        QueuedMid(high, mid, low, k);
        mid := mid + [k];
      } else {
        QueuedLow(high, mid, low, k);
        low := low + [k];
      }
    }

    method Peek() returns (k: Skb)
      requires Waiting() != []
      ensures k == Waiting()[0]
    {
      k := if high != [] then high[0] else if mid != [] then mid[0] else low[0];
    }

    method Dequeue()
      requires Valid() && Waiting() != []
      modifies `high, `mid, `low
      ensures Valid() && Waiting() == old(Waiting())[1..]
    {
      ghost var was := Waiting();
      if high != [] {
        high := high[1..];
      } else if mid != [] {
        mid := mid[1..];
      } else {
        low := low[1..];
      }
      assert Waiting() == was[1..];
    }

    method Put(f: seq<Byte>, ghost frames: seq<seq<Byte>>)
      requires Valid() && aggrLen + Align4(|f|) <= size && f != [] && aggr[..aggrLen] == Pack(frames)
      modifies `aggrLen, aggr
      ensures old(aggrLen) < aggrLen <= size && aggr[..aggrLen] == Pack(frames + [f])
    {
      PackAppend(frames, f);
      assert Pack(frames) + f + Zeros(Align4(|f|) - |f|) == Pack(frames) + Padded(f);
      Write(aggr, aggrLen, f);
      if Align4(|f|) > |f| {
        Write(aggr, aggrLen + |f|, Zeros(Align4(|f|) - |f|));
      }
      aggrLen := aggrLen + Align4(|f|);
    }

    /** What happens to the packet at the head of the queues. */
    method TakeOne(ghost frames: seq<seq<Byte>>) returns (turn: Turn)
      requires Valid() && Waiting() != [] && aggrLen < size
      requires aggr[..aggrLen] == Pack(frames) && (aggrLen == 0 <==> frames == [])
      modifies `high, `mid, `low, `aggrLen, aggr
      ensures Valid() && aggrLen <= size
      ensures turn == TurnOf(HostPacks, size, HostItems(old(Waiting())), frames)
      ensures Waiting() == if turn.Halt? then old(Waiting()) else old(Waiting())[1..]
      ensures aggr[..aggrLen]
              == Pack(if turn.Put? || turn.PutLast? then frames + [HostItem(old(Waiting())[0]).frame] else frames)
      ensures aggrLen == 0 <==> (turn.Halt? || turn.Discard?) && frames == []
    {
      ghost var item := HostItems(Waiting())[0];
      var k := Peek();
      var offset, len := Offset(k.data), PayloadLen(k.data);
      if !OffsetValid(offset) || len == 0 || offset + len > |k.data| {
        Dequeue();
        return Discard;
      }
      var alone := k.cmd || IfType(k.data) == RCP_IF || (Prio(k) == LOW && len <= HOST_BYPASS);
      var f := k.data[..offset + len];
      assert item == HostItem(k) && item.frame == f && item.alone == alone;
      if (alone && aggrLen != 0) || aggrLen + Align4(|f|) > size {
        return Halt;
      }
      Dequeue();
      if k.cmd && k.stale {
        return Discard;
      }
      Put(f, frames);
      turn := if alone then PutLast else Turn.Put;
    }

    /** One aggregate. */
    method PackOne() returns (ghost frames: seq<seq<Byte>>)
      requires Valid()
      modifies `high, `mid, `low, `aggrLen, aggr
      ensures Valid() && aggrLen <= size && aggr[..aggrLen] == Pack(frames)
      ensures (frames, HostItems(Waiting())) == Fill(HostPacks, size, HostItems(old(Waiting())), [])
    {
      ghost var all := HostItems(Waiting());
      aggrLen, frames := 0, [];
      while aggrLen < size && Waiting() != []
        invariant Valid() && aggrLen <= size && aggr[..aggrLen] == Pack(frames) && (aggrLen == 0 <==> frames == [])
        invariant Fill(HostPacks, size, HostItems(Waiting()), frames) == Fill(HostPacks, size, all, [])
        decreases |Waiting()|
      {
        ghost var q := Waiting();
        HostItemsHead(q);
        var turn := TakeOne(frames);
        if turn.Put? || turn.PutLast? {
          frames := frames + [HostItem(q[0]).frame];
        }
        if turn.Halt? || turn.PutLast? {
          break;
        }
      }
    }
  }

  // ------------------------------------------------------------ the unpackers

  function Behind(frames: seq<seq<Byte>>, w: Unpacked): Unpacked {
    Unpacked(frames + w.frames, w.ok)
  }

  lemma WalkGoesOn(rd: Reader, b: seq<Byte>, first: bool, n: nat, frames: seq<seq<Byte>>)
    requires |b| >= HEADER_SIZE && FrameAt(rd, b) == Some(n)
    ensures Behind(frames, Walk(rd, b, first)) == Behind(frames + [b[..n]], Walk(rd, After(b, n), false))
  {
    var more := Walk(rd, After(b, n), false);
    assert PayloadLen(b) != 0;
    assert frames + ([b[..n]] + more.frames) == (frames + [b[..n]]) + more.frames;
  }

  lemma WalkStops(rd: Reader, b: seq<Byte>, first: bool, frames: seq<seq<Byte>>)
    requires |b| < HEADER_SIZE || FrameAt(rd, b).None?
    ensures Behind(frames, Walk(rd, b, first))
            == Unpacked(frames, |b| < HEADER_SIZE || (PayloadLen(b) == 0 && !first && ZeroHeader(b)))
  {
    assert frames + [] == frames;
  }

  /** The loop of read_packet, and of process_rx_pkt. */
  method WalkFrom(rd: Reader, b: seq<Byte>, first: bool) returns (frames: seq<seq<Byte>>, ok: bool)
    ensures Unpacked(frames, ok) == Walk(rd, b, first)
  {
    frames, ok := [], true;
    var left, atStart := b, first;
    while |left| >= HEADER_SIZE
      invariant Behind(frames, Walk(rd, left, atStart)) == Walk(rd, b, first)
      decreases |left|
    {
      var n := FrameAt(rd, left);
      if n.None? {
        WalkStops(rd, left, atStart, frames);
        ok := PayloadLen(left) == 0 && !atStart && ZeroHeader(left);
        return;
      }
      WalkGoesOn(rd, left, atStart, n.value, frames);
      frames := frames + [left[..n.value]];
      left, atStart := After(left, n.value), false;
    }
    WalkStops(rd, left, atStart, frames);
  }

  /** read_packet, once the aggregate is in the buffer: a runt is refused. */
  method ReadPacket(b: seq<Byte>) returns (frames: seq<seq<Byte>>, ok: bool)
    ensures |b| < HEADER_SIZE ==> frames == [] && !ok
    ensures |b| >= HEADER_SIZE ==> Unpacked(frames, ok) == Walk(HostSide, b, true)
  {
    if |b| < HEADER_SIZE {
      return [], false;
    }
    FastPathIsWalk(b);
    var n := FrameAt(HostSide, b);
    if n.None? {
      return [], false;
    }
    if Align4(n.value) >= |b| {
      return [b[..n.value]], true;
    }
    frames, ok := WalkFrom(HostSide, b, false);
  }
}
