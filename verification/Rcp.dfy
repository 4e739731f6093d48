/** The RCP character device (host/esp_rcp.c): a byte stream per open, fenced
    by a generation, a boot nonce and its acknowledgement.

    Every action is one section under the RCP lock. The generation is
    unwrapped. An overflow asks for a firmware reset at once, and the session
    is not ready again before the next boot event. */
module Rcp {
  import opened Wire

  const RX_LIMIT: nat := 64
  const TX_LIMIT: nat := 64

  /** One open: what its owner has read, and the DATA accepted for it. */
  datatype Fd = Fd(gen: nat, closed: bool, got: seq<Byte>, log: seq<Byte>)

  datatype Dev = Dev(registered: bool, active: bool, isOpen: bool, everOpened: bool, openingFirst: bool, gen: nat)

  /** needBoot: a firmware reset was asked for and has not happened yet. capable,
      nonce: what the firmware announced, while no session was active. */
  datatype Fw = Fw(bootPending: bool, earlyOverflow: bool, needBoot: bool, ready: bool, capable: bool, nonce: nat, acked: nat)

  /** A frame taken off the queue by a reader that is still copying it. */
  datatype Hand = Empty | Holding(fd: nat, frame: seq<Byte>)

  datatype State = State(d: Dev, w: Fw, rx: seq<seq<Byte>>, early: seq<seq<Byte>>, hand: Hand, fds: seq<Fd>)

  datatype Action =
    | Boot(activeOnBoot: bool)
    | Announce(nonce: nat, capable: bool)
    | NewNonce(given: nat)
    | SetReady(up: bool)
    | Init(registers: bool)
    | Deinit(final: bool)
    | Open(sendOk: bool)
    | OpenTimeout(late: nat)
    | Ack(carried: nat)
    | Release(fd: nat, recover: bool)
    | Rx(frame: seq<Byte>)
    | Take(reader: nat)
    | CopyFails
    | Copied(count: nat)

  predicate Current(s: State, i: nat) {
    i < |s.fds| && !s.fds[i].closed && s.d.registered && s.d.isOpen && s.d.active && s.fds[i].gen == s.d.gen
  }

  /** esp_rcp_note_boot_event */
  function NoteBoot(s: State, activeOnBoot: bool): State {
    var hit := s.d.registered && s.d.active;
    State(s.d.(everOpened := false, openingFirst := false, active := s.d.active && !hit, isOpen := s.d.isOpen && !hit),
          Fw(activeOnBoot, false, false, false, s.w.capable, s.w.nonce, 0),
          if hit then [] else s.rx, [], s.hand, s.fds)
  }

  /** esp_init_rcp; registers: whether the device node can be created. */
  function InitDev(s: State, registers: bool): State {
    if !s.w.capable || s.w.nonce == 0 then s.(early := [], w := s.w.(bootPending := false, earlyOverflow := false))
    else if s.d.registered then s
    else
      var d := Dev(false, s.d.active, false, false, false, s.d.gen + 1);
      var w := s.w.(bootPending := false, earlyOverflow := false);
      if s.w.bootPending && s.w.earlyOverflow then State(d, w, [], [], s.hand, s.fds)
      else if !registers then State(d, w, [], s.early, s.hand, s.fds)
      else State(d.(registered := true, active := true), w, [], s.early, s.hand, s.fds)
  }

  /** esp_deinit_rcp */
  function DeinitDev(s: State, final: bool): State {
    var w := if final then s.w.(bootPending := false, earlyOverflow := false) else s.w;
    var early := if final then [] else s.early;
    if !s.d.registered then s.(w := w, early := early)
    else State(Dev(false, false, false, false, false, s.d.gen), w.(acked := 0), [], early, s.hand, s.fds)
  }

  /** The first section of esp_rcp_open. Early DATA is kept for the first
      open only; a marker that cannot be sent fails the open. */
  function OpenDev(s: State, sendOk: bool): State {
    if !s.d.registered || !s.d.active || !s.w.ready || !s.w.capable || s.d.isOpen then s
    else
      var first := !s.d.everOpened;
      var early := if first then s.early else [];
      var t := s.(rx := [], early := early, w := s.w.(acked := 0));
      if !sendOk || s.w.nonce == 0 then t.(d := s.d.(openingFirst := false))
      else t.(d := s.d.(isOpen := true, openingFirst := first),
              fds := s.fds + [Fd(s.d.gen, false, [], Flatten(early))])
  }

  function CloseFd(s: State, i: nat): State
    requires i < |s.fds|
  {
    s.(fds := s.fds[i := s.fds[i].(closed := true)])
  }

  /** An open whose marker is never acknowledged gives the session up, if it
      is still its own, and asks for a reset. */
  function TimeOut(s: State, i: nat): State
    requires i < |s.fds|
  {
    var mine := s.d.registered && s.d.isOpen && s.fds[i].gen == s.d.gen;
    var t := CloseFd(s, i).(w := s.w.(needBoot := true, ready := false));
    if mine then t.(d := s.d.(isOpen := false, openingFirst := false), rx := [], early := []) else t
  }

  predicate AckMatches(s: State, n: nat) {
    s.d.registered && s.d.isOpen && s.d.active && n != 0 && n == s.w.nonce && s.w.acked != n
  }

  /** esp_rcp_session_ack */
  function AckSession(s: State, n: nat): State {
    if !AckMatches(s, n) then s
    else
      s.(w := s.w.(acked := n), d := s.d.(everOpened := true, openingFirst := false),
         rx := if s.d.openingFirst then s.rx + s.early else [], early := [])
  }

  /** esp_rcp_release; the reset it asks for is skipped while unloading. */
  function ReleaseFd(s: State, i: nat, recover: bool): State
    requires i < |s.fds|
  {
    var mine := !s.fds[i].closed && s.d.registered && s.d.isOpen && s.fds[i].gen == s.d.gen;
    var t := CloseFd(s, i);
    if !mine then t
    else
      t.(d := s.d.(isOpen := false, openingFirst := false), rx := [], early := [],
         w := s.w.(acked := 0, needBoot := s.w.needBoot || recover, ready := s.w.ready && !recover))
  }

  function Log(fds: seq<Fd>, frame: seq<Byte>): seq<Fd> {
    if fds == [] then fds
    else
      var last := fds[|fds| - 1];
      fds[|fds| - 1 := last.(log := last.log + frame)]
  }

  function Reset(w: Fw): Fw {
    w.(needBoot := true, ready := false)
  }

  /** esp_rcp_rx */
  function Receive(s: State, frame: seq<Byte>): State {
    if s.w.bootPending then
      if |s.early| >= RX_LIMIT then s.(early := [], w := s.w.(earlyOverflow := true))
      else s.(early := s.early + [frame])
    else if !s.d.registered || !s.d.active || !s.w.ready || !s.d.isOpen then s
    else if s.w.acked != s.w.nonce then
      if !s.d.openingFirst then s
      else if |s.early| >= RX_LIMIT then s.(early := [], w := Reset(s.w))
      else s.(early := s.early + [frame], fds := Log(s.fds, frame))
    else if |s.rx| >= RX_LIMIT then s.(rx := [], w := Reset(s.w))
    else s.(rx := s.rx + [frame], fds := Log(s.fds, frame))
  }

  /** esp_rcp_dequeue_current; one reader at a time holds the read lock. */
  function TakeFrame(s: State, i: nat): State {
    if !s.hand.Empty? || !Current(s, i) || s.rx == [] then s
    else s.(rx := s.rx[1..], hand := Holding(i, s.rx[0]))
  }

  /** Back to the head of the queue, while the reader's session lasts. */
  function PutBack(s: State, i: nat, rest: seq<Byte>): State {
    if Current(s, i) then s.(rx := [rest] + s.rx, hand := Empty) else s.(hand := Empty)
  }

  function Min(a: nat, b: nat): nat {
    if a < b then a else b
  }

  function CopyOut(s: State, count: nat): State {
    match s.hand
    case Empty => s
    case Holding(i, frame) =>
      if i >= |s.fds| then s.(hand := Empty)
      else
        var n := Min(count, |frame|);
        var t := s.(fds := s.fds[i := s.fds[i].(got := s.fds[i].got + frame[..n])]);
        if n < |frame| then PutBack(t, i, frame[n..]) else t.(hand := Empty)
  }

  function Apply(s: State, a: Action): State {
    match a
    case Boot(activeOnBoot) => NoteBoot(s, activeOnBoot)
    case Announce(nonce, capable) => if s.d.active then s else s.(w := s.w.(nonce := nonce, capable := capable, needBoot := false, ready := false))
    case NewNonce(nonce) => if s.d.active then s else s.(w := s.w.(nonce := nonce))
    case SetReady(up) => if up && s.w.needBoot then s else s.(w := s.w.(ready := up))
    case Init(registers) => InitDev(s, registers)
    case Deinit(final) => DeinitDev(s, final)
    case Open(sendOk) => OpenDev(s, sendOk)
    case OpenTimeout(i) => if i < |s.fds| && !s.fds[i].closed then TimeOut(s, i) else s
    case Ack(n) => AckSession(s, n)
    case Release(i, recover) => if i < |s.fds| then ReleaseFd(s, i, recover) else s
    case Rx(frame) => Receive(s, frame)
    case Take(i) => TakeFrame(s, i)
    case CopyFails => if s.hand.Holding? then PutBack(s, s.hand.fd, s.hand.frame) else s
    case Copied(count) => CopyOut(s, count)
  }

  function Run(s: State, actions: seq<Action>): State
    decreases |actions|
  {
    if actions == [] then s else Run(Apply(s, actions[0]), actions[1..])
  }

  const NEW := State(Dev(false, false, false, false, false, 0), Fw(false, false, false, false, false, 0, 0), [], [], Empty, [])

  // ---------------------------------------------------------------- invariant

  /** Of the open descriptors only the last can belong to a live session, and
      it does exactly while the device is open. */
  predicate OneOwner(d: Dev, fds: seq<Fd>) {
    && (d.active ==> d.registered)
    && (d.isOpen ==> d.active && fds != [] && !fds[|fds| - 1].closed && fds[|fds| - 1].gen == d.gen)
    && (forall i :: 0 <= i < |fds| ==> fds[i].gen <= d.gen)
    && (d.active ==> forall i :: 0 <= i < |fds| && !fds[i].closed && fds[i].gen == d.gen ==> d.isOpen && i == |fds| - 1)
  }

  /** What descriptor i has read, and what its reader holds. */
  function Taken(s: State, i: nat): seq<Byte>
    requires i < |s.fds|
  {
    s.fds[i].got + if s.hand.Holding? && s.hand.fd == i then s.hand.frame else []
  }

  predicate Prefixes(s: State) {
    forall i :: 0 <= i < |s.fds| ==> Taken(s, i) <= s.fds[i].log
  }

  /** The stream of the open session: read, in hand, readable, quarantined. */
  function Stream(s: State): seq<Byte>
    requires s.fds != []
  {
    Taken(s, |s.fds| - 1) + (Flatten(s.rx) + Flatten(s.early))
  }

  predicate Streaming(s: State) {
    s.d.isOpen && s.fds != [] ==>
      var log := s.fds[|s.fds| - 1].log;
      Stream(s) <= log && (!s.w.needBoot ==> Stream(s) == log)
  }

  /** Before its ACK nothing has reached the readable queue; and a reopen has
      been given nothing at all. */
  predicate Fenced(s: State) {
    && (!s.d.isOpen ==> s.rx == [] && !s.d.openingFirst)
    && (s.w.needBoot ==> !s.w.ready)
    && (s.w.bootPending ==> !s.d.active)
    && (s.hand.Holding? ==> s.hand.fd < |s.fds|)
    && (s.d.isOpen && s.fds != [] ==>
          && s.w.nonce != 0 && s.w.capable
          && (s.d.openingFirst ==> s.w.acked != s.w.nonce)
          && (!s.d.openingFirst ==> s.early == [])
          && (s.w.acked != s.w.nonce ==> s.rx == [] && HeldByOwner(s) == 0 && s.fds[|s.fds| - 1].got == [])
          && (s.w.acked != s.w.nonce && !s.d.openingFirst ==> s.fds[|s.fds| - 1].log == []))
  }

  function HeldByOwner(s: State): nat {
    if s.hand.Holding? && s.hand.fd + 1 == |s.fds| then 1 else 0
  }

  predicate Bounded(s: State) {
    |s.early| <= RX_LIMIT && |s.rx| + HeldByOwner(s) <= RX_LIMIT + 1
  }

  predicate Inv(s: State) {
    OneOwner(s.d, s.fds) && Prefixes(s) && Streaming(s) && Fenced(s) && Bounded(s)
  }

  lemma {:induction false} FlattenAppend(a: seq<seq<Byte>>, b: seq<seq<Byte>>)
    ensures Flatten(a + b) == Flatten(a) + Flatten(b)
  {
    if a == [] {
      assert a + b == b;
    } else {
      assert (a + b)[1..] == a[1..] + b;
      FlattenAppend(a[1..], b);
    }
  }

  /** Closing the session, for whatever reason, leaves nothing to keep but what
      has been read. */
  predicate Shut(s: State, t: State) {
    && !t.d.isOpen && !t.d.openingFirst && t.rx == [] && |t.early| <= |s.early|
    && t.hand == s.hand && |t.fds| == |s.fds|
    && (forall i :: 0 <= i < |s.fds| ==> t.fds[i].got == s.fds[i].got && t.fds[i].log == s.fds[i].log && t.fds[i].gen == s.fds[i].gen)
    && (t.w.needBoot ==> !t.w.ready) && (t.w.bootPending ==> !t.d.active)
  }

  lemma ShutKeeps(s: State, t: State)
    requires Inv(s) && Shut(s, t) && OneOwner(t.d, t.fds)
    ensures Inv(t)
  {
    forall i | 0 <= i < |t.fds| ensures Taken(t, i) <= t.fds[i].log {
      assert Taken(s, i) <= s.fds[i].log;
    }
  }

  lemma BootKeeps(s: State, activeOnBoot: bool)
    requires Inv(s)
    ensures Inv(NoteBoot(s, activeOnBoot))
  {
    ShutKeeps(s, NoteBoot(s, activeOnBoot));
  }

  lemma InitKeeps(s: State, registers: bool)
    requires Inv(s)
    ensures Inv(InitDev(s, registers))
  {
    var t := InitDev(s, registers);
    if t != s {
      assert !s.d.isOpen;
      ShutKeeps(s, t);
    }
  }

  lemma DeinitKeeps(s: State, final: bool)
    requires Inv(s)
    ensures Inv(DeinitDev(s, final))
  {
    ShutKeeps(s, DeinitDev(s, final));
  }

  lemma TimeOutKeeps(s: State, i: nat)
    requires Inv(s) && i < |s.fds| && !s.fds[i].closed
    ensures Inv(TimeOut(s, i))
  {
    var t := TimeOut(s, i);
    if s.d.isOpen && s.fds[i].gen == s.d.gen {
      ShutKeeps(s, t);
    } else {
      CloseOther(s, i);
      ResetKeeps(CloseFd(s, i));
    }
  }

  /** A descriptor that is not the live session's can go at any time. */
  lemma CloseOther(s: State, i: nat)
    requires Inv(s) && i < |s.fds| && (s.d.isOpen ==> s.fds[i].closed || s.fds[i].gen != s.d.gen)
    ensures Inv(CloseFd(s, i))
  {
    var t := CloseFd(s, i);
    forall j | 0 <= j < |t.fds| ensures Taken(t, j) <= t.fds[j].log {
      assert Taken(s, j) <= s.fds[j].log && Taken(t, j) == Taken(s, j);
    }
    if s.d.isOpen {
      assert Stream(t) == Stream(s);
    }
  }

  lemma ResetKeeps(s: State)
    requires Inv(s)
    ensures Inv(s.(w := Reset(s.w)))
  {
    var t := s.(w := Reset(s.w));
    forall j | 0 <= j < |t.fds| ensures Taken(t, j) <= t.fds[j].log {
      assert Taken(s, j) <= s.fds[j].log;
    }
  }

  lemma ReleaseKeeps(s: State, i: nat, recover: bool)
    requires Inv(s) && i < |s.fds|
    ensures Inv(ReleaseFd(s, i, recover))
  {
    if !s.fds[i].closed && s.d.isOpen && s.fds[i].gen == s.d.gen {
      ShutKeeps(s, ReleaseFd(s, i, recover));
    } else {
      CloseOther(s, i);
    }
  }

  lemma OpenKeeps(s: State, sendOk: bool)
    requires Inv(s)
    ensures Inv(OpenDev(s, sendOk))
  {
    var t := OpenDev(s, sendOk);
    forall i | 0 <= i < |t.fds| ensures Taken(t, i) <= t.fds[i].log {
      assert i < |s.fds| ==> Taken(s, i) <= s.fds[i].log;
    }
    assert [] + ([] + Flatten(t.early)) == Flatten(t.early);
  }

  lemma AckKeeps(s: State, n: nat)
    requires Inv(s)
    ensures Inv(AckSession(s, n))
  {
    if AckMatches(s, n) {
      var t := AckSession(s, n);
      assert s.rx + s.early == s.early && s.rx == [];
      assert Flatten([]) + Flatten(s.early) == Flatten(s.early) == Flatten(s.early) + Flatten([]);
      forall i | 0 <= i < |t.fds| ensures Taken(t, i) <= t.fds[i].log {
        assert Taken(s, i) <= s.fds[i].log;
      }
    }
  }

  lemma LogKeepsOthers(fds: seq<Fd>, frame: seq<Byte>)
    requires fds != []
    ensures var t := Log(fds, frame); var last := |fds| - 1;
            && |t| == |fds| && t[last] == fds[last].(log := fds[last].log + frame)
            && forall i :: 0 <= i < last ==> t[i] == fds[i]
  {
  }

  /** One more frame at the end of the open session's stream. */
  lemma LiveFrame(s: State, frame: seq<Byte>)
    requires Inv(s) && s.d.isOpen && s.w.ready && s.w.acked == s.w.nonce && |s.rx| < RX_LIMIT
    ensures Inv(s.(rx := s.rx + [frame], fds := Log(s.fds, frame)))
  {
    var t, last := s.(rx := s.rx + [frame], fds := Log(s.fds, frame)), |s.fds| - 1;
    LogKeepsOthers(s.fds, frame);
    FlattenAppend(s.rx, [frame]);
    assert Flatten([frame]) == frame + Flatten([]) == frame;
    assert s.early == [];
    assert Stream(t) == Stream(s) + frame;
    TakenGrow(s, t);
  }

  lemma EarlyFrame(s: State, frame: seq<Byte>)
    requires Inv(s) && s.d.isOpen && s.w.ready && s.d.openingFirst && |s.early| < RX_LIMIT
    ensures Inv(s.(early := s.early + [frame], fds := Log(s.fds, frame)))
  {
    var t, last := s.(early := s.early + [frame], fds := Log(s.fds, frame)), |s.fds| - 1;
    LogKeepsOthers(s.fds, frame);
    FlattenAppend(s.early, [frame]);
    assert Flatten([frame]) == frame + Flatten([]) == frame;
    assert Stream(t) == Stream(s) + frame;
    TakenGrow(s, t);
  }

  /** Logs may only grow for what is taken to stay a prefix. */
  lemma TakenGrow(s: State, t: State)
    requires Prefixes(s) && |t.fds| == |s.fds| && t.hand == s.hand
    requires forall i :: 0 <= i < |s.fds| ==> t.fds[i].got == s.fds[i].got && s.fds[i].log <= t.fds[i].log
    ensures Prefixes(t)
  {
    forall i | 0 <= i < |t.fds| ensures Taken(t, i) <= t.fds[i].log {
      assert Taken(s, i) <= s.fds[i].log;
    }
  }

  /** An overflow throws the queue away; what was taken before stays good. */
  lemma Overflowed(s: State, t: State)
    requires Inv(s) && s.d.isOpen && t.w == Reset(s.w)
    requires t == s.(rx := [], w := t.w) || (t == s.(early := [], w := t.w) && s.d.openingFirst)
    ensures Inv(t)
  {
    TakenGrow(s, t);
    var last := |s.fds| - 1;
    assert Taken(t, last) <= Stream(s);
    if s.d.openingFirst {
      assert Stream(t) == Taken(t, last) + (Flatten(t.rx) + Flatten(t.early));
    } else {
      assert Stream(t) == Taken(t, last);
    }
  }

  lemma PendingFrame(s: State, t: State)
    requires Inv(s) && s.w.bootPending && |t.early| <= RX_LIMIT
    requires t == s.(early := t.early, w := t.w) && t.w == s.w.(earlyOverflow := t.w.earlyOverflow)
    ensures Inv(t)
  {
    TakenGrow(s, t);
  }

  lemma ReceiveKeeps(s: State, frame: seq<Byte>)
    requires Inv(s)
    ensures Inv(Receive(s, frame))
  {
    var t := Receive(s, frame);
    if s.w.bootPending {
      PendingFrame(s, t);
    } else if t != s {
      if s.w.acked != s.w.nonce {
        if |s.early| >= RX_LIMIT {
          Overflowed(s, t);
        } else {
          EarlyFrame(s, frame);
        }
      } else if |s.rx| >= RX_LIMIT {
        Overflowed(s, t);
      } else {
        LiveFrame(s, frame);
      }
    }
  }

  lemma TakeKeeps(s: State, i: nat)
    requires Inv(s)
    ensures Inv(TakeFrame(s, i))
  {
    var t := TakeFrame(s, i);
    if t != s {
      var last := |s.fds| - 1;
      assert i == last && s.fds[i].got + [] == s.fds[i].got;
      assert Stream(t) == Stream(s);
      forall j | 0 <= j < |t.fds| ensures Taken(t, j) <= t.fds[j].log {
        assert Taken(s, j) <= s.fds[j].log;
      }
      assert Taken(t, last) <= Stream(t);
    }
  }

  lemma GiveBackStream(s: State, n: nat)
    requires Inv(s) && s.hand.Holding? && n <= |s.hand.frame| && Current(s, s.hand.fd)
    ensures Streaming(GiveBack(s, n))
  {
    var i, frame, t := s.hand.fd, s.hand.frame, GiveBack(s, n);
    assert i == |s.fds| - 1;
    assert frame == frame[..n] + frame[n..];
    assert t.rx[1..] == s.rx;
    assert Flatten(t.rx) == frame[n..] + Flatten(s.rx);
    assert Stream(t) == Stream(s);
  }

  lemma GiveBackPrefixes(s: State, n: nat)
    requires Inv(s) && s.hand.Holding? && n <= |s.hand.frame|
    ensures Prefixes(GiveBack(s, n))
  {
    var i, frame, t := s.hand.fd, s.hand.frame, GiveBack(s, n);
    assert frame == frame[..n] + frame[n..];
    assert t.fds[i].got <= Taken(s, i);
    forall j | 0 <= j < |t.fds| ensures Taken(t, j) <= t.fds[j].log {
      assert Taken(s, j) <= s.fds[j].log;
    }
  }

  lemma GiveBackRest(s: State, n: nat)
    requires Inv(s) && s.hand.Holding? && n <= |s.hand.frame|
    ensures var t := GiveBack(s, n); OneOwner(t.d, t.fds) && Fenced(t) && Bounded(t)
  {
  }

  lemma GiveBackStreams(s: State, n: nat)
    requires Inv(s) && s.hand.Holding? && n <= |s.hand.frame|
    ensures Streaming(GiveBack(s, n))
  {
    if Current(s, s.hand.fd) {
      GiveBackStream(s, n);
    } else if s.d.isOpen {
      var t := GiveBack(s, n);
      assert s.hand.fd != |s.fds| - 1;
      assert Stream(t) == Stream(s);
    }
  }

  /** The reader gives up its frame: the rest goes back, or nowhere. */
  lemma PutBackKeeps(s: State, n: nat)
    requires Inv(s) && s.hand.Holding? && n <= |s.hand.frame|
    ensures Inv(GiveBack(s, n))
  {
    GiveBackPrefixes(s, n);
    GiveBackRest(s, n);
    GiveBackStreams(s, n);
  }

  /** n bytes of the frame in hand are the reader's, the rest is put back. */
  function GiveBack(s: State, n: nat): State
    requires s.hand.Holding? && s.hand.fd < |s.fds| && n <= |s.hand.frame|
  {
    var i, frame := s.hand.fd, s.hand.frame;
    PutBack(s.(fds := s.fds[i := s.fds[i].(got := s.fds[i].got + frame[..n])]), i, frame[n..])
  }

  lemma ConsumedKeeps(s: State, t: State)
    requires Inv(s) && s.hand.Holding?
    requires var i := s.hand.fd;
             t == s.(fds := s.fds[i := s.fds[i].(got := s.fds[i].got + s.hand.frame)], hand := Empty)
    ensures Inv(t)
  {
    forall j | 0 <= j < |t.fds| ensures Taken(t, j) <= t.fds[j].log {
      assert Taken(s, j) <= s.fds[j].log && Taken(t, j) == Taken(s, j);
    }
    if s.d.isOpen {
      assert Taken(t, |t.fds| - 1) == Taken(s, |s.fds| - 1);
      assert Stream(t) == Stream(s);
    }
  }

  lemma CopyKeeps(s: State, count: nat)
    requires Inv(s)
    ensures Inv(CopyOut(s, count))
  {
    if s.hand.Holding? {
      var n := Min(count, |s.hand.frame|);
      if n < |s.hand.frame| {
        PutBackKeeps(s, n);
      } else {
        assert s.hand.frame[..n] == s.hand.frame;
        ConsumedKeeps(s, CopyOut(s, count));
      }
    }
  }

  lemma CopyFailsKeeps(s: State)
    requires Inv(s) && s.hand.Holding?
    ensures Inv(PutBack(s, s.hand.fd, s.hand.frame))
  {
    var i, frame := s.hand.fd, s.hand.frame;
    assert frame[0..] == frame && s.fds[i].got + frame[..0] == s.fds[i].got;
    assert s.fds[i := s.fds[i]] == s.fds;
    PutBackKeeps(s, 0);
  }

  lemma FirmwareKeeps(s: State, w: Fw)
    requires Inv(s) && (s.d.active ==> w.nonce == s.w.nonce && w.capable == s.w.capable && w.needBoot == s.w.needBoot)
    requires w.bootPending == s.w.bootPending && w.acked == s.w.acked && (w.needBoot ==> !w.ready)
    ensures Inv(s.(w := w))
  {
    TakenGrow(s, s.(w := w));
    if s.d.isOpen {
      assert Stream(s.(w := w)) == Stream(s);
    }
  }

  lemma SessionKeeps(s: State, a: Action)
    requires Inv(s) && !a.Rx? && !a.Take? && !a.CopyFails? && !a.Copied?
    ensures Inv(Apply(s, a))
  {
    match a
    case Boot(activeOnBoot) => BootKeeps(s, activeOnBoot);
    case Announce(nonce, capable) => FirmwareKeeps(s, Apply(s, a).w);
    case NewNonce(nonce) => FirmwareKeeps(s, Apply(s, a).w);
    case SetReady(up) => FirmwareKeeps(s, Apply(s, a).w);
    case Init(registers) => InitKeeps(s, registers);
    case Deinit(final) => DeinitKeeps(s, final);
    case Open(sendOk) => OpenKeeps(s, sendOk);
    case OpenTimeout(i) => if i < |s.fds| && !s.fds[i].closed { TimeOutKeeps(s, i); }
    case Ack(n) => AckKeeps(s, n);
    case Release(i, recover) => if i < |s.fds| { ReleaseKeeps(s, i, recover); }
  }

  lemma StepKeeps(s: State, a: Action)
    requires Inv(s)
    ensures Inv(Apply(s, a))
  {
    match a
    case Rx(frame) => ReceiveKeeps(s, frame);
    case Take(i) => TakeKeeps(s, i);
    case CopyFails => if s.hand.Holding? { CopyFailsKeeps(s); }
    case Copied(count) => CopyKeeps(s, count);
    case _ => SessionKeeps(s, a);
  }

  lemma {:induction false} RunKeeps(s: State, actions: seq<Action>)
    requires Inv(s)
    ensures Inv(Run(s, actions))
    decreases |actions|
  {
    if actions != [] {
      StepKeeps(s, actions[0]);
      RunKeeps(Apply(s, actions[0]), actions[1..]);
    }
  }

  // -------------------------------------------------------------- main results

  /** What an opener has read, with the frame it is reading, is always a prefix
      of the DATA accepted for that open; and while no overflow has hit the
      session, nothing accepted is missing: it was read, or it can be. */
  lemma ReadsAreAPrefix(actions: seq<Action>, i: nat)
    requires i < |Run(NEW, actions).fds|
    ensures var s := Run(NEW, actions);
            && s.fds[i].got <= s.fds[i].log && Taken(s, i) <= s.fds[i].log
            && (s.d.isOpen && i == |s.fds| - 1 && !s.w.needBoot ==> Stream(s) == s.fds[i].log)
  {
    RunKeeps(NEW, actions);
    var s := Run(NEW, actions);
    assert Taken(s, i) <= s.fds[i].log;
    assert s.fds[i].got <= Taken(s, i);
  }

  /** The nonce ACK fences a session: before it nothing can be read, and a
      reopen has been given no DATA at all; early DATA of a first open waits. */
  lemma NothingBeforeAck(actions: seq<Action>)
    ensures var s := Run(NEW, actions);
            s.d.isOpen && s.w.acked != s.w.nonce ==>
              && s.fds != [] && s.rx == [] && s.fds[|s.fds| - 1].got == []
              && (!s.d.openingFirst ==> s.early == [] && s.fds[|s.fds| - 1].log == [])
  {
    RunKeeps(NEW, actions);
  }

  lemma ReadQueueBounded(actions: seq<Action>)
    ensures var s := Run(NEW, actions); |s.rx| <= RX_LIMIT + 1 && |s.early| <= RX_LIMIT
  {
    RunKeeps(NEW, actions);
  }

  /** Descriptor i is out for good: closed, or of an earlier generation, or
      its generation is over. */
  predicate Outdated(s: State, i: nat) {
    i < |s.fds| && (s.fds[i].closed || s.fds[i].gen < s.d.gen || (s.fds[i].gen == s.d.gen && !s.d.active))
  }

  /** Descriptors stay, keep their generation, and do not reopen. */
  predicate FdsGrow(f: seq<Fd>, g: seq<Fd>) {
    |f| <= |g| && forall i :: 0 <= i < |f| ==> g[i].gen == f[i].gen && (f[i].closed ==> g[i].closed)
  }

  lemma FdsOnlyGrow(s: State, a: Action)
    ensures FdsGrow(s.fds, Apply(s, a).fds)
  {
    match a
    case Rx(frame) => if s.fds != [] { LogKeepsOthers(s.fds, frame); }
    case _ =>
  }

  /** Only a registration makes the device active, and it starts a generation. */
  lemma GenerationMoves(s: State, a: Action)
    ensures var d := Apply(s, a).d; d.gen >= s.d.gen && (d.active && !s.d.active ==> d.gen > s.d.gen)
  {
  }

  lemma StaysOutdated(s: State, a: Action, i: nat)
    requires Inv(s) && Outdated(s, i)
    ensures Outdated(Apply(s, a), i)
  {
    FdsOnlyGrow(s, a);
    GenerationMoves(s, a);
  }

  lemma {:induction false} OutdatedRun(s: State, actions: seq<Action>, i: nat)
    requires Inv(s) && Outdated(s, i)
    ensures Outdated(Run(s, actions), i)
    decreases |actions|
  {
    if actions != [] {
      StepKeeps(s, actions[0]);
      StaysOutdated(s, actions[0], i);
      OutdatedRun(Apply(s, actions[0]), actions[1..], i);
    }
  }

  /** A descriptor that has lost its session never regains one, whatever is
      opened, closed, booted or registered afterwards. */
  lemma StaleNeverCurrent(before: seq<Action>, after: seq<Action>, i: nat)
    requires var s := Run(NEW, before); i < |s.fds| && !Current(s, i)
    ensures !Current(Run(Run(NEW, before), after), i)
  {
    RunKeeps(NEW, before);
    OutdatedRun(Run(NEW, before), after, i);
  }

  // ----------------------------------------------------------------- TX slots

  /** count: the atomic; granted: slots in use; rejected: increments on their
      way back. */
  datatype Slots = Slots(count: nat, granted: nat, rejected: nat)

  datatype SlotStep = Reserve | UndoReserve | Free

  /** A reservation looked at the count earlier; only its own increment decides. */
  function SlotApply(s: Slots, a: SlotStep): Slots {
    match a
    case Reserve =>
      if s.count + 1 <= TX_LIMIT then Slots(s.count + 1, s.granted + 1, s.rejected)
      else Slots(s.count + 1, s.granted, s.rejected + 1)
    case UndoReserve => if s.rejected > 0 && s.count > 0 then Slots(s.count - 1, s.granted, s.rejected - 1) else s
    case Free => if s.granted > 0 && s.count > 0 then Slots(s.count - 1, s.granted - 1, s.rejected) else s
  }

  function SlotRun(s: Slots, steps: seq<SlotStep>): Slots
    decreases |steps|
  {
    if steps == [] then s else SlotRun(SlotApply(s, steps[0]), steps[1..])
  }

  /** The count may overshoot while writers race, the slots granted never do. */
  lemma {:induction false} SlotsBounded(s: Slots, steps: seq<SlotStep>)
    requires s.count == s.granted + s.rejected && s.granted <= TX_LIMIT
    ensures var t := SlotRun(s, steps); t.count == t.granted + t.rejected && t.granted <= TX_LIMIT
    decreases |steps|
  {
    if steps != [] {
      SlotsBounded(SlotApply(s, steps[0]), steps[1..]);
    }
  }

  /** After any run a writer gets a slot exactly if fewer than 64 increments
      stand, those on their way back included; and each that is given back makes
      room for one more. */
  lemma SlotsGranted(steps: seq<SlotStep>)
    ensures var s := SlotRun(Slots(0, 0, 0), steps);
            && SlotApply(s, Reserve).granted == s.granted + (if s.granted + s.rejected < 64 then 1 else 0)
            && SlotApply(s, UndoReserve).granted == s.granted
            && SlotApply(s, UndoReserve).rejected == (if s.rejected > 0 then s.rejected - 1 else 0)
            && SlotApply(s, Free).granted == (if s.granted > 0 then s.granted - 1 else 0)
            && SlotApply(s, Free).rejected == s.rejected
  {
    SlotsBounded(Slots(0, 0, 0), steps);
  }

  // ---------------------------------------------------------------- the driver

  class RcpDevice {
    var dev: Dev
    var fw: Fw
    var rxQ: seq<seq<Byte>>
    var earlyQ: seq<seq<Byte>>
    var hand: Hand
    var fds: seq<Fd>

    ghost function Now(): State
      reads this
    {
      State(dev, fw, rxQ, earlyQ, hand, fds)
    }

    constructor ()
      ensures Now() == NEW
    {
      dev, fw := Dev(false, false, false, false, false, 0), Fw(false, false, false, false, false, 0, 0);
      rxQ, earlyQ, hand, fds := [], [], Empty, [];
    }

    /** esp_rcp_note_boot_event; true: an old session was invalidated. */
    method NoteBootEvent(activeOnBoot: bool) returns (invalidated: bool)
      modifies `dev, `fw, `rxQ, `earlyQ
      ensures Now() == Apply(old(Now()), Boot(activeOnBoot))
      ensures invalidated <==> old(dev).registered && old(dev).active
    {
      earlyQ := [];
      fw := Fw(activeOnBoot, false, false, false, fw.capable, fw.nonce, 0);
      dev := dev.(everOpened := false, openingFirst := false);
      invalidated := dev.registered && dev.active;
      if invalidated {
        dev := dev.(active := false, isOpen := false);
        rxQ := [];
      }
    }

    /** The first section of esp_rcp_open. */
    method OpenSession(sendOk: bool) returns (ok: bool)
      modifies `dev, `fw, `rxQ, `earlyQ, `fds
      ensures Now() == Apply(old(Now()), Open(sendOk))
      ensures ok ==> |fds| == |old(fds)| + 1 && Current(Now(), |old(fds)|)
    {
      ok := false;
      if !dev.registered || !dev.active || !fw.ready || !fw.capable || dev.isOpen {
        return;
      }
      rxQ := [];
      dev := dev.(openingFirst := !dev.everOpened);
      if !dev.openingFirst {
        earlyQ := [];
      }
      fw := fw.(acked := 0);
      if sendOk && fw.nonce != 0 {
        dev := dev.(isOpen := true);
        fds := fds + [Fd(dev.gen, false, [], Flatten(earlyQ))];
        ok := true;
      } else {
        dev := dev.(openingFirst := false);
      }
    }

    /** The early queue moves to the readable one, frame by frame. */
    method MoveEarly()
      modifies `rxQ, `earlyQ
      ensures rxQ == old(rxQ) + old(earlyQ) && earlyQ == []
    {
      while earlyQ != []
        invariant rxQ + earlyQ == old(rxQ) + old(earlyQ)
        decreases |earlyQ|
      {
        assert earlyQ == [earlyQ[0]] + earlyQ[1..];
        rxQ := rxQ + [earlyQ[0]];
        earlyQ := earlyQ[1..];
      }
    }

    /** esp_rcp_session_ack */
    method SessionAck(nonce: nat) returns (accepted: bool)
      modifies `dev, `fw, `rxQ, `earlyQ
      ensures Now() == Apply(old(Now()), Ack(nonce)) && accepted == AckMatches(old(Now()), nonce)
    {
      accepted := dev.registered && dev.isOpen && dev.active && nonce != 0 && nonce == fw.nonce && fw.acked != nonce;
      if accepted {
        fw := fw.(acked := nonce);
        if dev.openingFirst {
          MoveEarly();
        } else {
          rxQ, earlyQ := [], [];
        }
        dev := dev.(everOpened := true, openingFirst := false);
      }
    }

    /** esp_rcp_rx; true: the queue overflowed and a reset was asked for. */
    method RxFrame(frame: seq<Byte>) returns (overflow: bool)
      modifies `fw, `rxQ, `earlyQ, `fds
      ensures Now() == Apply(old(Now()), Rx(frame))
      ensures overflow ==> fw == Reset(old(fw))
    {
      overflow := false;
      if fw.bootPending {
        if |earlyQ| >= RX_LIMIT {
          fw, earlyQ := fw.(earlyOverflow := true), [];
        } else {
          earlyQ := earlyQ + [frame];
        }
      } else if dev.registered && dev.active && fw.ready && dev.isOpen {
        overflow := Sort(frame);
        if overflow {
          fw := Reset(fw);
        }
      }
    }

    /** DATA for an open session: quarantined, dropped, or readable. */
    method Sort(frame: seq<Byte>) returns (overflow: bool)
      requires !fw.bootPending && dev.registered && dev.active && fw.ready && dev.isOpen
      modifies `rxQ, `earlyQ, `fds
      ensures Now().(w := if overflow then Reset(fw) else fw) == Receive(old(Now()), frame)
    {
      overflow := false;
      if fw.acked != fw.nonce {
        if dev.openingFirst {
          if |earlyQ| >= RX_LIMIT {
            overflow, earlyQ := true, [];
          } else {
            earlyQ := earlyQ + [frame];
            fds := Log(fds, frame);
          }
        }
      } else if |rxQ| >= RX_LIMIT {
        overflow, rxQ := true, [];
      } else {
        rxQ := rxQ + [frame];
        fds := Log(fds, frame);
      }
    }

    /** esp_rcp_dequeue_current */
    method Dequeue(fd: nat) returns (got: bool)
      requires hand.Empty?
      modifies `rxQ, `hand
      ensures Now() == Apply(old(Now()), Take(fd)) && got == hand.Holding?
    {
      got := fd < |fds| && !fds[fd].closed && dev.registered && dev.isOpen && dev.active && fds[fd].gen == dev.gen && rxQ != [];
      if got {
        hand := Holding(fd, rxQ[0]);
        rxQ := rxQ[1..];
      }
    }

    /** esp_rcp_requeue_current */
    method Requeue(fd: nat, rest: seq<Byte>)
      modifies `rxQ, `hand
      ensures Now() == PutBack(old(Now()), fd, rest)
    {
      if fd < |fds| && !fds[fd].closed && dev.registered && dev.isOpen && dev.active && fds[fd].gen == dev.gen {
        rxQ := [rest] + rxQ;
      }
      hand := Empty;
    }

    /** The end of esp_rcp_read: up to count bytes to the user, the rest back. */
    method CopyToUser(count: nat) returns (n: nat)
      requires hand.Holding? && hand.fd < |fds|
      modifies `rxQ, `hand, `fds
      ensures Now() == Apply(old(Now()), Copied(count)) && n == Min(count, |old(hand).frame|)
    {
      var fd, frame := hand.fd, hand.frame;
      n := if count < |frame| then count else |frame|;
      fds := fds[fd := fds[fd].(got := fds[fd].got + frame[..n])];
      if n < |frame| {
        Requeue(fd, frame[n..]);
      } else {
        hand := Empty;
      }
    }
  }
}
