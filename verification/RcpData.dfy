/** What becomes of the DATA that arrives (host/esp_rcp.c): which frames an open
    session is given, in terms of the state they meet, and that they reach its
    reader. */
module RcpData {
  import opened Wire
  import opened Rcp

  /** The open session takes a frame: it is ready, and it is acknowledged with
      room in its queue, or it is the first of its boot, not yet acknowledged,
      with room in quarantine. */
  predicate Accepts(s: State) {
    && s.d.isOpen && s.w.ready
    && (if s.w.acked == s.w.nonce then |s.rx| < 64 else s.d.openingFirst && |s.early| < 64)
  }

  /** Main result: a frame is added to the session's stream and record if and
      only if the session takes it. */
  lemma AcceptedIsAppended(actions: seq<Action>, frame: seq<Byte>)
    requires Run(NEW, actions).d.isOpen
    ensures var s := Run(NEW, actions); var t := Apply(s, Rx(frame)); var last := |s.fds| - 1;
            && s.fds != [] && |t.fds| == |s.fds|
            && (Accepts(s) ==>
                  && t.fds[last].log == s.fds[last].log + frame && Stream(t) == Stream(s) + frame
                  && (if s.w.acked == s.w.nonce then t.rx == s.rx + [frame] else t.early == s.early + [frame]))
            && (!Accepts(s) ==> t.fds == s.fds && Stream(t) <= Stream(s))
  {
    RunKeeps(NEW, actions);
    var s := Run(NEW, actions);
    TakesOrNot(s, frame);
  }

  lemma TakesOrNot(s: State, frame: seq<Byte>)
    requires Inv(s) && s.d.isOpen
    ensures var t := Apply(s, Rx(frame)); var last := |s.fds| - 1;
            && |t.fds| == |s.fds|
            && (Accepts(s) ==>
                  && t.fds[last].log == s.fds[last].log + frame && Stream(t) == Stream(s) + frame
                  && (if s.w.acked == s.w.nonce then t.rx == s.rx + [frame] else t.early == s.early + [frame]))
            && (!Accepts(s) ==> t.fds == s.fds && Stream(t) <= Stream(s))
  {
    assert Flatten([frame]) == frame + Flatten([]) == frame;
    if s.w.acked == s.w.nonce {
      FlattenAppend(s.rx, [frame]);
      assert s.early == [];
      assert Taken(s, |s.fds| - 1) + (Flatten(s.rx) + frame + []) == Stream(s) + frame;
    } else {
      FlattenAppend(s.early, [frame]);
      assert Taken(s, |s.fds| - 1) + (Flatten(s.rx) + (Flatten(s.early) + frame)) == Stream(s) + frame;
    }
  }

  /** What a step gives to descriptor i: the frame, if it is the session's. */
  function Given(s: State, a: Action, i: nat): seq<Byte> {
    if a.Rx? && Accepts(s) && i + 1 == |s.fds| then a.frame else []
  }

  /** The DATA that descriptor i has been given in the course of the run. */
  function Heard(s: State, actions: seq<Action>, i: nat): seq<Byte>
    decreases |actions|
  {
    if actions == [] then [] else Given(s, actions[0], i) + Heard(Apply(s, actions[0]), actions[1..], i)
  }

  lemma LogOfFrame(s: State, frame: seq<Byte>, i: nat)
    requires Inv(s) && i < |s.fds|
    ensures var t := Apply(s, Rx(frame)); i < |t.fds| && t.fds[i].log == s.fds[i].log + Given(s, Rx(frame), i)
  {
    if s.d.isOpen {
      TakesOrNot(s, frame);
      LogKeepsOthers(s.fds, frame);
    }
  }

  lemma LogOfCopy(s: State, count: nat, i: nat)
    requires i < |s.fds|
    ensures var t := CopyOut(s, count); i < |t.fds| && t.fds[i].log == s.fds[i].log
  {
  }

  lemma LogOfOthers(s: State, a: Action, i: nat)
    requires i < |s.fds| && !a.Rx? && !a.Copied?
    ensures i < |Apply(s, a).fds| && Apply(s, a).fds[i].log == s.fds[i].log
  {
  }

  /** No other step touches a record. */
  lemma LogsStay(s: State, a: Action, i: nat)
    requires Inv(s) && i < |s.fds|
    ensures i < |Apply(s, a).fds| && Apply(s, a).fds[i].log == s.fds[i].log + Given(s, a, i)
  {
    match a
    case Rx(frame) => LogOfFrame(s, frame, i);
    case Copied(count) => LogOfCopy(s, count, i);
    case _ => LogOfOthers(s, a, i);
  }

  lemma Rejoin(a: seq<Byte>, b: seq<Byte>, c: seq<Byte>)
    ensures (a + b) + c == a + (b + c)
  {
  }

  /** Main result: a descriptor's record is what it began with and what it was
      given since, over any run. With ReadsAreAPrefix: what its owner reads is a
      prefix of that. */
  lemma {:induction false} RecordIsWhatWasHeard(s: State, actions: seq<Action>, i: nat)
    requires Inv(s) && i < |s.fds|
    ensures var t := Run(s, actions); i < |t.fds| && t.fds[i].log == s.fds[i].log + Heard(s, actions, i)
    decreases |actions|
  {
    if actions == [] {
      assert s.fds[i].log + [] == s.fds[i].log;
    } else {
      var next := Apply(s, actions[0]);
      LogsStay(s, actions[0], i);
      StepKeeps(s, actions[0]);
      RecordIsWhatWasHeard(next, actions[1..], i);
      Rejoin(s.fds[i].log, Given(s, actions[0], i), Heard(next, actions[1..], i));
    }
  }

  // -------------------------------------------------------- opening and reading

  /** A device that is up can be opened, and its opener has the session. */
  lemma OpenBinds(s: State)
    requires s.d.registered && s.d.active && s.w.ready && s.w.capable && !s.d.isOpen && s.w.nonce != 0
    ensures var t := Apply(s, Open(true));
            && |t.fds| == |s.fds| + 1 && Current(t, |s.fds|) && t.fds[|s.fds|].got == [] && t.rx == []
            && t.fds[|s.fds|].log == (if s.d.everOpened then [] else Flatten(s.early))
            && t.early == (if s.d.everOpened then [] else s.early) && t.d.openingFirst == !s.d.everOpened
  {
  }

  /** The firmware's acknowledgement lets the session's DATA through: what was
      in quarantine on a first open, nothing on a later one. */
  lemma AckLetsThrough(actions: seq<Action>)
    requires var s := Run(NEW, actions); s.d.isOpen && s.w.acked != s.w.nonce
    ensures var s := Run(NEW, actions); var t := Apply(s, Ack(s.w.nonce));
            t.w.acked == t.w.nonce && t.d.isOpen && t.rx == (if s.d.openingFirst then s.early else [])
  {
    RunKeeps(NEW, actions);
    var s := Run(NEW, actions);
    assert [] + s.early == s.early;
  }

  /** A reader with the session is given the frame at the head, as much of it as
      it asks for; the rest stays at the head. */
  lemma ReaderIsGivenTheHead(s: State, i: nat, count: nat)
    requires Current(s, i) && s.hand.Empty? && s.rx != []
    ensures var t := Apply(Apply(s, Take(i)), Copied(count)); var n := Min(count, |s.rx[0]|);
            && t.fds[i].got == s.fds[i].got + s.rx[0][..n] && t.hand.Empty?
            && t.rx == if n < |s.rx[0]| then [s.rx[0][n..]] + s.rx[1..] else s.rx[1..]
  {
  }

  /** However a session ends, by its owner's close, a missing acknowledgement,
      a boot or a removal, nobody has it any more and nothing is left to read; a
      missing acknowledgement, and a close while the driver stays, ask for a
      firmware reset. */
  lemma SessionEnds(actions: seq<Action>, i: nat, a: Action)
    requires Current(Run(NEW, actions), i)
    requires a.Boot? || a.Deinit? || (a.Release? && a.fd == i) || (a.OpenTimeout? && a.late == i)
    ensures var t := Apply(Run(NEW, actions), a);
            && !t.d.isOpen && t.rx == [] && (forall j :: 0 <= j < |t.fds| ==> !Current(t, j))
            && (a.OpenTimeout? || (a.Release? && a.recover) ==> t.w.needBoot && !t.w.ready)
  {
    RunKeeps(NEW, actions);
  }

  /** A frame that finds the queue full ends the session's stream: the queue is
      thrown away, and a firmware reset is asked for. */
  lemma OverflowAsksForReset(s: State, frame: seq<Byte>)
    requires Inv(s) && s.d.isOpen && s.w.ready && s.w.acked == s.w.nonce && |s.rx| >= 64
    ensures var t := Apply(s, Rx(frame)); t.rx == [] && t.w.needBoot && !t.w.ready && t.fds == s.fds
  {
  }

  // ---------------------------------------------------------------- after a boot

  /** Steps that neither open a session nor end the boot's reconstruction. */
  predicate Quiet(s: State, a: Action) {
    || a.Rx? || a.Announce? || a.NewNonce? || a.SetReady? || a.Take? || a.CopyFails? || a.Copied? || a == Deinit(false)
    || (a.Init? && s.w.capable && s.w.nonce != 0)
  }

  predicate QuietRun(s: State, actions: seq<Action>)
    decreases |actions|
  {
    actions == [] || (Quiet(s, actions[0]) && QuietRun(Apply(s, actions[0]), actions[1..]))
  }

  /** The frames that arrive while the boot is pending. */
  function BootData(s: State, actions: seq<Action>): seq<seq<Byte>>
    decreases |actions|
  {
    if actions == [] then []
    else
      (if actions[0].Rx? && s.w.bootPending then [actions[0].frame] else [])
      + BootData(Apply(s, actions[0]), actions[1..])
  }

  predicate Unopened(s: State) {
    !s.d.isOpen && !s.d.everOpened && !s.w.earlyOverflow
  }

  lemma QuietKeeps(s: State, a: Action)
    requires Unopened(s) && Quiet(s, a) && (a.Rx? && s.w.bootPending ==> |s.early| < 64)
    ensures var t := Apply(s, a);
            Unopened(t) && t.early == s.early + if a.Rx? && s.w.bootPending then [a.frame] else []
  {
  }

  lemma {:induction false} QuietCollects(s: State, actions: seq<Action>)
    requires Unopened(s) && QuietRun(s, actions) && |s.early| + |BootData(s, actions)| <= 64
    ensures var t := Run(s, actions); Unopened(t) && t.early == s.early + BootData(s, actions)
    decreases |actions|
  {
    if actions == [] {
      assert s.early + [] == s.early;
    } else {
      QuietKeeps(s, actions[0]);
      QuietCollects(Apply(s, actions[0]), actions[1..]);
      var now := if actions[0].Rx? && s.w.bootPending then [actions[0].frame] else [];
      assert s.early + now + BootData(Apply(s, actions[0]), actions[1..]) == s.early + BootData(s, actions);
    }
  }

  lemma FirstOpenIsGiven(s: State, data: seq<seq<Byte>>)
    requires Unopened(s) && s.early == data
    requires s.d.registered && s.d.active && s.w.ready && s.w.capable && s.w.nonce != 0
    ensures var u := Apply(s, Open(true));
            && Current(u, |s.fds|) && u.fds[|s.fds|].log == Flatten(data) && Apply(u, Ack(u.w.nonce)).rx == data
  {
    OpenBinds(s);
    assert [] + data == data;
  }

  /** Main result: what arrives after a boot event and before the device is set
      up, 64 frames at most, is not lost: the first session opened has it as its
      record, and reads it once the firmware has acknowledged. */
  lemma BootDataReachesFirstOpen(before: seq<Action>, mid: seq<Action>)
    requires var s := Apply(Run(NEW, before), Boot(true)); QuietRun(s, mid) && |BootData(s, mid)| <= 64
    requires var t := Run(Apply(Run(NEW, before), Boot(true)), mid);
             t.d.registered && t.d.active && t.w.ready && t.w.capable && t.w.nonce != 0
    ensures var s := Apply(Run(NEW, before), Boot(true)); var t := Run(s, mid); var u := Apply(t, Open(true));
            && Current(u, |t.fds|) && u.fds[|t.fds|].log == Flatten(BootData(s, mid))
            && Apply(u, Ack(u.w.nonce)).rx == BootData(s, mid)
  {
    RunKeeps(NEW, before);
    var s := Apply(Run(NEW, before), Boot(true));
    QuietCollects(s, mid);
    assert [] + BootData(s, mid) == BootData(s, mid);
    FirstOpenIsGiven(Run(s, mid), BootData(s, mid));
  }

  /** While the boot is pending nothing but frames arrives. */
  predicate OnlyFrames(actions: seq<Action>) {
    forall i :: 0 <= i < |actions| ==> actions[i].Rx?
  }

  lemma {:induction false} TooManyAreNoted(s: State, actions: seq<Action>)
    requires s.w.bootPending && OnlyFrames(actions) && |s.early| <= 64
    requires s.w.earlyOverflow || |s.early| + |actions| > 64
    ensures var t := Run(s, actions);
            && t.w.bootPending && t.w.earlyOverflow && t.d == s.d && t.fds == s.fds
            && t.w.capable == s.w.capable && t.w.nonce == s.w.nonce
    decreases |actions|
  {
    if actions != [] {
      TooManyAreNoted(Apply(s, actions[0]), actions[1..]);
    }
  }

  /** Main result: when more than 64 frames arrive between a boot event and the
      set-up, none of them is passed on: the set-up fails, there is no device to
      be opened, and nothing is left of them. */
  lemma TooManyFailTheSetUp(before: seq<Action>, frames: seq<Action>, registers: bool)
    requires OnlyFrames(frames) && |frames| > 64 && !Run(NEW, before).d.registered
    requires Run(NEW, before).w.capable && Run(NEW, before).w.nonce != 0
    ensures var t := Apply(Run(Apply(Run(NEW, before), Boot(true)), frames), Init(registers));
            !t.d.registered && t.early == [] && t.rx == [] && Apply(t, Open(true)) == t
  {
    TooManyAreNoted(Apply(Run(NEW, before), Boot(true)), frames);
  }

  // ----------------------------------------------------- the first session of a boot

  /** Has a session been acknowledged since the last boot or set-up? */
  function AckedSince(s: State, a: Action, was: bool): bool {
    match a
    case Boot(_) => false
    case Init(_) => if s.w.capable && s.w.nonce != 0 && !s.d.registered then false else was
    case Deinit(_) => if s.d.registered then false else was
    case Ack(n) => was || (s.d.isOpen && n == s.w.nonce && s.w.acked != n)
    case _ => was
  }

  function AckedInRun(s: State, actions: seq<Action>, was: bool): bool
    decreases |actions|
  {
    if actions == [] then was else AckedInRun(Apply(s, actions[0]), actions[1..], AckedSince(s, actions[0], was))
  }

  /** What the flags remember of that. */
  predicate Remembers(d: Dev, w: Fw, acked: bool) {
    && (d.everOpened <==> acked)
    && (d.isOpen && w.acked != w.nonce ==> (d.openingFirst <==> !acked))
  }

  lemma RemembersStep(s: State, a: Action, was: bool)
    requires Inv(s) && Remembers(s.d, s.w, was)
    ensures Remembers(Apply(s, a).d, Apply(s, a).w, AckedSince(s, a, was))
  {
  }

  lemma {:induction false} RemembersRun(s: State, actions: seq<Action>, was: bool)
    requires Inv(s) && Remembers(s.d, s.w, was)
    ensures Remembers(Run(s, actions).d, Run(s, actions).w, AckedInRun(s, actions, was))
    decreases |actions|
  {
    if actions != [] {
      RemembersStep(s, actions[0], was);
      StepKeeps(s, actions[0]);
      RemembersRun(Apply(s, actions[0]), actions[1..], AckedSince(s, actions[0], was));
    }
  }

  /** Main result: before its acknowledgement a session has nothing to read, and
      its DATA is kept in quarantine if and only if no session of this boot was
      acknowledged before it. */
  lemma QuarantineIsForTheFirst(actions: seq<Action>)
    ensures var s := Run(NEW, actions); var acked := AckedInRun(NEW, actions, false);
            s.d.isOpen && s.w.acked != s.w.nonce ==>
              && s.fds != [] && s.rx == [] && s.fds[|s.fds| - 1].got == [] && (s.d.openingFirst <==> !acked)
              && (acked ==> s.early == [] && s.fds[|s.fds| - 1].log == [])
  {
    NothingBeforeAck(actions);
    RunKeeps(NEW, actions);
    RemembersRun(NEW, actions, false);
  }
}
