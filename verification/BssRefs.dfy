/** The reference to the stored BSS and the helpers that move it
    (host/esp_cmd.c).

    Any number of helpers run at once. Each has a place in its code, and its
    next step is the one its code takes there; a put is a step a helper comes
    to, never one that just happens. `held` changes only where the kernel's
    count does: when a reference is taken, given by cfg80211, put, or handed
    over. A put of a reference the driver does not own is recorded as missed. */
module BssRefs {
  import opened Wire

  datatype Store = Store(bss: Option<nat>, held: multiset<nat>, missed: bool)

  /** PutCall: esp_wifi_put_bss before its section. RefCall: esp_wifi_ref_bss
      before the reference is taken; Swapping: before its section. Taking:
      esp_wifi_take_assoc_bss before its section, with the reference cfg80211
      gave. Putting: any of them, with a put left to do. Handing: an
      association frame about to be handed to cfg80211, with its BSS. */
  datatype Helper = PutCall | RefCall(b: nat) | Swapping(b: nat) | Taking(b: nat) | Putting(out: nat) | Handing(out: nat)

  datatype Refs = Refs(store: Store, running: seq<Helper>)

  datatype Turn = Turn(store: Store, next: Option<Helper>)

  function BssOf(s: Store): multiset<nat> {
    if s.bss.Some? then multiset{s.bss.value} else multiset{}
  }

  /** cfg80211_put_bss, or cfg80211 taking over the reference with a frame. */
  function PutRef(s: Store, b: nat): Store {
    if b in s.held then s.(held := s.held - multiset{b}) else s.(missed := true)
  }

  function OldOut(s: Store): Option<Helper> {
    if s.bss.Some? then Some(Putting(s.bss.value)) else None
  }

  /** The section that stores b, shared by two helpers: the BSS that was stored
      comes out, or b itself when it is stored already. */
  function StoreNew(s: Store, b: nat): Turn {
    if s.bss == Some(b) then Turn(s, Some(Putting(b))) else Turn(s.(bss := Some(b)), OldOut(s))
  }

  /** The next step of a helper. open: an association is pending or awaited. */
  function StepOf(s: Store, h: Helper, open: bool): Turn {
    match h
    case PutCall => Turn(s.(bss := None), OldOut(s))
    case RefCall(b) => Turn(s.(held := s.held + multiset{b}), Some(Swapping(b)))
    case Swapping(b) => StoreNew(s, b)
    case Taking(b) => if s.bss.None? && !open then Turn(s, Some(Putting(b))) else StoreNew(s, b)
    case Putting(out) => Turn(PutRef(s, out), None)
    case Handing(out) => Turn(PutRef(s, out), None)
  }

  function Opt(h: Option<Helper>): seq<Helper> {
    if h.Some? then [h.value] else []
  }

  /** One step of the i-th running helper. */
  function Advance(r: Refs, i: nat, open: bool): Refs {
    if i >= |r.running| then r
    else
      var t := StepOf(r.store, r.running[i], open);
      Refs(t.store, r.running[..i] + Opt(t.next) + r.running[i + 1..])
  }

  datatype Action = CallPut | CallRef(bss: nat) | Give(given: nat) | HandOver | Step(i: nat, open: bool)

  /** Give: a successful association transfers cfg80211's own reference.
      HandOver: the delivery section takes the stored BSS out. */
  function Apply(r: Refs, a: Action): Refs {
    match a
    case CallPut => r.(running := r.running + [PutCall])
    case CallRef(b) => r.(running := r.running + [RefCall(b)])
    case Give(b) => Refs(r.store.(held := r.store.held + multiset{b}), r.running + [Taking(b)])
    case HandOver =>
      Refs(r.store.(bss := None), r.running + if r.store.bss.Some? then [Handing(r.store.bss.value)] else [])
    case Step(i, open) => Advance(r, i, open)
  }

  function Run(r: Refs, actions: seq<Action>): Refs
    decreases |actions|
  {
    if actions == [] then r else Run(Apply(r, actions[0]), actions[1..])
  }

  const NONE := Refs(Store(None, multiset{}, false), [])

  // ------------------------------------------------------------- the invariant

  function One(hit: bool): nat {
    if hit then 1 else 0
  }

  /** How many references to b go with the stored BSS. */
  function Stored(s: Store, b: nat): nat {
    One(s.bss == Some(b))
  }

  /** How many references to b a helper answers for at its place in the code. */
  function Own(h: Helper, b: nat): nat {
    match h
    case PutCall => 0
    case RefCall(x) => 0
    case Swapping(x) => One(x == b)
    case Taking(x) => One(x == b)
    case Putting(x) => One(x == b)
    case Handing(x) => One(x == b)
  }

  function OwnNext(h: Option<Helper>, b: nat): nat {
    if h.Some? then Own(h.value, b) else 0
  }

  function Owned(q: seq<Helper>, b: nat): nat {
    if q == [] then 0 else Own(q[0], b) + Owned(q[1..], b)
  }

  /** Of the references to b, those of the stored BSS and n others. */
  predicate Balanced(s: Store, b: nat, n: nat) {
    s.held[b] == Stored(s, b) + n
  }

  ghost predicate Inv(r: Refs) {
    !r.store.missed && forall b: nat {:trigger r.store.held[b]} :: Balanced(r.store, b, Owned(r.running, b))
  }

  lemma {:induction false} OwnedAppend(p: seq<Helper>, q: seq<Helper>, b: nat)
    ensures Owned(p + q, b) == Owned(p, b) + Owned(q, b)
  {
    if p == [] {
      assert p + q == q;
    } else {
      assert (p + q)[1..] == p[1..] + q;
      OwnedAppend(p[1..], q, b);
    }
  }

  lemma OwnedOne(h: Helper, b: nat)
    ensures Owned([h], b) == Own(h, b)
  {
    assert Owned([h][1..], b) == 0;
  }

  lemma PutBalances(s: Store, out: nat, b: nat, n: nat)
    requires Balanced(s, b, One(out == b) + n)
    ensures Balanced(PutRef(s, out), b, n)
  {
  }

  lemma StoreNewBalances(s: Store, x: nat, b: nat, n: nat)
    requires Balanced(s, b, One(x == b) + n)
    ensures var t := StoreNew(s, x); Balanced(t.store, b, OwnNext(t.next, b) + n)
  {
  }

  /** A helper's step moves one reference at most, and answers for it: n are
      the references of the other helpers. */
  lemma StepBalances(s: Store, h: Helper, open: bool, b: nat, n: nat)
    requires Balanced(s, b, Own(h, b) + n)
    ensures var t := StepOf(s, h, open); Balanced(t.store, b, OwnNext(t.next, b) + n)
  {
    match h
    case PutCall =>
    case RefCall(x) =>
    case Swapping(x) => StoreNewBalances(s, x, b, n);
    case Taking(x) => StoreNewBalances(s, x, b, n);
    case Putting(x) => PutBalances(s, x, b, n);
    case Handing(x) => PutBalances(s, x, b, n);
  }

  /** A put is of a reference the driver owns. */
  lemma StepHits(s: Store, h: Helper, open: bool, n: nat)
    requires !s.missed && (h.Putting? || h.Handing? ==> Balanced(s, h.out, Own(h, h.out) + n))
    ensures !StepOf(s, h, open).store.missed
  {
  }

  /** The i-th of the running helpers and the rest. */
  lemma OwnedSplit(q: seq<Helper>, i: nat, mid: seq<Helper>, b: nat)
    requires i < |q|
    ensures Owned(q, b) == Own(q[i], b) + (Owned(q[..i], b) + Owned(q[i + 1..], b))
    ensures Owned(q[..i] + mid + q[i + 1..], b) == Owned(mid, b) + (Owned(q[..i], b) + Owned(q[i + 1..], b))
  {
    assert q == q[..i] + [q[i]] + q[i + 1..];
    OwnedOne(q[i], b);
    OwnedAppend(q[..i] + [q[i]], q[i + 1..], b);
    OwnedAppend(q[..i], [q[i]], b);
    OwnedAppend(q[..i] + mid, q[i + 1..], b);
    OwnedAppend(q[..i], mid, b);
  }

  lemma AdvanceBalances(r: Refs, i: nat, open: bool, b: nat)
    requires i < |r.running| && Balanced(r.store, b, Owned(r.running, b))
    ensures var t := Advance(r, i, open); Balanced(t.store, b, Owned(t.running, b))
  {
    var q, h := r.running, r.running[i];
    var next := StepOf(r.store, h, open).next;
    OwnedSplit(q, i, Opt(next), b);
    if next.Some? {
      OwnedOne(next.value, b);
    }
    StepBalances(r.store, h, open, b, Owned(q[..i], b) + Owned(q[i + 1..], b));
  }

  lemma AdvanceHits(r: Refs, i: nat, open: bool)
    requires Inv(r)
    ensures !Advance(r, i, open).store.missed
  {
    if i < |r.running| {
      var q, h := r.running, r.running[i];
      if h.Putting? || h.Handing? {
        OwnedSplit(q, i, [], h.out);
        assert Balanced(r.store, h.out, Owned(q, h.out));
        StepHits(r.store, h, open, Owned(q[..i], h.out) + Owned(q[i + 1..], h.out));
      } else {
        StepHits(r.store, h, open, 0);
      }
    }
  }

  lemma AdvanceKeeps(r: Refs, i: nat, open: bool)
    requires Inv(r)
    ensures Inv(Advance(r, i, open))
  {
    AdvanceHits(r, i, open);
    var t := Advance(r, i, open);
    forall b: nat ensures Balanced(t.store, b, Owned(t.running, b)) {
      assert Balanced(r.store, b, Owned(r.running, b));
      if i < |r.running| {
        AdvanceBalances(r, i, open, b);
      }
    }
  }

  lemma StartBalances(q: seq<Helper>, h: Helper, b: nat)
    ensures Owned(q + [h], b) == Owned(q, b) + Own(h, b)
  {
    OwnedAppend(q, [h], b);
    OwnedOne(h, b);
  }

  /** A helper is called, a reference given, or the stored one taken out. */
  lemma BeginBalances(r: Refs, a: Action, b: nat)
    requires !a.Step? && Balanced(r.store, b, Owned(r.running, b))
    ensures var t := Apply(r, a); Balanced(t.store, b, Owned(t.running, b))
  {
    match a
    case CallPut => StartBalances(r.running, PutCall, b);
    case CallRef(x) => StartBalances(r.running, RefCall(x), b);
    case Give(x) => StartBalances(r.running, Taking(x), b);
    case HandOver =>
      if r.store.bss.Some? {
        StartBalances(r.running, Handing(r.store.bss.value), b);
      } else {
        assert r.running + [] == r.running;
      }
  }

  lemma ActionKeeps(r: Refs, a: Action)
    requires Inv(r)
    ensures Inv(Apply(r, a))
  {
    if a.Step? {
      AdvanceKeeps(r, a.i, a.open);
    } else {
      var t := Apply(r, a);
      forall b: nat ensures Balanced(t.store, b, Owned(t.running, b)) {
        assert Balanced(r.store, b, Owned(r.running, b));
        BeginBalances(r, a, b);
      }
    }
  }

  lemma {:induction false} RunKeeps(r: Refs, actions: seq<Action>)
    requires Inv(r)
    ensures Inv(Run(r, actions))
    decreases |actions|
  {
    if actions != [] {
      ActionKeeps(r, actions[0]);
      RunKeeps(Apply(r, actions[0]), actions[1..]);
    }
  }

  /** With no helper running, the references held are the stored BSS's. */
  lemma AtRest(r: Refs)
    requires Inv(r) && r.running == []
    ensures r.store.held == BssOf(r.store)
  {
    forall b: nat ensures r.store.held[b] == BssOf(r.store)[b] {
      assert Balanced(r.store, b, Owned(r.running, b));
    }
  }

  lemma NoneKeeps()
    ensures Inv(NONE)
  {
    forall b: nat ensures Balanced(NONE.store, b, Owned(NONE.running, b)) {
      assert NONE.store.held == multiset{};
    }
  }

  // --------------------------------------------------------- helpers come to rest

  /** How many steps a helper still has to take, at most. */
  function Work(h: Helper): nat {
    match h
    case PutCall => 2
    case RefCall(b) => 3
    case Swapping(b) => 2
    case Taking(b) => 2
    case Putting(out) => 1
    case Handing(out) => 1
  }

  function TotalWork(q: seq<Helper>): nat {
    if q == [] then 0 else Work(q[0]) + TotalWork(q[1..])
  }

  lemma {:induction false} WorkAppend(a: seq<Helper>, b: seq<Helper>)
    ensures TotalWork(a + b) == TotalWork(a) + TotalWork(b)
  {
    if a == [] {
      assert a + b == b;
    } else {
      assert (a + b)[1..] == a[1..] + b;
      WorkAppend(a[1..], b);
    }
  }

  /** Every step brings a helper closer to its end, whoever moves in between. */
  lemma StepsEnd(r: Refs, i: nat, open: bool)
    requires i < |r.running|
    ensures TotalWork(Advance(r, i, open).running) < TotalWork(r.running)
  {
    var q, next := r.running, StepOf(r.store, r.running[i], open).next;
    assert q == q[..i] + [q[i]] + q[i + 1..];
    WorkAppend(q[..i] + [q[i]], q[i + 1..]);
    WorkAppend(q[..i], [q[i]]);
    WorkAppend(q[..i] + Opt(next), q[i + 1..]);
    WorkAppend(q[..i], Opt(next));
    assert TotalWork([q[i]]) == Work(q[i]) + TotalWork([]);
    assert next.Some? ==> TotalWork([next.value]) == Work(next.value) + TotalWork([]);
  }

  /** Main result: under every interleaving no put ever misses, and with no
      helper running the driver holds one reference to the stored BSS, or none
      at all when none is stored. */
  lemma OneReferenceAtRest(actions: seq<Action>)
    ensures var r := Run(NONE, actions);
            && !r.store.missed
            && (r.running == [] ==> r.store.held == BssOf(r.store))
  {
    NoneKeeps();
    RunKeeps(NONE, actions);
    if Run(NONE, actions).running == [] {
      AtRest(Run(NONE, actions));
    }
  }

  /** The helpers running are let finish, one step at a time. */
  function Rest(r: Refs, open: bool): Refs
    decreases TotalWork(r.running)
  {
    if r.running == [] then r
    else
      StepsEnd(r, 0, open);
      Rest(Advance(r, 0, open), open)
  }

  /** From wherever the helpers stand, they end, and the references balance. */
  lemma {:induction false} RestIsReached(r: Refs, open: bool)
    requires Inv(r)
    ensures var t := Rest(r, open); t.running == [] && !t.store.missed && t.store.held == BssOf(t.store)
    decreases TotalWork(r.running)
  {
    if r.running != [] {
      StepsEnd(r, 0, open);
      AdvanceKeeps(r, 0, open);
      RestIsReached(Advance(r, 0, open), open);
    } else {
      AtRest(r);
    }
  }

  // ------------------------------------------------------------- whole helpers

  /** A helper from its place to its end, with nothing in between. */
  function Alone(s: Store, h: Helper, open: bool): Store
    decreases Work(h)
  {
    var t := StepOf(s, h, open);
    if t.next.Some? then Alone(t.store, t.next.value, open) else t.store
  }

  /** From s to t the helper h has used up what it answers for, and the
      references of all others are as they were. */
  ghost predicate KeepsOthers(s: Store, t: Store, h: Helper) {
    forall b: nat {:trigger t.held[b]} ::
      s.held[b] >= Stored(s, b) + Own(h, b) ==> t.held[b] - Stored(t, b) == s.held[b] - Stored(s, b) - Own(h, b)
  }

  lemma {:induction false} AloneBalances(s: Store, h: Helper, open: bool, b: nat, n: nat)
    requires Balanced(s, b, Own(h, b) + n)
    ensures Balanced(Alone(s, h, open), b, n)
    decreases Work(h)
  {
    var t := StepOf(s, h, open);
    StepBalances(s, h, open, b, n);
    if t.next.Some? {
      AloneBalances(t.store, t.next.value, open, b, n);
    }
  }

  lemma AloneKeepsOthers(s: Store, h: Helper, open: bool)
    ensures KeepsOthers(s, Alone(s, h, open), h)
  {
    var t := Alone(s, h, open);
    forall b: nat | s.held[b] >= Stored(s, b) + Own(h, b)
      ensures t.held[b] - Stored(t, b) == s.held[b] - Stored(s, b) - Own(h, b)
    {
      AloneBalances(s, h, open, b, s.held[b] - Stored(s, b) - Own(h, b));
    }
  }

  lemma AlonePut(s: Store, b: nat, open: bool)
    ensures Alone(s, Putting(b), open) == PutRef(s, b)
  {
  }

  /** esp_wifi_take_assoc_bss, all four branches: with nothing stored and the
      association over, the reference is dropped; with nothing stored and the
      association open, it is kept; the same BSS drops the extra one; another
      BSS takes the place of the old one, which is put. All others keep their
      references. */
  lemma TakeAssocWhole(s: Store, b: nat, open: bool)
    requires s.held[b] > 0 && (s.bss.Some? && s.bss != Some(b) ==> s.held[s.bss.value] > 0) && !s.missed
    ensures var t := Alone(s, Taking(b), open);
            && (s.bss.None? && !open ==> t == Store(None, s.held - multiset{b}, false))
            && (s.bss.None? && open ==> t == Store(Some(b), s.held, false))
            && (s.bss == Some(b) ==> t == Store(Some(b), s.held - multiset{b}, false))
            && (s.bss.Some? && s.bss != Some(b) ==> t == Store(Some(b), s.held - multiset{s.bss.value}, false))
    ensures KeepsOthers(s, Alone(s, Taking(b), open), Taking(b))
  {
    AloneKeepsOthers(s, Taking(b), open);
    if s.bss.None? {
      if !open {
        AlonePut(s, b, open);
      }
    } else if s.bss == Some(b) {
      AlonePut(s, b, open);
    } else {
      AlonePut(s.(bss := Some(b)), s.bss.value, open);
    }
  }

  /** esp_wifi_ref_bss: b is stored, and holds one more reference unless it was
      stored already; the BSS stored before, if another, is put. */
  lemma RefBssWhole(s: Store, b: nat, open: bool)
    requires (s.bss.Some? ==> s.held[s.bss.value] > 0) && !s.missed
    ensures var t := Alone(s, RefCall(b), open);
            && t.bss == Some(b) && !t.missed
            && (s.bss.None? ==> t.held == s.held + multiset{b})
            && (s.bss == Some(b) ==> t.held == s.held)
            && (s.bss.Some? && s.bss != Some(b) ==> t.held == s.held + multiset{b} - multiset{s.bss.value})
    ensures KeepsOthers(s, Alone(s, RefCall(b), open), RefCall(b))
  {
    AloneKeepsOthers(s, RefCall(b), open);
    var mid := s.(held := s.held + multiset{b});
    assert Alone(s, RefCall(b), open) == Alone(mid, Swapping(b), open);
    if s.bss == Some(b) {
      AlonePut(mid, b, open);
      assert mid.held - multiset{b} == s.held;
    } else if s.bss.Some? {
      AlonePut(mid.(bss := Some(b)), s.bss.value, open);
    }
  }

  /** esp_wifi_put_bss */
  lemma PutBssWhole(s: Store, open: bool)
    requires (s.bss.Some? ==> s.held[s.bss.value] > 0) && !s.missed
    ensures Alone(s, PutCall, open) == Store(None, s.held - BssOf(s), false)
    ensures KeepsOthers(s, Alone(s, PutCall, open), PutCall)
  {
    AloneKeepsOthers(s, PutCall, open);
    if s.bss.Some? {
      AlonePut(s.(bss := None), s.bss.value, open);
    } else {
      assert s.held - multiset{} == s.held;
    }
  }

  /** A delivered association, with other helpers under way: the stored BSS goes
      to cfg80211, and the driver keeps no reference for it. */
  lemma HandOverWhole(r: Refs, open: bool)
    requires r.store.bss.Some? && r.store.held[r.store.bss.value] > 0 && !r.store.missed
    ensures Advance(Apply(r, HandOver), |r.running|, open)
            == Refs(Store(None, r.store.held - multiset{r.store.bss.value}, false), r.running)
  {
    var t := Apply(r, HandOver);
    assert t.running[..|r.running|] == r.running;
  }

  // ---------------------------------------------------------------- the driver

  class Holder {
    var bss: Option<nat>
    var held: multiset<nat>
    var missed: bool

    ghost function Now(): Store
      reads this
    {
      Store(bss, held, missed)
    }

    /** cfg80211_put_bss */
    method KernelPut(b: nat)
      modifies `held, `missed
      ensures Now() == PutRef(old(Now()), b)
    {
      if b in held {
        held := held - multiset{b};
      } else {
        missed := true;
      }
    }

    /** esp_wifi_put_bss */
    method PutBss()
      modifies this
      ensures Now() == Alone(old(Now()), PutCall, false)
    {
      var was := bss;
      bss := None;
      if was.Some? {
        AlonePut(Now(), was.value, false);
        KernelPut(was.value);
      }
    }

    /** esp_wifi_ref_bss */
    method RefBss(b: nat)
      modifies this
      ensures Now() == Alone(old(Now()), RefCall(b), false)
    {
      ghost var start := Now();
      held := held + multiset{b};
      ghost var mid := Now();
      assert Alone(start, RefCall(b), false) == Alone(mid, Swapping(b), false);
      StoreIt(b);
    }

    /** The section that stores b, and the put after it. */
    method StoreIt(b: nat)
      modifies this
      ensures Now() == Alone(old(Now()), Swapping(b), false)
    {
      var was := bss;
      if was == Some(b) {
        AlonePut(Now(), b, false);
        KernelPut(b);
        return;
      }
      bss := Some(b);
      if was.Some? {
        AlonePut(Now(), was.value, false);
        KernelPut(was.value);
      }
    }

    /** esp_wifi_take_assoc_bss */
    method TakeAssocBss(b: nat, open: bool)
      modifies this
      ensures Now() == Alone(old(Now()), Taking(b), open)
    {
      var was := bss;
      if was.None? {
        if open {
          bss := Some(b);
        } else {
          AlonePut(Now(), b, open);
          KernelPut(b);
        }
        return;
      }
      if was == Some(b) {
        AlonePut(Now(), b, open);
        KernelPut(b);
        return;
      }
      bss := Some(b);
      AlonePut(Now(), was.value, open);
      KernelPut(was.value);
    }
  }
}
