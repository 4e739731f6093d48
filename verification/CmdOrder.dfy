/** The order in which commands go out (host/esp_cmd.c), and the way of a
    response back to its caller.

    A command is normal or of high priority. What the pending list holds is
    seen here as the list of the commands' ids, and every critical section as
    one of a few moves of that list and of the record of submissions. */
module CmdOrder {
  import opened Wire
  import opened CmdEngine

  /** The id of the command that node n carries. */
  function IdOf(s: State, n: nat): nat {
    if n < |s.nodes| then s.nodes[n].id else 0
  }

  /** The commands on the pending list, first to go out first. */
  function PendingIds(s: State): (ids: seq<nat>)
    ensures |ids| == |s.pending| && forall i :: 0 <= i < |ids| ==> ids[i] == IdOf(s, s.pending[i])
  {
    seq(|s.pending|, i requires 0 <= i < |s.pending| => IdOf(s, s.pending[i]))
  }

  /** A command that has been numbered and can no longer be handed over. */
  predicate HandedOver(s: State, id: nat) {
    id <= s.issued && forall n :: 0 <= n < |s.nodes| && s.nodes[n].phase.Prepared? ==> s.nodes[n].id != id
  }

  /** The step hands over the command that node n carries. */
  predicate HandsOver(s: State, a: Action, high: bool) {
    a.Enqueue? && a.n < |s.nodes| && s.nodes[a.n].phase.Prepared? && a.admitted && a.high == high
  }

  // ------------------------------------------------------------------ the moves

  datatype Move = Stay | Clear | Leave(id: nat) | Go | Head(id: nat) | Tail(id: nat)

  function Moved(ids: seq<nat>, m: Move): seq<nat> {
    match m
    case Stay => ids
    case Clear => []
    case Leave(id) => Without(ids, id)
    case Go => if ids == [] then [] else ids[1..]
    case Head(id) => [id] + ids
    case Tail(id) => ids + [id]
  }

  function Sent(ids: seq<nat>, sent: seq<nat>, m: Move): seq<nat> {
    if m.Go? && ids != [] then sent + [ids[0]] else sent
  }

  /** Which move a step makes. */
  function MoveOf(s: State, a: Action): Move {
    match a
    case Setup => if s.tearing || (s.pool && s.inUse != 0) then Stay else Clear
    case AbortWaiters => Clear
    case Enqueue(n, high, admitted, waits) =>
      if HandsOver(s, a, true) then Head(s.nodes[n].id)
      else if HandsOver(s, a, false) then Tail(s.nodes[n].id)
      else Stay
    case Work(gate, admitted, sendOk) =>
      if !s.initDone || !gate || s.cur.Some? || s.pending == [] || s.pending[0] >= |s.nodes| then Stay
      else if admitted then Go else Leave(s.nodes[s.pending[0]].id)
    case WaitEnds(n) => if n < |s.nodes| && s.nodes[n].inPending then Leave(s.nodes[n].id) else Stay
    case _ => Stay
  }

  predicate Makes(s: State, t: State, m: Move) {
    PendingIds(t) == Moved(PendingIds(s), m) && t.submitted == Sent(PendingIds(s), s.submitted, m)
  }

  /** A node is not on the list twice, and no two nodes carry one command. */
  predicate Tidy(s: State) {
    Distinct(s.pending) && Distinct(PendingIds(s)) && forall i :: 0 <= i < |s.pending| ==> s.pending[i] < |s.nodes|
  }

  lemma IsTidy(s: State)
    requires Inv(s)
    ensures Tidy(s)
  {
    var ids := PendingIds(s);
    forall i, j | 0 <= i < j < |ids| ensures ids[i] != ids[j] {
      var m, n := s.pending[i], s.pending[j];
      assert m in s.pending && n in s.pending && Placed(s, m) && Placed(s, n);
    }
  }

  lemma {:induction false} WithoutAbsent(q: seq<nat>, n: nat)
    requires n !in q
    ensures Without(q, n) == q
  {
    if q != [] {
      WithoutAbsent(q[1..], n);
      assert q == [q[0]] + q[1..];
    }
  }

  /** Taking a node off a list takes its id off the list of ids. */
  lemma {:induction false} IdsWithout(ids: seq<nat>, q: seq<nat>, k: nat)
    requires Distinct(q) && Distinct(ids) && |ids| == |q| && k < |q|
    ensures Without(q, q[k]) == q[..k] + q[k + 1..] && Without(ids, ids[k]) == ids[..k] + ids[k + 1..]
    decreases |q|
  {
    if k == 0 {
      WithoutAbsent(q[1..], q[0]);
      WithoutAbsent(ids[1..], ids[0]);
    } else {
      assert q[1..][k - 1] == q[k] && ids[1..][k - 1] == ids[k];
      IdsWithout(ids[1..], q[1..], k - 1);
      assert [q[0]] + (q[1..][..k - 1] + q[1..][k..]) == q[..k] + q[k + 1..];
      assert [ids[0]] + (ids[1..][..k - 1] + ids[1..][k..]) == ids[..k] + ids[k + 1..];
    }
  }

  /** A step that leaves the list and the ids of its nodes alone. */
  lemma Stays(s: State, t: State)
    requires t.pending == s.pending && t.submitted == s.submitted
    requires forall n :: n in s.pending ==> IdOf(t, n) == IdOf(s, n)
    ensures Makes(s, t, Stay)
  {
    assert PendingIds(t) == PendingIds(s);
  }

  predicate SameIds(s: State, t: State) {
    |t.nodes| == |s.nodes| && forall n :: 0 <= n < |s.nodes| ==> t.nodes[n].id == s.nodes[n].id
  }

  lemma IdsCut(s: State, t: State, k: nat)
    requires k < |s.pending| && t.pending == s.pending[..k] + s.pending[k + 1..] && SameIds(s, t)
    ensures PendingIds(t) == PendingIds(s)[..k] + PendingIds(s)[k + 1..]
  {
  }

  /** A step that takes node n off the list. */
  lemma Leaves(s: State, t: State, n: nat)
    requires Tidy(s) && n in s.pending && t.pending == Without(s.pending, n) && SameIds(s, t)
    ensures PendingIds(t) == Without(PendingIds(s), IdOf(s, n))
    ensures n == s.pending[0] ==> PendingIds(t) == PendingIds(s)[1..]
  {
    var k :| 0 <= k < |s.pending| && s.pending[k] == n;
    IdsWithout(PendingIds(s), s.pending, k);
    IdsCut(s, t, k);
    if n == s.pending[0] {
      assert k == 0;
      assert PendingIds(s)[..0] + PendingIds(s)[1..] == PendingIds(s)[1..];
    }
  }

  lemma {:induction false} RetireAllSubmits(s: State)
    requires forall i :: 0 <= i < |s.pending| ==> s.pending[i] < |s.nodes|
    ensures RetireAll(s).submitted == s.submitted && RetireAll(s).pending == []
    decreases |s.pending|
  {
    if s.pending != [] {
      WithoutShorter(s.pending, s.pending[0]);
      WithoutBelow(s.pending, s.pending[0], |s.nodes|);
      RetireAllSubmits(Retire(s, s.pending[0], ShutDown));
    }
  }

  lemma AbortMoves(s: State)
    requires Tidy(s)
    ensures Makes(s, Apply(s, AbortWaiters), Clear)
  {
    RetireAllSubmits(AbortCur(s));
    assert PendingIds(Apply(s, AbortWaiters)) == [];
  }

  /** A command joins the list, at either end. */
  lemma Joins(s: State, t: State, n: nat, high: bool)
    requires n !in s.pending && t.pending == if high then [n] + s.pending else s.pending + [n]
    requires t.submitted == s.submitted && SameIds(s, t)
    ensures Makes(s, t, if high then Head(IdOf(s, n)) else Tail(IdOf(s, n)))
  {
    if high {
      assert PendingIds(t) == [IdOf(s, n)] + PendingIds(s);
    } else {
      assert PendingIds(t) == PendingIds(s) + [IdOf(s, n)];
    }
  }

  lemma RefusedMoves(s: State, n: nat, high: bool, waits: bool)
    requires n < |s.nodes|
    ensures Makes(s, EnqueueNode(s, n, high, false, waits), Stay)
  {
    Stays(s, EnqueueNode(s, n, high, false, waits));
  }

  lemma EnqueueMoves(s: State, n: nat, high: bool, admitted: bool, waits: bool)
    requires n < |s.nodes| && (s.nodes[n].phase.Prepared? ==> n !in s.pending)
    ensures var a := Enqueue(n, high, admitted, waits); Makes(s, EnqueueNode(s, n, high, admitted, waits), MoveOf(s, a))
  {
    if !s.nodes[n].phase.Prepared? {
      Stays(s, s);
    } else if admitted {
      Joins(s, EnqueueNode(s, n, high, true, waits), n, high);
    } else {
      RefusedMoves(s, n, high, waits);
    }
  }

  lemma WorkMoves(s: State, gate: bool, admitted: bool, sendOk: bool)
    requires Tidy(s) && (s.pending != [] ==> s.nodes[s.pending[0]].skb && s.nodes[s.pending[0]].code != 0)
    ensures var a := Work(gate, admitted, sendOk); Makes(s, Apply(s, a), MoveOf(s, a))
  {
    var t := WorkOnce(s, gate, admitted, sendOk);
    if s.initDone && gate && s.cur.None? && s.pending != [] {
      Leaves(s, t, s.pending[0]);
    } else {
      Stays(s, t);
    }
  }

  lemma WaitEndsMoves(s: State, n: nat)
    requires Tidy(s) && n < |s.nodes| && (s.nodes[n].inPending <==> n in s.pending)
    requires s.nodes[n].inPending ==> s.nodes[n].phase.Waiting? && !s.nodes[n].completed
    ensures Makes(s, EndWait(s, n), MoveOf(s, WaitEnds(n)))
  {
    if s.nodes[n].inPending {
      Leaves(s, EndWait(s, n), n);
    } else {
      Stays(s, EndWait(s, n));
    }
  }

  lemma FinishMoves(s: State, n: nat)
    requires n < |s.nodes| && !s.nodes[n].inPending
    ensures Makes(s, FinishNode(s, n), Stay)
  {
    if s.nodes[n].phase.Woken? || s.nodes[n].phase.Guarded? {
      FinishIs(s, n);
    }
    Stays(s, FinishNode(s, n));
  }

  /** The steps of a caller that is not, or no longer, on the list. */
  lemma OffListMoves(s: State, a: Action)
    requires (a.Prepare? || a.Drop? || a.Reset? || a.Release?) && a.n < |s.nodes|
    requires !s.nodes[a.n].inPending && a.n !in s.pending
    ensures Makes(s, Apply(s, a), Stay)
  {
    Stays(s, Apply(s, a));
  }

  lemma OtherMoves(s: State, a: Action)
    requires a.TeardownBegin? || a.TeardownEnd? || a.Take? || a.Response? || a.LinkFailure? || a.Decrement?
    requires s.free != [] ==> s.free[0] !in s.pending
    ensures Makes(s, Apply(s, a), Stay)
  {
    Stays(s, Apply(s, a));
  }

  lemma SetupMoves(s: State)
    ensures Makes(s, Apply(s, Setup), MoveOf(s, Setup))
  {
    if Apply(s, Setup) == s {
      Stays(s, s);
    }
    if !(s.tearing || (s.pool && s.inUse != 0)) {
      assert PendingIds(Apply(s, Setup)) == [];
    }
  }

  /** What the invariant says about one node and the list. */
  lemma NodeFacts(s: State, n: nat)
    requires Inv(s) && n < |s.nodes|
    ensures (s.nodes[n].inPending <==> n in s.pending) && (n in s.free <==> s.nodes[n].phase.Free?)
    ensures n in s.pending ==>
              s.nodes[n].phase.Waiting? && !s.nodes[n].completed && s.nodes[n].skb && s.nodes[n].code != 0
  {
    assert Placed(s, n) && Attended(s, n);
  }

  lemma HolderMoves(s: State, a: Action)
    requires Inv(s) && (a.Enqueue? || a.WaitEnds? || a.Prepare? || a.Drop? || a.Finish? || a.Reset? || a.Release?)
    ensures Makes(s, Apply(s, a), MoveOf(s, a))
  {
    IsTidy(s);
    if a.n >= |s.nodes| {
      Stays(s, s);
      return;
    }
    NodeFacts(s, a.n);
    if a.Enqueue? {
      EnqueueMoves(s, a.n, a.high, a.admitted, a.waits);
    } else if a.WaitEnds? {
      WaitEndsMoves(s, a.n);
    } else if s.nodes[a.n].phase.Waiting? {
      Stays(s, s);
    } else if a.Finish? {
      FinishMoves(s, a.n);
    } else {
      OffListMoves(s, a);
    }
  }

  lemma FrontFacts(s: State)
    requires Inv(s)
    ensures s.free != [] ==> s.free[0] !in s.pending
    ensures s.pending != [] ==>
              s.pending[0] < |s.nodes| && s.nodes[s.pending[0]].skb && s.nodes[s.pending[0]].code != 0
  {
    if s.free != [] {
      assert s.free[0] in s.free;
      NodeFacts(s, s.free[0]);
    }
    if s.pending != [] {
      assert s.pending[0] in s.pending;
      NodeFacts(s, s.pending[0]);
    }
  }

  lemma StepMoves(s: State, a: Action)
    requires Inv(s)
    ensures Makes(s, Apply(s, a), MoveOf(s, a))
  {
    IsTidy(s);
    FrontFacts(s);
    match a
    case Setup => SetupMoves(s);
    case AbortWaiters => AbortMoves(s);
    case Work(gate, admitted, sendOk) => WorkMoves(s, gate, admitted, sendOk);
    case TeardownBegin => OtherMoves(s, a);
    case TeardownEnd => OtherMoves(s, a);
    case Take(admitted, skbOk) => OtherMoves(s, a);
    case Response(code, seqNum) => OtherMoves(s, a);
    case LinkFailure(code, seqNum) => OtherMoves(s, a);
    case Decrement => OtherMoves(s, a);
    case _ => HolderMoves(s, a);
  }

  // ------------------------------------------------------------------ the order

  lemma {:induction false} RetireAllNodes(s: State)
    ensures RetireAll(s).issued == s.issued
    ensures forall n :: 0 <= n < |s.nodes| ==>
              RetireAll(s).nodes[n].phase == s.nodes[n].phase && RetireAll(s).nodes[n].id == s.nodes[n].id
    decreases |s.pending|
  {
    if s.pending != [] && s.pending[0] < |s.nodes| {
      WithoutShorter(s.pending, s.pending[0]);
      RetireAllNodes(Retire(s, s.pending[0], ShutDown));
    }
  }

  /** No node becomes prepared but by being numbered. */
  predicate NoneNumbered(s: State, t: State) {
    && t.issued >= s.issued && |t.nodes| == |s.nodes|
    && forall n :: 0 <= n < |s.nodes| && t.nodes[n].phase.Prepared? ==>
         s.nodes[n].phase.Prepared? && t.nodes[n].id == s.nodes[n].id
  }

  lemma EnqueueNumbers(s: State, n: nat, high: bool, admitted: bool, waits: bool)
    requires n < |s.nodes|
    ensures NoneNumbered(s, EnqueueNode(s, n, high, admitted, waits))
  {
  }

  lemma EndWaitNumbers(s: State, n: nat)
    requires n < |s.nodes|
    ensures NoneNumbered(s, EndWait(s, n))
  {
  }

  lemma FinishNumbers(s: State, n: nat)
    requires n < |s.nodes|
    ensures NoneNumbered(s, FinishNode(s, n))
  {
  }

  lemma WorkNumbers(s: State, gate: bool, admitted: bool, sendOk: bool)
    ensures NoneNumbered(s, WorkOnce(s, gate, admitted, sendOk))
  {
  }

  lemma OtherNumbers(s: State, a: Action)
    requires !a.Enqueue? && !a.WaitEnds? && !a.Finish? && !a.Work? && !a.Prepare? && !a.AbortWaiters? && !a.Setup?
    ensures NoneNumbered(s, Apply(s, a))
  {
  }

  /** A command once numbered is not numbered again, and once handed over not
      handed over again. */
  lemma HandedOverStays(s: State, a: Action, id: nat)
    requires HandedOver(s, id)
    ensures HandedOver(Apply(s, a), id)
  {
    if a.Prepare? || a.Setup? {
      return;
    }
    assert NoneNumbered(s, Apply(s, a)) by {
      if a.AbortWaiters? {
        RetireAllNodes(AbortCur(s));
      } else if a.Work? {
        WorkNumbers(s, a.gate, a.admitted, a.sendOk);
      } else if a.Enqueue? {
        if a.n < |s.nodes| { EnqueueNumbers(s, a.n, a.high, a.admitted, a.waits); }
      } else if a.WaitEnds? {
        if a.n < |s.nodes| { EndWaitNumbers(s, a.n); }
      } else if a.Finish? {
        if a.n < |s.nodes| { FinishNumbers(s, a.n); }
      } else {
        OtherNumbers(s, a);
      }
    }
  }

  /** a goes before b: not behind it on the list, not waiting once it has been
      submitted, and not submitted after it. */
  predicate Leads(ids: seq<nat>, sent: seq<nat>, a: nat, b: nat) {
    && (forall i, j :: 0 <= i < |ids| && 0 <= j < |ids| && ids[i] == a && ids[j] == b ==> i < j)
    && (b in sent ==> a !in ids)
    && (forall i, j :: 0 <= i < |sent| && 0 <= j < |sent| && sent[i] == a && sent[j] == b ==> i < j)
  }

  lemma LeadsWithout(ids: seq<nat>, sent: seq<nat>, a: nat, b: nat, id: nat)
    requires Leads(ids, sent, a, b) && Distinct(ids)
    ensures Leads(Without(ids, id), sent, a, b)
  {
    WithoutMembers(ids, id);
    if id in ids {
      var k :| 0 <= k < |ids| && ids[k] == id;
      IdsWithout(ids, ids, k);
      assert Without(ids, id) == ids[..k] + ids[k + 1..];
    } else {
      WithoutAbsent(ids, id);
    }
  }

  lemma LeadsGo(ids: seq<nat>, sent: seq<nat>, a: nat, b: nat)
    requires Leads(ids, sent, a, b) && Distinct(ids) && ids != [] && a != b
    ensures Leads(ids[1..], sent + [ids[0]], a, b)
  {
    assert ids[0] == b ==> a !in ids;
  }

  /** No move but the hand-over of one of the two can upset the order. */
  lemma LeadsMoves(ids: seq<nat>, sent: seq<nat>, a: nat, b: nat, m: Move)
    requires Leads(ids, sent, a, b) && Distinct(ids) && a != b
    requires m.Head? || m.Tail? ==> m.id != a && m.id != b
    ensures Leads(Moved(ids, m), Sent(ids, sent, m), a, b)
  {
    match m
    case Leave(id) => LeadsWithout(ids, sent, a, b, id);
    case Go => if ids != [] { LeadsGo(ids, sent, a, b); }
    case _ =>
  }

  lemma {:induction false} LeadsRun(s: State, actions: seq<Action>, a: nat, b: nat)
    requires Inv(s) && HandedOver(s, a) && HandedOver(s, b) && a != b && Leads(PendingIds(s), s.submitted, a, b)
    ensures var t := Run(s, actions); Leads(PendingIds(t), t.submitted, a, b)
    decreases |actions|
  {
    if actions != [] {
      IsTidy(s);
      StepMoves(s, actions[0]);
      LeadsMoves(PendingIds(s), s.submitted, a, b, MoveOf(s, actions[0]));
      StepKeeps(s, actions[0]);
      HandedOverStays(s, actions[0], a);
      HandedOverStays(s, actions[0], b);
      LeadsRun(Apply(s, actions[0]), actions[1..], a, b);
    }
  }

  lemma {:induction false} HandedOverRun(s: State, actions: seq<Action>, id: nat)
    requires HandedOver(s, id)
    ensures HandedOver(Run(s, actions), id)
    decreases |actions|
  {
    if actions != [] {
      HandedOverStays(s, actions[0], id);
      HandedOverRun(Apply(s, actions[0]), actions[1..], id);
    }
  }

  /** What is known of a command at the moment it is handed over. */
  lemma JustHandedOver(s: State, a: Action, high: bool)
    requires Inv(s) && HandsOver(s, a, high)
    ensures var id := s.nodes[a.n].id; var t := Apply(s, a);
            && Inv(t) && HandedOver(t, id) && 1 <= id <= s.issued
            && id !in PendingIds(s) && id !in s.submitted && t.submitted == s.submitted
            && PendingIds(t) == if high then [id] + PendingIds(s) else PendingIds(s) + [id]
  {
    var id := s.nodes[a.n].id;
    StepKeeps(s, a);
    StepMoves(s, a);
    assert Recorded(s, a.n) && Attended(s, a.n);
    forall i | 0 <= i < |s.pending| ensures PendingIds(s)[i] != id {
      assert s.pending[i] in s.pending;
      NodeFacts(s, s.pending[i]);
      assert Placed(s, s.pending[i]);
    }
  }

  /** Main result: of two normal commands the one handed over first is never
      submitted after the other, and does not even wait any more once the other
      has been submitted. Whatever comes before, between and after. */
  lemma NormalInOrder(before: seq<Action>, first: Action, mid: seq<Action>, second: Action, after: seq<Action>)
    requires HandsOver(Run(BOOT, before), first, false)
    requires HandsOver(Run(Apply(Run(BOOT, before), first), mid), second, false)
    ensures var s := Run(BOOT, before); var u := Run(Apply(s, first), mid); var t := Run(Apply(u, second), after);
            Leads(PendingIds(t), t.submitted, s.nodes[first.n].id, u.nodes[second.n].id)
  {
    BootInv();
    RunKeeps(BOOT, before);
    var s := Run(BOOT, before);
    JustHandedOver(s, first, false);
    var a := s.nodes[first.n].id;
    RunKeeps(Apply(s, first), mid);
    HandedOverRun(Apply(s, first), mid, a);
    var u := Run(Apply(s, first), mid);
    JustHandedOver(u, second, false);
    HandedOverStays(u, second, a);
    LeadsRun(Apply(u, second), after, a, u.nodes[second.n].id);
  }

  predicate NoHighHandOver(s: State, actions: seq<Action>)
    decreases |actions|
  {
    actions == [] || (!HandsOver(s, actions[0], true) && NoHighHandOver(Apply(s, actions[0]), actions[1..]))
  }

  /** While it waits the command is at the front, and nothing has gone out. */
  predicate InFront(s: State, id: nat, sent: seq<nat>) {
    id in PendingIds(s) ==> PendingIds(s)[0] == id && s.submitted == sent
  }

  lemma InFrontStays(s: State, a: Action, id: nat, sent: seq<nat>)
    requires Inv(s) && HandedOver(s, id) && InFront(s, id, sent) && !HandsOver(s, a, true)
    ensures InFront(Apply(s, a), id, sent)
  {
    IsTidy(s);
    StepMoves(s, a);
    var ids, m := PendingIds(s), MoveOf(s, a);
    if m.Leave? {
      WithoutMembers(ids, m.id);
      if id in ids && id != m.id {
        assert Without(ids, m.id) == [ids[0]] + Without(ids[1..], m.id);
      }
    }
  }

  lemma {:induction false} InFrontRun(s: State, actions: seq<Action>, id: nat, sent: seq<nat>)
    requires Inv(s) && HandedOver(s, id) && InFront(s, id, sent) && NoHighHandOver(s, actions)
    ensures InFront(Run(s, actions), id, sent)
    decreases |actions|
  {
    if actions != [] {
      InFrontStays(s, actions[0], id, sent);
      StepKeeps(s, actions[0]);
      HandedOverStays(s, actions[0], id);
      InFrontRun(Apply(s, actions[0]), actions[1..], id, sent);
    }
  }

  /** The worker submits the command at the front. */
  lemma FrontGoesOut(s: State, sendOk: bool)
    requires Inv(s) && s.initDone && s.cur.None? && s.pending != []
    ensures var t := Apply(s, Work(true, true, sendOk));
            t.submitted == s.submitted + [PendingIds(s)[0]] && PendingIds(t) == PendingIds(s)[1..]
  {
    IsTidy(s);
    FrontFacts(s);
    StepMoves(s, Work(true, true, sendOk));
  }

  /** Main result: a high-priority command handed over is the next to go out,
      ahead of all that wait, unless another one is handed over after it: as
      long as it waits it is at the front and nothing else is submitted, and the
      worker that is free to submit submits it. */
  lemma HighGoesNext(before: seq<Action>, a: Action, mid: seq<Action>, sendOk: bool)
    requires HandsOver(Run(BOOT, before), a, true) && NoHighHandOver(Apply(Run(BOOT, before), a), mid)
    ensures var s := Run(BOOT, before); var id := s.nodes[a.n].id; var t := Run(Apply(s, a), mid);
            id in PendingIds(t) ==>
              && PendingIds(t)[0] == id && t.submitted == s.submitted
              && (t.initDone && t.cur.None? ==> Apply(t, Work(true, true, sendOk)).submitted == s.submitted + [id])
  {
    BootInv();
    RunKeeps(BOOT, before);
    var s := Run(BOOT, before);
    var id := s.nodes[a.n].id;
    JustHandedOver(s, a, true);
    InFrontRun(Apply(s, a), mid, id, s.submitted);
    RunKeeps(Apply(s, a), mid);
    var t := Run(Apply(s, a), mid);
    if id in PendingIds(t) && t.initDone && t.cur.None? {
      FrontGoesOut(t, sendOk);
    }
  }

  // -------------------------------------------------- the response and its caller

  /** A response with the code and number of the command in flight completes it
      with that response, and its caller, still asleep, is given just that. */
  lemma ResponseReachesCaller(actions: seq<Action>, n: nat)
    requires var s := Run(BOOT, actions);
             n < |s.nodes| && s.cur == Some(n) && s.nodes[n].phase.Waiting? && !s.nodes[n].completed
    ensures var s := Run(BOOT, actions); var nd := s.nodes[n];
            var d := Done(nd.id, nd.code, nd.seqNum, Responded(nd.code, nd.seqNum));
            var t := Apply(s, Response(nd.code, nd.seqNum));
            && t.completions == s.completions + [d]
            && Apply(Apply(t, WaitEnds(n)), Finish(n)).answers == s.answers + [d]
            && Apply(Apply(t, WaitEnds(n)), Finish(n)).cur.None?
  {
    BootInv();
    RunKeeps(BOOT, actions);
    NodeFacts(Run(BOOT, actions), n);
    assert Placed(Run(BOOT, actions), n);
  }

  /** A transport failure for the command in flight reaches its caller as well. */
  lemma LinkFailureReachesCaller(actions: seq<Action>, n: nat)
    requires var s := Run(BOOT, actions);
             n < |s.nodes| && s.cur == Some(n) && s.nodes[n].phase.Waiting? && !s.nodes[n].completed
    ensures var s := Run(BOOT, actions); var nd := s.nodes[n]; var d := Done(nd.id, nd.code, nd.seqNum, LinkFailed);
            var t := Apply(s, LinkFailure(nd.code, nd.seqNum));
            t.completions == s.completions + [d] && Apply(Apply(t, WaitEnds(n)), Finish(n)).answers == s.answers + [d]
  {
    BootInv();
    RunKeeps(BOOT, actions);
    NodeFacts(Run(BOOT, actions), n);
    assert Placed(Run(BOOT, actions), n);
  }

  /** A teardown with no node in use releases the pool; with one in use it keeps
      it, and either way a setup may follow once all nodes are back. */
  lemma TeardownReleases(s: State)
    requires s.initDone
    ensures var t := Apply(Apply(s, TeardownBegin), TeardownEnd);
            && !t.initDone && !t.tearing && t.inUse == s.inUse
            && (t.pool <==> s.pool && s.inUse != 0)
  {
  }

  /** Once a teardown has finished and nothing is in use any more, or at the very
      first, a setup brings the engine up with all twenty nodes free. */
  lemma SetupBringsUp(s: State)
    requires !s.tearing && (!s.pool || s.inUse == 0)
    ensures var t := Apply(s, Setup);
            && t.initDone && t.pool && t.inUse == 0 && t.pending == [] && t.cur.None?
            && |t.free| == 20 && forall n :: 0 <= n < 20 ==> n in t.free
  {
    forall n | 0 <= n < 20 ensures n in Apply(s, Setup).free {
      assert Apply(s, Setup).free[n] == n;
    }
  }

  /** A node is taken and its command numbered. */
  lemma TakenAndNumbered(s: State, code: nat)
    requires Inv(s) && s.initDone && s.free != [] && code != 0
    ensures var n := s.free[0]; var t := Apply(Apply(s, Take(true, true)), Prepare(n, code));
            && n < |t.nodes| && t.initDone && t.pending == s.pending && t.cur == s.cur && t.submitted == s.submitted
            && t.nextSeq == NextSeq(s.nextSeq)
            && (var nd := t.nodes[n];
                && nd.phase.Prepared? && nd.skb && !nd.completed && nd.code == code
                && nd.id == s.issued + 1 && nd.seqNum == NextSeq(s.nextSeq))
  {
    var n := s.free[0];
    assert n in s.free;
    assert n < |s.nodes| && Apply(s, Take(true, true)).nodes[n] == BLANK.(phase := Claimed, skb := true);
  }

  /** A command handed over alone is submitted. */
  lemma AloneIsSubmitted(s: State, n: nat, high: bool)
    requires n < |s.nodes| && s.initDone && s.pending == [] && s.cur.None?
    requires s.nodes[n].phase.Prepared? && s.nodes[n].skb && s.nodes[n].code != 0
    ensures var t := Apply(s, Enqueue(n, high, true, true)); var u := Apply(t, Work(true, true, true));
            && n < |u.nodes| && u.cur == Some(n) && u.submitted == s.submitted + [s.nodes[n].id]
            && u.nextSeq == s.nextSeq && u.nodes[n].phase.Waiting? && u.nodes[n].completed == s.nodes[n].completed
            && u.nodes[n].id == s.nodes[n].id && u.nodes[n].code == s.nodes[n].code
            && u.nodes[n].seqNum == s.nodes[n].seqNum
  {
    assert Apply(s, Enqueue(n, high, true, true)).pending == [n];
  }

  /** With the engine up, a node free and nothing waiting or in flight, a command
      that is taken, numbered and handed over is submitted by the worker, and its
      caller waits for the answer to just that command and number. */
  lemma CommandGoesOut(s: State, code: nat, high: bool)
    requires Inv(s) && s.initDone && s.free != [] && s.pending == [] && s.cur.None? && code != 0
    ensures var n := s.free[0];
            var t := Apply(Apply(Apply(s, Take(true, true)), Prepare(n, code)), Enqueue(n, high, true, true));
            var u := Apply(t, Work(true, true, true));
            && n < |u.nodes| && u.cur == Some(n) && u.submitted == s.submitted + [s.issued + 1]
            && (var nd := u.nodes[n];
                && nd.phase.Waiting? && !nd.completed && nd.id == s.issued + 1 && nd.code == code
                && nd.seqNum == NextSeq(s.nextSeq) && u.nextSeq == nd.seqNum)
  {
    var n := s.free[0];
    TakenAndNumbered(s, code);
    AloneIsSubmitted(Apply(Apply(s, Take(true, true)), Prepare(n, code)), n, high);
  }

  /** And the caller's last steps give the node back. */
  lemma NodeComesBack(s: State, n: nat)
    requires n < |s.nodes| && s.nodes[n].phase.Releasing?
    ensures var t := Apply(Apply(s, Reset(n)), Release(n));
            && t.nodes[n] == BLANK && t.free == s.free + [n] && t.toDec == s.toDec + 1
            && Apply(t, Decrement).inUse == s.inUse - 1
  {
  }

  lemma ExpiryIsAnswered(s: State, n: nat)
    requires n < |s.nodes| && s.nodes[n].phase.Waiting? && s.nodes[n].inPending && !s.nodes[n].completed
    ensures var nd := s.nodes[n];
            Apply(Apply(s, WaitEnds(n)), Finish(n)).answers
            == s.answers + [Done(nd.id, nd.code, nd.seqNum, ExpiredUnsent)]
  {
  }

  lemma ExpiryLeaves(s: State, n: nat)
    requires Inv(s) && n in s.pending
    ensures var t := EndWait(s, n);
            n < |s.nodes| && s.nodes[n].id !in PendingIds(t) && s.nodes[n].id !in t.submitted && !t.nodes[n].inPending
  {
    IsTidy(s);
    NodeFacts(s, n);
    assert Recorded(s, n) && Placed(s, n);
    WaitEndsMoves(s, n);
    WithoutMembers(PendingIds(s), s.nodes[n].id);
  }

  /** A caller whose time is up while its command waits takes it off the list and
      is told so; the command has not gone out and does not. */
  lemma ExpiredIsWithdrawn(actions: seq<Action>, n: nat)
    requires n in Run(BOOT, actions).pending
    ensures var s := Run(BOOT, actions); n < |s.nodes| && s.nodes[n].inPending
    ensures var s := Run(BOOT, actions); var nd := s.nodes[n]; var t := Apply(Apply(s, WaitEnds(n)), Finish(n));
            && t.answers == s.answers + [Done(nd.id, nd.code, nd.seqNum, ExpiredUnsent)]
            && nd.id !in PendingIds(t) && nd.id !in t.submitted
  {
    BootInv();
    RunKeeps(BOOT, actions);
    var s := Run(BOOT, actions);
    NodeFacts(s, n);
    ExpiryIsAnswered(s, n);
    ExpiryLeaves(s, n);
    FinishMoves(EndWait(s, n), n);
  }
}
