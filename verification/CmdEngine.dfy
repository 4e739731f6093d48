/** The host command engine (host/esp_cmd.c): a pool of nodes, a free list, a
    pending list and one current command.

    Every action is one critical section. `Apply` is the state after it;
    `CommandEngine` performs it on fields, as the driver does. A command's id
    is its place in the order of issue and never repeats; the sequence number
    on the wire wraps at 16 bits and restarts with every setup. */
module CmdEngine {
  import opened Wire

  const POOL: nat := 20

  /** Where a node is in its life. Free: on the free list. Claimed: taken, not
      yet numbered. Prepared: numbered, being filled. Waiting: handed over, its
      caller asleep. Woken, Guarded: the caller returned from the wait, with a
      result or by timeout. Releasing: on the way back. Cleared: reset. */
  datatype Phase = Free | Claimed | Prepared | Waiting | Woken | Guarded | Releasing | Cleared

  /** Why a command is complete. */
  datatype Cause =
    | Responded(respCode: nat, respSeq: nat)
    | LinkFailed
    | SubmitFailed
    | Malformed
    | ShutDown
    | ExpiredUnsent
    | ExpiredSent

  datatype Node = Node(phase: Phase, id: nat, code: nat, seqNum: nat, skb: bool, inPending: bool,
                       completed: bool, sent: bool, result: Cause)

  /** One completion, or one result handed to a caller. */
  datatype Done = Done(id: nat, code: nat, seqNum: nat, cause: Cause)

  /** tearing: a teardown has cleared initDone and not finished. toDec: nodes
      already back on the free list whose in-use count is still to drop. */
  datatype State = State(nodes: seq<Node>, free: seq<nat>, pending: seq<nat>, cur: Option<nat>,
                         initDone: bool, pool: bool, tearing: bool, inUse: int, toDec: nat, nextSeq: nat,
                         issued: nat, completions: seq<Done>, submitted: seq<nat>, answers: seq<Done>, dropped: seq<nat>)

  const BLANK := Node(Free, 0, 0, 0, false, false, false, false, Malformed)

  datatype Action =
    | Setup
    | TeardownBegin
    | TeardownEnd
    | AbortWaiters
    | Take(admitted: bool, skbOk: bool)
    | Prepare(n: nat, code: nat)
    | Drop(n: nat)
    | Enqueue(n: nat, high: bool, admitted: bool, waits: bool)
    | Work(gate: bool, admitted: bool, sendOk: bool)
    | Response(code: nat, seqNum: nat)
    | LinkFailure(code: nat, seqNum: nat)
    | WaitEnds(n: nat)
    | Finish(n: nat)
    | Reset(n: nat)
    | Release(n: nat)
    | Decrement

  // -------------------------------------------------------------- small steps

  /** list_del: the list without n. */
  function Without(q: seq<nat>, n: nat): seq<nat> {
    if q == [] then [] else if q[0] == n then Without(q[1..], n) else [q[0]] + Without(q[1..], n)
  }

  /** A 16-bit sequence number is never zero. */
  function NextSeq(x: nat): (y: nat)
    ensures 0 < y < 0x1_0000
  {
    var y := (x + 1) % 0x1_0000;
    if y == 0 then 1 else y
  }

  function SetNode(s: State, n: nat, nd: Node): (t: State)
    requires n < |s.nodes|
    ensures |t.nodes| == |s.nodes|
  {
    s.(nodes := s.nodes[n := nd])
  }

  function Ended(nd: Node, cause: Cause): Done {
    Done(nd.id, nd.code, nd.seqNum, cause)
  }

  function Complete(s: State, n: nat, cause: Cause): (t: State)
    requires n < |s.nodes|
    ensures |t.nodes| == |s.nodes|
  {
    var nd := s.nodes[n];
    s.(nodes := s.nodes[n := nd.(completed := true, result := cause)],
       completions := s.completions + [Ended(nd, cause)])
  }

  /** Off the pending list, and complete. */
  function Retire(s: State, n: nat, cause: Cause): (t: State)
    requires n < |s.nodes|
    ensures |t.nodes| == |s.nodes|
  {
    var nd := s.nodes[n];
    s.(nodes := s.nodes[n := nd.(inPending := false, completed := true, result := cause)],
       pending := Without(s.pending, n), completions := s.completions + [Ended(nd, cause)])
  }

  /** Off the pending list, and current. */
  function Submit(s: State, n: nat): (t: State)
    requires n < |s.nodes|
    ensures |t.nodes| == |s.nodes|
  {
    var nd := s.nodes[n];
    s.(nodes := s.nodes[n := nd.(inPending := false, sent := true, skb := false)],
       pending := Without(s.pending, n), cur := Some(n), submitted := s.submitted + [nd.id])
  }

  /** Every pending command is retired, in list order. */
  function RetireAll(s: State): (t: State)
    ensures |t.nodes| == |s.nodes|
    decreases |s.pending|
  {
    if s.pending == [] || s.pending[0] >= |s.nodes| then s
    else
      WithoutShorter(s.pending, s.pending[0]);
      RetireAll(Retire(s, s.pending[0], ShutDown))
  }

  lemma {:induction false} WithoutShorter(q: seq<nat>, n: nat)
    ensures |Without(q, n)| <= |q|
    ensures q != [] && q[0] == n ==> |Without(q, n)| < |q|
  {
    if q != [] {
      WithoutShorter(q[1..], n);
    }
  }

  function AbortCur(s: State): (t: State)
    ensures |t.nodes| == |s.nodes|
  {
    match s.cur
    case Some(n) => if n < |s.nodes| && !s.nodes[n].completed then Complete(s, n, ShutDown) else s
    case None => s
  }

  function Indices(n: nat): (q: seq<nat>)
    ensures |q| == n && forall i :: 0 <= i < n ==> q[i] == i
  {
    seq(n, i => i)
  }

  function Fresh(s: State): State {
    s.(nodes := seq(POOL, i => BLANK), free := Indices(POOL), pending := [], cur := None, initDone := true,
       pool := true, inUse := 0, nextSeq := 0)
  }

  // ------------------------------------------------------------- the sections

  /** get_free_cmd_node */
  function TakeNode(s: State, admitted: bool, skbOk: bool): State {
    if !s.initDone || !admitted || s.free == [] || s.free[0] >= |s.nodes| then s
    else
      var t := s.(free := s.free[1..], inUse := s.inUse + 1);
      SetNode(t, s.free[0], BLANK.(phase := if skbOk then Claimed else Releasing, skb := skbOk))
  }

  /** prepare_command_request_for_if: the node gets its number. */
  function PrepareNode(s: State, n: nat, code: nat): State
    requires n < |s.nodes|
  {
    if s.nodes[n].phase != Claimed || code == 0 then s
    else
      var t := s.(nextSeq := NextSeq(s.nextSeq), issued := s.issued + 1);
      SetNode(t, n, s.nodes[n].(phase := Prepared, id := s.issued + 1, code := code, seqNum := NextSeq(s.nextSeq)))
  }

  /** A prepared command that is never handed over. */
  function DropNode(s: State, n: nat): State
    requires n < |s.nodes|
  {
    if s.nodes[n].phase != Prepared then s
    else SetNode(s.(dropped := s.dropped + [s.nodes[n].id]), n, s.nodes[n].(phase := Releasing))
  }

  /** queue_cmd_node, and what its caller does next: most wait for the
      result even of a refused command, one returns it at once. */
  function EnqueueNode(s: State, n: nat, high: bool, admitted: bool, waits: bool): State
    requires n < |s.nodes|
  {
    var nd := s.nodes[n];
    if nd.phase != Prepared then s
    else if admitted then
      SetNode(s.(pending := if high then [n] + s.pending else s.pending + [n]), n,
              nd.(phase := Waiting, inPending := true))
    else
      var t := Complete(s, n, ShutDown);
      var done := t.nodes[n];
      if waits then SetNode(t, n, done.(phase := Waiting))
      else SetNode(t.(answers := t.answers + [Ended(done, ShutDown)]), n, done.(phase := Releasing))
  }

  /** esp_cmd_work */
  function WorkOnce(s: State, gate: bool, admitted: bool, sendOk: bool): State {
    if !s.initDone || !gate || s.cur.Some? || s.pending == [] || s.pending[0] >= |s.nodes| then s
    else
      var n := s.pending[0];
      if !admitted then Retire(s, n, ShutDown)
      else if !s.nodes[n].skb || s.nodes[n].code == 0 then Retire(s, n, Malformed)
      else if sendOk then Submit(s, n)
      else Complete(Submit(s, n), n, SubmitFailed)
  }

  /** The current command, if it carries this code and number and is not yet
      complete. */
  function Addressed(s: State, code: nat, seqNum: nat): (r: Option<nat>)
    ensures r.Some? ==> r.value < |s.nodes| && s.cur == r && !s.nodes[r.value].completed
  {
    match s.cur
    case None => None
    case Some(n) =>
      if n < |s.nodes| && s.nodes[n].code == code && s.nodes[n].seqNum == seqNum && !s.nodes[n].completed
      then Some(n) else None
  }

  function CompleteAddressed(s: State, code: nat, seqNum: nat, cause: Cause): State {
    var n := Addressed(s, code, seqNum);
    if n.Some? then Complete(s, n.value, cause) else s
  }

  /** esp_cmd_wait_event_guard: the caller wakes with the node complete, or
      its time is up; then a command still pending is retired here. */
  function EndWait(s: State, n: nat): State
    requires n < |s.nodes|
  {
    var nd := s.nodes[n];
    if nd.phase != Waiting then s
    else if nd.completed then SetNode(s, n, nd.(phase := Woken))
    else
      var t := if nd.inPending then Retire(s, n, ExpiredUnsent) else s;
      SetNode(t, n, t.nodes[n].(phase := Guarded))
  }

  /** The locked part of wait_and_decode_cmd_resp: a result that won the race
      is taken, the current slot is given up, and a command nobody completed
      has timed out. */
  function FinishNode(s: State, n: nat): State
    requires n < |s.nodes|
  {
    var nd := s.nodes[n];
    if nd.phase != Woken && nd.phase != Guarded then s
    else
      var a := if s.cur == Some(n) then s.(cur := None) else s;
      var b := if nd.inPending && !nd.completed then a.(pending := Without(a.pending, n), nodes := a.nodes[n := nd.(inPending := false)]) else a;
      var c := if nd.completed then b else Complete(b, n, ExpiredSent);
      var done := c.nodes[n];
      SetNode(c.(answers := c.answers + [Ended(done, done.result)]), n, done.(phase := Releasing))
  }

  /** reset_cmd_node */
  function ResetNode(s: State, n: nat): State
    requires n < |s.nodes|
  {
    var nd := s.nodes[n];
    if nd.phase != Releasing then s
    else
      var t := if nd.inPending then s.(pending := Without(s.pending, n)) else s;
      SetNode(t, n, BLANK.(phase := Cleared))
  }

  /** recycle_cmd_node: onto the free list; the count drops later. */
  function ReleaseNode(s: State, n: nat): State
    requires n < |s.nodes|
  {
    if s.nodes[n].phase != Cleared then s
    else SetNode(s.(free := s.free + [n], toDec := s.toDec + 1), n, BLANK)
  }

  function Apply(s: State, a: Action): State {
    match a
    case Setup => if s.tearing || (s.pool && s.inUse != 0) then s else Fresh(s)
    case TeardownBegin => if s.initDone then s.(initDone := false, tearing := true) else s
    case TeardownEnd => if s.tearing then s.(tearing := false, pool := s.pool && s.inUse != 0) else s
    case AbortWaiters => RetireAll(AbortCur(s))
    case Take(admitted, skbOk) => TakeNode(s, admitted, skbOk)
    case Prepare(n, code) => if n < |s.nodes| then PrepareNode(s, n, code) else s
    case Drop(n) => if n < |s.nodes| then DropNode(s, n) else s
    case Enqueue(n, high, admitted, waits) => if n < |s.nodes| then EnqueueNode(s, n, high, admitted, waits) else s
    case Work(gate, admitted, sendOk) => WorkOnce(s, gate, admitted, sendOk)
    case Response(code, seqNum) => CompleteAddressed(s, code, seqNum, Responded(code, seqNum))
    case LinkFailure(code, seqNum) => CompleteAddressed(s, code, seqNum, LinkFailed)
    case WaitEnds(n) => if n < |s.nodes| then EndWait(s, n) else s
    case Finish(n) => if n < |s.nodes| then FinishNode(s, n) else s
    case Reset(n) => if n < |s.nodes| then ResetNode(s, n) else s
    case Release(n) => if n < |s.nodes| then ReleaseNode(s, n) else s
    case Decrement => if s.toDec > 0 then s.(toDec := s.toDec - 1, inUse := s.inUse - 1) else s
  }

  function Run(s: State, actions: seq<Action>): State
    decreases |actions|
  {
    if actions == [] then s else Run(Apply(s, actions[0]), actions[1..])
  }

  const BOOT := State(seq(POOL, i => BLANK), Indices(POOL), [], None, false, false, false, 0, 0, 0, 0, [], [], [], [])

  // ---------------------------------------------------------------- invariant

  predicate Distinct(q: seq<nat>) {
    forall i, j :: 0 <= i < j < |q| ==> q[i] != q[j]
  }

  /** The list holds an entry for this command. */
  predicate Has(list: seq<Done>, id: nat) {
    exists i :: 0 <= i < |list| && list[i].id == id
  }

  predicate Once(list: seq<Done>) {
    forall i, j :: 0 <= i < j < |list| ==> list[i].id != list[j].id
  }

  predicate HasId(p: Phase) {
    p.Prepared? || p.Waiting? || p.Woken? || p.Guarded?
  }

  predicate Owns(nodes: seq<Node>, n: nat, id: nat) {
    n < |nodes| && HasId(nodes[n].phase) && nodes[n].id == id
  }

  /** A node is on the list its phase and flag say, and on no other. */
  predicate Placed(s: State, n: nat)
    requires n < |s.nodes|
  {
    var nd := s.nodes[n];
    && (nd.phase.Free? <==> n in s.free)
    && (nd.inPending <==> n in s.pending)
    && (nd.inPending ==> nd.phase.Waiting? && !nd.completed && !nd.sent && s.cur != Some(n))
    && (s.cur == Some(n) ==> (nd.phase.Waiting? || nd.phase.Woken? || nd.phase.Guarded?) && nd.sent)
  }

  /** Whoever waits is complete, or someone is still going to complete it. */
  predicate Attended(s: State, n: nat)
    requires n < |s.nodes|
  {
    var nd := s.nodes[n];
    && (nd.phase.Woken? ==> nd.completed)
    && (nd.phase.Waiting? && !nd.completed ==> nd.inPending || s.cur == Some(n))
    && (nd.phase.Guarded? && !nd.completed ==> s.cur == Some(n))
    && (nd.phase.Claimed? || nd.phase.Prepared? ==> !nd.completed && !nd.sent && nd.skb)
    && (HasId(nd.phase) && !nd.sent ==> nd.skb)
    && (HasId(nd.phase) ==> nd.code != 0)
  }

  /** What the records say about the command a node carries. */
  predicate Recorded(s: State, n: nat)
    requires n < |s.nodes|
  {
    var nd := s.nodes[n];
    HasId(nd.phase) ==>
      && 1 <= nd.id <= s.issued
      && nd.id !in s.dropped
      && !Has(s.answers, nd.id)
      && (nd.sent <==> nd.id in s.submitted)
      && (nd.completed ==> Ended(nd, nd.result) in s.completions)
      && (!nd.completed ==> !Has(s.completions, nd.id))
  }

  predicate Apart(nodes: seq<Node>) {
    forall m, n :: 0 <= m < n < |nodes| && HasId(nodes[m].phase) && HasId(nodes[n].phase) ==> nodes[m].id != nodes[n].id
  }

  predicate Lists(s: State) {
    && |s.nodes| == POOL
    && Distinct(s.free) && Distinct(s.pending)
    && (forall i :: 0 <= i < |s.free| ==> s.free[i] < POOL)
    && (forall i :: 0 <= i < |s.pending| ==> s.pending[i] < POOL)
    && (s.cur.Some? ==> s.cur.value < POOL)
    && s.inUse == POOL - |s.free| + s.toDec
    && (s.initDone ==> s.pool && !s.tearing)
    && (!s.pool ==> s.inUse == 0)
  }

  /** A completion agrees with the command: a response carries its code and
      number and came after submission; a command that expired in the pending
      list was never submitted. */
  predicate Sound(d: Done, submitted: seq<nat>, issued: nat) {
    && 1 <= d.id <= issued
    && (d.cause.Responded? ==> d.cause.respCode == d.code && d.cause.respSeq == d.seqNum && d.id in submitted)
    && (d.cause.LinkFailed? || d.cause.SubmitFailed? || d.cause.ExpiredSent? ==> d.id in submitted)
    && (d.cause.ExpiredUnsent? ==> d.id !in submitted)
    && !d.cause.Malformed?
  }

  predicate History(s: State) {
    && Once(s.completions) && Once(s.answers) && Distinct(s.submitted)
    && (forall i :: 0 <= i < |s.completions| ==> Sound(s.completions[i], s.submitted, s.issued))
    && (forall i :: 0 <= i < |s.answers| ==> s.answers[i] in s.completions)
    && (forall i :: 0 <= i < |s.submitted| ==> 1 <= s.submitted[i] <= s.issued)
    && (forall i :: 0 <= i < |s.dropped| ==> 1 <= s.dropped[i] <= s.issued && !Has(s.answers, s.dropped[i]))
  }

  /** An issued command was answered, was dropped before hand-over, or is
      carried by a node. */
  predicate Accounted(s: State, id: nat) {
    id in s.dropped || Has(s.answers, id) || exists n :: 0 <= n < |s.nodes| && Owns(s.nodes, n, id)
  }

  predicate Inv(s: State) {
    && Lists(s)
    && (forall n :: 0 <= n < |s.nodes| ==> Placed(s, n))
    && (forall n :: 0 <= n < |s.nodes| ==> Attended(s, n))
    && (forall n :: 0 <= n < |s.nodes| ==> Recorded(s, n))
    && Apart(s.nodes)
    && History(s)
    && (forall id :: 1 <= id <= s.issued ==> Accounted(s, id))
  }

  // ------------------------------------------------------------- preservation

  lemma {:induction false} WithoutMembers(q: seq<nat>, n: nat)
    ensures forall m :: m in Without(q, n) <==> m in q && m != n
  {
    if q != [] {
      WithoutMembers(q[1..], n);
      assert forall m :: m in q <==> m == q[0] || m in q[1..];
    }
  }

  lemma {:induction false} WithoutDistinct(q: seq<nat>, n: nat)
    requires Distinct(q)
    ensures Distinct(Without(q, n))
  {
    if q != [] {
      WithoutDistinct(q[1..], n);
      WithoutMembers(q[1..], n);
      assert q[0] !in Without(q[1..], n);
    }
  }

  lemma WithoutBelow(q: seq<nat>, n: nat, m: nat)
    requires forall i :: 0 <= i < |q| ==> q[i] < m
    ensures forall i :: 0 <= i < |Without(q, n)| ==> Without(q, n)[i] < m
  {
    WithoutMembers(q, n);
    var w := Without(q, n);
    forall i | 0 <= i < |w| ensures w[i] < m {
      assert w[i] in q;
    }
  }

  lemma HasAppend(list: seq<Done>, d: Done)
    ensures forall id :: Has(list + [d], id) <==> Has(list, id) || id == d.id
  {
    forall id ensures Has(list + [d], id) <==> Has(list, id) || id == d.id {
      if Has(list, id) {
        var i :| 0 <= i < |list| && list[i].id == id;
        assert (list + [d])[i].id == id;
      }
      assert (list + [d])[|list|] == d;
    }
  }

  lemma OnceAppend(list: seq<Done>, d: Done)
    requires Once(list) && !Has(list, d.id)
    ensures Once(list + [d])
  {
  }

  /** Who carries which command is untouched, and nothing was answered. */
  predicate SameOwners(s: State, t: State) {
    && |t.nodes| == |s.nodes| && t.dropped == s.dropped && t.answers == s.answers && t.issued == s.issued
    && forall n :: 0 <= n < |s.nodes| ==>
         && (HasId(t.nodes[n].phase) <==> HasId(s.nodes[n].phase))
         && (HasId(s.nodes[n].phase) ==> t.nodes[n].id == s.nodes[n].id)
  }

  lemma StillAccounted(s: State, t: State)
    requires SameOwners(s, t) && forall id :: 1 <= id <= s.issued ==> Accounted(s, id)
    ensures forall id :: 1 <= id <= t.issued ==> Accounted(t, id)
  {
    forall id | 1 <= id <= t.issued ensures Accounted(t, id) {
      assert Accounted(s, id);
      if n :| 0 <= n < |s.nodes| && Owns(s.nodes, n, id) {
        assert Owns(t.nodes, n, id);
      }
    }
  }

  /** Of the lists and the current slot, only n's place may have changed. */
  ghost predicate PlacesElsewhere(s: State, t: State, n: nat) {
    && |t.nodes| == |s.nodes|
    && forall m {:trigger t.nodes[m]} {:trigger s.nodes[m]} :: 0 <= m < |s.nodes| && m != n ==>
         && t.nodes[m] == s.nodes[m]
         && (m in t.free <==> m in s.free)
         && (m in t.pending <==> m in s.pending)
         && (t.cur == Some(m) <==> s.cur == Some(m))
  }

  /** Of the records, only what they say about id may have changed. */
  ghost predicate RecordsElsewhere(s: State, t: State, id: nat) {
    && t.issued >= s.issued
    && (forall k :: k != id ==> (k in t.dropped <==> k in s.dropped))
    && (forall k :: k != id ==> (k in t.submitted <==> k in s.submitted))
    && (forall k :: k != id ==> (Has(t.answers, k) <==> Has(s.answers, k)))
    && (forall k :: k != id ==> (Has(t.completions, k) <==> Has(s.completions, k)))
    && s.completions <= t.completions
  }

  predicate NodesKeep(s: State) {
    && (forall n :: 0 <= n < |s.nodes| ==> Placed(s, n))
    && (forall n :: 0 <= n < |s.nodes| ==> Attended(s, n))
  }

  lemma PlacesKeep(s: State, t: State, n: nat)
    requires n < |s.nodes| && NodesKeep(s) && PlacesElsewhere(s, t, n) && Placed(t, n) && Attended(t, n)
    ensures NodesKeep(t)
  {
    forall m | 0 <= m < |t.nodes| ensures Placed(t, m) && Attended(t, m) {
      assert Placed(s, m) && Attended(s, m);
      assert m != n ==> t.nodes[m] == s.nodes[m];
    }
  }

  lemma RecordsKeep(s: State, t: State, n: nat, id: nat)
    requires n < |s.nodes| && PlacesElsewhere(s, t, n) && RecordsElsewhere(s, t, id)
    requires Apart(s.nodes) && forall m :: 0 <= m < |s.nodes| ==> Recorded(s, m)
    requires forall m :: 0 <= m < |s.nodes| && m != n && HasId(s.nodes[m].phase) ==> s.nodes[m].id != id
    requires Recorded(t, n) && (HasId(t.nodes[n].phase) ==> t.nodes[n].id == id)
    ensures Apart(t.nodes) && forall m :: 0 <= m < |t.nodes| ==> Recorded(t, m)
  {
    forall m | 0 <= m < |t.nodes| ensures Recorded(t, m) {
      assert Recorded(s, m);
      assert m != n ==> t.nodes[m] == s.nodes[m];
    }
  }

  lemma CompletionsKeep(s: State, t: State, d: Done)
    requires History(s) && !Has(s.completions, d.id) && Sound(d, s.submitted, s.issued)
    requires t.completions == s.completions + [d] && t.submitted == s.submitted && t.answers == s.answers
    requires t.dropped == s.dropped && t.issued == s.issued
    ensures History(t) && RecordsElsewhere(s, t, d.id)
  {
    HasAppend(s.completions, d);
    OnceAppend(s.completions, d);
    forall i | 0 <= i < |t.answers| ensures t.answers[i] in t.completions {
      assert s.answers[i] in s.completions;
    }
  }

  lemma RetireKeeps(s: State, n: nat, cause: Cause)
    requires Inv(s) && n in s.pending && (cause.ShutDown? || cause.ExpiredUnsent?)
    ensures Inv(Retire(s, n, cause))
  {
    var t, d := Retire(s, n, cause), Ended(s.nodes[n], cause);
    assert Placed(s, n) && Recorded(s, n) && Attended(s, n);
    WithoutMembers(s.pending, n);
    WithoutDistinct(s.pending, n);
    WithoutBelow(s.pending, n, POOL);
    CompletionsKeep(s, t, d);
    PlacesKeep(s, t, n);
    assert t.completions[|s.completions|] == d;
    RecordsKeep(s, t, n, s.nodes[n].id);
    StillAccounted(s, t);
  }

  lemma CompleteKeeps(s: State, n: nat, cause: Cause)
    requires Inv(s) && s.cur == Some(n) && !s.nodes[n].completed
    requires cause.ShutDown? || cause.LinkFailed? || cause.SubmitFailed? || cause.ExpiredSent? || cause == Responded(s.nodes[n].code, s.nodes[n].seqNum)
    ensures Inv(Complete(s, n, cause))
  {
    var t, d := Complete(s, n, cause), Ended(s.nodes[n], cause);
    assert Placed(s, n) && Recorded(s, n) && Attended(s, n);
    CompletionsKeep(s, t, d);
    PlacesKeep(s, t, n);
    assert t.completions[|s.completions|] == d;
    RecordsKeep(s, t, n, s.nodes[n].id);
    StillAccounted(s, t);
  }

  lemma SubmissionsKeep(s: State, t: State, id: nat)
    requires History(s) && id !in s.submitted && 1 <= id <= s.issued && !Has(s.completions, id)
    requires t.submitted == s.submitted + [id] && t.completions == s.completions && t.answers == s.answers
    requires t.dropped == s.dropped && t.issued == s.issued
    ensures History(t) && RecordsElsewhere(s, t, id)
  {
    forall i | 0 <= i < |t.completions| ensures Sound(t.completions[i], t.submitted, t.issued) {
      assert Sound(s.completions[i], s.submitted, s.issued);
      assert s.completions[i].id != id;
    }
  }

  lemma SubmitKeeps(s: State, n: nat)
    requires Inv(s) && n in s.pending && s.cur.None?
    ensures Inv(Submit(s, n)) && !Submit(s, n).nodes[n].completed
  {
    var t := Submit(s, n);
    assert Placed(s, n) && Recorded(s, n) && Attended(s, n);
    WithoutMembers(s.pending, n);
    WithoutDistinct(s.pending, n);
    WithoutBelow(s.pending, n, POOL);
    SubmissionsKeep(s, t, s.nodes[n].id);
    PlacesKeep(s, t, n);
    RecordsKeep(s, t, n, s.nodes[n].id);
    StillAccounted(s, t);
  }

  lemma {:induction false} RetireAllKeeps(s: State)
    requires Inv(s)
    ensures Inv(RetireAll(s)) && RetireAll(s).pending == []
    ensures RetireAll(s).cur == s.cur
    ensures forall n :: 0 <= n < |s.nodes| && s.nodes[n].completed ==> RetireAll(s).nodes[n].completed
    ensures forall n :: 0 <= n < |s.nodes| ==> RetireAll(s).nodes[n].phase == s.nodes[n].phase
    decreases |s.pending|
  {
    if s.pending != [] {
      WithoutShorter(s.pending, s.pending[0]);
      RetireKeeps(s, s.pending[0], ShutDown);
      RetireAllKeeps(Retire(s, s.pending[0], ShutDown));
    }
  }

  lemma AbortKeeps(s: State)
    requires Inv(s)
    ensures Inv(Apply(s, AbortWaiters))
  {
    if s.cur.Some? && !s.nodes[s.cur.value].completed {
      CompleteKeeps(s, s.cur.value, ShutDown);
    }
    RetireAllKeeps(AbortCur(s));
  }

  lemma IdsAreIssued(s: State)
    requires forall m :: 0 <= m < |s.nodes| ==> Recorded(s, m)
    ensures forall m :: 0 <= m < |s.nodes| && HasId(s.nodes[m].phase) ==> 1 <= s.nodes[m].id <= s.issued
  {
    forall m | 0 <= m < |s.nodes| && HasId(s.nodes[m].phase) ensures 1 <= s.nodes[m].id <= s.issued {
      assert Recorded(s, m);
    }
  }

  lemma TakeKeeps(s: State, admitted: bool, skbOk: bool)
    requires Inv(s)
    ensures Inv(TakeNode(s, admitted, skbOk))
  {
    var t := TakeNode(s, admitted, skbOk);
    if t != s {
      var n := s.free[0];
      assert Placed(s, n) && n in s.free;
      assert forall m :: m in s.free <==> m == n || m in t.free;
      PlacesKeep(s, t, n);
      IdsAreIssued(s);
      RecordsKeep(s, t, n, 0);
      StillAccounted(s, t);
    }
  }

  lemma PrepareKeeps(s: State, n: nat, code: nat)
    requires Inv(s) && n < |s.nodes|
    ensures Inv(PrepareNode(s, n, code))
  {
    var t := PrepareNode(s, n, code);
    if t != s {
      assert Placed(s, n) && Attended(s, n);
      PlacesKeep(s, t, n);
      NewIdUnknown(s);
      IdsAreIssued(s);
      RecordsKeep(s, t, n, t.issued);
      IssueIsAccounted(s, t, n);
      IssueKeepsHistory(s, t);
    }
  }

  lemma IssueKeepsHistory(s: State, t: State)
    requires History(s) && t.issued == s.issued + 1 && t.completions == s.completions && t.answers == s.answers
    requires t.submitted == s.submitted && t.dropped == s.dropped
    ensures History(t)
  {
    forall i | 0 <= i < |t.completions| ensures Sound(t.completions[i], t.submitted, t.issued) {
      assert Sound(s.completions[i], s.submitted, s.issued);
    }
  }

  lemma IssueIsAccounted(s: State, t: State, n: nat)
    requires n < |s.nodes| && |t.nodes| == |s.nodes| && t.issued == s.issued + 1
    requires forall m :: 0 <= m < |s.nodes| && m != n ==> t.nodes[m] == s.nodes[m]
    requires t.dropped == s.dropped && t.answers == s.answers
    requires !HasId(s.nodes[n].phase) && Owns(t.nodes, n, t.issued)
    requires forall id :: 1 <= id <= s.issued ==> Accounted(s, id)
    ensures forall id :: 1 <= id <= t.issued ==> Accounted(t, id)
  {
    forall id | 1 <= id <= t.issued ensures Accounted(t, id) {
      if id < t.issued {
        assert Accounted(s, id);
        if k :| 0 <= k < |s.nodes| && Owns(s.nodes, k, id) {
          assert Owns(t.nodes, k, id);
        }
      }
    }
  }

  /** The next id appears in no record yet. */
  lemma NewIdUnknown(s: State)
    requires History(s)
    ensures var id := s.issued + 1;
            !Has(s.completions, id) && !Has(s.answers, id) && id !in s.submitted && id !in s.dropped
  {
    var id := s.issued + 1;
    forall i | 0 <= i < |s.completions| ensures s.completions[i].id != id {
      assert Sound(s.completions[i], s.submitted, s.issued);
    }
    forall i | 0 <= i < |s.answers| ensures s.answers[i].id != id {
      assert s.answers[i] in s.completions;
    }
  }

  /** The command leaves its node, as one that was dropped or answered. */
  lemma GoneIsAccounted(s: State, t: State, n: nat)
    requires n < |s.nodes| && |t.nodes| == |s.nodes| && t.issued == s.issued
    requires forall m :: 0 <= m < |s.nodes| && m != n ==> t.nodes[m] == s.nodes[m]
    requires forall k :: k in s.dropped ==> k in t.dropped
    requires forall k :: Has(s.answers, k) ==> Has(t.answers, k)
    requires s.nodes[n].id in t.dropped || Has(t.answers, s.nodes[n].id)
    requires forall id :: 1 <= id <= s.issued ==> Accounted(s, id)
    ensures forall id :: 1 <= id <= t.issued ==> Accounted(t, id)
  {
    forall id | 1 <= id <= t.issued ensures Accounted(t, id) {
      assert Accounted(s, id);
      if m :| 0 <= m < |s.nodes| && Owns(s.nodes, m, id) {
        assert m != n ==> Owns(t.nodes, m, id);
      }
    }
  }

  lemma DropKeepsHistory(s: State, t: State, id: nat)
    requires History(s) && 1 <= id <= s.issued && !Has(s.answers, id)
    requires t.issued == s.issued && t.completions == s.completions && t.answers == s.answers
    requires t.submitted == s.submitted && t.dropped == s.dropped + [id]
    ensures History(t)
  {
    forall i | 0 <= i < |t.completions| ensures Sound(t.completions[i], t.submitted, t.issued) {
      assert Sound(s.completions[i], s.submitted, s.issued);
    }
  }

  lemma DropKeeps(s: State, n: nat)
    requires Inv(s) && n < |s.nodes|
    ensures Inv(DropNode(s, n))
  {
    var t := DropNode(s, n);
    if t != s {
      assert Placed(s, n) && Attended(s, n) && Recorded(s, n);
      PlacesKeep(s, t, n);
      RecordsKeep(s, t, n, s.nodes[n].id);
      DropKeepsHistory(s, t, s.nodes[n].id);
      GoneIsAccounted(s, t, n);
    }
  }

  lemma QueueKeeps(s: State, n: nat, high: bool, waits: bool)
    requires Inv(s) && n < |s.nodes| && s.nodes[n].phase.Prepared?
    ensures Inv(EnqueueNode(s, n, high, true, waits))
  {
    var t := EnqueueNode(s, n, high, true, waits);
    assert Placed(s, n) && Attended(s, n) && Recorded(s, n);
    assert forall m :: m in t.pending <==> m == n || m in s.pending;
    PlacesKeep(s, t, n);
    RecordsKeep(s, t, n, s.nodes[n].id);
    StillAccounted(s, t);
  }

  /** The caller of a completed or expired command takes its result and goes. */
  function Answer(s: State, n: nat): State
    requires n < |s.nodes|
  {
    var nd := s.nodes[n];
    SetNode(s.(answers := s.answers + [Ended(nd, nd.result)]), n, nd.(phase := Releasing))
  }

  lemma AnswerKeepsHistory(s: State, t: State, d: Done)
    requires History(s) && d in s.completions && !Has(s.answers, d.id) && d.id !in s.dropped
    requires t.issued == s.issued && t.completions == s.completions && t.answers == s.answers + [d]
    requires t.submitted == s.submitted && t.dropped == s.dropped
    ensures History(t) && RecordsElsewhere(s, t, d.id)
  {
    HasAppend(s.answers, d);
    OnceAppend(s.answers, d);
  }

  lemma AnswerKeeps(s: State, n: nat)
    requires Inv(s) && n < |s.nodes| && HasId(s.nodes[n].phase) && s.nodes[n].completed && s.cur != Some(n)
    ensures Inv(Answer(s, n))
  {
    var t := Answer(s, n);
    assert Placed(s, n) && Attended(s, n) && Recorded(s, n);
    AnswerKeepsHistory(s, t, Ended(s.nodes[n], s.nodes[n].result));
    PlacesKeep(s, t, n);
    RecordsKeep(s, t, n, s.nodes[n].id);
    HasAppend(s.answers, Ended(s.nodes[n], s.nodes[n].result));
    GoneIsAccounted(s, t, n);
  }

  function Refused(s: State, n: nat): (t: State)
    requires n < |s.nodes|
    ensures |t.nodes| == |s.nodes|
  {
    var t := Complete(s, n, ShutDown);
    SetNode(t, n, t.nodes[n].(phase := Waiting))
  }

  lemma RefusedKeeps(s: State, n: nat)
    requires Inv(s) && n < |s.nodes| && s.nodes[n].phase.Prepared?
    ensures Inv(Refused(s, n)) && s.cur != Some(n)
  {
    var t, d := Refused(s, n), Ended(s.nodes[n], ShutDown);
    assert Placed(s, n) && Recorded(s, n) && Attended(s, n);
    CompletionsKeep(s, t, d);
    PlacesKeep(s, t, n);
    assert t.completions[|s.completions|] == d;
    RecordsKeep(s, t, n, s.nodes[n].id);
    StillAccounted(s, t);
  }

  lemma EnqueueKeeps(s: State, n: nat, high: bool, admitted: bool, waits: bool)
    requires Inv(s) && n < |s.nodes|
    ensures Inv(EnqueueNode(s, n, high, admitted, waits))
  {
    if s.nodes[n].phase.Prepared? {
      if admitted {
        QueueKeeps(s, n, high, waits);
      } else {
        RefusedKeeps(s, n);
        var r := Refused(s, n);
        if waits {
          assert EnqueueNode(s, n, high, admitted, waits) == r;
        } else {
          AnswerKeeps(r, n);
          assert EnqueueNode(s, n, high, admitted, waits).nodes == Answer(r, n).nodes;
        }
      }
    }
  }

  lemma WorkKeeps(s: State, gate: bool, admitted: bool, sendOk: bool)
    requires Inv(s)
    ensures Inv(WorkOnce(s, gate, admitted, sendOk))
  {
    if WorkOnce(s, gate, admitted, sendOk) != s {
      var n := s.pending[0];
      assert n in s.pending && Placed(s, n) && Attended(s, n);
      if !admitted {
        RetireKeeps(s, n, ShutDown);
      } else {
        SubmitKeeps(s, n);
        if !sendOk {
          CompleteKeeps(Submit(s, n), n, SubmitFailed);
        }
      }
    }
  }

  lemma AddressedKeeps(s: State, code: nat, seqNum: nat, cause: Cause)
    requires Inv(s) && (cause.LinkFailed? || cause == Responded(code, seqNum))
    ensures Inv(CompleteAddressed(s, code, seqNum, cause))
  {
    var n := Addressed(s, code, seqNum);
    if n.Some? {
      CompleteKeeps(s, n.value, cause);
    }
  }

  /** A caller that returns from its wait. */
  lemma WakesKeeps(s: State, n: nat, p: Phase)
    requires Inv(s) && n < |s.nodes| && s.nodes[n].phase.Waiting? && !s.nodes[n].inPending
    requires (p.Woken? && s.nodes[n].completed) || p.Guarded?
    ensures Inv(SetNode(s, n, s.nodes[n].(phase := p)))
  {
    var t := SetNode(s, n, s.nodes[n].(phase := p));
    assert Placed(s, n) && Recorded(s, n) && Attended(s, n);
    PlacesKeep(s, t, n);
    RecordsKeep(s, t, n, s.nodes[n].id);
    StillAccounted(s, t);
  }

  lemma EndWaitKeeps(s: State, n: nat)
    requires Inv(s) && n < |s.nodes|
    ensures Inv(EndWait(s, n))
  {
    var nd := s.nodes[n];
    if nd.phase.Waiting? {
      assert Placed(s, n);
      if nd.completed {
        WakesKeeps(s, n, Woken);
      } else if nd.inPending {
        RetireKeeps(s, n, ExpiredUnsent);
        WakesKeeps(Retire(s, n, ExpiredUnsent), n, Guarded);
      } else {
        WakesKeeps(s, n, Guarded);
      }
    }
  }

  lemma VacateKeeps(s: State, n: nat)
    requires Inv(s) && s.cur == Some(n) && s.nodes[n].completed
    ensures Inv(s.(cur := None))
  {
    var t := s.(cur := None);
    assert Placed(s, n) && Recorded(s, n) && Attended(s, n);
    PlacesKeep(s, t, n);
    forall m | 0 <= m < |t.nodes| ensures Recorded(t, m) {
      assert Recorded(s, m);
    }
    StillAccounted(s, t);
  }

  function Expire(s: State, n: nat): (t: State)
    requires n < |s.nodes|
    ensures |t.nodes| == |s.nodes|
  {
    if s.nodes[n].completed then s else Complete(s, n, ExpiredSent)
  }

  function Vacate(s: State, n: nat): (t: State)
    ensures |t.nodes| == |s.nodes|
  {
    if s.cur == Some(n) then s.(cur := None) else s
  }

  lemma FinishIs(s: State, n: nat)
    requires n < |s.nodes| && !s.nodes[n].inPending && (s.nodes[n].phase.Woken? || s.nodes[n].phase.Guarded?)
    ensures FinishNode(s, n) == Answer(Vacate(Expire(s, n), n), n)
    ensures Vacate(Expire(s, n), n) == Expire(Vacate(s, n), n)
  {
    assert FinishNode(s, n).nodes == Answer(Vacate(Expire(s, n), n), n).nodes;
  }

  /** A command whose caller has returned from the wait is off the pending
      list, so the removal on the timeout path finds nothing to do. */
  lemma ReturnedIsNotPending(s: State, n: nat)
    requires Inv(s) && n < |s.nodes| && (s.nodes[n].phase.Woken? || s.nodes[n].phase.Guarded?)
    ensures !s.nodes[n].inPending && n !in s.pending
  {
    assert Placed(s, n);
  }

  lemma FinishKeeps(s: State, n: nat)
    requires Inv(s) && n < |s.nodes|
    ensures Inv(FinishNode(s, n))
  {
    var nd := s.nodes[n];
    if nd.phase.Woken? || nd.phase.Guarded? {
      assert Placed(s, n) && Attended(s, n);
      if !nd.completed {
        CompleteKeeps(s, n, ExpiredSent);
      }
      if s.cur == Some(n) {
        VacateKeeps(Expire(s, n), n);
      }
      AnswerKeeps(Vacate(Expire(s, n), n), n);
      FinishIs(s, n);
    }
  }

  lemma ResetKeeps(s: State, n: nat)
    requires Inv(s) && n < |s.nodes|
    ensures Inv(ResetNode(s, n))
  {
    var t := ResetNode(s, n);
    if s.nodes[n].phase.Releasing? {
      assert Placed(s, n);
      PlacesKeep(s, t, n);
      IdsAreIssued(s);
      RecordsKeep(s, t, n, 0);
      StillAccounted(s, t);
    }
  }

  lemma ReleaseKeeps(s: State, n: nat)
    requires Inv(s) && n < |s.nodes|
    ensures Inv(ReleaseNode(s, n))
  {
    var t := ReleaseNode(s, n);
    if s.nodes[n].phase.Cleared? {
      assert Placed(s, n);
      assert forall m :: m in t.free <==> m == n || m in s.free;
      PlacesKeep(s, t, n);
      IdsAreIssued(s);
      RecordsKeep(s, t, n, 0);
      StillAccounted(s, t);
    }
  }

  lemma {:induction false} WithoutLength(q: seq<nat>, n: nat)
    requires Distinct(q)
    ensures |Without(q, n)| == |q| - (if n in q then 1 else 0)
  {
    if q != [] {
      assert q == [q[0]] + q[1..];
      WithoutLength(q[1..], n);
    }
  }

  /** As many distinct numbers below m as there are: all of them. */
  lemma {:induction false} Pigeonhole(q: seq<nat>, m: nat)
    requires Distinct(q) && forall i :: 0 <= i < |q| ==> q[i] < m
    ensures |q| <= m
    ensures |q| == m ==> forall x :: 0 <= x < m ==> x in q
    decreases m
  {
    if m == 0 {
      assert q == [];
    } else {
      var w := Without(q, m - 1);
      WithoutMembers(q, m - 1);
      WithoutDistinct(q, m - 1);
      WithoutLength(q, m - 1);
      WithoutBelow(q, m - 1, m);
      forall i | 0 <= i < |w| ensures w[i] < m - 1 {
        assert w[i] in w;
      }
      Pigeonhole(w, m - 1);
    }
  }

  /** Nothing in use: every node is on the free list and nothing refers to one. */
  lemma IdleMeansAllFree(s: State)
    requires Inv(s) && s.inUse == 0
    ensures s.toDec == 0 && |s.free| == POOL && s.pending == [] && s.cur.None?
    ensures forall n :: 0 <= n < POOL ==> s.nodes[n].phase.Free? && n in s.free
  {
    Pigeonhole(s.free, POOL);
    forall n | 0 <= n < POOL ensures s.nodes[n].phase.Free? && n !in s.pending && s.cur != Some(n) {
      assert Placed(s, n);
    }
    if s.pending != [] {
      SomeMember(s.pending, POOL);
    }
  }

  lemma SomeMember(q: seq<nat>, m: nat)
    requires q != [] && q[0] < m
    ensures exists x :: 0 <= x < m && x in q
  {
    assert q[0] in q;
  }

  lemma BlankNodesKeep(s: State)
    requires s.nodes == seq(POOL, i => BLANK) && s.free == Indices(POOL) && s.pending == [] && s.cur.None?
    ensures NodesKeep(s) && Apart(s.nodes) && forall n :: 0 <= n < |s.nodes| ==> Recorded(s, n)
  {
    forall n | 0 <= n < |s.nodes| ensures s.nodes[n] == BLANK && n in s.free {
      assert Indices(POOL)[n] == n;
    }
  }

  lemma SetupKeeps(s: State)
    requires Inv(s)
    ensures Inv(Apply(s, Setup))
  {
    var t := Apply(s, Setup);
    if t != s {
      IdleMeansAllFree(s);
      BlankNodesKeep(t);
      forall id | 1 <= id <= t.issued ensures Accounted(t, id) {
        assert Accounted(s, id);
      }
    }
  }

  lemma FlagsKeep(s: State, t: State)
    requires Inv(s) && Lists(t)
    requires t == s.(initDone := t.initDone, pool := t.pool, tearing := t.tearing, toDec := t.toDec, inUse := t.inUse)
    ensures Inv(t)
  {
    forall n | 0 <= n < |t.nodes| ensures Placed(t, n) && Attended(t, n) && Recorded(t, n) {
      assert Placed(s, n) && Attended(s, n) && Recorded(s, n);
    }
    StillAccounted(s, t);
  }

  lemma CountsKeep(s: State, a: Action)
    requires Inv(s) && (a.TeardownBegin? || a.TeardownEnd? || a.Decrement?)
    ensures Inv(Apply(s, a))
  {
    Pigeonhole(s.free, POOL);
    FlagsKeep(s, Apply(s, a));
  }

  /** The steps of the caller that holds node n, up to the wait. */
  lemma HolderKeeps(s: State, a: Action)
    requires Inv(s) && (a.Prepare? || a.Drop? || a.Enqueue? || a.WaitEnds?)
    ensures Inv(Apply(s, a))
  {
    if a.n < |s.nodes| {
      match a
      case Prepare(n, code) => PrepareKeeps(s, n, code);
      case Drop(n) => DropKeeps(s, n);
      case Enqueue(n, high, admitted, waits) => EnqueueKeeps(s, n, high, admitted, waits);
      case WaitEnds(n) => EndWaitKeeps(s, n);
    }
  }

  /** And from there on. */
  lemma ReturnKeeps(s: State, a: Action)
    requires Inv(s) && (a.Finish? || a.Reset? || a.Release?)
    ensures Inv(Apply(s, a))
  {
    if a.n < |s.nodes| {
      match a
      case Finish(n) => FinishKeeps(s, n);
      case Reset(n) => ResetKeeps(s, n);
      case Release(n) => ReleaseKeeps(s, n);
    }
  }

  lemma StepKeeps(s: State, a: Action)
    requires Inv(s)
    ensures Inv(Apply(s, a))
  {
    match a
    case Setup => SetupKeeps(s);
    case AbortWaiters => AbortKeeps(s);
    case Take(admitted, skbOk) => TakeKeeps(s, admitted, skbOk);
    case Work(gate, admitted, sendOk) => WorkKeeps(s, gate, admitted, sendOk);
    case Response(code, seqNum) => AddressedKeeps(s, code, seqNum, Responded(code, seqNum));
    case LinkFailure(code, seqNum) => AddressedKeeps(s, code, seqNum, LinkFailed);
    case TeardownBegin => CountsKeep(s, a);
    case TeardownEnd => CountsKeep(s, a);
    case Decrement => CountsKeep(s, a);
    case Finish(n) => ReturnKeeps(s, a);
    case Reset(n) => ReturnKeeps(s, a);
    case Release(n) => ReturnKeeps(s, a);
    case _ => HolderKeeps(s, a);
  }

  lemma BootInv()
    ensures Inv(BOOT)
  {
    BlankNodesKeep(BOOT);
  }

  lemma {:induction false} RunKeeps(s: State, actions: seq<Action>)
    requires Inv(s)
    ensures Inv(Run(s, actions))
    decreases |actions|
  {
    if actions != [] {
      StepKeeps(s, actions[0]);
      RunKeeps(Apply(s, actions[0]), actions[1..]);
    }
  }

  // -------------------------------------------------------------- main results

  /** Every node is on the free list, or on the pending list, or current, or
      in a caller's hands: never two of these, and once at most on a list. */
  lemma OneOwner(actions: seq<Action>, n: nat)
    requires n < POOL
    ensures var s := Run(BOOT, actions);
            && |s.nodes| == POOL && Distinct(s.free) && Distinct(s.pending)
            && (n in s.free ==> n !in s.pending && s.cur != Some(n))
            && (n in s.pending ==> s.cur != Some(n) && s.nodes[n].phase.Waiting?)
            && (n in s.free <==> s.nodes[n].phase.Free?)
  {
    BootInv();
    RunKeeps(BOOT, actions);
    assert Placed(Run(BOOT, actions), n);
  }

  /** The pool is released only when no one holds a node and neither list nor
      the current slot refers to one, and it stays so until the next setup. */
  lemma PoolNeverReleasedUnderAnOwner(actions: seq<Action>)
    ensures var s := Run(BOOT, actions);
            !s.pool ==>
              && |s.nodes| == POOL && s.pending == [] && s.cur.None? && s.toDec == 0
              && forall n :: 0 <= n < POOL ==> s.nodes[n].phase.Free? && n in s.free
  {
    BootInv();
    RunKeeps(BOOT, actions);
    if !Run(BOOT, actions).pool {
      IdleMeansAllFree(Run(BOOT, actions));
    }
  }

  /** A command gets one result at most, and it is the one it completed with. */
  lemma OneResultEach(actions: seq<Action>)
    ensures var s := Run(BOOT, actions);
            && Once(s.completions) && Once(s.answers) && Distinct(s.submitted)
            && (forall i :: 0 <= i < |s.answers| ==> s.answers[i] in s.completions)
            && (forall i :: 0 <= i < |s.dropped| ==> !Has(s.answers, s.dropped[i]))
  {
    BootInv();
    RunKeeps(BOOT, actions);
  }

  /** Once no node is in use, every command ever issued has had its result or
      was dropped by its own caller before it was handed over. */
  lemma EveryCommandAnswered(actions: seq<Action>, id: nat)
    requires var s := Run(BOOT, actions); s.inUse == 0 && 1 <= id <= s.issued
    ensures var s := Run(BOOT, actions); (id in s.dropped) != Has(s.answers, id)
  {
    BootInv();
    RunKeeps(BOOT, actions);
    var s := Run(BOOT, actions);
    IdleMeansAllFree(s);
    assert Accounted(s, id);
  }

  /** A response completes the command with its code and number, after it was
      submitted; a command that expired while pending is never submitted. */
  lemma CompletionsAreSound(actions: seq<Action>, d: Done)
    requires d in Run(BOOT, actions).completions
    ensures var s := Run(BOOT, actions);
            && (d.cause.Responded? ==> d.cause.respCode == d.code && d.cause.respSeq == d.seqNum && d.id in s.submitted)
            && (d.cause.ExpiredUnsent? ==> d.id !in s.submitted)
            && (d.cause.ExpiredSent? ==> d.id in s.submitted)
            && !d.cause.Malformed?
  {
    BootInv();
    RunKeeps(BOOT, actions);
    var s := Run(BOOT, actions);
    var i :| 0 <= i < |s.completions| && s.completions[i] == d;
    assert Sound(s.completions[i], s.submitted, s.issued);
  }

  /** A pending command is not complete and was not submitted; and a caller
      still waiting for a result is pending or current. */
  lemma NoWaiterForgotten(actions: seq<Action>, n: nat)
    requires n < POOL
    ensures var s := Run(BOOT, actions);
            && |s.nodes| == POOL
            && (n in s.pending ==> !s.nodes[n].completed && !s.nodes[n].sent)
            && (s.nodes[n].phase.Waiting? && !s.nodes[n].completed ==> n in s.pending || s.cur == Some(n))
  {
    BootInv();
    RunKeeps(BOOT, actions);
    var s := Run(BOOT, actions);
    assert Placed(s, n) && Attended(s, n);
  }

  lemma AbortCompletes(s: State)
    requires Inv(s)
    ensures var t := Apply(s, AbortWaiters);
            Inv(t) && t.pending == [] && (t.cur.Some? ==> t.nodes[t.cur.value].completed)
  {
    if s.cur.Some? && !s.nodes[s.cur.value].completed {
      CompleteKeeps(s, s.cur.value, ShutDown);
    }
    RetireAllKeeps(AbortCur(s));
  }

  /** After an abort everyone who waits has a result. */
  lemma AbortWakesEveryone(actions: seq<Action>, n: nat)
    requires n < POOL
    ensures var s := Apply(Run(BOOT, actions), AbortWaiters);
            |s.nodes| == POOL && s.pending == [] && (s.nodes[n].phase.Waiting? ==> s.nodes[n].completed)
  {
    BootInv();
    RunKeeps(BOOT, actions);
    AbortCompletes(Run(BOOT, actions));
    var t := Apply(Run(BOOT, actions), AbortWaiters);
    assert Placed(t, n) && Attended(t, n);
  }

  lemma {:induction false} RetireAllGrows(s: State)
    ensures s.completions <= RetireAll(s).completions
    decreases |s.pending|
  {
    if s.pending != [] && s.pending[0] < |s.nodes| {
      WithoutShorter(s.pending, s.pending[0]);
      RetireAllGrows(Retire(s, s.pending[0], ShutDown));
    }
  }

  lemma EnqueueGrows(s: State, n: nat, high: bool, admitted: bool, waits: bool)
    requires n < |s.nodes|
    ensures s.completions <= EnqueueNode(s, n, high, admitted, waits).completions
  {
  }

  lemma EndWaitGrows(s: State, n: nat)
    requires n < |s.nodes|
    ensures s.completions <= EndWait(s, n).completions
  {
  }

  lemma FinishGrows(s: State, n: nat)
    requires n < |s.nodes|
    ensures s.completions <= FinishNode(s, n).completions
  {
  }

  lemma HolderGrows(s: State, a: Action)
    requires a.Prepare? || a.Drop? || a.Enqueue? || a.WaitEnds? || a.Finish? || a.Reset? || a.Release?
    ensures s.completions <= Apply(s, a).completions
  {
    if a.n < |s.nodes| {
      match a
      case Enqueue(n, high, admitted, waits) => EnqueueGrows(s, n, high, admitted, waits);
      case WaitEnds(n) => EndWaitGrows(s, n);
      case Finish(n) => FinishGrows(s, n);
      case _ =>
    }
  }

  lemma StepGrows(s: State, a: Action)
    ensures s.completions <= Apply(s, a).completions
  {
    match a
    case Setup =>
    case AbortWaiters => RetireAllGrows(AbortCur(s));
    case Take(admitted, skbOk) =>
    case Work(gate, admitted, sendOk) =>
    case Response(code, seqNum) =>
    case LinkFailure(code, seqNum) =>
    case TeardownBegin =>
    case TeardownEnd =>
    case Decrement =>
    case _ => HolderGrows(s, a);
  }

  /** A result once recorded is never changed or withdrawn. */
  lemma {:induction false} ResultsAreFinal(s: State, actions: seq<Action>)
    ensures s.completions <= Run(s, actions).completions
    decreases |actions|
  {
    if actions != [] {
      StepGrows(s, actions[0]);
      ResultsAreFinal(Apply(s, actions[0]), actions[1..]);
    }
  }

  // ---------------------------------------------------------------- the driver

  class CommandEngine {
    var nodes: seq<Node>
    var free: seq<nat>
    var pending: seq<nat>
    var cur: Option<nat>
    var initDone: bool
    var pool: bool
    var tearing: bool
    var inUse: int
    var nextSeq: nat
    ghost var toDec: nat
    var issued: nat
    ghost var completions: seq<Done>
    ghost var submitted: seq<nat>
    ghost var answers: seq<Done>
    ghost var dropped: seq<nat>

    ghost function Now(): State
      reads this
    {
      State(nodes, free, pending, cur, initDone, pool, tearing, inUse, toDec, nextSeq,
            issued, completions, submitted, answers, dropped)
    }

    constructor ()
      ensures Now() == BOOT
    {
      nodes, free, pending, cur := seq(POOL, i => BLANK), Indices(POOL), [], None;
      initDone, pool, tearing, inUse, nextSeq := false, false, false, 0, 0;
      toDec, issued, completions, submitted, answers, dropped := 0, 0, [], [], [], [];
    }

    /** esp_commands_setup; the pool loop puts each node on the free list. */
    method SetUp() returns (ok: bool)
      requires Inv(Now()) && !tearing
      modifies this
      ensures Now() == Apply(old(Now()), Setup)
      ensures ok <==> !old(pool) || old(inUse) == 0
    {
      if pool && inUse != 0 {
        return false;
      }
      inUse, pending, cur, nextSeq := 0, [], None, 0;
      nodes := seq(POOL, i => BLANK);
      FillFree(POOL);
      pool, initDone := true, true;
      ok := true;
    }

    /** alloc_esp_cmd_pool: each node in turn. */
    method FillFree(count: nat)
      modifies `free
      ensures free == Indices(count)
    {
      free := [];
      for i := 0 to count
        invariant free == Indices(i)
      {
        free := free + [i];
      }
    }

    method BeginTeardown()
      modifies `initDone, `tearing
      ensures Now() == Apply(old(Now()), TeardownBegin)
    {
      if initDone {
        initDone, tearing := false, true;
      }
    }

    /** The end of the wait for the in-use count: the pool is freed, or kept. */
    method EndTeardown() returns (ok: bool)
      requires tearing
      modifies `pool, `tearing
      ensures Now() == Apply(old(Now()), TeardownEnd) && (ok <==> inUse == 0)
    {
      ok := inUse == 0;
      tearing := false;
      if ok {
        pool := false;
      }
    }

    method SetCompleted(n: nat, cause: Cause)
      requires n < |nodes|
      modifies `nodes, `completions
      ensures Now() == Complete(old(Now()), n, cause)
    {
      nodes := nodes[n := nodes[n].(completed := true, result := cause)];
      completions := completions + [Ended(nodes[n], cause)];
    }

    /** list_del_init from the pending list. */
    method Unlink(n: nat)
      requires n < |nodes|
      modifies `nodes, `pending
      ensures pending == Without(old(pending), n) && nodes == old(nodes)[n := old(nodes)[n].(inPending := false)]
    {
      pending := Without(pending, n);
      nodes := nodes[n := nodes[n].(inPending := false)];
    }

    method RetirePending(n: nat, cause: Cause)
      requires n < |nodes|
      modifies `nodes, `pending, `completions
      ensures Now() == Retire(old(Now()), n, cause)
    {
      Unlink(n);
      SetCompleted(n, cause);
      assert nodes == old(nodes)[n := nodes[n]];
    }

    method AbortCurrent()
      requires Inv(Now())
      modifies `nodes, `completions
      ensures Now() == AbortCur(old(Now())) && Inv(Now())
    {
      if cur.Some? && !nodes[cur.value].completed {
        CompleteKeeps(Now(), cur.value, ShutDown);
        SetCompleted(cur.value, ShutDown);
      }
    }

    /** esp_cmd_abort_waiters */
    method Abort()
      requires Inv(Now())
      modifies `nodes, `pending, `completions
      ensures Now() == Apply(old(Now()), AbortWaiters)
    {
      AbortCurrent();
      while pending != []
        invariant Inv(Now()) && RetireAll(Now()) == RetireAll(AbortCur(old(Now())))
        decreases |pending|
      {
        WithoutShorter(pending, pending[0]);
        RetireKeeps(Now(), pending[0], ShutDown);
        RetirePending(pending[0], ShutDown);
      }
    }

    /** get_free_cmd_node; a node without a buffer goes straight back. */
    method GetFree(admitted: bool, skbOk: bool) returns (r: Option<nat>)
      requires Inv(Now())
      modifies `nodes, `free, `inUse
      ensures Now() == Apply(old(Now()), Take(admitted, skbOk))
      ensures r.Some? <==> initDone && admitted && old(free) != [] && skbOk
      ensures r.Some? ==> r.value in old(free) && r.value !in free && nodes[r.value].phase.Claimed?
    {
      if !initDone || !admitted || free == [] {
        return None;
      }
      var n := free[0];
      free := free[1..];
      inUse := inUse + 1;
      nodes := nodes[n := BLANK.(phase := if skbOk then Claimed else Releasing, skb := skbOk)];
      r := if skbOk then Some(n) else None;
    }

    method NextNumber()
      modifies `nextSeq
      ensures nextSeq == NextSeq(old(nextSeq))
    {
      nextSeq := (nextSeq + 1) % 0x1_0000;
      if nextSeq == 0 {
        nextSeq := 1;
      }
    }

    /** prepare_command_request_for_if: the number, skipping zero. */
    method Number(n: nat, code: nat)
      requires n < |nodes| && nodes[n].phase.Claimed? && code != 0
      modifies `nodes, `nextSeq, `issued
      ensures Now() == Apply(old(Now()), Prepare(n, code))
    {
      NextNumber();
      issued := issued + 1;
      nodes := nodes[n := nodes[n].(phase := Prepared, id := issued, code := code, seqNum := nextSeq)];
    }

    method GiveUp(n: nat)
      requires n < |nodes| && nodes[n].phase.Prepared?
      modifies `nodes, `dropped
      ensures Now() == Apply(old(Now()), Drop(n))
    {
      dropped := dropped + [nodes[n].id];
      nodes := nodes[n := nodes[n].(phase := Releasing)];
    }

    /** queue_cmd_node */
    method Queue(n: nat, high: bool, admitted: bool, waits: bool) returns (ok: bool)
      requires n < |nodes| && nodes[n].phase.Prepared?
      modifies `nodes, `pending, `completions, `answers
      ensures Now() == Apply(old(Now()), Enqueue(n, high, admitted, waits)) && ok == admitted
    {
      ok := admitted;
      if !admitted {
        SetCompleted(n, ShutDown);
        if !waits {
          answers := answers + [Ended(nodes[n], ShutDown)];
        }
        nodes := nodes[n := nodes[n].(phase := if waits then Waiting else Releasing)];
      } else {
        if high {
          pending := [n] + pending;
        } else {
          pending := pending + [n];
        }
        nodes := nodes[n := nodes[n].(phase := Waiting, inPending := true)];
      }
    }

    /** esp_cmd_work */
    method WorkOne(gate: bool, admitted: bool, sendOk: bool)
      requires Inv(Now())
      modifies `nodes, `pending, `cur, `completions, `submitted
      ensures Now() == Apply(old(Now()), Work(gate, admitted, sendOk))
    {
      if !initDone || !gate || cur.Some? || pending == [] {
        return;
      }
      var n := pending[0];
      if !admitted {
        RetirePending(n, ShutDown);
      } else if !nodes[n].skb || nodes[n].code == 0 {
        RetirePending(n, Malformed);
      } else {
        MakeCurrent(n);
        if !sendOk {
          SetCompleted(n, SubmitFailed);
        }
      }
    }

    method MakeCurrent(n: nat)
      requires n < |nodes|
      modifies `nodes, `pending, `cur, `submitted
      ensures Now() == Submit(old(Now()), n)
    {
      Unlink(n);
      cur := Some(n);
      submitted := submitted + [nodes[n].id];
      nodes := nodes[n := nodes[n].(sent := true, skb := false)];
    }

    /** process_cmd_resp under the lock. */
    method Respond(code: nat, seqNum: nat) returns (ok: bool)
      requires Inv(Now())
      modifies `nodes, `completions
      ensures Now() == Apply(old(Now()), Response(code, seqNum))
      ensures ok <==> Addressed(old(Now()), code, seqNum).Some?
    {
      if cur.None? || nodes[cur.value].code != code || nodes[cur.value].seqNum != seqNum || nodes[cur.value].completed {
        return false;
      }
      SetCompleted(cur.value, Responded(code, seqNum));
      ok := true;
    }

    /** esp_cmd_transport_failed */
    method FailTransport(code: nat, seqNum: nat)
      requires Inv(Now())
      modifies `nodes, `completions
      ensures Now() == Apply(old(Now()), LinkFailure(code, seqNum))
    {
      if cur.None? || nodes[cur.value].code != code || nodes[cur.value].seqNum != seqNum || nodes[cur.value].completed {
        return;
      }
      SetCompleted(cur.value, LinkFailed);
    }

    /** esp_cmd_wait_event_guard, when the wait is over. */
    method WaitGuard(n: nat) returns (woken: bool)
      requires n < |nodes| && nodes[n].phase.Waiting?
      modifies `nodes, `pending, `completions
      ensures Now() == Apply(old(Now()), WaitEnds(n)) && woken == old(nodes)[n].completed
    {
      woken := nodes[n].completed;
      if !woken {
        if nodes[n].inPending {
          RetirePending(n, ExpiredUnsent);
        }
      }
      nodes := nodes[n := nodes[n].(phase := if woken then Woken else Guarded)];
    }

    method LeaveSlot(n: nat)
      modifies `cur
      ensures Now() == Vacate(old(Now()), n)
    {
      if cur == Some(n) {
        cur := None;
      }
    }

    method TimeOut(n: nat)
      requires n < |nodes|
      modifies `nodes, `completions
      ensures Now() == Expire(old(Now()), n)
    {
      if !nodes[n].completed {
        SetCompleted(n, ExpiredSent);
      }
    }

    method TakeResult(n: nat) returns (r: Cause)
      requires n < |nodes|
      modifies `nodes, `answers
      ensures Now() == Answer(old(Now()), n) && r == old(nodes)[n].result
    {
      r := nodes[n].result;
      answers := answers + [Ended(nodes[n], r)];
      nodes := nodes[n := nodes[n].(phase := Releasing)];
    }

    /** The locked part of wait_and_decode_cmd_resp. */
    method Decode(n: nat) returns (r: Cause)
      requires Inv(Now()) && n < |nodes| && (nodes[n].phase.Woken? || nodes[n].phase.Guarded?)
      modifies `nodes, `cur, `completions, `answers
      ensures Now() == FinishNode(old(Now()), n)
      ensures r == if old(nodes)[n].completed then old(nodes)[n].result else ExpiredSent
    {
      ReturnedIsNotPending(Now(), n);
      FinishIs(Now(), n);
      LeaveSlot(n);
      TimeOut(n);
      r := TakeResult(n);
    }

    /** reset_cmd_node */
    method Clear(n: nat)
      requires n < |nodes| && nodes[n].phase.Releasing?
      modifies `nodes, `pending
      ensures Now() == Apply(old(Now()), Reset(n))
    {
      if nodes[n].inPending {
        Unlink(n);
      }
      nodes := nodes[n := BLANK.(phase := Cleared)];
    }

    /** recycle_cmd_node: the list first, the count after. */
    method PutBack(n: nat)
      requires n < |nodes| && nodes[n].phase.Cleared?
      modifies `nodes, `free, `toDec
      ensures Now() == Apply(old(Now()), Release(n))
    {
      free := free + [n];
      nodes := nodes[n := BLANK];
      toDec := toDec + 1;
    }

    method DropCount()
      requires toDec > 0
      modifies `inUse, `toDec
      ensures Now() == Apply(old(Now()), Decrement)
    {
      inUse := inUse - 1;
      toDec := toDec - 1;
    }
  }
}
