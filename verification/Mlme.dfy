/** Authentication, association and disconnection staging (host/esp_cmd.c,
    host/esp_cfg80211.c).

    Every action is one critical section under the BSS lock, or one step
    outside it, and any action may come next: cfg80211 runs one command at a
    time, while events, the worker, the timeout, the abort paths and the BSS
    helpers run whenever they like. Sequence numbers are unwrapped. */
module Mlme {
  import opened Wire
  import B = BssRefs

  const AUTH_QUEUE_MAX: nat := 8

  datatype Op = Auth | Assoc | Disconnect

  /** What a command left behind while its outcome or its event is awaited. */
  datatype Slot = Slot(pending: bool, seqNum: nat, awaiting: bool, bssid: nat)

  const CLEAR := Slot(false, 0, false, 0)

  datatype Slots = Slots(auth: Slot, assoc: Slot, disc: Slot, notified: bool, localReq: bool, wdevHeld: bool)

  /** The number of the staged association and of the delivered one. */
  datatype Gens = Gens(staged: nat, conn: nat)

  /** An event frame from the firmware, as received. */
  datatype Event = Event(op: Op, seqNum: nat, bssid: nat, status: nat)

  /** matched: events found to match and not yet staged. taken: events taken
      off the stage and not yet delivered. */
  datatype Queues = Queues(matched: seq<Event>, auth: seq<Event>, assoc: Option<Event>, disc: Option<Event>, taken: seq<Event>)

  /** ownRef: an ASSOC command that found no BSS stored and had one stored. */
  datatype Cmd = Cmd(op: Op, seqNum: nat, bss: nat, ownRef: bool)

  /** The command cfg80211 is running: its sequence section is done; its begin
      section is done; its result is known. */
  datatype Caller = Idle | Entered(cmd: Cmd) | Begun(cmd: Cmd) | Ending(cmd: Cmd, ok: bool)

  /** A frame handed to cfg80211, or a command issued. */
  datatype Rec = Rec(seqNum: nat, bssid: nat, status: nat)

  datatype Log = Log(authCmds: seq<Rec>, assocCmds: seq<Rec>, succeeded: set<nat>,
                     auths: seq<Rec>, assocs: seq<Rec>, remoteDiscs: seq<Rec>, localDiscs: seq<Rec>)

  datatype State = State(m: Slots, g: Gens, q: Queues, caller: Caller, lastSeq: nat, log: Log, refs: B.Refs)

  datatype Action =
    | Issue(issueOp: Op, k: nat, bssid: nat, bss: nat)
    | Begin
    | MarkLocal
    | CommandDone(ok: bool)
    | UnmarkLocal
    | End
    | AfterDisconnect(sync: bool)
    | Arrive(event: Event)
    | Stage(i: nat, copied: bool)
    | Flush(cleanup: bool)
    | Deliver(j: nat, bssPresent: bool)
    | TimeUp
    | Cancel(cancelCleanup: bool)
    | ClearAuth
    | ClearAssoc
    | RetireStaged
    | RetireLocal(connected: bool)
    | CallPutBss
    | HelperStep(h: nat)

  function RemoveAt(q: seq<Event>, i: nat): seq<Event>
    requires i < |q|
  {
    q[..i] + q[i + 1..]
  }

  // ------------------------------------------------------------- the commands

  /** AUTH and ASSOC are refused while an earlier one is open. */
  predicate Refused(m: Slots, op: Op) {
    match op
    case Auth => m.auth.pending || m.auth.awaiting
    case Assoc => m.assoc.pending || m.assoc.awaiting
    case Disconnect => false
  }

  predicate Enters(s: State, op: Op, k: nat) {
    s.caller.Idle? && k > s.lastSeq && !Refused(s.m, op)
  }

  function NeedsRef(s: State, op: Op): bool {
    op.Assoc? && s.refs.store.bss.None?
  }

  /** The section of a command that records its number. */
  function IssueCmd(s: State, op: Op, k: nat, bssid: nat, bss: nat): State {
    if !s.caller.Idle? || k <= s.lastSeq then s
    else if Refused(s.m, op) then s.(lastSeq := k)
    else
      var t := s.(lastSeq := k, caller := Entered(Cmd(op, k, bss, NeedsRef(s, op))));
      match op
      case Auth => t.(m := s.m.(auth := s.m.auth.(seqNum := k, bssid := bssid)),
                      log := s.log.(authCmds := s.log.authCmds + [Rec(k, bssid, 0)]))
      case Assoc => t.(m := s.m.(assoc := s.m.assoc.(seqNum := k, bssid := bssid, pending := true)),
                       log := s.log.(assocCmds := s.log.assocCmds + [Rec(k, bssid, 0)]))
      case Disconnect => t.(m := s.m.(disc := s.m.disc.(seqNum := k, bssid := bssid), localReq := true))
  }

  /** The slots after esp_mlme_begin. */
  function BeginSlots(m: Slots, op: Op): Slots {
    match op
    case Auth => m.(wdevHeld := true, auth := m.auth.(pending := true, awaiting := false))
    case Assoc => m.(wdevHeld := true, notified := false)
    case Disconnect => m.(wdevHeld := true, disc := m.disc.(pending := true, awaiting := false))
  }

  function BeginCmd(s: State): State {
    if s.caller.Entered? then s.(m := BeginSlots(s.m, s.caller.cmd.op), caller := Begun(s.caller.cmd)) else s
  }

  /** What esp_mlme_end drops when a command failed. */
  function DropOnFailure(s: State, op: Op): State {
    match op
    case Auth => s.(q := s.q.(auth := []), m := s.m.(auth := CLEAR))
    case Assoc => s.(q := s.q.(assoc := None), g := s.g.(staged := 0),
                     m := s.m.(notified := false, assoc := s.m.assoc.(awaiting := false)))
    case Disconnect => s
  }

  /** The result is known; on failure the staged event goes first. */
  function FinishCmd(s: State, ok: bool): State {
    if !s.caller.Begun? then s
    else
      var t := s.(caller := Ending(s.caller.cmd, ok));
      if ok then t.(log := s.log.(succeeded := s.log.succeeded + {s.caller.cmd.seqNum}))
      else DropOnFailure(t, s.caller.cmd.op)
  }

  function CloseSlots(m: Slots, op: Op, ok: bool): Slots {
    match op
    case Auth => m.(wdevHeld := false, auth := m.auth.(pending := false, awaiting := ok))
    case Assoc => m.(wdevHeld := false, assoc := m.assoc.(pending := false, awaiting := ok && !m.notified && m.assoc.seqNum != 0))
    case Disconnect => m.(wdevHeld := false, disc := m.disc.(pending := false, awaiting := ok))
  }

  /** The last section of esp_mlme_end. */
  function EndCmd(s: State): State {
    if s.caller.Ending? then s.(m := CloseSlots(s.m, s.caller.cmd.op, s.caller.ok), caller := Idle) else s
  }

  function NoLocal(c: Slot): Slot {
    c.(awaiting := false, seqNum := 0, bssid := 0)
  }

  /** What cmd_disconnect_request does once its command has succeeded. */
  function AfterDisc(s: State, sync: bool): State {
    if sync then s.(m := s.m.(localReq := false, disc := NoLocal(s.m.disc)), g := s.g.(conn := 0))
    else if !s.m.localReq then s.(m := s.m.(disc := s.m.disc.(awaiting := false))) else s
  }

  // --------------------------------------------------------------- the events

  /** A disconnect event answers the local command, or ends the association
      that is delivered or staged. Some(true) means local. */
  function DiscMatch(m: Slots, g: Gens, seqNum: nat): Option<bool> {
    if (m.disc.pending || m.disc.awaiting) && m.disc.seqNum != 0 && seqNum == m.disc.seqNum then Some(true)
    else if (g.conn != 0 && seqNum == g.conn) || (g.staged != 0 && seqNum == g.staged) then Some(false)
    else if m.localReq && (m.disc.pending || m.disc.awaiting) && m.disc.seqNum == 0 then Some(true)
    else None
  }

  predicate SlotMatch(c: Slot, e: Event) {
    (c.pending || c.awaiting) && c.seqNum != 0 && e.seqNum == c.seqNum && e.bssid == c.bssid
  }

  predicate EventMatches(s: State, e: Event) {
    match e.op
    case Auth => SlotMatch(s.m.auth, e)
    case Assoc => SlotMatch(s.m.assoc, e)
    case Disconnect => DiscMatch(s.m, s.g, e.seqNum).Some?
  }

  /** The wait for a slot's event is over without one. */
  function Abandoned(c: Slot): Slot {
    c.(awaiting := false, pending := false, seqNum := 0)
  }

  /** esp_mlme_stage_event */
  function StageEvent(s: State, e: Event, copied: bool): State {
    match e.op
    case Auth =>
      if !copied then s.(m := s.m.(auth := Abandoned(s.m.auth)))
      else if |s.q.auth| < AUTH_QUEUE_MAX then s.(q := s.q.(auth := s.q.auth + [e]))
      else s
    case Assoc =>
      if !copied then s.(m := s.m.(assoc := Abandoned(s.m.assoc)), g := s.g.(staged := 0))
      else if s.q.assoc.None? then s.(q := s.q.(assoc := Some(e)), g := s.g.(staged := s.m.assoc.seqNum))
      else s
    case Disconnect =>
      if !copied then s.(m := s.m.(disc := Abandoned(s.m.disc)))
      else if s.q.disc.None? then s.(q := s.q.(disc := Some(e)))
      else s
  }

  /** esp_auth_splice_guard: what leaves the queue, and what stays. */
  function Splice(c: Slot, auth: seq<Event>, cleanup: bool): (r: (seq<Event>, seq<Event>))
    ensures |r.1| <= |auth|
  {
    if c.pending && !cleanup then ([], auth)
    else if !c.awaiting then ([], [])
    else (auth, [])
  }

  function Opt(e: Option<Event>): seq<Event> {
    if e.Some? then [e.value] else []
  }

  /** The first section of esp_mlme_flush_staged. */
  function FlushStaged(s: State, cleanup: bool): State {
    var (gone, kept) := Splice(s.m.auth, s.q.auth, cleanup);
    s.(q := Queues(s.q.matched, kept, None, None, s.q.taken + gone + Opt(s.q.assoc) + Opt(s.q.disc)))
  }

  predicate AuthDeliverable(c: Slot, e: Event) {
    c.awaiting && c.seqNum != 0 && e.seqNum == c.seqNum && e.bssid == c.bssid
  }

  function DeliverAuth(s: State, e: Event): State {
    if !AuthDeliverable(s.m.auth, e) then s
    else s.(m := s.m.(auth := s.m.auth.(awaiting := false, seqNum := 0, bssid := 0)),
            log := s.log.(auths := s.log.auths + [Rec(e.seqNum, e.bssid, 0)]))
  }

  /** A status of zero makes the association current. bssPresent: cfg80211
      holds a connection. */
  function NextGen(assocSeq: nat, conn: nat, status: nat, bssPresent: bool): nat {
    if status == 0 then assocSeq else if !bssPresent then 0 else conn
  }

  function DeliverAssoc(s: State, e: Event, bssPresent: bool): State {
    if !SlotMatch(s.m.assoc, e) then s
    else s.(m := s.m.(assoc := CLEAR, notified := true),
            g := Gens(0, NextGen(s.m.assoc.seqNum, s.g.conn, e.status, bssPresent)),
            log := s.log.(assocs := s.log.assocs + [Rec(e.seqNum, e.bssid, e.status)]))
  }

  function LogDisc(log: Log, local: bool, d: Rec): Log {
    if local then log.(localDiscs := log.localDiscs + [d]) else log.(remoteDiscs := log.remoteDiscs + [d])
  }

  function DeliverDisc(s: State, e: Event): State {
    var local := DiscMatch(s.m, s.g, e.seqNum);
    if local.None? then s
    else s.(m := s.m.(localReq := false, disc := NoLocal(s.m.disc), assoc := s.m.assoc.(awaiting := false, seqNum := 0)),
            g := Gens(0, 0), q := s.q.(assoc := None),
            log := LogDisc(s.log, local.value, Rec(e.seqNum, e.bssid, 0)))
  }

  function DeliverEvent(s: State, e: Event, bssPresent: bool): State {
    match e.op
    case Auth => DeliverAuth(s, e)
    case Assoc => DeliverAssoc(s, e, bssPresent)
    case Disconnect => DeliverDisc(s, e)
  }

  function Expired(c: Slot): Slot {
    if c.awaiting then Abandoned(c) else c
  }

  /** esp_mlme_timeout_work */
  function Timeout(s: State): State {
    s.(m := s.m.(auth := Expired(s.m.auth), assoc := Expired(s.m.assoc), disc := Expired(s.m.disc)),
       g := if s.m.assoc.awaiting then s.g.(staged := 0) else s.g)
  }

  /** The section of esp_mlme_cancel; what it takes from the queues is freed. */
  function CancelAll(s: State, cleanup: bool): State {
    s.(q := s.q.(auth := Splice(s.m.auth, s.q.auth, cleanup).1, assoc := None, disc := None),
       g := Gens(0, 0),
       m := Slots(s.m.auth.(awaiting := false, pending := false), s.m.assoc.(awaiting := false),
                  NoLocal(s.m.disc).(pending := false), s.m.notified, false, false))
  }

  function ClearAssocPending(s: State): State {
    s.(m := s.m.(assoc := CLEAR, notified := false), g := s.g.(staged := 0), q := s.q.(assoc := None))
  }

  /** The first section of esp_retire_stale_disconnect_generation: a staged
      disconnect is taken for delivery, a staged association is dropped, each
      unless a command of its kind is pending. */
  function RetireStage(s: State): State {
    var t := if s.m.disc.pending then s else s.(q := s.q.(disc := None, taken := s.q.taken + Opt(s.q.disc)));
    if s.m.assoc.pending then t
    else t.(m := s.m.(assoc := s.m.assoc.(awaiting := false)), g := s.g.(staged := 0), q := t.q.(assoc := None))
  }

  /** Its second section. */
  function RetireDisc(s: State, connected: bool): State {
    if s.m.disc.pending then s
    else s.(m := s.m.(localReq := false, disc := NoLocal(s.m.disc)), g := if connected then s.g else s.g.(conn := 0))
  }

  // ----------------------------------------------------- the BSS that goes along

  /** What a step does to the stored BSS: a helper it calls, a reference that
      cfg80211 gives with a successful association, or the hand-over. */
  function BssAction(s: State, a: Action): Option<B.Action> {
    match a
    case Issue(op, k, bssid, bss) => if Enters(s, op, k) && NeedsRef(s, op) then Some(B.CallRef(bss)) else None
    case End =>
      if !s.caller.Ending? then None
      else
        var c := s.caller.cmd;
        if c.op.Auth? && s.caller.ok then Some(B.CallRef(c.bss))
        else if c.op.Assoc? && s.caller.ok then Some(B.Give(c.bss))
        else if c.op.Assoc? && c.ownRef then Some(B.CallPut)
        else None
    case AfterDisconnect(sync) => if sync then Some(B.CallPut) else None
    case Deliver(j, bssPresent) =>
      if j >= |s.q.taken| then None
      else
        var e := s.q.taken[j];
        if e.op.Assoc? && SlotMatch(s.m.assoc, e) then Some(B.HandOver)
        else if e.op.Disconnect? && DiscMatch(s.m, s.g, e.seqNum).Some? then Some(B.CallPut)
        else None
    case TimeUp => if s.m.disc.awaiting then Some(B.CallPut) else None
    case CallPutBss => Some(B.CallPut)
    case HelperStep(h) => Some(B.Step(h, s.m.assoc.pending || s.m.assoc.awaiting))
    case _ => None
  }

  function CommandStep(s: State, a: Action): State {
    match a
    case Issue(op, k, bssid, bss) => IssueCmd(s, op, k, bssid, bss)
    case Begin => BeginCmd(s)
    case MarkLocal => if s.caller.Begun? && s.caller.cmd.op.Disconnect? then s.(m := s.m.(localReq := true)) else s
    case CommandDone(ok) => FinishCmd(s, ok)
    case UnmarkLocal => s.(m := s.m.(localReq := false))
    case End => EndCmd(s)
    case AfterDisconnect(sync) => AfterDisc(s, sync)
    case _ => s
  }

  function EventStep(s: State, a: Action): State {
    match a
    case Arrive(e) => if EventMatches(s, e) then s.(q := s.q.(matched := s.q.matched + [e])) else s
    case Stage(i, copied) =>
      if i >= |s.q.matched| then s
      else StageEvent(s.(q := s.q.(matched := RemoveAt(s.q.matched, i))), s.q.matched[i], copied)
    case Flush(cleanup) => FlushStaged(s, cleanup)
    case Deliver(j, bssPresent) =>
      if j >= |s.q.taken| then s
      else DeliverEvent(s.(q := s.q.(taken := RemoveAt(s.q.taken, j))), s.q.taken[j], bssPresent)
    case TimeUp => Timeout(s)
    case Cancel(cleanup) => CancelAll(s, cleanup)
    case ClearAuth => s.(m := s.m.(auth := CLEAR))
    case ClearAssoc => ClearAssocPending(s)
    case RetireStaged => RetireStage(s)
    case RetireLocal(connected) => RetireDisc(s, connected)
    case _ => s
  }

  predicate IsCommand(a: Action) {
    a.Issue? || a.Begin? || a.MarkLocal? || a.CommandDone? || a.UnmarkLocal? || a.End? || a.AfterDisconnect?
  }

  function LocalStep(s: State, a: Action): State {
    if IsCommand(a) then CommandStep(s, a) else EventStep(s, a)
  }

  function RefsAfter(s: State, a: Action): B.Refs {
    var x := BssAction(s, a);
    if x.Some? then B.Apply(s.refs, x.value) else s.refs
  }

  function Apply(s: State, a: Action): State {
    LocalStep(s, a).(refs := RefsAfter(s, a))
  }

  function Run(s: State, actions: seq<Action>): State
    decreases |actions|
  {
    if actions == [] then s else Run(Apply(s, actions[0]), actions[1..])
  }

  const NEW := State(Slots(CLEAR, CLEAR, CLEAR, false, false, false), Gens(0, 0), Queues([], [], None, None, []), Idle, 0,
                     Log([], [], {}, [], [], [], []), B.NONE)

  // ---------------------------------------------------------------- invariant

  predicate Has(list: seq<Rec>, k: nat) {
    exists i :: 0 <= i < |list| && list[i].seqNum == k
  }

  predicate Once(list: seq<Rec>) {
    forall i, j :: 0 <= i < j < |list| ==> list[i].seqNum != list[j].seqNum
  }

  predicate UpTo(list: seq<Rec>, n: nat) {
    forall i :: 0 <= i < |list| ==> 1 <= list[i].seqNum <= n
  }

  /** The last association delivered with status zero; 0 when there is none. */
  function LastSuccess(list: seq<Rec>): nat {
    if list == [] then 0
    else if list[|list| - 1].status == 0 then list[|list| - 1].seqNum
    else LastSuccess(list[..|list| - 1])
  }

  /** Asked for by a command with this number and BSSID. */
  predicate Commanded(cmds: seq<Rec>, r: Rec) {
    Rec(r.seqNum, r.bssid, 0) in cmds
  }

  /** The open AUTH command, if any, is one that was issued and not yet
      delivered; and its event is awaited only after it succeeded. */
  predicate AuthSlotOk(c: Slot, caller: Caller, log: Log) {
    && (c.seqNum != 0 ==> Rec(c.seqNum, c.bssid, 0) in log.authCmds && !Has(log.auths, c.seqNum))
    && (c.awaiting && c.seqNum != 0 ==> c.seqNum in log.succeeded)
    && (!caller.Idle? && caller.cmd.op.Auth? ==> !c.awaiting && (c.seqNum == 0 || c.seqNum == caller.cmd.seqNum))
    && (caller.Ending? && caller.ok ==> caller.cmd.seqNum in log.succeeded)
  }

  predicate AssocSlotOk(c: Slot, log: Log) {
    c.seqNum != 0 ==>
      && Rec(c.seqNum, c.bssid, 0) in log.assocCmds && Has(log.assocCmds, c.seqNum)
      && !Has(log.assocs, c.seqNum) && !Has(log.remoteDiscs, c.seqNum)
  }

  predicate GensOk(g: Gens, log: Log) {
    && (g.conn != 0 ==> g.conn == LastSuccess(log.assocs) && Has(log.assocCmds, g.conn) && !Has(log.remoteDiscs, g.conn))
    && (g.staged != 0 ==> Has(log.assocCmds, g.staged) && !Has(log.remoteDiscs, g.staged))
  }

  predicate AuthLogOk(log: Log) {
    && Once(log.authCmds) && Once(log.auths)
    && (forall i :: 0 <= i < |log.auths| ==> Commanded(log.authCmds, log.auths[i]))
    && (forall i :: 0 <= i < |log.auths| ==> log.auths[i].seqNum in log.succeeded)
  }

  predicate AssocLogOk(log: Log) {
    && Once(log.assocCmds) && Once(log.assocs)
    && (forall i :: 0 <= i < |log.assocs| ==> Commanded(log.assocCmds, log.assocs[i]))
  }

  predicate DiscLogOk(log: Log) {
    && Once(log.remoteDiscs)
    && (forall i :: 0 <= i < |log.remoteDiscs| ==> Has(log.assocCmds, log.remoteDiscs[i].seqNum))
  }

  predicate NumbersOk(log: Log, last: nat) {
    && UpTo(log.authCmds, last) && UpTo(log.assocCmds, last)
    && UpTo(log.auths, last) && UpTo(log.assocs, last) && UpTo(log.remoteDiscs, last)
  }

  predicate LogOk(log: Log, last: nat) {
    AuthLogOk(log) && AssocLogOk(log) && DiscLogOk(log) && NumbersOk(log, last)
  }

  predicate Core(s: State) {
    && AuthSlotOk(s.m.auth, s.caller, s.log) && AssocSlotOk(s.m.assoc, s.log)
    && GensOk(s.g, s.log) && LogOk(s.log, s.lastSeq)
  }

  // -------------------------------------------------------- the log, on its own

  lemma HasAppend(list: seq<Rec>, r: Rec)
    ensures forall k :: Has(list + [r], k) <==> Has(list, k) || k == r.seqNum
  {
    forall k ensures Has(list + [r], k) <==> Has(list, k) || k == r.seqNum {
      if Has(list, k) {
        var i :| 0 <= i < |list| && list[i].seqNum == k;
        assert (list + [r])[i].seqNum == k;
      }
      assert (list + [r])[|list|] == r;
    }
  }

  lemma LastAppend(list: seq<Rec>, r: Rec)
    ensures LastSuccess(list + [r]) == if r.status == 0 then r.seqNum else LastSuccess(list)
  {
    assert (list + [r])[..|list|] == list;
  }

  lemma UnknownAbove(list: seq<Rec>, last: nat, k: nat)
    requires UpTo(list, last) && k > last
    ensures !Has(list, k)
  {
  }

  lemma NumbersGrow(log: Log, last: nat, k: nat)
    requires LogOk(log, last) && k >= last
    ensures LogOk(log, k)
  {
  }

  lemma LogAuthCmd(log: Log, k: nat, r: Rec)
    requires LogOk(log, k) && 1 <= r.seqNum <= k && !Has(log.authCmds, r.seqNum)
    ensures LogOk(log.(authCmds := log.authCmds + [r]), k)
  {
    forall i | 0 <= i < |log.auths| ensures Commanded(log.authCmds + [r], log.auths[i]) {
      assert Commanded(log.authCmds, log.auths[i]);
    }
  }

  lemma LogAssocCmd(log: Log, k: nat, r: Rec)
    requires LogOk(log, k) && 1 <= r.seqNum <= k && !Has(log.assocCmds, r.seqNum)
    ensures LogOk(log.(assocCmds := log.assocCmds + [r]), k)
  {
    HasAppend(log.assocCmds, r);
    forall i | 0 <= i < |log.assocs| ensures Commanded(log.assocCmds + [r], log.assocs[i]) {
      assert Commanded(log.assocCmds, log.assocs[i]);
    }
  }

  lemma CommandedNumber(cmds: seq<Rec>, last: nat, r: Rec)
    requires UpTo(cmds, last) && Commanded(cmds, r)
    ensures 1 <= r.seqNum <= last
  {
    var i :| 0 <= i < |cmds| && cmds[i] == Rec(r.seqNum, r.bssid, 0);
  }

  lemma LogAuth(log: Log, last: nat, r: Rec)
    requires LogOk(log, last) && Commanded(log.authCmds, r) && r.seqNum in log.succeeded && !Has(log.auths, r.seqNum)
    ensures LogOk(log.(auths := log.auths + [r]), last)
  {
    CommandedNumber(log.authCmds, last, r);
  }

  lemma LogAssoc(log: Log, last: nat, r: Rec)
    requires LogOk(log, last) && Commanded(log.assocCmds, r) && !Has(log.assocs, r.seqNum)
    ensures LogOk(log.(assocs := log.assocs + [r]), last)
  {
    CommandedNumber(log.assocCmds, last, r);
  }

  lemma LogRemote(log: Log, last: nat, r: Rec)
    requires LogOk(log, last) && Has(log.assocCmds, r.seqNum) && !Has(log.remoteDiscs, r.seqNum)
    ensures LogOk(log.(remoteDiscs := log.remoteDiscs + [r]), last)
  {
    var i :| 0 <= i < |log.assocCmds| && log.assocCmds[i].seqNum == r.seqNum;
  }

  lemma MoreSucceeded(log: Log, last: nat, k: nat)
    requires LogOk(log, last)
    ensures LogOk(log.(succeeded := log.succeeded + {k}), last)
  {
  }

  // ------------------------------------------------------------- preservation

  /** c as it was, but no longer awaited or without its number. */
  predicate Shrunk(c: Slot, d: Slot) {
    (d.awaiting ==> c.awaiting) && (d.seqNum == 0 || (d.seqNum == c.seqNum && d.bssid == c.bssid))
  }

  /** Slots may lose their number, and generations be forgotten, at any time. */
  predicate Faded(s: State, t: State) {
    && t.log == s.log && t.lastSeq == s.lastSeq && t.caller == s.caller
    && Shrunk(s.m.auth, t.m.auth) && Shrunk(s.m.assoc.(awaiting := true), t.m.assoc)
    && (t.g.conn == 0 || t.g.conn == s.g.conn)
    && (t.g.staged == 0 || t.g.staged == s.g.staged || t.g.staged == s.m.assoc.seqNum)
  }

  lemma FadedKeeps(s: State, t: State)
    requires Core(s) && Faded(s, t)
    ensures Core(t)
  {
  }

  lemma IssueAuthKeeps(s: State, k: nat, bssid: nat, bss: nat)
    requires Core(s) && Enters(s, Auth, k)
    ensures Core(IssueCmd(s, Auth, k, bssid, bss))
  {
    NumbersGrow(s.log, s.lastSeq, k);
    UnknownAbove(s.log.auths, s.lastSeq, k);
    UnknownAbove(s.log.authCmds, s.lastSeq, k);
    LogAuthCmd(s.log, k, Rec(k, bssid, 0));
    assert (s.log.authCmds + [Rec(k, bssid, 0)])[|s.log.authCmds|] == Rec(k, bssid, 0);
  }

  lemma IssueAssocKeeps(s: State, k: nat, bssid: nat, bss: nat)
    requires Core(s) && Enters(s, Assoc, k)
    ensures Core(IssueCmd(s, Assoc, k, bssid, bss))
  {
    NumbersGrow(s.log, s.lastSeq, k);
    UnknownAbove(s.log.assocs, s.lastSeq, k);
    UnknownAbove(s.log.remoteDiscs, s.lastSeq, k);
    UnknownAbove(s.log.assocCmds, s.lastSeq, k);
    LogAssocCmd(s.log, k, Rec(k, bssid, 0));
    HasAppend(s.log.assocCmds, Rec(k, bssid, 0));
    assert (s.log.assocCmds + [Rec(k, bssid, 0)])[|s.log.assocCmds|] == Rec(k, bssid, 0);
  }

  lemma IssueKeeps(s: State, op: Op, k: nat, bssid: nat, bss: nat)
    requires Core(s)
    ensures Core(IssueCmd(s, op, k, bssid, bss))
  {
    if s.caller.Idle? && k > s.lastSeq {
      NumbersGrow(s.log, s.lastSeq, k);
      if !Refused(s.m, op) {
        if op.Auth? {
          IssueAuthKeeps(s, k, bssid, bss);
        } else if op.Assoc? {
          IssueAssocKeeps(s, k, bssid, bss);
        }
      }
    }
  }

  lemma BeginKeeps(s: State)
    requires Core(s)
    ensures Core(BeginCmd(s))
  {
    if s.caller.Entered? {
      var m := BeginSlots(s.m, s.caller.cmd.op);
      assert m.assoc == s.m.assoc && m.auth.seqNum == s.m.auth.seqNum && m.auth.bssid == s.m.auth.bssid;
    }
  }

  lemma SucceedKeeps(s: State)
    requires Core(s) && s.caller.Begun?
    ensures Core(FinishCmd(s, true))
  {
    MoreSucceeded(s.log, s.lastSeq, s.caller.cmd.seqNum);
  }

  lemma FailKeeps(s: State)
    requires Core(s) && s.caller.Begun?
    ensures Core(FinishCmd(s, false))
  {
    var mid := s.(caller := Ending(s.caller.cmd, false));
    assert Core(mid);
    FadedKeeps(mid, FinishCmd(s, false));
  }

  lemma EndKeeps(s: State)
    requires Core(s)
    ensures Core(EndCmd(s))
  {
    if s.caller.Ending? {
      var m := CloseSlots(s.m, s.caller.cmd.op, s.caller.ok);
      assert m.assoc.seqNum == s.m.assoc.seqNum && m.assoc.bssid == s.m.assoc.bssid;
      assert m.auth.seqNum == s.m.auth.seqNum && m.auth.bssid == s.m.auth.bssid;
    }
  }

  lemma CommandsKeep(s: State, a: Action)
    requires Core(s) && IsCommand(a)
    ensures Core(CommandStep(s, a))
  {
    match a
    case Issue(op, k, bssid, bss) => IssueKeeps(s, op, k, bssid, bss);
    case Begin => BeginKeeps(s);
    case CommandDone(ok) =>
      if s.caller.Begun? {
        if ok { SucceedKeeps(s); } else { FailKeeps(s); }
      }
    case End => EndKeeps(s);
    case _ => FadedKeeps(s, CommandStep(s, a));
  }

  lemma DeliverAuthKeeps(s: State, e: Event)
    requires Core(s)
    ensures Core(DeliverAuth(s, e))
  {
    if AuthDeliverable(s.m.auth, e) {
      LogAuth(s.log, s.lastSeq, Rec(e.seqNum, e.bssid, 0));
    }
  }

  lemma DeliverAssocKeeps(s: State, e: Event, bssPresent: bool)
    requires Core(s)
    ensures Core(DeliverAssoc(s, e, bssPresent))
  {
    if SlotMatch(s.m.assoc, e) {
      LastAppend(s.log.assocs, Rec(e.seqNum, e.bssid, e.status));
      LogAssoc(s.log, s.lastSeq, Rec(e.seqNum, e.bssid, e.status));
    }
  }

  lemma DeliverDiscKeeps(s: State, e: Event)
    requires Core(s)
    ensures Core(DeliverDisc(s, e))
  {
    if DiscMatch(s.m, s.g, e.seqNum) == Some(false) {
      LogRemote(s.log, s.lastSeq, Rec(e.seqNum, e.bssid, 0));
    }
  }

  lemma DeliverKeeps(s: State, e: Event, bssPresent: bool)
    requires Core(s)
    ensures Core(DeliverEvent(s, e, bssPresent))
  {
    match e.op
    case Auth => DeliverAuthKeeps(s, e);
    case Assoc => DeliverAssocKeeps(s, e, bssPresent);
    case Disconnect => DeliverDiscKeeps(s, e);
  }

  lemma StageFades(s: State, e: Event, copied: bool)
    ensures Faded(s, StageEvent(s, e, copied))
  {
  }

  /** All other steps only clear. */
  lemma EventFades(s: State, a: Action)
    requires !IsCommand(a) && !a.Deliver? && !a.Stage?
    ensures Faded(s, EventStep(s, a))
  {
  }

  lemma EventsKeep(s: State, a: Action)
    requires Core(s) && !IsCommand(a)
    ensures Core(EventStep(s, a))
  {
    if a.Deliver? {
      if a.j < |s.q.taken| {
        DeliverKeeps(s.(q := s.q.(taken := RemoveAt(s.q.taken, a.j))), s.q.taken[a.j], a.bssPresent);
      }
    } else if a.Stage? {
      if a.i < |s.q.matched| {
        var mid := s.(q := s.q.(matched := RemoveAt(s.q.matched, a.i)));
        StageFades(mid, s.q.matched[a.i], a.copied);
        FadedKeeps(mid, EventStep(s, a));
      }
    } else {
      EventFades(s, a);
      FadedKeeps(s, EventStep(s, a));
    }
  }

  lemma CoreKeeps(s: State, a: Action)
    requires Core(s)
    ensures Core(Apply(s, a))
  {
    if IsCommand(a) {
      CommandsKeep(s, a);
    } else {
      EventsKeep(s, a);
    }
  }

  lemma RefsKeep(s: State, a: Action)
    requires B.Inv(s.refs)
    ensures B.Inv(RefsAfter(s, a))
  {
    var x := BssAction(s, a);
    if x.Some? {
      B.ActionKeeps(s.refs, x.value);
    }
  }

  lemma CommandQueue(s: State, a: Action)
    requires IsCommand(a)
    ensures |CommandStep(s, a).q.auth| <= |s.q.auth|
  {
  }

  lemma DeliverQueue(s: State, e: Event, bssPresent: bool)
    ensures DeliverEvent(s, e, bssPresent).q.auth == s.q.auth
  {
  }

  lemma QueueKeeps(s: State, a: Action)
    requires |s.q.auth| <= AUTH_QUEUE_MAX
    ensures |LocalStep(s, a).q.auth| <= AUTH_QUEUE_MAX
  {
    if IsCommand(a) {
      CommandQueue(s, a);
    } else if a.Deliver? && a.j < |s.q.taken| {
      DeliverQueue(s.(q := s.q.(taken := RemoveAt(s.q.taken, a.j))), s.q.taken[a.j], a.bssPresent);
    }
  }

  ghost predicate Inv(s: State) {
    Core(s) && B.Inv(s.refs) && |s.q.auth| <= AUTH_QUEUE_MAX
  }

  lemma {:induction false} RunKeeps(s: State, actions: seq<Action>)
    requires Inv(s)
    ensures Inv(Run(s, actions))
    decreases |actions|
  {
    if actions != [] {
      CoreKeeps(s, actions[0]);
      RefsKeep(s, actions[0]);
      QueueKeeps(s, actions[0]);
      RunKeeps(Apply(s, actions[0]), actions[1..]);
    }
  }

  lemma NewInv()
    ensures Inv(NEW)
  {
    B.NoneKeeps();
  }

  // -------------------------------------------------------------- main results

  /** In every run each AUTH command has a number of its own and leads to one
      delivered frame at most, with its number and BSSID, and only after the
      command succeeded. */
  lemma AuthDeliveredOnce(actions: seq<Action>)
    ensures var log := Run(NEW, actions).log;
            && Once(log.authCmds) && Once(log.auths)
            && forall i :: 0 <= i < |log.auths| ==>
                 Commanded(log.authCmds, log.auths[i]) && log.auths[i].seqNum in log.succeeded
  {
    NewInv();
    RunKeeps(NEW, actions);
  }

  lemma {:induction false} LastSuccessIsDelivered(list: seq<Rec>)
    ensures LastSuccess(list) != 0 ==> exists i :: 0 <= i < |list| && list[i].seqNum == LastSuccess(list) && list[i].status == 0
  {
    if list != [] && list[|list| - 1].status != 0 {
      LastSuccessIsDelivered(list[..|list| - 1]);
    }
  }

  /** Each ASSOC command has a number of its own and leads to one delivered
      frame at most, with its number and BSSID; and a nonzero connection generation is the number of the last
      association delivered with status zero. */
  lemma AssocDeliveredOnce(actions: seq<Action>)
    ensures var s := Run(NEW, actions);
            && Once(s.log.assocCmds) && Once(s.log.assocs)
            && (forall i :: 0 <= i < |s.log.assocs| ==> Commanded(s.log.assocCmds, s.log.assocs[i]))
            && (s.g.conn != 0 ==>
                  && s.g.conn == LastSuccess(s.log.assocs)
                  && exists i :: 0 <= i < |s.log.assocs| && s.log.assocs[i].seqNum == s.g.conn && s.log.assocs[i].status == 0)
  {
    NewInv();
    RunKeeps(NEW, actions);
    LastSuccessIsDelivered(Run(NEW, actions).log.assocs);
  }

  /** An association is ended from the other side at most once, and only one
      this driver asked for. */
  lemma RemoteDisconnectOnce(actions: seq<Action>)
    ensures var log := Run(NEW, actions).log;
            && Once(log.remoteDiscs)
            && forall i :: 0 <= i < |log.remoteDiscs| ==> Has(log.assocCmds, log.remoteDiscs[i].seqNum)
  {
    NewInv();
    RunKeeps(NEW, actions);
  }

  /** In every run of commands, events, timeouts and helper steps: no put ever
      misses a reference the driver owns; of every BSS, the references held are
      the stored one's and those of helpers still under way; and with none under
      way the driver holds one reference to the stored BSS, or none. */
  lemma OneReferencePerStoredBss(actions: seq<Action>)
    ensures var r := Run(NEW, actions).refs;
            && !r.store.missed
            && (forall b: nat {:trigger r.store.held[b]} :: r.store.held[b] == B.Stored(r.store, b) + B.Owned(r.running, b))
            && (r.running == [] ==>
                  if r.store.bss.Some? then r.store.held == multiset{r.store.bss.value} else r.store.held == multiset{})
  {
    NewInv();
    RunKeeps(NEW, actions);
    var r := Run(NEW, actions).refs;
    if r.running == [] {
      B.AtRest(r);
    }
  }

  /** From any reachable state, the helpers under way come to an end by their
      own steps, and then the references balance. */
  lemma HelpersComeToRest(actions: seq<Action>, open: bool)
    ensures var r := B.Rest(Run(NEW, actions).refs, open);
            r.running == [] && !r.store.missed && r.store.held == B.BssOf(r.store)
  {
    NewInv();
    RunKeeps(NEW, actions);
    B.RestIsReached(Run(NEW, actions).refs, open);
  }

  lemma AuthQueueBounded(actions: seq<Action>)
    ensures |Run(NEW, actions).q.auth| <= AUTH_QUEUE_MAX
  {
    NewInv();
    RunKeeps(NEW, actions);
  }

  // ---------------------------------------------------------------- the driver

  /** One event delivered, with what happens to the stored BSS. */
  function Delivered(s: State, e: Event, bssPresent: bool): State {
    DeliverEvent(s, e, bssPresent).(refs :=
      if e.op.Assoc? && SlotMatch(s.m.assoc, e) then B.Apply(s.refs, B.HandOver)
      else if e.op.Disconnect? && DiscMatch(s.m, s.g, e.seqNum).Some? then B.Apply(s.refs, B.CallPut)
      else s.refs)
  }

  lemma DeliverFirst(s: State, bssPresent: bool)
    requires s.q.taken != []
    ensures Apply(s, Deliver(0, bssPresent)) == Delivered(s.(q := s.q.(taken := s.q.taken[1..])), s.q.taken[0], bssPresent)
  {
    assert RemoveAt(s.q.taken, 0) == s.q.taken[1..];
  }

  lemma DeliverTakes(s: State, e: Event, bssPresent: bool)
    ensures Delivered(s, e, bssPresent).q.taken == s.q.taken
  {
  }

  /** Every event taken is delivered, in order. */
  function DeliverAll(s: State, bssPresent: bool): State
    decreases |s.q.taken|
  {
    if s.q.taken == [] then s
    else
      var popped := s.(q := s.q.(taken := s.q.taken[1..]));
      DeliverTakes(popped, s.q.taken[0], bssPresent);
      DeliverAll(Delivered(popped, s.q.taken[0], bssPresent), bssPresent)
  }

  function Repeat(a: Action, n: nat): seq<Action> {
    seq(n, i => a)
  }

  /** The flush's deliveries are a run of single ones. */
  lemma {:induction false} DeliverAllIsRun(s: State, bssPresent: bool)
    ensures DeliverAll(s, bssPresent) == Run(s, Repeat(Deliver(0, bssPresent), |s.q.taken|))
    decreases |s.q.taken|
  {
    if s.q.taken != [] {
      var popped := s.(q := s.q.(taken := s.q.taken[1..]));
      DeliverFirst(s, bssPresent);
      DeliverTakes(popped, s.q.taken[0], bssPresent);
      DeliverAllIsRun(Delivered(popped, s.q.taken[0], bssPresent), bssPresent);
      var again := Repeat(Deliver(0, bssPresent), |s.q.taken|);
      assert again[1..] == Repeat(Deliver(0, bssPresent), |s.q.taken| - 1);
    }
  }

  class Staging {
    var m: Slots
    var g: Gens
    var q: Queues
    var caller: Caller
    var lastSeq: nat
    var refs: B.Refs
    ghost var log: Log

    ghost function Now(): State
      reads this
    {
      State(m, g, q, caller, lastSeq, log, refs)
    }

    constructor ()
      ensures Now() == NEW
    {
      m, g := Slots(CLEAR, CLEAR, CLEAR, false, false, false), Gens(0, 0);
      q, caller, lastSeq, refs := Queues([], [], None, None, []), Idle, 0, B.NONE;
      log := Log([], [], {}, [], [], [], []);
    }

    /** The last section of esp_mlme_end, and the helper its command calls:
        true when staged work is left. */
    method EndOp() returns (needWork: bool)
      requires caller.Ending?
      modifies `m, `caller, `refs
      ensures Now() == Apply(old(Now()), End)
      ensures needWork <==> q.auth != [] || q.assoc.Some? || q.disc.Some?
    {
      var c, ok := caller.cmd, caller.ok;
      m, caller := CloseSlots(m, c.op, ok), Idle;
      if c.op.Auth? && ok {
        refs := B.Apply(refs, B.CallRef(c.bss));
      } else if c.op.Assoc? && ok {
        refs := B.Apply(refs, B.Give(c.bss));
      } else if c.op.Assoc? && c.ownRef {
        refs := B.Apply(refs, B.CallPut);
      }
      needWork := q.auth != [] || q.assoc.Some? || q.disc.Some?;
    }

    /** The first section of esp_mlme_flush_staged. */
    method TakeStaged(cleanup: bool)
      modifies `q
      ensures Now() == Apply(old(Now()), Flush(cleanup))
    {
      var gone, kept := [], q.auth;
      if !m.auth.pending || cleanup {
        if m.auth.awaiting {
          gone := q.auth;
        }
        kept := [];
      }
      q := Queues(q.matched, kept, None, None, q.taken + gone + Opt(q.assoc) + Opt(q.disc));
    }

    /** esp_deliver_auth_from_skb */
    method DeliverAuthFrom(e: Event)
      requires e.op.Auth?
      modifies `m, `log
      ensures Now() == Delivered(old(Now()), e, true) == Delivered(old(Now()), e, false)
    {
      if AuthDeliverable(m.auth, e) {
        m := m.(auth := m.auth.(awaiting := false, seqNum := 0, bssid := 0));
        log := log.(auths := log.auths + [Rec(e.seqNum, e.bssid, 0)]);
      }
    }

    /** esp_deliver_assoc_from_skb */
    method DeliverAssocFrom(e: Event, bssPresent: bool)
      requires e.op.Assoc?
      modifies `m, `g, `refs, `log
      ensures Now() == Delivered(old(Now()), e, bssPresent)
    {
      if !SlotMatch(m.assoc, e) {
        return;
      }
      g := Gens(0, NextGen(m.assoc.seqNum, g.conn, e.status, bssPresent));
      m := m.(assoc := CLEAR, notified := true);
      refs := B.Apply(refs, B.HandOver);
      log := log.(assocs := log.assocs + [Rec(e.seqNum, e.bssid, e.status)]);
    }

    /** What a disconnect event answers, if anything. */
    method MatchDisc(seqNum: nat) returns (local: Option<bool>)
      ensures local == DiscMatch(m, g, seqNum)
    {
      if (m.disc.pending || m.disc.awaiting) && m.disc.seqNum != 0 && seqNum == m.disc.seqNum {
        local := Some(true);
      } else if (g.conn != 0 && seqNum == g.conn) || (g.staged != 0 && seqNum == g.staged) {
        local := Some(false);
      } else if m.localReq && (m.disc.pending || m.disc.awaiting) && m.disc.seqNum == 0 {
        local := Some(true);
      } else {
        local := None;
      }
    }

    /** esp_deliver_disconnect_from_skb, up to the call of the put helper. */
    method DeliverDiscFrom(e: Event) returns (local: Option<bool>)
      requires e.op.Disconnect?
      modifies `m, `g, `q, `refs, `log
      ensures local == DiscMatch(old(m), old(g), e.seqNum)
      ensures Now() == Delivered(old(Now()), e, true) == Delivered(old(Now()), e, false)
    {
      local := MatchDisc(e.seqNum);
      if local.None? {
        return;
      }
      m := m.(localReq := false, disc := NoLocal(m.disc), assoc := m.assoc.(awaiting := false, seqNum := 0));
      g, q := Gens(0, 0), q.(assoc := None);
      log := LogDisc(log, local.value, Rec(e.seqNum, e.bssid, 0));
      refs := B.Apply(refs, B.CallPut);
    }

    /** esp_mlme_flush_staged: what is staged is taken under the lock, and then
        delivered event by event. */
    method FlushAll(cleanup: bool, bssPresent: bool)
      modifies this
      ensures Now() == DeliverAll(Apply(old(Now()), Flush(cleanup)), bssPresent)
    {
      TakeStaged(cleanup);
      ghost var start := Now();
      while q.taken != []
        invariant DeliverAll(Now(), bssPresent) == DeliverAll(start, bssPresent)
        decreases |q.taken|
      {
        var e := q.taken[0];
        q := q.(taken := q.taken[1..]);
        DeliverTakes(Now(), e, bssPresent);
        match e.op {
          case Auth => DeliverAuthFrom(e);
          case Assoc => DeliverAssocFrom(e, bssPresent);
          case Disconnect => var local := DeliverDiscFrom(e);
        }
      }
    }

    /** esp_mlme_timeout_work; true asks for a firmware recovery. */
    method TimeoutWork() returns (recover: bool)
      modifies `m, `g, `refs
      ensures Now() == Apply(old(Now()), TimeUp)
      ensures recover <==> old(m).assoc.awaiting || old(m).disc.awaiting || old(m).auth.awaiting
    {
      recover := m.assoc.awaiting || m.disc.awaiting || m.auth.awaiting;
      if m.assoc.awaiting {
        g := g.(staged := 0);
      }
      if m.disc.awaiting {
        refs := B.Apply(refs, B.CallPut);
      }
      m := m.(auth := Expired(m.auth), assoc := Expired(m.assoc), disc := Expired(m.disc));
    }
  }
}
