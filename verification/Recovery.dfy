/** The firmware recovery protocol (host/main.c) and the SDIO transport reset
    (host/sdio/esp_sdio.c).

    Three parties meet here: the recovery worker, the boot handler, and
    whoever asks for a recovery. Every action is one section under the recovery
    lock, or one step between two of them. Generations and epochs wrap at 32
    bits; beside each stands the count it wraps. */
module Recovery {
  import opened Wire

  const U32: nat := 0x1_0000_0000
  const MAX_ATTEMPTS: nat := 3

  datatype Flags = Flags(initDone: bool, pending: bool, resetExpected: bool, restartNeeded: bool,
                         reconstruct: bool, cleanup: bool, exhausted: bool, unloading: bool)

  /** gen: bumped by each request. reconGen: its value when reconstruction
      began. requests, reconAt: the same, unwrapped. */
  datatype Gens = Gens(gen: nat, requests: nat, reconGen: nat, reconAt: nat)

  /** armedAt: the commit epoch in which the deadline was armed. */
  datatype Budget = Budget(attempts: nat, deadline: Option<nat>, armedAt: nat)

  /** A transport reset, in hardware or by the firmware's own software: the
      epoch in which it was asked for, and the one in which it was claimed or
      issued. */
  datatype Reset = Reset(hardware: bool, askedAt: nat, at: nat)

  /** The pending transport resets and the one stamp the two kinds share: the
      commit epoch of the last request of either. hardAt, softAt: the epoch in
      which each kind was last asked for. */
  datatype Want = Want(hard: bool, soft: bool, stamp: nat, stampAt: nat, hardAt: nat, softAt: nat)

  /** board: is a function bound, and does its board declare a reset of the
      whole chip? unavailable: the latch set when a hardware reset turns out to
      be unsupported. struck: the boot deadline for which the hardware reset was
      issued last. */
  datatype Chip = Chip(board: Option<bool>, unavailable: bool, struck: Option<nat>)

  datatype Log = Log(claimed: seq<Reset>, issued: seq<Reset>)

  datatype Link = Disabled | RxReady | Ready

  /** How far the worker's pass has come in the transport: before the claim;
      after it; after the attempt at a hardware reset, if it was tried at all;
      about to arm the software reset instead; done but for its return. */
  datatype Pass = Entry | Claimed(claim: Option<Reset>) | Striking(tried: bool) | Falling | Over

  datatype Worker = Asleep | Recovering(snap: nat, snapAt: nat) | Retrying | Dispatching

  /** Where the boot handler is: between begin and commit it reconstructs; the
      commit is four steps; Owing: it still has to start the worker. */
  datatype Boot = NoBoot | Started | Begun | InitSet | Cancelled | Owing

  datatype Ctl = Ctl(link: Link, armed: bool, worker: Worker, boot: Boot)

  datatype Epoch = Epoch(epoch: nat, commits: nat)

  datatype State = State(f: Flags, g: Gens, b: Budget, w: Want, h: Chip, p: Pass, l: Log, c: Ctl, e: Epoch)

  datatype Outcome = Restored | Waiting | Failed

  datatype HardOutcome = Done | Transient | Unsupported

  /** The steps of the SDIO transport. */
  datatype Step =
    | AskTarget(allowed: bool)
    | Claim
    | TryHard
    | HardDone(outcome: HardOutcome)
    | ArmSoft(allowed: bool)
    | SendClose(acked: bool)
    | CommitCallback
    | Unbind

  datatype Action =
    | Request(fwReset: bool)
    | Arm
    | Restart(until: nat)
    | Rebind(preserve: bool, fullChip: bool)
    | WorkStart(now: nat)
    | WorkRetry
    | WorkDispatch(newUntil: nat)
    | WorkEnd(result: Outcome)
    | BootStart
    | BeginRecon
    | FailRecon
    | SetInit
    | CancelWork
    | Commit
    | ArmAfterCommit
    | Finish
    | ClearInit(withCleanup: bool)
    | Quarantine
    | Unload
    | Sdio(step: Step)

  // ------------------------------------------------------------ the sections

  function BumpGen(g: Gens): Gens {
    g.(gen := (g.gen + 1) % 0x1_0000_0000, requests := g.requests + 1)
  }

  /** esp_schedule_recovery: remembered by flag and generation; the link is
      clamped, unless reconstruction owns it. */
  function ScheduleRecovery(s: State, fwReset: bool): State {
    if s.f.unloading then s
    else
      s.(f := s.f.(pending := true, resetExpected := s.f.resetExpected || fwReset), g := BumpGen(s.g),
         c := if !s.f.reconstruct && s.c.link.Ready? then s.c.(link := RxReady) else s.c)
  }

  predicate Dispatches(b: Budget, f: Flags) {
    b.deadline.None? && !f.exhausted && b.attempts < MAX_ATTEMPTS
  }

  /** esp_request_firmware_restart, up to the transport call. */
  function RequestRestart(s: State, until: nat): State {
    if s.b.deadline.Some? then s
    else if s.f.exhausted || s.b.attempts >= MAX_ATTEMPTS then
      s.(f := s.f.(exhausted := true), b := s.b.(deadline := None))
    else s.(f := s.f.(restartNeeded := true), b := Budget(s.b.attempts + 1, Some(until), s.e.commits))
  }

  /** A re-probe in the middle of a counted reset. */
  predicate ActiveReset(s: State) {
    s.b.deadline.Some? && s.f.resetExpected && !s.f.exhausted
  }

  /** Removal cancels the worker and the boot handler before it touches the
      binding, and refuses new ones until the next probe. */
  predicate Quiet(c: Ctl) {
    c.worker.Asleep? && c.boot.NoBoot?
  }

  /** A probe with esp_reset_boot_recovery_for_binding. */
  function RebindReset(s: State, preserve: bool): State {
    if preserve && ActiveReset(s) then s
    else s.(b := Budget(0, None, 0), f := s.f.(exhausted := false, pending := false, resetExpected := false,
                                             restartNeeded := false, reconstruct := false, cleanup := false))
  }

  predicate Binds(s: State) {
    Quiet(s.c) && s.h.board.None?
  }

  function Bind(s: State, preserve: bool, fullChip: bool): State {
    if !Binds(s) then s else RebindReset(s.(h := s.h.(board := Some(fullChip))), preserve)
  }

  /** The end of esp_remove. */
  function UnbindReset(s: State): State {
    if !Quiet(s.c) then s
    else s.(w := s.w.(hard := false, soft := false, stamp := 0, stampAt := 0),
            h := s.h.(board := None, unavailable := false))
  }

  function SetWorker(s: State, w: Worker, armed: bool): State {
    s.(c := s.c.(worker := w, armed := armed))
  }

  predicate Healthy(f: Flags) {
    f.initDone && !f.pending && !f.resetExpected
  }

  /** esp_fw_recovery_work up to the transport call. */
  function StartWork(s: State, now: nat): State {
    if !s.c.worker.Asleep? || !s.c.armed then s
    else if s.f.unloading || s.f.exhausted || Healthy(s.f) then SetWorker(s, Asleep, false)
    else if s.b.deadline.Some? && now >= s.b.deadline.value then
      SetWorker(s.(b := s.b.(deadline := None)), Retrying, false)
    else if s.f.cleanup || s.f.reconstruct then SetWorker(s, Asleep, true)
    else if !s.f.initDone && !s.f.pending && !s.f.resetExpected then SetWorker(s, Retrying, false)
    else SetWorker(s.(p := Entry), Recovering(s.g.gen, s.g.requests), false)
  }

  /** esp_bootup_request_retry: quarantine first, the restart after. */
  function RetryWork(s: State): State {
    if !s.c.worker.Retrying? then s
    else if s.f.unloading then SetWorker(s, Asleep, s.c.armed)
    else SetWorker(ScheduleRecovery(s.(f := s.f.(cleanup := false)), true), Dispatching, true)
  }

  function DispatchWork(s: State, until: nat): State {
    if !s.c.worker.Dispatching? then s else RequestRestart(SetWorker(s, Asleep, s.c.armed), until)
  }

  /** esp_fw_recovery_work after the transport call: a restored session clears
      the request, unless a newer one arrived or a reset is expected. */
  function EndWork(s: State, o: Outcome): State {
    match s.c.worker
    case Recovering(snap, snapAt) =>
      (match o
       case Failed => SetWorker(s, Asleep, true)
       case Restored =>
         if s.g.gen != snap then SetWorker(s, Asleep, s.c.armed)
         else if s.f.resetExpected then SetWorker(s, Asleep, true)
         else SetWorker(s.(f := s.f.(pending := false)), Asleep, s.c.armed)
       case Waiting =>
         SetWorker(s, Asleep, s.c.armed || (!s.f.unloading && (s.f.resetExpected || !s.f.initDone))))
    case _ => s
  }

  /** The first steps of process_event_esp_bootup: no worker is left running. */
  function StartBoot(s: State): State {
    if !s.c.boot.NoBoot? || s.f.unloading || !s.c.worker.Asleep? then s
    else
      s.(f := s.f.(pending := s.f.pending || s.f.initDone || s.f.resetExpected, initDone := false, restartNeeded := false),
         c := s.c.(armed := false, boot := Started))
  }

  /** esp_begin_reconstruction */
  function BeginReconstruction(s: State): State {
    if !s.c.boot.Started? then s
    else s.(f := s.f.(reconstruct := true), g := s.g.(reconGen := s.g.gen, reconAt := s.g.requests),
            c := s.c.(link := Ready, boot := Begun))
  }

  predicate Reconstructing(b: Boot) {
    b.Begun? || b.InitSet? || b.Cancelled?
  }

  /** esp_commit_reconstruction under the lock. */
  function CommitReconstruction(s: State): State {
    if !s.c.boot.Cancelled? then s
    else if s.g.gen != s.g.reconGen then
      s.(f := s.f.(reconstruct := false), c := s.c.(link := RxReady, boot := Owing))
    else
      s.(f := s.f.(reconstruct := false, pending := false, resetExpected := false, restartNeeded := false),
         c := s.c.(link := Ready, boot := NoBoot))
  }

  function NextEpoch(e: Epoch): Epoch {
    Epoch((e.epoch + 1) % 0x1_0000_0000, e.commits + 1)
  }

  /** esp_finish_reconstruction */
  function FinishReconstruction(s: State): State {
    if !Healthy(s.f) then s
    else s.(b := Budget(0, None, 0), f := s.f.(exhausted := false), e := NextEpoch(s.e))
  }

  // The SDIO transport: its steps raise flags, and take back the need of a
  // restart, but no more.

  predicate FlagsRaised(f: Flags, g: Flags) {
    && g.initDone == f.initDone && g.reconstruct == f.reconstruct && g.cleanup == f.cleanup
    && g.exhausted == f.exhausted && g.unloading == f.unloading
    && (f.pending ==> g.pending) && (f.resetExpected ==> g.resetExpected)
  }

  predicate FullChip(h: Chip) {
    h.board.Some? && h.board.value && !h.unavailable
  }

  function AskHard(w: Want, e: Epoch): Want {
    w.(hard := true, stamp := e.epoch, stampAt := e.commits, hardAt := e.commits)
  }

  function AskSoft(w: Want, e: Epoch): Want {
    w.(soft := true, stamp := e.epoch, stampAt := e.commits, softAt := e.commits)
  }

  /** The locked section of esp_sdio_reset_target: hardware where the chip can
      be reset as a whole, else software while its budget allows. */
  function AskTransportReset(s: State, allowed: bool): State {
    if s.h.board.None? then s
    else if FullChip(s.h) then s.(w := AskHard(s.w, s.e))
    else if allowed then s.(w := AskSoft(s.w, s.e))
    else s
  }

  predicate Stale(s: State) {
    s.w.stamp != s.e.epoch || Healthy(s.f)
  }

  /** The reset that a claim would take: hardware goes before software. */
  function Carried(s: State): Reset {
    Reset(s.w.hard, if s.w.hard then s.w.hardAt else s.w.softAt, s.e.commits)
  }

  predicate Takes(s: State) {
    s.c.worker.Recovering? && s.p.Entry? && (s.w.hard || s.w.soft) && !Stale(s)
  }

  function DropWants(w: Want): Want {
    w.(hard := false, soft := false)
  }

  /** esp_sdio_claim_reset_locked, first thing in a pass: a stale request is
      dropped; any other quarantines the incarnation before it is acted on. */
  function ClaimReset(s: State): (t: State)
    ensures FlagsRaised(s.f, t.f)
  {
    if !s.c.worker.Recovering? || !s.p.Entry? then s
    else if !Takes(s) then s.(w := DropWants(s.w), p := Claimed(None))
    else
      s.(f := s.f.(pending := true, resetExpected := true), g := BumpGen(s.g), w := DropWants(s.w),
         p := Claimed(Some(Carried(s))), l := s.l.(claimed := s.l.claimed + [Carried(s)]))
  }

  /** A pass that claimed no software reset may come to the hardware one. */
  predicate MayStrike(s: State) {
    s.c.worker.Recovering? && s.p.Claimed? && (s.p.claim.Some? ==> s.p.claim.value.hardware)
  }

  /** Is the hardware reset issued? Once for each boot deadline. */
  predicate Strikes(s: State) {
    MayStrike(s) && s.b.deadline.Some? && FullChip(s.h) && s.h.struck != s.b.deadline
  }

  /** What is issued: the reset claimed, or with none claimed the one that
      belongs to the restart whose deadline is running. */
  function Struck(s: State): Reset
    requires MayStrike(s)
  {
    Reset(true, if s.p.claim.Some? then s.p.claim.value.askedAt else s.b.armedAt, s.e.commits)
  }

  /** esp_sdio_hard_reset_and_reopen up to the call of the MMC core. Without a
      deadline it asks for a counted restart and returns; the asking is by the
      actions Request and Restart. */
  function TryHardReset(s: State): (t: State)
    ensures FlagsRaised(s.f, t.f)
  {
    if !MayStrike(s) then s
    else if s.b.deadline.None? then s.(p := Over)
    else if Strikes(s) then
      s.(f := s.f.(resetExpected := true), h := s.h.(struck := s.b.deadline), p := Striking(true),
         l := s.l.(issued := s.l.issued + [Struck(s)]))
    else if FullChip(s.h) then s.(f := s.f.(resetExpected := true, restartNeeded := false), p := Over)
    else s.(f := s.f.(resetExpected := true), p := Striking(false))
  }

  /** What the MMC core answered; without a reset of the whole chip it was not
      asked, and the answer is Unsupported. */
  function HardResetDone(s: State, o: HardOutcome): (t: State)
    ensures FlagsRaised(s.f, t.f)
  {
    if !s.c.worker.Recovering? || !s.p.Striking? then s
    else if s.p.tried && o.Done? then s.(f := s.f.(restartNeeded := false), p := Over)
    else
      s.(f := s.f.(restartNeeded := true), p := Falling,
         h := s.h.(unavailable := s.h.unavailable || !s.p.tried || o.Unsupported?))
  }

  /** May a pass arm the software reset: after the hardware one failed within
      the attempt, or when an earlier restart is still owed. */
  predicate MayArm(s: State) {
    && s.c.worker.Recovering?
    && ((s.p.Falling? && s.b.deadline.Some?) || (s.p.Claimed? && s.p.claim.None? && s.f.restartNeeded))
  }

  /** esp_sdio_soft_reset_budget_arm; the pass returns after it. */
  function ArmSoftReset(s: State, allowed: bool): State {
    if !MayArm(s) then s else s.(w := if allowed then AskSoft(s.w, s.e) else s.w, p := Over)
  }

  predicate MayClose(s: State) {
    s.c.worker.Recovering? && s.p.Claimed? && s.p.claim.Some? && !s.p.claim.value.hardware
  }

  /** The numbered CLOSE that restarts the firmware; unacknowledged it may have
      arrived all the same. */
  function SendCloseReset(s: State, acked: bool): (t: State)
    ensures FlagsRaised(s.f, t.f)
  {
    if !MayClose(s) then s
    else
      s.(f := if acked then s.f.(restartNeeded := false, resetExpected := true) else s.f, p := Over,
         l := s.l.(issued := s.l.issued + [Reset(false, s.p.claim.value.askedAt, s.e.commits)]))
  }

  function ApplySdio(s: State, step: Step): State {
    match step
    case AskTarget(allowed) => AskTransportReset(s, allowed)
    case Claim => ClaimReset(s)
    case TryHard => TryHardReset(s)
    case HardDone(o) => HardResetDone(s, o)
    case ArmSoft(allowed) => ArmSoftReset(s, allowed)
    case SendClose(acked) => SendCloseReset(s, acked)
    case CommitCallback => if s.w.stamp != s.e.epoch then s.(w := DropWants(s.w)) else s
    case Unbind => UnbindReset(s)
  }

  function Apply(s: State, a: Action): State {
    match a
    case Request(fwReset) => ScheduleRecovery(s, fwReset)
    case Arm => s.(c := s.c.(armed := true))
    case Restart(until) => RequestRestart(s, until)
    case Rebind(preserve, fullChip) => Bind(s, preserve, fullChip)
    case WorkStart(now) => StartWork(s, now)
    case WorkRetry => RetryWork(s)
    case WorkDispatch(until) => DispatchWork(s, until)
    case WorkEnd(o) => EndWork(s, o)
    case BootStart => StartBoot(s)
    case BeginRecon => BeginReconstruction(s)
    case FailRecon => s.(f := s.f.(reconstruct := false), c := s.c.(boot := NoBoot))
    case SetInit => if s.c.boot.Begun? then s.(f := s.f.(initDone := true), c := s.c.(boot := InitSet)) else s
    case CancelWork => if s.c.boot.InitSet? && s.c.worker.Asleep? then s.(c := s.c.(armed := false, boot := Cancelled)) else s
    case Commit => CommitReconstruction(s)
    case ArmAfterCommit => if s.c.boot.Owing? then s.(c := s.c.(armed := true, boot := NoBoot)) else s
    case Finish => FinishReconstruction(s)
    case ClearInit(withCleanup) => s.(f := s.f.(initDone := false, cleanup := s.f.cleanup || withCleanup))
    case Quarantine => s.(f := s.f.(resetExpected := true))
    case Unload => s.(f := s.f.(unloading := true))
    case Sdio(step) => ApplySdio(s, step)
  }

  function Run(s: State, actions: seq<Action>): State
    decreases |actions|
  {
    if actions == [] then s else Run(Apply(s, actions[0]), actions[1..])
  }

  const BOOT := State(Flags(false, false, false, false, false, false, false, false), Gens(0, 0, 0, 0), Budget(0, None, 0),
                      Want(false, false, 0, 0, 0, 0), Chip(None, false, None), Over, Log([], []),
                      Ctl(Disabled, false, Asleep, NoBoot), Epoch(0, 0))

  // ---------------------------------------------------------------- invariant

  /** The wrapped numbers belong to the counts, and nothing is from the future. */
  predicate GensCounted(g: Gens) {
    g.gen == g.requests % 0x1_0000_0000 && g.reconGen == g.reconAt % 0x1_0000_0000 && g.reconAt <= g.requests
  }

  predicate WorkerCounted(w: Worker, g: Gens) {
    w.Recovering? ==> w.snap == w.snapAt % 0x1_0000_0000 && w.snapAt <= g.requests
  }

  predicate EpochCounted(e: Epoch, w: Want) {
    e.epoch == e.commits % 0x1_0000_0000 && w.stamp == w.stampAt % 0x1_0000_0000 && w.stampAt <= e.commits
  }

  predicate Counted(s: State) {
    GensCounted(s.g) && WorkerCounted(s.c.worker, s.g) && EpochCounted(s.e, s.w) && s.b.attempts <= MAX_ATTEMPTS
  }

  /** While reconstruction owns the session, a request made since its begin is
      still pending, and no worker that saw it is running. */
  predicate Kept(s: State) {
    Reconstructing(s.c.boot) ==>
      && s.f.reconstruct
      && (s.g.requests > s.g.reconAt ==> s.f.pending)
      && (s.c.worker.Recovering? ==> s.c.worker.snapAt <= s.g.reconAt)
  }

  predicate Inv(s: State) {
    Counted(s) && (s.g.requests < U32 ==> Kept(s))
  }

  /** What a step of the transport leaves alone: it raises flags, bumps the
      generation, and no more. */
  predicate SdioFrame(s: State, t: State) {
    t.b == s.b && t.e == s.e && t.c == s.c && FlagsRaised(s.f, t.f)
    && (t.g == s.g || (t.g == BumpGen(s.g) && t.f.pending && t.f.resetExpected))
  }

  lemma SdioFrames(s: State, step: Step)
    ensures SdioFrame(s, ApplySdio(s, step))
  {
  }

  /** Every other step leaves the transport alone; a probe finds the board. */
  lemma OthersFrame(s: State, a: Action)
    requires !a.Sdio?
    ensures var t := Apply(s, a);
            && t.w == s.w && t.l == s.l && (t.h == s.h || (s.h.board.None? && t.h == s.h.(board := t.h.board)))
            && (t.p == s.p || (t.p.Entry? && t.c.worker.Recovering?))
  {
  }

  lemma BumpCounts(g: Gens)
    requires GensCounted(g)
    ensures GensCounted(BumpGen(g))
  {
  }

  /** A step bumps the generation, begins a reconstruction, or neither. */
  lemma GensTouched(s: State, a: Action)
    ensures var t := Apply(s, a).g;
            t == s.g || t == BumpGen(s.g) || t == s.g.(reconGen := s.g.gen, reconAt := s.g.requests)
  {
    if a.Sdio? {
      SdioFrames(s, a.step);
    }
  }

  lemma WorkerTouched(s: State, a: Action)
    ensures var t := Apply(s, a).c.worker;
            t == s.c.worker || !t.Recovering? || (t == Recovering(s.g.gen, s.g.requests) && Apply(s, a).g == s.g)
  {
    if a.Sdio? {
      SdioFrames(s, a.step);
    }
  }

  lemma EpochTouched(s: State, a: Action)
    ensures var t := Apply(s, a);
            && (t.e == s.e || t.e == NextEpoch(s.e))
            && ((t.w.stamp == s.w.stamp && t.w.stampAt == s.w.stampAt)
                || (t.w.stamp == s.e.epoch && t.w.stampAt == s.e.commits) || (t.w.stamp == 0 && t.w.stampAt == 0))
  {
    if !a.Sdio? {
      OthersFrame(s, a);
    }
  }

  lemma EpochsKeep(s: State, a: Action)
    requires EpochCounted(s.e, s.w)
    ensures EpochCounted(Apply(s, a).e, Apply(s, a).w)
  {
    EpochTouched(s, a);
    assert EpochCounted(NextEpoch(s.e), s.w);
  }

  lemma AttemptsTouched(s: State, a: Action)
    requires s.b.attempts <= MAX_ATTEMPTS
    ensures Apply(s, a).b.attempts <= MAX_ATTEMPTS
  {
    if a.Sdio? {
      SdioFrames(s, a.step);
    }
  }

  lemma CountedKeeps(s: State, a: Action)
    requires Counted(s)
    ensures Counted(Apply(s, a)) && s.g.requests <= Apply(s, a).g.requests
  {
    GensTouched(s, a);
    BumpCounts(s.g);
    WorkerTouched(s, a);
    EpochsKeep(s, a);
    AttemptsTouched(s, a);
  }

  /** Short of the wrap equal generations are equal counts. */
  lemma GensTell(g: Gens, w: Worker)
    requires GensCounted(g) && WorkerCounted(w, g) && g.requests < U32
    ensures g.gen == g.reconGen <==> g.requests == g.reconAt
    ensures w.Recovering? ==> (g.gen == w.snap <==> g.requests == w.snapAt)
  {
  }

  lemma KeptStep(s: State, a: Action)
    requires Kept(s) && s.g.reconAt <= s.g.requests
    requires s.c.worker.Recovering? ==>
               s.c.worker.snapAt <= s.g.requests && (s.g.gen == s.c.worker.snap <==> s.g.requests == s.c.worker.snapAt)
    ensures Kept(Apply(s, a))
  {
    if a.Sdio? {
      SdioFrames(s, a.step);
    }
  }

  lemma KeptKeeps(s: State, a: Action)
    requires Counted(s) && Kept(s) && s.g.requests < U32
    ensures Kept(Apply(s, a))
  {
    GensTell(s.g, s.c.worker);
    KeptStep(s, a);
  }

  lemma {:induction false} RunKeeps(s: State, actions: seq<Action>)
    requires Inv(s)
    ensures Inv(Run(s, actions)) && s.g.requests <= Run(s, actions).g.requests
    decreases |actions|
  {
    if actions != [] {
      CountedKeeps(s, actions[0]);
      if Apply(s, actions[0]).g.requests < U32 {
        KeptKeeps(s, actions[0]);
      }
      RunKeeps(Apply(s, actions[0]), actions[1..]);
    }
  }

  // -------------------------------------------------------------- main results

  lemma CommitOf(s: State)
    requires Counted(s) && Kept(s) && s.c.boot.Cancelled? && s.g.requests < U32
    ensures var t := CommitReconstruction(s);
            if s.g.requests > s.g.reconAt then t.f.pending && t.c.link == RxReady && t.c.boot == Owing
            else !t.f.pending && !t.f.resetExpected && t.c.link == Ready && t.c.boot == NoBoot
  {
  }

  /** The commit keeps a request, or a claim, that arrived since reconstruction
      began: it stays pending, the link goes down to receive only, the worker
      is started, and the incarnation is not healthy. With none, the commit
      clears the flags and opens the link. (Fewer than 2^32 requests.) */
  lemma CommitLosesNoRequest(actions: seq<Action>)
    requires var s := Run(BOOT, actions); s.c.boot.Cancelled? && s.g.requests < U32
    ensures var s := Run(BOOT, actions); var t := Apply(s, Commit);
            if s.g.requests > s.g.reconAt then
              && t.f.pending && t.c.link == RxReady && t.c.boot == Owing && !Healthy(t.f)
              && Apply(t, ArmAfterCommit).c.armed
            else !t.f.pending && !t.f.resetExpected && t.c.link == Ready && t.c.boot == NoBoot
  {
    RunKeeps(BOOT, actions);
    CommitOf(Run(BOOT, actions));
  }

  /** The reset request number n is still unanswered: no reconstruction has
      begun since, so no commit can clear it. */
  predicate ResetOpen(s: State, n: nat) {
    s.f.resetExpected && s.g.reconAt < n <= s.g.requests && Counted(s)
  }

  lemma ReconStays(s: State, a: Action)
    requires !a.BeginRecon?
    ensures Apply(s, a).g.reconAt == s.g.reconAt
  {
    if a.Sdio? {
      SdioFrames(s, a.step);
    }
  }

  lemma ResetFlagStays(s: State, a: Action)
    requires s.f.resetExpected && s.g.gen != s.g.reconGen && !a.BeginRecon? && !a.Rebind?
    ensures Apply(s, a).f.resetExpected
  {
    if a.Sdio? {
      SdioFrames(s, a.step);
    }
  }

  lemma ResetStaysOpen(s: State, a: Action, n: nat)
    requires ResetOpen(s, n) && s.g.requests < U32 && !a.BeginRecon? && !a.Rebind?
    ensures ResetOpen(Apply(s, a), n)
  {
    GensTell(s.g, s.c.worker);
    ReconStays(s, a);
    ResetFlagStays(s, a);
    CountedKeeps(s, a);
  }

  lemma {:induction false} CountGrows(s: State, actions: seq<Action>)
    requires Counted(s)
    ensures s.g.requests <= Run(s, actions).g.requests
    decreases |actions|
  {
    if actions != [] {
      CountedKeeps(s, actions[0]);
      CountGrows(Apply(s, actions[0]), actions[1..]);
    }
  }

  lemma {:induction false} ResetOpenRun(s: State, actions: seq<Action>, n: nat)
    requires ResetOpen(s, n) && Run(s, actions).g.requests < U32
    requires forall i :: 0 <= i < |actions| ==> !actions[i].BeginRecon? && !actions[i].Rebind?
    ensures ResetOpen(Run(s, actions), n)
    decreases |actions|
  {
    if actions != [] {
      CountedKeeps(s, actions[0]);
      CountGrows(Apply(s, actions[0]), actions[1..]);
      ResetStaysOpen(s, actions[0], n);
      ResetOpenRun(Apply(s, actions[0]), actions[1..], n);
    }
  }

  /** A step that asks for a firmware reset: a request of that kind, or a claim
      that is not stale. */
  predicate AsksReset(s: State, a: Action) {
    (a == Request(true) && !s.f.unloading) || (a == Sdio(Claim) && Takes(s))
  }

  /** After a reset request or claim nothing can declare the incarnation
      healthy until a new reconstruction begins or the device is bound anew. */
  lemma NoFinishAfterReset(before: seq<Action>, a: Action, after: seq<Action>)
    requires AsksReset(Run(BOOT, before), a)
    requires forall i :: 0 <= i < |after| ==> !after[i].BeginRecon? && !after[i].Rebind?
    requires Run(Apply(Run(BOOT, before), a), after).g.requests < U32
    ensures !Healthy(Run(Apply(Run(BOOT, before), a), after).f)
  {
    RunKeeps(BOOT, before);
    var s := Run(BOOT, before);
    var t := Apply(s, a);
    CountedKeeps(s, a);
    ResetOpenRun(t, after, t.g.requests);
  }

  /** Any request number n is still unanswered: neither a reconstruction nor a
      worker pass has begun since. */
  predicate RequestOpen(s: State, n: nat) {
    && s.f.pending && s.g.reconAt < n <= s.g.requests && Counted(s)
    && (s.c.worker.Recovering? ==> s.c.worker.snapAt < n)
  }

  lemma PendingStays(s: State, a: Action)
    requires s.f.pending && s.g.gen != s.g.reconGen && (s.c.worker.Recovering? ==> s.g.gen != s.c.worker.snap)
    requires !a.BeginRecon? && !a.Rebind?
    ensures Apply(s, a).f.pending
  {
    if a.Sdio? {
      SdioFrames(s, a.step);
    }
  }

  lemma NoPassBegins(s: State, a: Action)
    requires !a.WorkStart?
    ensures var t := Apply(s, a).c.worker;
            t.Recovering? ==> s.c.worker.Recovering? && t.snapAt == s.c.worker.snapAt
  {
    if a.Sdio? {
      SdioFrames(s, a.step);
    }
  }

  lemma RequestStaysOpen(s: State, a: Action, n: nat)
    requires RequestOpen(s, n) && s.g.requests < U32 && !a.BeginRecon? && !a.Rebind? && !a.WorkStart?
    ensures RequestOpen(Apply(s, a), n)
  {
    GensTell(s.g, s.c.worker);
    ReconStays(s, a);
    PendingStays(s, a);
    NoPassBegins(s, a);
    CountedKeeps(s, a);
  }

  lemma {:induction false} RequestOpenRun(s: State, actions: seq<Action>, n: nat)
    requires RequestOpen(s, n) && Run(s, actions).g.requests < U32
    requires forall i :: 0 <= i < |actions| ==> !actions[i].BeginRecon? && !actions[i].Rebind? && !actions[i].WorkStart?
    ensures RequestOpen(Run(s, actions), n)
    decreases |actions|
  {
    if actions != [] {
      CountedKeeps(s, actions[0]);
      CountGrows(Apply(s, actions[0]), actions[1..]);
      RequestStaysOpen(s, actions[0], n);
      RequestOpenRun(Apply(s, actions[0]), actions[1..], n);
    }
  }

  /** A transport request is forgotten only by a worker pass or a
      reconstruction that began after it: one already under way, whose result
      comes later, cannot clear it. */
  lemma NoRequestForgotten(before: seq<Action>, fwReset: bool, after: seq<Action>)
    requires !Run(BOOT, before).f.unloading
    requires forall i :: 0 <= i < |after| ==> !after[i].BeginRecon? && !after[i].Rebind? && !after[i].WorkStart?
    requires Run(Apply(Run(BOOT, before), Request(fwReset)), after).g.requests < U32
    ensures var u := Run(Apply(Run(BOOT, before), Request(fwReset)), after); u.f.pending && !Healthy(u.f)
  {
    RunKeeps(BOOT, before);
    var s := Run(BOOT, before);
    var t := Apply(s, Request(fwReset));
    CountedKeeps(s, Request(fwReset));
    RequestOpenRun(t, after, t.g.requests);
  }

  // A request is not only kept: it is taken up.

  /** Nothing keeps the worker from a pass. */
  predicate WayIsClear(s: State, now: nat) {
    && s.c.worker.Asleep? && !s.f.unloading && !s.f.exhausted && !s.f.cleanup && !s.f.reconstruct
    && (s.b.deadline.None? || now < s.b.deadline.value)
  }

  /** The worker enters a pass only when there is something to recover and the
      way is clear. */
  lemma PassOnlyWhenNeeded(s: State, a: Action)
    requires Apply(s, a).c.worker.Recovering? && !s.c.worker.Recovering?
    ensures a.WorkStart? && s.c.armed && WayIsClear(s, a.now) && !Healthy(s.f)
    ensures s.f.initDone || s.f.pending || s.f.resetExpected
  {
  }

  /** A pass that did not bring the session back is followed by another: the
      worker stays armed, unless a newer request, which arms it, has come, or the
      driver is being unloaded. */
  lemma UnfinishedPassIsRetried(s: State, o: Outcome)
    requires s.c.worker.Recovering? && s.c.worker.snap == s.g.gen && !s.f.unloading
    requires o.Failed? || s.f.resetExpected || (o.Waiting? && !s.f.initDone)
    ensures var t := Apply(s, WorkEnd(o)); t.c.armed && t.c.worker.Asleep? && (t.f.pending <==> s.f.pending)
  {
  }

  /** A reconstruction that fails leaves the way clear for the next pass. */
  lemma FailedBootClearsTheWay(s: State, now: nat)
    requires s.c.worker.Asleep? && !s.f.unloading && !s.f.exhausted && !s.f.cleanup
    requires s.b.deadline.None? || now < s.b.deadline.value
    ensures WayIsClear(Apply(s, FailRecon), now) && Apply(s, FailRecon).c.boot.NoBoot?
  {
  }

  /** A request made while the way is clear gets its pass as soon as the worker
      is armed and runs, and that pass has seen it; restoring the session then
      clears it, unless a firmware reset is expected. */
  lemma RequestIsTakenUp(s: State, fwReset: bool, now: nat)
    requires WayIsClear(s, now)
    ensures var t := Apply(Apply(s, Request(fwReset)), Arm); var u := Apply(t, WorkStart(now));
            && u.c.worker == Recovering(t.g.gen, t.g.requests) && t.g.requests == s.g.requests + 1 && u.p.Entry?
            && (u.f.resetExpected <==> s.f.resetExpected || fwReset)
            && (var v := Apply(u, WorkEnd(Restored));
                && v.c.worker.Asleep? && (v.f.pending <==> u.f.resetExpected) && (u.f.resetExpected ==> v.c.armed)
                && (s.f.initDone && !u.f.resetExpected ==> Healthy(v.f)))
  {
  }

  /** A deadline found expired leads to another restart, or, with three behind
      it, to the end of all attempts. */
  lemma ExpiryRestarts(s: State, now: nat, until: nat)
    requires s.c.worker.Asleep? && s.c.armed && !s.f.unloading && !s.f.exhausted && !Healthy(s.f)
    requires s.b.deadline.Some? && now >= s.b.deadline.value
    ensures var t := Apply(Apply(Apply(s, WorkStart(now)), WorkRetry), WorkDispatch(until));
            && t.f.pending && t.f.resetExpected && t.c.armed
            && (if s.b.attempts < 3 then t.b.deadline == Some(until) && t.b.attempts == s.b.attempts + 1 && t.f.restartNeeded
                else t.b.deadline.None? && t.f.exhausted)
  {
  }

  /** A new binding that is not in the middle of a counted reset starts clean. */
  lemma NewBindingStartsClean(s: State, preserve: bool, fullChip: bool)
    requires Quiet(s.c) && s.h.board.None?
    requires !preserve || s.b.deadline.None? || !s.f.resetExpected || s.f.exhausted
    ensures var t := Apply(s, Rebind(preserve, fullChip));
            && t.h.board == Some(fullChip) && t.b.attempts == 0 && t.b.deadline.None? && !t.f.exhausted
            && !t.f.pending && !t.f.resetExpected && !t.f.restartNeeded && !t.f.reconstruct && !t.f.cleanup
  {
  }

  /** The boot handler's first steps own the session. */
  lemma BootReconstructs(s: State)
    requires Quiet(s.c) && !s.f.unloading
    ensures var t := Apply(Apply(Apply(s, BootStart), BeginRecon), SetInit);
            && t.c.boot.InitSet? && t.c.worker.Asleep? && t.c.link.Ready? && t.f.initDone && t.f.reconstruct
            && t.g.gen == t.g.reconGen && t.e == s.e
  {
  }

  /** Its last ones, with no request in between, declare it healthy, and give the
      budget back. */
  lemma BootCommits(s: State)
    requires s.c.boot.InitSet? && s.c.worker.Asleep? && s.f.initDone && s.g.gen == s.g.reconGen
    ensures var t := Apply(Apply(Apply(s, CancelWork), Commit), Finish);
            && Healthy(t.f) && t.c.link.Ready? && t.c.boot.NoBoot? && !t.f.exhausted && !t.f.reconstruct && !t.f.restartNeeded
            && t.b.attempts == 0 && t.b.deadline.None? && t.e.commits == s.e.commits + 1
  {
  }

  // The bounded restart budget.

  /** This step hands a firmware restart to the transport. */
  predicate IsDispatch(s: State, a: Action) {
    (a.Restart? || (a.WorkDispatch? && s.c.worker.Dispatching?)) && Dispatches(s.b, s.f)
  }

  /** This step gives the budget back: a healthy finish, or a new binding. */
  predicate IsRefill(s: State, a: Action) {
    (a.Finish? && Healthy(s.f)) || (a.Rebind? && Binds(s) && !(a.preserve && ActiveReset(s)))
  }

  function CountDispatches(s: State, actions: seq<Action>): nat
    decreases |actions|
  {
    if actions == [] then 0
    else (if IsDispatch(s, actions[0]) then 1 else 0) + CountDispatches(Apply(s, actions[0]), actions[1..])
  }

  predicate NoRefill(s: State, actions: seq<Action>)
    decreases |actions|
  {
    actions == [] || (!IsRefill(s, actions[0]) && NoRefill(Apply(s, actions[0]), actions[1..]))
  }

  lemma DispatchCounts(s: State, a: Action)
    requires !IsRefill(s, a)
    ensures Apply(s, a).b.attempts == s.b.attempts + if IsDispatch(s, a) then 1 else 0
  {
    if a.Sdio? {
      SdioFrames(s, a.step);
    }
  }

  /** Between two healthy finishes or new bindings at most three restarts are
      dispatched, whatever happens in between. */
  lemma {:induction false} AtMostThreeRestarts(s: State, actions: seq<Action>)
    requires s.b.attempts <= MAX_ATTEMPTS && NoRefill(s, actions)
    ensures CountDispatches(s, actions) <= MAX_ATTEMPTS - s.b.attempts
    decreases |actions|
  {
    if actions != [] {
      DispatchCounts(s, actions[0]);
      AtMostThreeRestarts(Apply(s, actions[0]), actions[1..]);
    }
  }

  /** The worker's pass finds the deadline expired and takes it down. */
  predicate FindsExpiry(s: State, a: Action) {
    && a.WorkStart? && s.c.worker.Asleep? && s.c.armed && !s.f.unloading && !s.f.exhausted && !Healthy(s.f)
    && s.b.deadline.Some? && a.now >= s.b.deadline.value
  }

  predicate DeadlineHolds(s: State, actions: seq<Action>)
    decreases |actions|
  {
    || actions == []
    || (!FindsExpiry(s, actions[0]) && !IsRefill(s, actions[0]) && DeadlineHolds(Apply(s, actions[0]), actions[1..]))
  }

  lemma DeadlineStands(s: State, a: Action)
    requires s.b.deadline.Some? && !FindsExpiry(s, a) && !IsRefill(s, a)
    ensures Apply(s, a).b == s.b && !IsDispatch(s, a)
  {
    if a.Sdio? {
      SdioFrames(s, a.step);
    }
  }

  lemma {:induction false} DeadlineStandsRun(s: State, actions: seq<Action>)
    requires s.b.deadline.Some? && DeadlineHolds(s, actions)
    ensures Run(s, actions).b == s.b && CountDispatches(s, actions) == 0
    decreases |actions|
  {
    if actions != [] {
      DeadlineStands(s, actions[0]);
      DeadlineStandsRun(Apply(s, actions[0]), actions[1..]);
    }
  }

  /** After a dispatch no other follows, whoever asks and however often, until
      the worker finds the deadline expired or the budget is given back. */
  lemma OneRestartPerDeadline(s: State, a: Action, after: seq<Action>)
    requires IsDispatch(s, a) && DeadlineHolds(Apply(s, a), after)
    ensures CountDispatches(Apply(s, a), after) == 0
    ensures Run(Apply(s, a), after).b.deadline == Apply(s, a).b.deadline
  {
    DeadlineStandsRun(Apply(s, a), after);
  }

  // ---------------------------------------------------------------- the driver

  class Adapter {
    var flags: Flags
    var gens: Gens
    var budget: Budget
    var want: Want
    var chip: Chip
    var pass: Pass
    var log: Log
    var ctl: Ctl
    var epoch: Epoch

    ghost function Now(): State
      reads this
    {
      State(flags, gens, budget, want, chip, pass, log, ctl, epoch)
    }

    constructor ()
      ensures Now() == BOOT
    {
      flags, gens := Flags(false, false, false, false, false, false, false, false), Gens(0, 0, 0, 0);
      budget, want := Budget(0, None, 0), Want(false, false, 0, 0, 0, 0);
      chip, pass, log := Chip(None, false, None), Over, Log([], []);
      ctl, epoch := Ctl(Disabled, false, Asleep, NoBoot), Epoch(0, 0);
    }

    /** esp_schedule_recovery */
    method Schedule(fwReset: bool)
      modifies `flags, `gens, `ctl
      ensures Now() == Apply(old(Now()), Request(fwReset))
    {
      if flags.unloading {
        return;
      }
      flags := flags.(pending := true, resetExpected := flags.resetExpected || fwReset);
      gens := BumpGen(gens);
      // The link is clamped, and never raised from disabled.
      if !flags.reconstruct {
        if ctl.link.Ready? {
          ctl := ctl.(link := RxReady);
        }
      }
    }

    /** esp_request_firmware_restart: may the transport be asked? */
    method RequestFirmwareRestart(until: nat) returns (dispatch: bool)
      modifies `flags, `budget
      ensures Now() == Apply(old(Now()), Restart(until))
      ensures dispatch <==> Dispatches(old(budget), old(flags))
    {
      if budget.deadline.Some? {
        return false;
      }
      if flags.exhausted || budget.attempts >= MAX_ATTEMPTS {
        flags := flags.(exhausted := true);
        return false;
      }
      budget := Budget(budget.attempts + 1, Some(until), epoch.commits);
      flags := flags.(restartNeeded := true);
      dispatch := true;
    }

    /** esp_fw_recovery_work up to the transport call; the deadline is looked
        at before the cleanup and reconstruction exits. */
    method StartWorker(now: nat)
      requires ctl.worker.Asleep? && ctl.armed
      modifies `budget, `ctl, `pass
      ensures Now() == Apply(old(Now()), WorkStart(now))
    {
      ctl := ctl.(armed := false);
      if flags.unloading || flags.exhausted {
        return;
      }
      var skip := flags.initDone && !flags.pending && !flags.resetExpected;
      if !skip && budget.deadline.Some? && now >= budget.deadline.value {
        budget := budget.(deadline := None);
        ctl := ctl.(worker := Retrying);
      } else if !skip && (flags.cleanup || flags.reconstruct) {
        ctl := ctl.(armed := true);
      } else if !skip {
        if !flags.initDone && !flags.pending && !flags.resetExpected {
          ctl := ctl.(worker := Retrying);
        } else {
          ctl := ctl.(worker := Recovering(gens.gen, gens.requests));
          pass := Entry;
        }
      }
    }

    /** esp_fw_recovery_work after the transport call. */
    method EndWorker(o: Outcome)
      requires ctl.worker.Recovering?
      modifies `flags, `ctl
      ensures Now() == Apply(old(Now()), WorkEnd(o))
    {
      var snap := ctl.worker.snap;
      ctl := ctl.(worker := Asleep);
      match o {
        case Failed => ctl := ctl.(armed := true);
        case Restored =>
          if gens.gen == snap {
            if flags.resetExpected {
              ctl := ctl.(armed := true);
            } else {
              flags := flags.(pending := false);
            }
          }
        case Waiting =>
          if !flags.unloading && (flags.resetExpected || !flags.initDone) {
            ctl := ctl.(armed := true);
          }
      }
    }

    /** esp_commit_reconstruction under the lock. */
    method CommitUnderLock() returns (needRecovery: bool)
      requires ctl.boot.Cancelled?
      modifies `flags, `ctl
      ensures Now() == Apply(old(Now()), Commit) && needRecovery == (gens.gen != gens.reconGen)
    {
      flags := flags.(reconstruct := false);
      needRecovery := gens.gen != gens.reconGen;
      if needRecovery {
        ctl := ctl.(link := RxReady, boot := Owing);
      } else {
        flags := flags.(pending := false, resetExpected := false, restartNeeded := false);
        ctl := ctl.(link := Ready, boot := NoBoot);
      }
    }

    /** esp_sdio_claim_reset_locked: Some(true) is a hardware reset. */
    method ClaimTransportReset() returns (claim: Option<bool>)
      requires ctl.worker.Recovering? && pass.Entry?
      modifies `flags, `gens, `want, `log, `pass
      ensures Now() == Apply(old(Now()), Sdio(Claim))
      ensures claim.Some? <==> AsksReset(old(Now()), Sdio(Claim))
      ensures claim.Some? ==> claim.value == old(want).hard
    {
      if !want.hard && !want.soft {
        pass := Claimed(None);
        return None;
      }
      if want.stamp != epoch.epoch || Healthy(flags) {
        want := want.(hard := false, soft := false);
        pass := Claimed(None);
        return None;
      }
      flags := flags.(pending := true, resetExpected := true);
      gens := BumpGen(gens);
      var reset := Reset(want.hard, if want.hard then want.hardAt else want.softAt, epoch.commits);
      log := log.(claimed := log.claimed + [reset]);
      claim := Some(want.hard);
      want := want.(hard := false, soft := false);
      pass := Claimed(Some(reset));
    }

    /** esp_sdio_reset_target under its lock: false is a budget used up. */
    method ResetTarget(allowed: bool) returns (taken: bool)
      requires chip.board.Some?
      modifies `want
      ensures Now() == Apply(old(Now()), Sdio(AskTarget(allowed)))
      ensures taken <==> FullChip(chip) || allowed
    {
      taken := true;
      if !chip.unavailable && chip.board.value {
        want := want.(stamp := epoch.epoch, stampAt := epoch.commits, hardAt := epoch.commits, hard := true);
      } else if !allowed {
        taken := false;
      } else {
        want := want.(stamp := epoch.epoch, stampAt := epoch.commits, softAt := epoch.commits, soft := true);
      }
    }

    /** esp_sdio_hard_reset_and_reopen up to the call of the MMC core. */
    method HardResetAndReopen() returns (issued: bool)
      requires MayStrike(Now())
      modifies `flags, `chip, `log, `pass
      ensures Now() == Apply(old(Now()), Sdio(TryHard))
      ensures issued <==> Strikes(old(Now()))
    {
      var fullChip := !chip.unavailable && chip.board.Some? && chip.board.value;
      issued := false;
      if budget.deadline.Some? && fullChip && chip.struck != budget.deadline {
        chip := chip.(struck := budget.deadline);
        issued := true;
      }
      if budget.deadline.None? {
        pass := Over;
        return;
      }
      flags := flags.(resetExpected := true);
      if !fullChip {
        pass := Striking(false);
      } else if !issued {
        flags := flags.(restartNeeded := false);
        pass := Over;
      } else {
        var asked := if pass.claim.Some? then pass.claim.value.askedAt else budget.armedAt;
        log := log.(issued := log.issued + [Reset(true, asked, epoch.commits)]);
        pass := Striking(true);
      }
    }
  }
}
