/** The SDIO transport resets across healthy boots. The hardware and the
    software request share one stamp, so a request of one kind can put a fresh
    stamp on an old request of the other; the latch keeps that harmless. */
module TransportReset {
  import opened Recovery
  import opened Wire

  /** Reconstruction owns its flag up to the commit, no pass is under way at the
      commit, and a pass works on an incarnation that is not healthy. */
  predicate Owned(f: Flags, c: Ctl) {
    && (Reconstructing(c.boot) ==> f.reconstruct)
    && (c.boot.Cancelled? ==> !c.worker.Recovering?)
    && (c.worker.Recovering? ==> f.pending || f.resetExpected)
  }

  /** A pending hardware request whose stamp is younger than itself: the latch
      has been set since. */
  predicate WantTimely(w: Want, h: Chip) {
    && (w.hard ==> h.board.Some? && h.board.value && w.hardAt <= w.stampAt && (w.hardAt < w.stampAt ==> h.unavailable))
    && (w.soft && !w.hard ==> w.softAt == w.stampAt)
  }

  predicate ClaimTimely(r: Reset, h: Chip) {
    r.askedAt == r.at || (r.hardware && h.unavailable)
  }

  /** After its claim a pass sees no hardware request of an older epoch. */
  predicate PassTimely(s: State) {
    s.c.worker.Recovering? && !s.p.Entry? ==>
      && (s.w.hard ==> s.w.hardAt == s.e.commits)
      && (s.p.Claimed? && s.p.claim.Some? ==>
            s.p.claim.value.at == s.e.commits && ClaimTimely(s.p.claim.value, s.h))
  }

  predicate BudgetTimely(b: Budget, e: Epoch) {
    b.deadline.Some? ==> b.armedAt == e.commits
  }

  predicate Timely(issued: seq<Reset>) {
    forall i :: 0 <= i < |issued| ==> issued[i].askedAt == issued[i].at
  }

  predicate AllTimely(s: State) {
    && Owned(s.f, s.c) && EpochCounted(s.e, s.w) && WantTimely(s.w, s.h) && PassTimely(s) && BudgetTimely(s.b, s.e)
    && Timely(s.l.issued)
  }

  lemma FlagOwned(s: State, a: Action)
    requires Reconstructing(s.c.boot) ==> s.f.reconstruct
    ensures Reconstructing(Apply(s, a).c.boot) ==> Apply(s, a).f.reconstruct
  {
    if a.Sdio? {
      SdioFrames(s, a.step);
    }
  }

  lemma NoPassAtCommit(s: State, a: Action)
    requires Owned(s.f, s.c)
    ensures Apply(s, a).c.boot.Cancelled? ==> !Apply(s, a).c.worker.Recovering?
  {
    if a.Sdio? {
      SdioFrames(s, a.step);
    }
  }

  lemma PassIsQuarantined(s: State, a: Action)
    requires Owned(s.f, s.c)
    ensures Apply(s, a).c.worker.Recovering? ==> Apply(s, a).f.pending || Apply(s, a).f.resetExpected
  {
    if a.Sdio? {
      SdioFrames(s, a.step);
    }
  }

  lemma OwnedKeeps(s: State, a: Action)
    requires Owned(s.f, s.c)
    ensures Owned(Apply(s, a).f, Apply(s, a).c)
  {
    FlagOwned(s, a);
    NoPassAtCommit(s, a);
    PassIsQuarantined(s, a);
  }

  /** No epoch begins inside a pass. */
  lemma PassHoldsTheEpoch(s: State, a: Action)
    requires Owned(s.f, s.c) && s.c.worker.Recovering?
    ensures Apply(s, a).e == s.e
  {
    if a.Sdio? {
      SdioFrames(s, a.step);
    }
  }

  lemma SdioWantKeeps(s: State, step: Step)
    requires WantTimely(s.w, s.h) && s.w.stampAt <= s.e.commits
    requires s.c.worker.Recovering? && !s.p.Entry? && s.w.hard ==> s.w.hardAt == s.e.commits
    ensures WantTimely(ApplySdio(s, step).w, ApplySdio(s, step).h)
  {
  }

  lemma WantKeeps(s: State, a: Action)
    requires WantTimely(s.w, s.h) && PassTimely(s) && EpochCounted(s.e, s.w)
    ensures WantTimely(Apply(s, a).w, Apply(s, a).h)
  {
    if a.Sdio? {
      SdioWantKeeps(s, a.step);
    } else {
      OthersFrame(s, a);
    }
  }

  lemma StampIsOfThisEpoch(s: State)
    requires EpochCounted(s.e, s.w) && s.e.commits < U32 && s.w.stamp == s.e.epoch
    ensures s.w.stampAt == s.e.commits
  {
  }

  lemma ClaimPassKeeps(s: State)
    requires EpochCounted(s.e, s.w) && WantTimely(s.w, s.h) && PassTimely(s) && s.e.commits < U32
    ensures PassTimely(ClaimReset(s))
  {
    if Takes(s) {
      StampIsOfThisEpoch(s);
    }
  }

  lemma SdioPassKeeps(s: State, step: Step)
    requires PassTimely(s) && !step.Claim?
    ensures PassTimely(ApplySdio(s, step))
  {
  }

  lemma OtherPassKeeps(s: State, a: Action)
    requires Owned(s.f, s.c) && PassTimely(s) && !a.Sdio?
    ensures PassTimely(Apply(s, a))
  {
    OthersFrame(s, a);
    if s.c.worker.Recovering? {
      PassHoldsTheEpoch(s, a);
    }
  }

  lemma PassKeeps(s: State, a: Action)
    requires AllTimely(s) && s.e.commits < U32
    ensures PassTimely(Apply(s, a))
  {
    if !a.Sdio? {
      OtherPassKeeps(s, a);
    } else if a.step.Claim? {
      ClaimPassKeeps(s);
    } else {
      SdioPassKeeps(s, a.step);
    }
  }

  lemma BudgetKeeps(s: State, a: Action)
    requires BudgetTimely(s.b, s.e)
    ensures BudgetTimely(Apply(s, a).b, Apply(s, a).e)
  {
    if a.Sdio? {
      SdioFrames(s, a.step);
    }
  }

  lemma IssuedKeeps(s: State, a: Action)
    requires PassTimely(s) && BudgetTimely(s.b, s.e) && Timely(s.l.issued)
    ensures Timely(Apply(s, a).l.issued)
  {
    if !a.Sdio? {
      OthersFrame(s, a);
    }
  }

  lemma CommitsGrow(s: State, a: Action)
    ensures s.e.commits <= Apply(s, a).e.commits
  {
    if a.Sdio? {
      SdioFrames(s, a.step);
    }
  }

  lemma {:induction false} CommitsGrowRun(s: State, actions: seq<Action>)
    ensures s.e.commits <= Run(s, actions).e.commits
    decreases |actions|
  {
    if actions != [] {
      CommitsGrow(s, actions[0]);
      CommitsGrowRun(Apply(s, actions[0]), actions[1..]);
    }
  }

  lemma AllTimelyKeeps(s: State, a: Action)
    requires AllTimely(s) && s.e.commits < U32
    ensures AllTimely(Apply(s, a))
  {
    OwnedKeeps(s, a);
    EpochsKeep(s, a);
    WantKeeps(s, a);
    PassKeeps(s, a);
    BudgetKeeps(s, a);
    IssuedKeeps(s, a);
  }

  lemma {:induction false} AllTimelyRun(s: State, actions: seq<Action>)
    requires AllTimely(s) && Run(s, actions).e.commits < U32
    ensures AllTimely(Run(s, actions))
    decreases |actions|
  {
    if actions != [] {
      CommitsGrow(s, actions[0]);
      CommitsGrowRun(Apply(s, actions[0]), actions[1..]);
      AllTimelyKeeps(s, actions[0]);
      AllTimelyRun(Apply(s, actions[0]), actions[1..]);
    }
  }

  /** Main result: whatever the interleaving, every transport reset issued, in
      hardware or in software, was asked for in the commit epoch in which it is
      issued: none outlives a healthy boot. (Fewer than 2^32 commits.) */
  lemma StaleResetNeverExecuted(actions: seq<Action>)
    requires Run(BOOT, actions).e.commits < U32
    ensures Timely(Run(BOOT, actions).l.issued)
  {
    AllTimelyRun(BOOT, actions);
  }

  // And what is asked for is done.

  /** A reset asked for before a pass is claimed by it and issued: on the chip's
      reset line where the board has one that works and the running deadline was
      not struck for yet, and by the numbered CLOSE where it has none. */
  lemma AskedResetIsIssued(s: State, acked: bool)
    requires s.c.worker.Recovering? && s.p.Entry? && !Healthy(s.f) && !s.w.hard && !s.w.soft
    requires s.h.board.Some? && s.b.deadline.Some?
    ensures var t := ApplySdio(ApplySdio(s, AskTarget(true)), Claim);
            if s.h.board.value && !s.h.unavailable then
              s.h.struck != s.b.deadline ==>
                ApplySdio(t, TryHard).l.issued == s.l.issued + [Reset(true, s.e.commits, s.e.commits)]
            else ApplySdio(t, SendClose(acked)).l.issued == s.l.issued + [Reset(false, s.e.commits, s.e.commits)]
  {
  }

  /** A hardware reset that fails within its attempt falls back on the software
      one: armed now, it is claimed by the next pass. */
  lemma FailedHardResetFallsBack(s: State, o: HardOutcome)
    requires s.c.worker.Recovering? && s.p.Striking? && (s.p.tried ==> !o.Done?) && s.b.deadline.Some?
    ensures var t := ApplySdio(ApplySdio(s, HardDone(o)), ArmSoft(true));
            && t.w.soft && t.w.stampAt == s.e.commits && t.w.softAt == s.e.commits && t.f.restartNeeded
            && (t.h.unavailable <==> s.h.unavailable || !s.p.tried || o.Unsupported?)
  {
  }

  // The claim alone promises less: the latch and the stamp together let it
  // take an old hardware request.

  predicate StampsHard(s: State, a: Action) {
    a.Sdio? && a.step.AskTarget? && FullChip(s.h)
  }

  predicate StampsSoft(s: State, a: Action) {
    || (a.Sdio? && a.step.AskTarget? && s.h.board.Some? && a.step.allowed && !FullChip(s.h))
    || (a.Sdio? && a.step.ArmSoft? && a.step.allowed && MayArm(s))
  }

  /** Has an old hardware request been given a fresh stamp, and neither been
      asked for again nor dropped since? */
  function Restamped(s: State, a: Action, was: bool): bool {
    if StampsSoft(s, a) then was || (s.w.hard && s.w.stamp != s.e.epoch)
    else if StampsHard(s, a) then false
    else was && Apply(s, a).w.hard
  }

  function RestampedBy(s: State, actions: seq<Action>, was: bool): bool
    decreases |actions|
  {
    if actions == [] then was else RestampedBy(Apply(s, actions[0]), actions[1..], Restamped(s, actions[0], was))
  }

  predicate AskedWhen(w: Want, restamped: bool) {
    && (restamped ==> w.hard)
    && (w.hard ==> w.hardAt <= w.stampAt && (w.hardAt == w.stampAt <==> !restamped))
  }

  lemma AskedWhenKeeps(s: State, a: Action, was: bool)
    requires EpochCounted(s.e, s.w) && s.e.commits < U32 && AskedWhen(s.w, was)
    ensures AskedWhen(Apply(s, a).w, Restamped(s, a, was))
  {
    if !a.Sdio? {
      OthersFrame(s, a);
    }
  }

  lemma {:induction false} AskedWhenRun(s: State, actions: seq<Action>, was: bool)
    requires EpochCounted(s.e, s.w) && AskedWhen(s.w, was) && Run(s, actions).e.commits < U32
    ensures AskedWhen(Run(s, actions).w, RestampedBy(s, actions, was))
    decreases |actions|
  {
    if actions != [] {
      CommitsGrow(s, actions[0]);
      CommitsGrowRun(Apply(s, actions[0]), actions[1..]);
      AskedWhenKeeps(s, actions[0], was);
      EpochsKeep(s, actions[0]);
      AskedWhenRun(Apply(s, actions[0]), actions[1..], Restamped(s, actions[0], was));
    }
  }

  /** What a claim takes was asked for in the current epoch if and only if no
      software request has put a fresh stamp on an old hardware request since
      that was last asked for. Where one has, the latch is set. */
  lemma ClaimIsOfThisEpoch(actions: seq<Action>)
    requires var s := Run(BOOT, actions); Takes(s) && s.e.commits < U32
    ensures var s := Run(BOOT, actions);
            && ApplySdio(s, Claim).l.claimed == s.l.claimed + [Carried(s)]
            && (Carried(s).askedAt == s.e.commits <==> !RestampedBy(BOOT, actions, false))
            && (Carried(s).askedAt != s.e.commits ==> s.w.hard && s.h.unavailable)
  {
    AskedWhenRun(BOOT, actions, false);
    AllTimelyRun(BOOT, actions);
    StampIsOfThisEpoch(Run(BOOT, actions));
  }

  /** A pass that claimed an old hardware reset: the latch leaves it nothing to
      issue. */
  predicate Spent(s: State) {
    && s.c.worker.Recovering? && s.h.unavailable
    && (match s.p
        case Claimed(claim) => claim.Some? && claim.value.hardware
        case Striking(tried) => !tried
        case Falling => true
        case Over => true
        case Entry => false)
  }

  lemma PassGoesOn(s: State, a: Action)
    requires s.c.worker.Recovering? && !a.WorkEnd? && !a.Sdio?
    ensures Apply(s, a).c.worker.Recovering? && Apply(s, a).p == s.p
  {
  }

  lemma SdioSpentKeeps(s: State, step: Step)
    requires Spent(s)
    ensures Spent(ApplySdio(s, step)) && ApplySdio(s, step).l.issued == s.l.issued
  {
    SdioFrames(s, step);
  }

  lemma SpentKeeps(s: State, a: Action)
    requires Spent(s) && !a.WorkEnd?
    ensures Spent(Apply(s, a)) && Apply(s, a).l.issued == s.l.issued
  {
    if a.Sdio? {
      SdioSpentKeeps(s, a.step);
    } else {
      OthersFrame(s, a);
      PassGoesOn(s, a);
    }
  }

  lemma {:induction false} SpentRun(s: State, actions: seq<Action>)
    requires Spent(s) && forall i :: 0 <= i < |actions| ==> !actions[i].WorkEnd?
    ensures Run(s, actions).l.issued == s.l.issued
    decreases |actions|
  {
    if actions != [] {
      SpentKeeps(s, actions[0]);
      SpentRun(Apply(s, actions[0]), actions[1..]);
    }
  }

  /** A claim of an old request costs one pass: up to its end no reset of
      either kind is issued. */
  lemma StaleClaimIsHarmless(before: seq<Action>, after: seq<Action>)
    requires var s := Run(BOOT, before); Takes(s) && Carried(s).askedAt != s.e.commits && s.e.commits < U32
    requires forall i :: 0 <= i < |after| ==> !after[i].WorkEnd?
    ensures var s := Run(BOOT, before); Run(ApplySdio(s, Claim), after).l.issued == s.l.issued
  {
    ClaimIsOfThisEpoch(before);
    SpentRun(ApplySdio(Run(BOOT, before), Claim), after);
  }

  // Hardware resets belong to counted restarts.

  function PowerCycles(issued: seq<Reset>): nat {
    if issued == [] then 0
    else PowerCycles(issued[..|issued| - 1]) + if issued[|issued| - 1].hardware then 1 else 0
  }

  /** The running deadline still has its hardware reset to give. */
  function Unstruck(s: State): nat {
    if s.b.deadline.Some? && s.h.struck != s.b.deadline then 1 else 0
  }

  lemma PowerCyclesAppend(issued: seq<Reset>, r: Reset)
    ensures PowerCycles(issued + [r]) == PowerCycles(issued) + if r.hardware then 1 else 0
  {
    assert (issued + [r])[..|issued|] == issued;
  }

  lemma IssuedTouched(s: State, a: Action)
    ensures var t := Apply(s, a);
            || t.l.issued == s.l.issued
            || (a == Sdio(TryHard) && Strikes(s) && t.l.issued == s.l.issued + [Struck(s)])
            || (MayClose(s) && t.l.issued == s.l.issued + [Reset(false, s.p.claim.value.askedAt, s.e.commits)])
  {
    if !a.Sdio? {
      OthersFrame(s, a);
    }
  }

  lemma UnstruckTouched(s: State, a: Action)
    ensures Unstruck(Apply(s, a)) + (if a == Sdio(TryHard) && Strikes(s) then 1 else 0)
              <= Unstruck(s) + if IsDispatch(s, a) then 1 else 0
  {
    if !a.Sdio? {
      OthersFrame(s, a);
    }
  }

  lemma CyclesCounted(s: State, a: Action)
    ensures PowerCycles(Apply(s, a).l.issued) == PowerCycles(s.l.issued) + if a == Sdio(TryHard) && Strikes(s) then 1 else 0
  {
    IssuedTouched(s, a);
    var t := Apply(s, a);
    if t.l.issued != s.l.issued {
      PowerCyclesAppend(s.l.issued, t.l.issued[|s.l.issued|]);
    }
  }

  /** However often a pass is repeated, the chip's power is cycled at most once
      for each restart that was counted. */
  lemma {:induction false} OnePowerCyclePerRestart(s: State, actions: seq<Action>)
    ensures PowerCycles(Run(s, actions).l.issued) <= PowerCycles(s.l.issued) + Unstruck(s) + CountDispatches(s, actions)
    decreases |actions|
  {
    if actions != [] {
      CyclesCounted(s, actions[0]);
      UnstruckTouched(s, actions[0]);
      OnePowerCyclePerRestart(Apply(s, actions[0]), actions[1..]);
    }
  }

  /** After a healthy finish or a new binding: at most three times before the
      next. */
  lemma AtMostThreePowerCycles(s: State, actions: seq<Action>)
    requires s.b.attempts == 0 && s.b.deadline.None? && NoRefill(s, actions)
    ensures PowerCycles(Run(s, actions).l.issued) <= PowerCycles(s.l.issued) + MAX_ATTEMPTS
  {
    OnePowerCyclePerRestart(s, actions);
    AtMostThreeRestarts(s, actions);
  }

  // ------------------------------------------------ a run through the latch

  lemma {:induction false} RunAppend(s: State, a: seq<Action>, b: seq<Action>)
    ensures Run(s, a + b) == Run(Run(s, a), b)
    decreases |a|
  {
    if a == [] {
      assert a + b == b;
    } else {
      assert (a + b)[1..] == a[1..] + b;
      RunAppend(Apply(s, a[0]), a[1..], b);
    }
  }

  lemma RunOne(s: State, a: Action)
    ensures Run(s, [a]) == Apply(s, a)
  {
    assert [a][1..] == [];
    assert Run(Apply(s, a), []) == Apply(s, a);
  }

  lemma RunTwo(s: State, a: Action, b: Action)
    ensures Run(s, [a, b]) == Apply(Apply(s, a), b)
  {
    assert [a, b][1..] == [b];
    RunOne(Apply(s, a), b);
  }

  lemma RunThree(s: State, a: Action, b: Action, c: Action)
    ensures Run(s, [a, b, c]) == Apply(Apply(Apply(s, a), b), c)
  {
    assert [a, b, c][1..] == [b, c];
    RunTwo(Apply(s, a), b, c);
  }

  /** A counted restart on a board that declares the full reset; the worker
      starts its pass and claims nothing yet. */
  const COUNTING := [Rebind(false, true), Restart(9), Request(true)]
  const PASSING := [Arm, WorkStart(0), Sdio(Claim)]
  /** The hardware reset is asked for, tried by the pass because its function
      would not come up, and found unsupported; the software reset is armed. */
  const TRYING := [Sdio(AskTarget(true)), Sdio(TryHard), Sdio(HardDone(Unsupported))]
  const FALLING := [Sdio(ArmSoft(true)), WorkEnd(Failed), BootStart]
  /** The chip boots all the same and is declared healthy. */
  const BOOTING := [BeginRecon, SetInit, CancelWork]
  const FINISHING := [Commit, ArmAfterCommit, Finish]
  /** A new restart asks for a software reset and so stamps the old request. */
  const ASKING := [Restart(20), Sdio(AskTarget(true)), Request(true)]

  const QUIET := Flags(false, false, false, false, false, false, false, false)
  const COUNTED := State(QUIET.(pending := true, resetExpected := true, restartNeeded := true), Gens(1, 1, 0, 0),
                         Budget(1, Some(9), 0), BOOT.w, Chip(Some(true), false, None), Over, BOOT.l, BOOT.c, BOOT.e)
  const PASSED := COUNTED.(p := Claimed(None), c := Ctl(Disabled, false, Recovering(1, 1), NoBoot))
  const TRIED := PASSED.(w := Want(true, false, 0, 0, 0, 0), h := Chip(Some(true), true, Some(9)), p := Falling,
                         l := Log([], [Reset(true, 0, 0)]))
  const FALLEN := TRIED.(f := QUIET.(pending := true, resetExpected := true), w := Want(true, true, 0, 0, 0, 0), p := Over,
                         c := Ctl(Disabled, false, Asleep, Started))
  const BOOTED := FALLEN.(f := QUIET.(pending := true, resetExpected := true, initDone := true, reconstruct := true),
                          g := Gens(1, 1, 1, 1), c := Ctl(Ready, false, Asleep, Cancelled))
  const FINISHED := BOOTED.(f := QUIET.(initDone := true), b := Budget(0, None, 0), c := Ctl(Ready, false, Asleep, NoBoot),
                            e := Epoch(1, 1))
  const ASKED := FINISHED.(f := QUIET.(initDone := true, pending := true, resetExpected := true, restartNeeded := true),
                           g := Gens(2, 2, 1, 1), b := Budget(1, Some(20), 1), w := Want(true, true, 1, 1, 0, 1),
                           c := Ctl(RxReady, false, Asleep, NoBoot))

  lemma FirstStages()
    ensures Run(BOOT, COUNTING) == COUNTED && Run(COUNTED, PASSING) == PASSED
  {
    RunThree(BOOT, Rebind(false, true), Restart(9), Request(true));
    RunThree(COUNTED, Arm, WorkStart(0), Sdio(Claim));
  }

  lemma Tries()
    ensures Run(PASSED, TRYING) == TRIED
  {
    RunThree(PASSED, Sdio(AskTarget(true)), Sdio(TryHard), Sdio(HardDone(Unsupported)));
  }

  lemma Falls()
    ensures Run(TRIED, FALLING) == FALLEN
  {
    RunThree(TRIED, Sdio(ArmSoft(true)), WorkEnd(Failed), BootStart);
  }

  lemma Boots()
    ensures Run(FALLEN, BOOTING) == BOOTED
  {
    RunThree(FALLEN, BeginRecon, SetInit, CancelWork);
  }

  lemma Finishes()
    ensures Run(BOOTED, FINISHING) == FINISHED
  {
    RunThree(BOOTED, Commit, ArmAfterCommit, Finish);
  }

  lemma Asks()
    ensures Run(FINISHED, ASKING) == ASKED
  {
    RunThree(FINISHED, Restart(20), Sdio(AskTarget(true)), Request(true));
  }

  lemma Claims()
    ensures Run(ASKED, PASSING).l.claimed == [Reset(true, 0, 1)]
  {
    RunThree(ASKED, Arm, WorkStart(0), Sdio(Claim));
  }

  const BY_THE_LATCH := COUNTING + (PASSING + (TRYING + (FALLING + (BOOTING + (FINISHING + (ASKING + PASSING))))))

  /** Such a claim does occur: a hardware reset asked for before the first
      healthy boot is claimed after it, by way of the latch. */
  lemma OldRequestIsClaimed()
    ensures Run(BOOT, BY_THE_LATCH).l.claimed == [Reset(true, 0, 1)]
  {
    var last := ASKING + PASSING;
    var end := BOOTING + (FINISHING + last);
    FirstStages();
    RunAppend(BOOT, COUNTING, PASSING + (TRYING + (FALLING + end)));
    RunAppend(COUNTED, PASSING, TRYING + (FALLING + end));
    Tries();
    RunAppend(PASSED, TRYING, FALLING + end);
    Falls();
    RunAppend(TRIED, FALLING, end);
    Boots();
    RunAppend(FALLEN, BOOTING, FINISHING + last);
    Finishes();
    RunAppend(BOOTED, FINISHING, last);
    Asks();
    RunAppend(FINISHED, ASKING, PASSING);
    Claims();
  }
}
