/** The other half of the MLME promises (host/esp_cmd.c): the event of a command
    that succeeds is not lost, and staging and flushing deliver it.

    Each theorem follows one command and one event through any run in which
    nothing gives them up: `...Benign` names the steps that do. */
module MlmeLive {
  import opened Wire
  import opened Mlme

  function IndexOf(q: seq<Event>, e: Event): (i: nat)
    requires e in q
    ensures i < |q| && q[i] == e
  {
    if q[0] == e then 0 else 1 + IndexOf(q[1..], e)
  }

  lemma RemoveKeeps(q: seq<Event>, i: nat, e: Event)
    requires i < |q| && e in q && q[i] != e
    ensures e in RemoveAt(q, i)
  {
    var k := IndexOf(q, e);
    if k < i {
      assert RemoveAt(q, i)[k] == e;
    } else {
      assert RemoveAt(q, i)[k - 1] == e;
    }
  }

  lemma RemoveMembers(q: seq<Event>, i: nat, e: Event)
    requires i < |q| && e in RemoveAt(q, i)
    ensures e in q
  {
  }

  // ------------------------------------------------- no event from the future

  /** The event has arrived and has neither been delivered nor dropped. */
  predicate UnderWay(q: Queues, e: Event) {
    e in q.matched || e in q.auth || q.assoc == Some(e) || q.disc == Some(e) || e in q.taken
  }

  lemma CommandsBringNone(s: State, a: Action, e: Event)
    requires IsCommand(a) && UnderWay(CommandStep(s, a).q, e)
    ensures UnderWay(s.q, e)
  {
  }

  lemma StageBringsNone(s: State, x: Event, copied: bool, e: Event)
    requires UnderWay(StageEvent(s, x, copied).q, e)
    ensures UnderWay(s.q, e) || e == x
  {
  }

  lemma FlushBringsNone(s: State, cleanup: bool, e: Event)
    requires UnderWay(FlushStaged(s, cleanup).q, e)
    ensures UnderWay(s.q, e)
  {
  }

  lemma DeliverBringsNone(s: State, x: Event, bssPresent: bool, e: Event)
    requires UnderWay(DeliverEvent(s, x, bssPresent).q, e)
    ensures UnderWay(s.q, e)
  {
  }

  /** An event is under way because it arrived and matched. */
  lemma OnlyArrivals(s: State, a: Action, e: Event)
    requires UnderWay(Apply(s, a).q, e)
    ensures UnderWay(s.q, e) || (a == Arrive(e) && EventMatches(s, e))
  {
    if IsCommand(a) {
      CommandsBringNone(s, a, e);
    } else if a.Stage? && a.i < |s.q.matched| {
      StageBringsNone(s.(q := s.q.(matched := RemoveAt(s.q.matched, a.i))), s.q.matched[a.i], a.copied, e);
    } else if a.Flush? {
      FlushBringsNone(s, a.cleanup, e);
    } else if a.Deliver? && a.j < |s.q.taken| {
      DeliverBringsNone(s.(q := s.q.(taken := RemoveAt(s.q.taken, a.j))), s.q.taken[a.j], a.bssPresent, e);
    }
  }

  /** A slot keeps its number, loses it, or takes that of the command issued. */
  lemma NumbersTouched(s: State, a: Action)
    ensures var t := Apply(s, a);
            && t.lastSeq >= s.lastSeq
            && (t.m.auth.seqNum == s.m.auth.seqNum || t.m.auth.seqNum == 0 || t.m.auth.seqNum == t.lastSeq)
            && (t.m.assoc.seqNum == s.m.assoc.seqNum || t.m.assoc.seqNum == 0 || t.m.assoc.seqNum == t.lastSeq)
  {
  }

  /** The numbers kept, and that of this event if it is under way, have been
      issued. */
  predicate Issued(s: State, e: Event) {
    s.m.auth.seqNum <= s.lastSeq && s.m.assoc.seqNum <= s.lastSeq && (UnderWay(s.q, e) ==> e.seqNum <= s.lastSeq)
  }

  lemma {:induction false} IssuedRun(s: State, actions: seq<Action>, e: Event)
    requires Issued(s, e) && !e.op.Disconnect?
    ensures Issued(Run(s, actions), e)
    decreases |actions|
  {
    if actions != [] {
      NumbersTouched(s, actions[0]);
      if UnderWay(Apply(s, actions[0]).q, e) {
        OnlyArrivals(s, actions[0], e);
      }
      IssuedRun(Apply(s, actions[0]), actions[1..], e);
    }
  }

  // ----------------------------------------------------------- authentication

  /** cfg80211 is running an AUTH command. */
  predicate RunsAuth(c: Caller) {
    !c.Idle? && c.cmd.op.Auth?
  }

  /** The AUTH command k is under way or has succeeded, and its event is still
      expected: from its begin section on. */
  predicate AuthExpects(c: Slot, caller: Caller, k: nat, bssid: nat) {
    && k != 0 && c.seqNum == k && c.bssid == bssid
    && (if RunsAuth(caller) then
          caller.cmd.seqNum == k && (caller.Ending? ==> caller.ok) && !c.awaiting && (c.pending <==> !caller.Entered?)
        else c.awaiting && !c.pending)
  }

  /** Nothing gives the command or its event up: no timeout, cancellation or
      clearing, no failure of the command, no cleanup flush, no frame that cannot
      be copied or finds the queue full. */
  predicate AuthBenign(s: State, a: Action) {
    && !a.TimeUp? && !a.Cancel? && !a.ClearAuth? && a != Flush(true)
    && (a == CommandDone(false) ==> !RunsAuth(s.caller))
    && (a.Stage? && a.i < |s.q.matched| && s.q.matched[a.i].op.Auth? ==> a.copied && |s.q.auth| < 8)
  }

  predicate AuthBenignRun(s: State, actions: seq<Action>)
    decreases |actions|
  {
    actions == [] || (AuthBenign(s, actions[0]) && AuthBenignRun(Apply(s, actions[0]), actions[1..]))
  }

  /** The event arrives after the begin section, and is taken for delivery after
      the end section. */
  predicate AuthInTime(s: State, e: Event) {
    && (RunsAuth(s.caller) && s.caller.Entered? ==> !UnderWay(s.q, e))
    && (e in s.q.taken ==> !RunsAuth(s.caller))
    && s.q.assoc != Some(e) && s.q.disc != Some(e)
  }

  predicate AuthHeld(q: Queues, e: Event) {
    e in q.matched || e in q.auth || e in q.taken
  }

  /** The command expects this event. */
  predicate AuthGoing(s: State, e: Event) {
    e.op.Auth? && AuthExpects(s.m.auth, s.caller, e.seqNum, e.bssid) && AuthInTime(s, e)
  }

  /** The record in the log that the event leaves. */
  predicate AuthLogged(s: State, e: Event) {
    Rec(e.seqNum, e.bssid, 0) in s.log.auths
  }

  predicate AuthKept(s: State, t: State, e: Event) {
    (AuthGoing(t, e) && (AuthHeld(s.q, e) ==> AuthHeld(t.q, e))) || AuthLogged(t, e)
  }

  lemma AuthCommands(s: State, a: Action, e: Event)
    requires AuthGoing(s, e) && AuthBenign(s, a) && IsCommand(a)
    ensures AuthKept(s, CommandStep(s, a), e)
  {
  }

  lemma AuthStages(s: State, i: nat, copied: bool, e: Event)
    requires AuthGoing(s, e) && AuthBenign(s, Stage(i, copied))
    ensures AuthKept(s, EventStep(s, Stage(i, copied)), e)
  {
    if i < |s.q.matched| {
      if e in s.q.matched && s.q.matched[i] != e {
        RemoveKeeps(s.q.matched, i, e);
      }
      if e in RemoveAt(s.q.matched, i) {
        RemoveMembers(s.q.matched, i, e);
      }
    }
  }

  lemma AuthFlushes(s: State, e: Event)
    requires AuthGoing(s, e)
    ensures AuthKept(s, FlushStaged(s, false), e)
  {
  }

  lemma AuthDeliveries(s: State, j: nat, bssPresent: bool, e: Event)
    requires AuthGoing(s, e)
    ensures AuthKept(s, EventStep(s, Deliver(j, bssPresent)), e)
  {
    if j < |s.q.taken| {
      var x := s.q.taken[j];
      if e in s.q.taken && x != e {
        RemoveKeeps(s.q.taken, j, e);
      }
      if e in RemoveAt(s.q.taken, j) {
        RemoveMembers(s.q.taken, j, e);
      }
      if x.op.Auth? && AuthDeliverable(s.m.auth, x) {
        var t := EventStep(s, Deliver(j, bssPresent));
        assert t.log.auths[|s.log.auths|] == Rec(e.seqNum, e.bssid, 0);
      }
    }
  }

  lemma AuthOthers(s: State, a: Action, e: Event)
    requires AuthGoing(s, e) && AuthBenign(s, a) && !IsCommand(a) && !a.Stage? && !a.Flush? && !a.Deliver?
    ensures AuthKept(s, EventStep(s, a), e)
  {
  }

  lemma AuthStep(s: State, a: Action, e: Event)
    requires AuthGoing(s, e) && AuthBenign(s, a)
    ensures AuthKept(s, Apply(s, a), e)
  {
    if IsCommand(a) {
      AuthCommands(s, a, e);
    } else if a.Stage? {
      AuthStages(s, a.i, a.copied, e);
    } else if a.Flush? {
      AuthFlushes(s, e);
    } else if a.Deliver? {
      AuthDeliveries(s, a.j, a.bssPresent, e);
    } else {
      AuthOthers(s, a, e);
    }
  }

  /** What has been delivered stays on record. */
  lemma LogGrows(s: State, a: Action)
    ensures s.log.auths <= Apply(s, a).log.auths && s.log.assocs <= Apply(s, a).log.assocs
    ensures s.log.localDiscs <= Apply(s, a).log.localDiscs
  {
  }

  lemma {:induction false} LogGrowsRun(s: State, actions: seq<Action>)
    ensures s.log.auths <= Run(s, actions).log.auths && s.log.assocs <= Run(s, actions).log.assocs
    ensures s.log.localDiscs <= Run(s, actions).log.localDiscs
    decreases |actions|
  {
    if actions != [] {
      LogGrows(s, actions[0]);
      LogGrowsRun(Apply(s, actions[0]), actions[1..]);
    }
  }

  lemma {:induction false} AuthRun(s: State, actions: seq<Action>, e: Event)
    requires AuthGoing(s, e) && AuthBenignRun(s, actions)
    ensures AuthKept(s, Run(s, actions), e)
    decreases |actions|
  {
    if actions != [] {
      AuthStep(s, actions[0], e);
      if AuthGoing(Apply(s, actions[0]), e) && (AuthHeld(s.q, e) ==> AuthHeld(Apply(s, actions[0]).q, e)) {
        AuthRun(Apply(s, actions[0]), actions[1..], e);
      } else {
        LogGrowsRun(Apply(s, actions[0]), actions[1..]);
      }
    }
  }

  // The event that is still held goes the rest of its way.

  /** Staging, if it is not staged yet, flushing and delivering. */
  function AuthFinish(s: State, e: Event): seq<Action>
    requires AuthHeld(s.q, e)
  {
    if e in s.q.taken then [Deliver(IndexOf(s.q.taken, e), true)]
    else if e in s.q.auth then [Flush(false), Deliver(|s.q.taken| + IndexOf(s.q.auth, e), true)]
    else
      [Flush(false), Stage(IndexOf(s.q.matched, e), true)]
      + [Flush(false), Deliver(|s.q.taken| + |s.q.auth| + |Opt(s.q.assoc)| + |Opt(s.q.disc)|, true)]
  }

  lemma AuthDelivers(s: State, j: nat, e: Event)
    requires AuthGoing(s, e) && !RunsAuth(s.caller) && j < |s.q.taken| && s.q.taken[j] == e
    ensures Apply(s, Deliver(j, true)).log.auths == s.log.auths + [Rec(e.seqNum, e.bssid, 0)]
  {
  }

  lemma AuthFlushTakes(s: State, e: Event)
    requires AuthGoing(s, e) && !RunsAuth(s.caller)
    ensures var t := Apply(s, Flush(false));
            && AuthGoing(t, e) && t.caller == s.caller && t.log == s.log && t.q.matched == s.q.matched && t.q.auth == []
            && t.q.assoc.None? && t.q.disc.None?
            && t.q.taken == s.q.taken + s.q.auth + Opt(s.q.assoc) + Opt(s.q.disc)
  {
  }

  lemma RunTwo(s: State, a: Action, b: Action)
    ensures Run(s, [a, b]) == Apply(Apply(s, a), b)
  {
    assert [a, b][1..] == [b] && [b][1..] == [];
    assert Run(Apply(s, a), [b]) == Run(Apply(Apply(s, a), b), []);
  }

  lemma {:induction false} RunAppend(s: State, a: seq<Action>, b: seq<Action>)
    ensures Run(s, a + b) == Run(Run(s, a), b)
    decreases |a|
  {
    if a == [] {
      assert a + b == b;
    } else {
      assert (a + b)[1..] == a[1..] + b;
      RunAppend(Apply(s, a[0]), a[1..], b);
    }
  }

  lemma AuthStaged(s: State, i: nat, e: Event)
    requires AuthGoing(s, e) && !RunsAuth(s.caller) && s.q.auth == [] && i < |s.q.matched| && s.q.matched[i] == e
    ensures var t := Apply(s, Stage(i, true));
            && AuthGoing(t, e) && t.caller == s.caller && t.log == s.log && t.q.auth == [e] && t.q.taken == s.q.taken
            && t.q.assoc == s.q.assoc && t.q.disc == s.q.disc
  {
    if e in RemoveAt(s.q.matched, i) {
      RemoveMembers(s.q.matched, i, e);
    }
  }

  lemma AuthFromTaken(s: State, e: Event)
    requires AuthGoing(s, e) && !RunsAuth(s.caller) && e in s.q.taken
    ensures Run(s, AuthFinish(s, e)).log.auths == s.log.auths + [Rec(e.seqNum, e.bssid, 0)]
  {
    var j := IndexOf(s.q.taken, e);
    AuthDelivers(s, j, e);
    assert [Deliver(j, true)][1..] == [];
    assert Run(Apply(s, Deliver(j, true)), []) == Apply(s, Deliver(j, true));
  }

  lemma AuthFromQueue(s: State, e: Event)
    requires AuthGoing(s, e) && !RunsAuth(s.caller) && e !in s.q.taken && e in s.q.auth
    ensures Run(s, AuthFinish(s, e)).log.auths == s.log.auths + [Rec(e.seqNum, e.bssid, 0)]
  {
    var j := |s.q.taken| + IndexOf(s.q.auth, e);
    AuthFlushTakes(s, e);
    AuthDelivers(Apply(s, Flush(false)), j, e);
    RunTwo(s, Flush(false), Deliver(j, true));
  }

  lemma AuthFirstSteps(s: State, e: Event)
    requires AuthGoing(s, e) && !RunsAuth(s.caller) && e in s.q.matched
    ensures var u := Run(s, [Flush(false), Stage(IndexOf(s.q.matched, e), true)]);
            && AuthGoing(u, e) && !RunsAuth(u.caller) && u.log == s.log
            && u.q.auth == [e] && u.q.assoc.None? && u.q.disc.None?
            && |u.q.taken| == |s.q.taken| + |s.q.auth| + |Opt(s.q.assoc)| + |Opt(s.q.disc)|
  {
    var i := IndexOf(s.q.matched, e);
    AuthFlushTakes(s, e);
    AuthStaged(Apply(s, Flush(false)), i, e);
    RunTwo(s, Flush(false), Stage(i, true));
  }

  lemma AuthFromStage(s: State, j: nat, e: Event)
    requires AuthGoing(s, e) && !RunsAuth(s.caller) && j == |s.q.taken|
    requires s.q.auth == [e] && s.q.assoc.None? && s.q.disc.None?
    ensures Run(s, [Flush(false), Deliver(j, true)]).log.auths == s.log.auths + [Rec(e.seqNum, e.bssid, 0)]
  {
    AuthFlushTakes(s, e);
    AuthDelivers(Apply(s, Flush(false)), j, e);
    RunTwo(s, Flush(false), Deliver(j, true));
  }

  /** Whatever staged the event: from there it is flushed and delivered. */
  lemma AuthLastSteps(s: State, first: seq<Action>, j: nat, e: Event)
    requires var u := Run(s, first);
             && u.log == s.log && AuthGoing(u, e) && !RunsAuth(u.caller) && j == |u.q.taken|
             && u.q.auth == [e] && u.q.assoc.None? && u.q.disc.None?
    ensures Run(s, first + [Flush(false), Deliver(j, true)]).log.auths == s.log.auths + [Rec(e.seqNum, e.bssid, 0)]
  {
    AuthFromStage(Run(s, first), j, e);
    RunAppend(s, first, [Flush(false), Deliver(j, true)]);
  }

  lemma AuthFromMatched(s: State, e: Event)
    requires AuthGoing(s, e) && !RunsAuth(s.caller) && e !in s.q.taken && e !in s.q.auth && e in s.q.matched
    ensures Run(s, AuthFinish(s, e)).log.auths == s.log.auths + [Rec(e.seqNum, e.bssid, 0)]
  {
    AuthFirstSteps(s, e);
    var first := [Flush(false), Stage(IndexOf(s.q.matched, e), true)];
    AuthLastSteps(s, first, |s.q.taken| + |s.q.auth| + |Opt(s.q.assoc)| + |Opt(s.q.disc)|, e);
  }

  lemma AuthFinishes(s: State, e: Event)
    requires AuthGoing(s, e) && !RunsAuth(s.caller) && AuthHeld(s.q, e)
    ensures Run(s, AuthFinish(s, e)).log.auths == s.log.auths + [Rec(e.seqNum, e.bssid, 0)]
  {
    if e in s.q.taken {
      AuthFromTaken(s, e);
    } else if e in s.q.auth {
      AuthFromQueue(s, e);
    } else {
      AuthFromMatched(s, e);
    }
  }

  lemma AuthIssues(s: State, k: nat, bssid: nat, bss: nat, e: Event)
    requires Issued(s, e) && Enters(s, Auth, k) && e.op.Auth? && e.seqNum == k && e.bssid == bssid
    ensures AuthGoing(Apply(s, Issue(Auth, k, bssid, bss)), e)
  {
    if UnderWay(Apply(s, Issue(Auth, k, bssid, bss)).q, e) {
      OnlyArrivals(s, Issue(Auth, k, bssid, bss), e);
    }
  }

  /** From its begin section until it is delivered the event is let in. */
  lemma AuthArrives(s: State, e: Event)
    requires AuthGoing(s, e) && !(RunsAuth(s.caller) && s.caller.Entered?)
    ensures AuthGoing(Apply(s, Arrive(e)), e) && AuthHeld(Apply(s, Arrive(e)).q, e)
  {
    var t := Apply(s, Arrive(e));
    assert t.q.matched[|s.q.matched|] == e;
  }

  /** Main result: an AUTH command is issued; after its begin section, before or
      after its end, its event arrives; the command succeeds and has ended; and
      nothing on the way gives either up. Then the event has been delivered, or
      staging and flushing deliver it now, as one record more. */
  lemma AuthIsDelivered(before: seq<Action>, k: nat, bssid: nat, bss: nat, status: nat,
                        early: seq<Action>, late: seq<Action>)
    requires Enters(Run(NEW, before), Auth, k)
    requires var s := Apply(Run(NEW, before), Issue(Auth, k, bssid, bss)); var u := Run(s, early);
             && AuthBenignRun(s, early) && !(RunsAuth(u.caller) && u.caller.Entered?)
             && AuthBenignRun(Apply(u, Arrive(Event(Auth, k, bssid, status))), late)
             && !RunsAuth(Run(Apply(u, Arrive(Event(Auth, k, bssid, status))), late).caller)
    ensures var s := Apply(Run(NEW, before), Issue(Auth, k, bssid, bss)); var u := Run(s, early);
            var e := Event(Auth, k, bssid, status); var t := Run(Apply(u, Arrive(e)), late);
            || Rec(k, bssid, 0) in t.log.auths
            || (AuthHeld(t.q, e) && Run(t, AuthFinish(t, e)).log.auths == t.log.auths + [Rec(k, bssid, 0)])
  {
    var e := Event(Auth, k, bssid, status);
    IssuedRun(NEW, before, e);
    AuthIssues(Run(NEW, before), k, bssid, bss, e);
    var s := Apply(Run(NEW, before), Issue(Auth, k, bssid, bss));
    AuthRun(s, early, e);
    var u := Run(s, early);
    var v := Apply(u, Arrive(e));
    if AuthGoing(u, e) {
      AuthArrives(u, e);
      AuthRun(v, late, e);
      var t := Run(v, late);
      if AuthGoing(t, e) && AuthHeld(t.q, e) {
        AuthFinishes(t, e);
      }
    } else {
      LogGrows(u, Arrive(e));
      LogGrowsRun(v, late);
    }
  }

  // ------------------------------------------------------------- association

  predicate RunsAssoc(c: Caller) {
    !c.Idle? && c.cmd.op.Assoc?
  }

  /** The ASSOC command k is under way or has succeeded, and its event is still
      expected; it is let in from the start. */
  predicate AssocExpects(c: Slot, notified: bool, caller: Caller, k: nat, bssid: nat) {
    && k != 0 && c.seqNum == k && c.bssid == bssid
    && (if RunsAssoc(caller) then
          caller.cmd.seqNum == k && (caller.Ending? ==> caller.ok) && c.pending && (!caller.Entered? ==> !notified)
        else c.awaiting && !c.pending)
  }

  predicate SameAssoc(x: Event, e: Event) {
    x.op.Assoc? && x.seqNum == e.seqNum && x.bssid == e.bssid
  }

  /** Nothing gives the command or its event up: no timeout, cancellation,
      clearing or retiring, no failure of the command, no frame that cannot be
      copied or finds another one staged, no disconnect delivered, no second
      frame that says something else. */
  predicate AssocBenign(s: State, a: Action, e: Event) {
    && !a.TimeUp? && !a.Cancel? && !a.ClearAssoc? && (a.RetireStaged? ==> s.m.assoc.pending)
    && (a == CommandDone(false) ==> !RunsAssoc(s.caller))
    && (a.Stage? && a.i < |s.q.matched| && s.q.matched[a.i].op.Assoc? ==> a.copied && s.q.assoc.None?)
    && (a.Deliver? && a.j < |s.q.taken| && s.q.taken[a.j].op.Disconnect? ==>
          DiscMatch(s.m, s.g, s.q.taken[a.j].seqNum).None?)
    && (a.Arrive? && SameAssoc(a.event, e) ==> a.event == e)
  }

  predicate AssocBenignRun(s: State, actions: seq<Action>, e: Event)
    decreases |actions|
  {
    actions == [] || (AssocBenign(s, actions[0], e) && AssocBenignRun(Apply(s, actions[0]), actions[1..], e))
  }

  predicate AssocHeld(q: Queues, e: Event) {
    e in q.matched || q.assoc == Some(e) || e in q.taken
  }

  /** The command expects this event, and no other is under way for it. */
  ghost predicate AssocGoing(s: State, e: Event) {
    && e.op.Assoc? && AssocExpects(s.m.assoc, s.m.notified, s.caller, e.seqNum, e.bssid)
    && e !in s.q.auth && s.q.disc != Some(e)
    && (forall x {:trigger UnderWay(s.q, x)} :: UnderWay(s.q, x) && SameAssoc(x, e) ==> x == e)
  }

  predicate AssocLogged(s: State, e: Event) {
    Rec(e.seqNum, e.bssid, e.status) in s.log.assocs
  }

  /** What a step keeps of the command and of the place of its event. */
  predicate AssocSlotKept(s: State, t: State, e: Event) {
    || (AssocExpects(t.m.assoc, t.m.notified, t.caller, e.seqNum, e.bssid)
        && (e !in s.q.auth ==> e !in t.q.auth) && (s.q.disc != Some(e) ==> t.q.disc != Some(e))
        && (AssocHeld(s.q, e) ==> AssocHeld(t.q, e)))
    || AssocLogged(t, e)
  }

  lemma AssocCommands(s: State, a: Action, e: Event)
    requires AssocGoing(s, e) && AssocBenign(s, a, e) && IsCommand(a)
    ensures AssocSlotKept(s, CommandStep(s, a), e)
  {
  }

  lemma AssocStages(s: State, i: nat, copied: bool, e: Event)
    requires AssocGoing(s, e) && AssocBenign(s, Stage(i, copied), e)
    ensures AssocSlotKept(s, EventStep(s, Stage(i, copied)), e)
  {
    if i < |s.q.matched| && e in s.q.matched && s.q.matched[i] != e {
      RemoveKeeps(s.q.matched, i, e);
    }
  }

  lemma AssocFlushes(s: State, cleanup: bool, e: Event)
    requires AssocGoing(s, e)
    ensures AssocSlotKept(s, FlushStaged(s, cleanup), e)
  {
  }

  lemma AssocDeliveries(s: State, j: nat, bssPresent: bool, e: Event)
    requires AssocGoing(s, e) && AssocBenign(s, Deliver(j, bssPresent), e)
    ensures AssocSlotKept(s, EventStep(s, Deliver(j, bssPresent)), e)
  {
    if j < |s.q.taken| {
      var x := s.q.taken[j];
      if e in s.q.taken && x != e {
        RemoveKeeps(s.q.taken, j, e);
      }
      if x.op.Assoc? && SlotMatch(s.m.assoc, x) {
        assert UnderWay(s.q, x);
        var t := EventStep(s, Deliver(j, bssPresent));
        assert t.log.assocs[|s.log.assocs|] == Rec(e.seqNum, e.bssid, e.status);
      }
    }
  }

  lemma AssocOthers(s: State, a: Action, e: Event)
    requires AssocGoing(s, e) && AssocBenign(s, a, e) && !IsCommand(a) && !a.Stage? && !a.Flush? && !a.Deliver?
    ensures AssocSlotKept(s, EventStep(s, a), e)
  {
  }

  lemma AssocStep(s: State, a: Action, e: Event)
    requires AssocGoing(s, e) && AssocBenign(s, a, e)
    ensures var t := Apply(s, a); AssocLogged(t, e) || (AssocGoing(t, e) && (AssocHeld(s.q, e) ==> AssocHeld(t.q, e)))
  {
    if IsCommand(a) {
      AssocCommands(s, a, e);
    } else if a.Stage? {
      AssocStages(s, a.i, a.copied, e);
    } else if a.Flush? {
      AssocFlushes(s, a.cleanup, e);
    } else if a.Deliver? {
      AssocDeliveries(s, a.j, a.bssPresent, e);
    } else {
      AssocOthers(s, a, e);
    }
    forall x | UnderWay(Apply(s, a).q, x) && SameAssoc(x, e) ensures x == e {
      OnlyArrivals(s, a, x);
    }
  }

  lemma {:induction false} AssocRun(s: State, actions: seq<Action>, e: Event)
    requires AssocGoing(s, e) && AssocBenignRun(s, actions, e)
    ensures var t := Run(s, actions);
            AssocLogged(t, e) || (AssocGoing(t, e) && (AssocHeld(s.q, e) ==> AssocHeld(t.q, e)))
    decreases |actions|
  {
    if actions != [] {
      AssocStep(s, actions[0], e);
      if AssocLogged(Apply(s, actions[0]), e) {
        LogGrowsRun(Apply(s, actions[0]), actions[1..]);
      } else {
        AssocRun(Apply(s, actions[0]), actions[1..], e);
      }
    }
  }

  /** Staging, if it is not staged yet, flushing and delivering. */
  function AssocFinish(s: State, e: Event, bssPresent: bool): seq<Action>
    requires AssocHeld(s.q, e)
  {
    var n := |s.q.taken| + |Splice(s.m.auth, s.q.auth, false).0|;
    if e in s.q.taken then [Deliver(IndexOf(s.q.taken, e), bssPresent)]
    else if s.q.assoc == Some(e) then [Flush(false), Deliver(n, bssPresent)]
    else
      [Flush(false), Stage(IndexOf(s.q.matched, e), true)]
      + [Flush(false), Deliver(n + |Opt(s.q.assoc)| + |Opt(s.q.disc)|, bssPresent)]
  }

  /** The association is on record, and it is the current one if it succeeded. */
  predicate AssocOutcome(s: State, t: State, e: Event, bssPresent: bool) {
    && t.log.assocs == s.log.assocs + [Rec(e.seqNum, e.bssid, e.status)]
    && t.g.conn == (if e.status == 0 then e.seqNum else if bssPresent then s.g.conn else 0)
    && t.g.staged == 0
  }

  lemma AssocDelivers(s: State, j: nat, bssPresent: bool, e: Event)
    requires AssocGoing(s, e) && j < |s.q.taken| && s.q.taken[j] == e
    ensures AssocOutcome(s, Apply(s, Deliver(j, bssPresent)), e, bssPresent)
  {
  }

  lemma AssocFlushTakes(s: State, e: Event)
    requires AssocGoing(s, e)
    ensures var t := Apply(s, Flush(false)); var n := |s.q.taken| + |Splice(s.m.auth, s.q.auth, false).0|;
            && AssocGoing(t, e) && t.log == s.log && t.g.conn == s.g.conn && t.q.matched == s.q.matched
            && t.q.assoc.None? && Splice(t.m.auth, t.q.auth, false).0 == []
            && |t.q.taken| == n + |Opt(s.q.assoc)| + |Opt(s.q.disc)| && (s.q.assoc == Some(e) ==> t.q.taken[n] == e)
  {
    forall x | UnderWay(Apply(s, Flush(false)).q, x) && SameAssoc(x, e) ensures x == e {
      OnlyArrivals(s, Flush(false), x);
    }
    assert !AssocLogged(Apply(s, Flush(false)), e) ==> AssocSlotKept(s, FlushStaged(s, false), e);
  }

  lemma AssocStaged(s: State, i: nat, e: Event)
    requires AssocGoing(s, e) && s.q.assoc.None? && i < |s.q.matched| && s.q.matched[i] == e
    ensures var t := Apply(s, Stage(i, true));
            && AssocGoing(t, e) && t.log == s.log && t.g.conn == s.g.conn
            && t.q.assoc == Some(e) && t.q.taken == s.q.taken && t.m.auth == s.m.auth && t.q.auth == s.q.auth
  {
    forall x | UnderWay(Apply(s, Stage(i, true)).q, x) && SameAssoc(x, e) ensures x == e {
      OnlyArrivals(s, Stage(i, true), x);
    }
  }

  lemma AssocFromTaken(s: State, e: Event, p: bool)
    requires AssocGoing(s, e) && e in s.q.taken
    ensures AssocOutcome(s, Run(s, AssocFinish(s, e, p)), e, p)
  {
    var j := IndexOf(s.q.taken, e);
    AssocDelivers(s, j, p, e);
    assert [Deliver(j, p)][1..] == [];
    assert Run(Apply(s, Deliver(j, p)), []) == Apply(s, Deliver(j, p));
  }

  lemma AssocFromStage(s: State, n: nat, e: Event, p: bool)
    requires AssocGoing(s, e) && s.q.assoc == Some(e) && n == |s.q.taken| + |Splice(s.m.auth, s.q.auth, false).0|
    ensures AssocOutcome(s, Run(s, [Flush(false), Deliver(n, p)]), e, p)
  {
    AssocFlushTakes(s, e);
    AssocDelivers(Apply(s, Flush(false)), n, p, e);
    RunTwo(s, Flush(false), Deliver(n, p));
  }

  lemma AssocFirstSteps(s: State, e: Event)
    requires AssocGoing(s, e) && e in s.q.matched
    ensures var u := Run(s, [Flush(false), Stage(IndexOf(s.q.matched, e), true)]);
            && AssocGoing(u, e) && u.log == s.log && u.g.conn == s.g.conn && u.q.assoc == Some(e)
            && |u.q.taken| + |Splice(u.m.auth, u.q.auth, false).0|
               == |s.q.taken| + |Splice(s.m.auth, s.q.auth, false).0| + |Opt(s.q.assoc)| + |Opt(s.q.disc)|
  {
    var i := IndexOf(s.q.matched, e);
    AssocFlushTakes(s, e);
    AssocStaged(Apply(s, Flush(false)), i, e);
    RunTwo(s, Flush(false), Stage(i, true));
  }

  lemma AssocCompose(s: State, first: seq<Action>, last: seq<Action>, e: Event, p: bool)
    requires Run(s, first).log == s.log && Run(s, first).g.conn == s.g.conn
    requires AssocOutcome(Run(s, first), Run(Run(s, first), last), e, p)
    ensures AssocOutcome(s, Run(s, first + last), e, p)
  {
    RunAppend(s, first, last);
  }

  lemma AssocFromMatched(s: State, e: Event, p: bool)
    requires AssocGoing(s, e) && e !in s.q.taken && s.q.assoc != Some(e) && e in s.q.matched
    ensures AssocOutcome(s, Run(s, AssocFinish(s, e, p)), e, p)
  {
    var n := |s.q.taken| + |Splice(s.m.auth, s.q.auth, false).0| + |Opt(s.q.assoc)| + |Opt(s.q.disc)|;
    var first, last := [Flush(false), Stage(IndexOf(s.q.matched, e), true)], [Flush(false), Deliver(n, p)];
    AssocFirstSteps(s, e);
    AssocFromStage(Run(s, first), n, e, p);
    AssocCompose(s, first, last, e, p);
  }

  lemma AssocFinishes(s: State, e: Event, p: bool)
    requires AssocGoing(s, e) && AssocHeld(s.q, e)
    ensures AssocOutcome(s, Run(s, AssocFinish(s, e, p)), e, p)
  {
    if e in s.q.taken {
      AssocFromTaken(s, e, p);
    } else if s.q.assoc == Some(e) {
      AssocFromStage(s, |s.q.taken| + |Splice(s.m.auth, s.q.auth, false).0|, e, p);
    } else {
      AssocFromMatched(s, e, p);
    }
  }

  lemma AssocIssues(before: seq<Action>, k: nat, bssid: nat, bss: nat, e: Event)
    requires Enters(Run(NEW, before), Assoc, k) && e.op.Assoc? && e.seqNum == k && e.bssid == bssid
    ensures AssocGoing(Apply(Run(NEW, before), Issue(Assoc, k, bssid, bss)), e)
  {
    var s, a := Run(NEW, before), Issue(Assoc, k, bssid, bss);
    IssuedRun(NEW, before, e);
    if UnderWay(Apply(s, a).q, e) {
      OnlyArrivals(s, a, e);
    }
    forall x: Event | x.op.Assoc? && x.seqNum == k ensures !UnderWay(Apply(s, a).q, x) {
      IssuedRun(NEW, before, x);
      if UnderWay(Apply(s, a).q, x) {
        OnlyArrivals(s, a, x);
      }
    }
  }

  lemma AssocArrives(s: State, e: Event)
    requires AssocGoing(s, e)
    ensures AssocGoing(Apply(s, Arrive(e)), e) && AssocHeld(Apply(s, Arrive(e)).q, e)
  {
    var t := Apply(s, Arrive(e));
    assert t.q.matched[|s.q.matched|] == e;
    forall x | UnderWay(t.q, x) && SameAssoc(x, e) ensures x == e {
      OnlyArrivals(s, Arrive(e), x);
    }
  }

  /** Main result: an ASSOC command is issued; before or after its end its event
      arrives; and nothing on the way gives either up. Then the event has been
      delivered, or staging and flushing deliver it now: one record more, with
      its status, and the association current if that is zero. */
  lemma AssocIsDelivered(before: seq<Action>, k: nat, bssid: nat, bss: nat, status: nat,
                         early: seq<Action>, late: seq<Action>, bssPresent: bool)
    requires Enters(Run(NEW, before), Assoc, k)
    requires var s := Apply(Run(NEW, before), Issue(Assoc, k, bssid, bss)); var e := Event(Assoc, k, bssid, status);
             AssocBenignRun(s, early, e) && AssocBenignRun(Apply(Run(s, early), Arrive(e)), late, e)
    ensures var s := Apply(Run(NEW, before), Issue(Assoc, k, bssid, bss)); var e := Event(Assoc, k, bssid, status);
            var t := Run(Apply(Run(s, early), Arrive(e)), late);
            || Rec(k, bssid, status) in t.log.assocs
            || (AssocHeld(t.q, e) && AssocOutcome(t, Run(t, AssocFinish(t, e, bssPresent)), e, bssPresent))
  {
    var e := Event(Assoc, k, bssid, status);
    AssocIssues(before, k, bssid, bss, e);
    var s := Apply(Run(NEW, before), Issue(Assoc, k, bssid, bss));
    AssocRun(s, early, e);
    var u := Run(s, early);
    var v := Apply(u, Arrive(e));
    if AssocLogged(u, e) {
      LogGrows(u, Arrive(e));
      LogGrowsRun(v, late);
    } else {
      AssocArrives(u, e);
      AssocRun(v, late, e);
      if !AssocLogged(Run(v, late), e) {
        AssocFinishes(Run(v, late), e, bssPresent);
      }
    }
  }

  // ------------------------------------------------------------ disconnection

  predicate RunsDisc(c: Caller) {
    !c.Idle? && c.cmd.op.Disconnect?
  }

  /** The local disconnect k is under way or has succeeded, and its event is
      still expected: from its begin section on. */
  predicate DiscExpects(c: Slot, caller: Caller, k: nat) {
    && k != 0 && c.seqNum == k
    && (if RunsDisc(caller) then
          caller.cmd.seqNum == k && (caller.Ending? ==> caller.ok) && (!caller.Entered? ==> c.pending)
        else c.awaiting)
  }

  /** Nothing gives the command or its event up: no timeout, cancellation or
      retiring, no failure or second disconnect, no disconnect by other means, no
      frame that cannot be copied or finds another one staged, no other
      disconnect delivered, and this one not before the command has begun. */
  predicate DiscBenign(s: State, a: Action, e: Event) {
    && !a.TimeUp? && !a.Cancel? && !a.AfterDisconnect? && (a.RetireLocal? ==> s.m.disc.pending)
    && (a.Issue? ==> !a.issueOp.Disconnect?) && (a == CommandDone(false) ==> !RunsDisc(s.caller))
    && (a.Stage? && a.i < |s.q.matched| && s.q.matched[a.i].op.Disconnect? ==> a.copied && s.q.disc.None?)
    && (a.Deliver? && a.j < |s.q.taken| && s.q.taken[a.j].op.Disconnect? && s.q.taken[a.j] != e ==>
          DiscMatch(s.m, s.g, s.q.taken[a.j].seqNum).None?)
    && (a.Deliver? && a.j < |s.q.taken| && s.q.taken[a.j] == e ==> !(RunsDisc(s.caller) && s.caller.Entered?))
  }

  predicate DiscBenignRun(s: State, actions: seq<Action>, e: Event)
    decreases |actions|
  {
    actions == [] || (DiscBenign(s, actions[0], e) && DiscBenignRun(Apply(s, actions[0]), actions[1..], e))
  }

  predicate DiscHeld(q: Queues, e: Event) {
    e in q.matched || q.disc == Some(e) || e in q.taken
  }

  predicate DiscGoing(s: State, e: Event) {
    e.op.Disconnect? && DiscExpects(s.m.disc, s.caller, e.seqNum)
  }

  predicate DiscLogged(s: State, e: Event) {
    Rec(e.seqNum, e.bssid, 0) in s.log.localDiscs
  }

  predicate DiscKept(s: State, t: State, e: Event) {
    (DiscGoing(t, e) && (DiscHeld(s.q, e) ==> DiscHeld(t.q, e))) || DiscLogged(t, e)
  }

  lemma DiscCommands(s: State, a: Action, e: Event)
    requires DiscGoing(s, e) && DiscBenign(s, a, e) && IsCommand(a)
    ensures DiscKept(s, CommandStep(s, a), e)
  {
  }

  lemma DiscStages(s: State, i: nat, copied: bool, e: Event)
    requires DiscGoing(s, e) && DiscBenign(s, Stage(i, copied), e)
    ensures DiscKept(s, EventStep(s, Stage(i, copied)), e)
  {
    if i < |s.q.matched| && e in s.q.matched && s.q.matched[i] != e {
      RemoveKeeps(s.q.matched, i, e);
    }
  }

  lemma DiscDeliveries(s: State, j: nat, bssPresent: bool, e: Event)
    requires DiscGoing(s, e) && DiscBenign(s, Deliver(j, bssPresent), e)
    ensures DiscKept(s, EventStep(s, Deliver(j, bssPresent)), e)
  {
    if j < |s.q.taken| {
      var x := s.q.taken[j];
      if x != e {
        if e in s.q.taken {
          RemoveKeeps(s.q.taken, j, e);
        }
      } else {
        var t := EventStep(s, Deliver(j, bssPresent));
        assert t.log.localDiscs[|s.log.localDiscs|] == Rec(e.seqNum, e.bssid, 0);
      }
    }
  }

  lemma DiscOthers(s: State, a: Action, e: Event)
    requires DiscGoing(s, e) && DiscBenign(s, a, e) && !IsCommand(a) && !a.Stage? && !a.Deliver?
    ensures DiscKept(s, EventStep(s, a), e)
  {
  }

  lemma DiscStep(s: State, a: Action, e: Event)
    requires DiscGoing(s, e) && DiscBenign(s, a, e)
    ensures DiscKept(s, Apply(s, a), e)
  {
    if IsCommand(a) {
      DiscCommands(s, a, e);
    } else if a.Stage? {
      DiscStages(s, a.i, a.copied, e);
    } else if a.Deliver? {
      DiscDeliveries(s, a.j, a.bssPresent, e);
    } else {
      DiscOthers(s, a, e);
    }
  }

  lemma {:induction false} DiscRun(s: State, actions: seq<Action>, e: Event)
    requires DiscGoing(s, e) && DiscBenignRun(s, actions, e)
    ensures DiscKept(s, Run(s, actions), e)
    decreases |actions|
  {
    if actions != [] {
      DiscStep(s, actions[0], e);
      if DiscLogged(Apply(s, actions[0]), e) {
        LogGrowsRun(Apply(s, actions[0]), actions[1..]);
      } else {
        DiscRun(Apply(s, actions[0]), actions[1..], e);
      }
    }
  }

  /** The command has begun, and its event is still expected. */
  predicate DiscOpen(s: State, e: Event) {
    DiscGoing(s, e) && !(RunsDisc(s.caller) && s.caller.Entered?)
  }

  function DiscPlace(s: State): nat {
    |s.q.taken| + |Splice(s.m.auth, s.q.auth, false).0| + |Opt(s.q.assoc)|
  }

  /** Staging, if it is not staged yet, flushing and delivering. */
  function DiscFinish(s: State, e: Event): seq<Action>
    requires DiscHeld(s.q, e)
  {
    if e in s.q.taken then [Deliver(IndexOf(s.q.taken, e), true)]
    else if s.q.disc == Some(e) then [Flush(false), Deliver(DiscPlace(s), true)]
    else
      [Flush(false), Stage(IndexOf(s.q.matched, e), true)]
      + [Flush(false), Deliver(DiscPlace(s) + |Opt(s.q.disc)|, true)]
  }

  /** The event, once delivered, answers the local command. */
  lemma DiscDelivers(s: State, j: nat, e: Event)
    requires DiscOpen(s, e) && j < |s.q.taken| && s.q.taken[j] == e
    ensures Apply(s, Deliver(j, true)).log.localDiscs == s.log.localDiscs + [Rec(e.seqNum, e.bssid, 0)]
  {
  }

  lemma DiscFlushTakes(s: State, e: Event)
    requires DiscOpen(s, e)
    ensures var t := Apply(s, Flush(false)); var n := DiscPlace(s);
            && DiscOpen(t, e) && t.log == s.log && t.q.matched == s.q.matched && t.q.disc.None? && t.q.assoc.None?
            && Splice(t.m.auth, t.q.auth, false).0 == [] && |t.q.taken| == n + |Opt(s.q.disc)|
            && (s.q.disc == Some(e) ==> t.q.taken[n] == e)
  {
  }

  lemma DiscStaged(s: State, i: nat, e: Event)
    requires DiscOpen(s, e) && s.q.disc.None? && i < |s.q.matched| && s.q.matched[i] == e
    ensures var t := Apply(s, Stage(i, true));
            && DiscOpen(t, e) && t.log == s.log && t.q.disc == Some(e)
            && t.q.taken == s.q.taken && t.q.assoc == s.q.assoc && t.m.auth == s.m.auth && t.q.auth == s.q.auth
  {
  }

  lemma DiscFromStage(s: State, n: nat, e: Event)
    requires DiscOpen(s, e) && s.q.disc == Some(e) && n == DiscPlace(s)
    ensures Run(s, [Flush(false), Deliver(n, true)]).log.localDiscs == s.log.localDiscs + [Rec(e.seqNum, e.bssid, 0)]
  {
    DiscFlushTakes(s, e);
    DiscDelivers(Apply(s, Flush(false)), n, e);
    RunTwo(s, Flush(false), Deliver(n, true));
  }

  lemma DiscFirstSteps(s: State, e: Event)
    requires DiscOpen(s, e) && e in s.q.matched
    ensures var u := Run(s, [Flush(false), Stage(IndexOf(s.q.matched, e), true)]);
            DiscOpen(u, e) && u.log == s.log && u.q.disc == Some(e) && DiscPlace(u) == DiscPlace(s) + |Opt(s.q.disc)|
  {
    var i := IndexOf(s.q.matched, e);
    DiscFlushTakes(s, e);
    DiscStaged(Apply(s, Flush(false)), i, e);
    RunTwo(s, Flush(false), Stage(i, true));
  }

  /** Whatever staged the event: from there it is flushed and delivered. */
  lemma DiscLastSteps(s: State, first: seq<Action>, n: nat, e: Event)
    requires var u := Run(s, first); u.log == s.log && DiscOpen(u, e) && u.q.disc == Some(e) && DiscPlace(u) == n
    ensures Run(s, first + [Flush(false), Deliver(n, true)]).log.localDiscs
            == s.log.localDiscs + [Rec(e.seqNum, e.bssid, 0)]
  {
    DiscFromStage(Run(s, first), n, e);
    RunAppend(s, first, [Flush(false), Deliver(n, true)]);
  }

  lemma DiscFromMatched(s: State, e: Event)
    requires DiscOpen(s, e) && e !in s.q.taken && s.q.disc != Some(e) && e in s.q.matched
    ensures Run(s, DiscFinish(s, e)).log.localDiscs == s.log.localDiscs + [Rec(e.seqNum, e.bssid, 0)]
  {
    DiscFirstSteps(s, e);
    var first := [Flush(false), Stage(IndexOf(s.q.matched, e), true)];
    DiscLastSteps(s, first, DiscPlace(s) + |Opt(s.q.disc)|, e);
  }

  lemma DiscFinishes(s: State, e: Event)
    requires DiscOpen(s, e) && DiscHeld(s.q, e)
    ensures Run(s, DiscFinish(s, e)).log.localDiscs == s.log.localDiscs + [Rec(e.seqNum, e.bssid, 0)]
  {
    if e in s.q.taken {
      var j := IndexOf(s.q.taken, e);
      DiscDelivers(s, j, e);
      assert [Deliver(j, true)][1..] == [];
      assert Run(Apply(s, Deliver(j, true)), []) == Apply(s, Deliver(j, true));
    } else if s.q.disc == Some(e) {
      DiscFromStage(s, DiscPlace(s), e);
    } else {
      DiscFromMatched(s, e);
    }
  }

  /** Once begun, the command does not go back to before its begin section. */
  lemma StaysBegun(s: State, a: Action, e: Event)
    requires DiscOpen(s, e) && DiscBenign(s, a, e)
    ensures var c := Apply(s, a).caller; !(RunsDisc(c) && c.Entered?)
  {
  }

  lemma {:induction false} StaysBegunRun(s: State, actions: seq<Action>, e: Event)
    requires DiscOpen(s, e) && DiscBenignRun(s, actions, e)
    ensures DiscLogged(Run(s, actions), e) || DiscOpen(Run(s, actions), e)
    decreases |actions|
  {
    if actions != [] {
      StaysBegun(s, actions[0], e);
      DiscStep(s, actions[0], e);
      if DiscLogged(Apply(s, actions[0]), e) {
        LogGrowsRun(Apply(s, actions[0]), actions[1..]);
      } else {
        StaysBegunRun(Apply(s, actions[0]), actions[1..], e);
      }
    }
  }

  /** Main result: a local disconnect is issued; after its begin section, before
      or after its end, its event arrives; and nothing on the way gives either
      up. Then the event has been delivered, or staging and flushing deliver it
      now, as one record more. */
  lemma DisconnectIsDelivered(before: seq<Action>, k: nat, bssid: nat, status: nat,
                              early: seq<Action>, late: seq<Action>)
    requires Enters(Run(NEW, before), Disconnect, k)
    requires var s := Apply(Run(NEW, before), Issue(Disconnect, k, bssid, 0));
             var e := Event(Disconnect, k, bssid, status);
             var u := Run(s, early);
             && DiscBenignRun(s, early, e) && !(RunsDisc(u.caller) && u.caller.Entered?)
             && DiscBenignRun(Apply(u, Arrive(e)), late, e)
    ensures var s := Apply(Run(NEW, before), Issue(Disconnect, k, bssid, 0));
            var e := Event(Disconnect, k, bssid, status);
            var t := Run(Apply(Run(s, early), Arrive(e)), late);
            || Rec(k, bssid, 0) in t.log.localDiscs
            || (DiscHeld(t.q, e) && Run(t, DiscFinish(t, e)).log.localDiscs == t.log.localDiscs + [Rec(k, bssid, 0)])
  {
    var e := Event(Disconnect, k, bssid, status);
    var s := Apply(Run(NEW, before), Issue(Disconnect, k, bssid, 0));
    DiscRun(s, early, e);
    var u := Run(s, early);
    var v := Apply(u, Arrive(e));
    if DiscLogged(u, e) {
      LogGrows(u, Arrive(e));
      LogGrowsRun(v, late);
    } else {
      assert v.q.matched[|u.q.matched|] == e;
      DiscRun(v, late, e);
      StaysBegunRun(v, late, e);
      if !DiscLogged(Run(v, late), e) {
        DiscFinishes(Run(v, late), e);
      }
    }
  }

  /** The association whose disconnect e is, and not a local disconnect under way. */
  predicate EndsConn(s: State, e: Event) {
    && e.op.Disconnect? && s.g.conn != 0 && e.seqNum == s.g.conn
    && !((s.m.disc.pending || s.m.disc.awaiting) && s.m.disc.seqNum == e.seqNum)
  }

  lemma RemoteArrives(s: State, e: Event)
    requires EndsConn(s, e)
    ensures Apply(s, Arrive(e)) == s.(q := s.q.(matched := s.q.matched + [e]))
  {
  }

  lemma RemoteStaged(s: State, e: Event)
    requires EndsConn(s, e) && s.q.disc.None?
    ensures Run(s, [Arrive(e), Stage(|s.q.matched|, true)]) == s.(q := s.q.(disc := Some(e)))
  {
    RunTwo(s, Arrive(e), Stage(|s.q.matched|, true));
    RemoteArrives(s, e);
    assert RemoveAt(s.q.matched + [e], |s.q.matched|) == s.q.matched;
  }

  lemma RemoteTaken(s: State, e: Event)
    requires EndsConn(s, e) && s.q.disc == Some(e)
    ensures var t := Apply(s, Flush(false));
            EndsConn(t, e) && t.log == s.log && DiscPlace(s) < |t.q.taken| && t.q.taken[DiscPlace(s)] == e
  {
  }

  lemma RemoteDelivers(s: State, j: nat, e: Event)
    requires EndsConn(s, e) && j < |s.q.taken| && s.q.taken[j] == e
    ensures var t := Apply(s, Deliver(j, true));
            t.log.remoteDiscs == s.log.remoteDiscs + [Rec(e.seqNum, e.bssid, 0)] && t.g.conn == 0
  {
  }

  lemma RemoteFromStage(s: State, e: Event)
    requires EndsConn(s, e) && s.q.disc == Some(e)
    ensures var t := Run(s, [Flush(false), Deliver(DiscPlace(s), true)]);
            t.log.remoteDiscs == s.log.remoteDiscs + [Rec(e.seqNum, e.bssid, 0)] && t.g.conn == 0
  {
    RunTwo(s, Flush(false), Deliver(DiscPlace(s), true));
    RemoteTaken(s, e);
    RemoteDelivers(Apply(s, Flush(false)), DiscPlace(s), e);
  }

  /** The other side's disconnect of the association in force: its event is let
      in, and staging, flushing and delivering end the association. */
  lemma RemoteDisconnectIsDelivered(s: State, e: Event)
    requires EndsConn(s, e) && s.q.disc.None?
    ensures var u := Run(s, [Arrive(e), Stage(|s.q.matched|, true)]);
            var t := Run(u, [Flush(false), Deliver(DiscPlace(s), true)]);
            t.log.remoteDiscs == s.log.remoteDiscs + [Rec(e.seqNum, e.bssid, 0)] && t.g.conn == 0
  {
    RemoteStaged(s, e);
    var u := s.(q := s.q.(disc := Some(e)));
    assert EndsConn(u, e) && DiscPlace(u) == DiscPlace(s);
    RemoteFromStage(u, e);
  }

  // ------------------------------------------------- what has been given up stays so

  /** No AUTH or ASSOC command is open. */
  predicate Closed(s: State) {
    && !s.m.auth.pending && !s.m.auth.awaiting && !s.m.assoc.pending && !s.m.assoc.awaiting
    && !RunsAuth(s.caller) && !RunsAssoc(s.caller)
  }

  lemma ClosedStays(s: State, a: Action)
    requires Closed(s) && (a.Issue? ==> a.issueOp.Disconnect?)
    ensures var t := Apply(s, a); Closed(t) && t.log.auths == s.log.auths && t.log.assocs == s.log.assocs
  {
  }

  lemma {:induction false} ClosedRun(s: State, actions: seq<Action>)
    requires Closed(s) && forall i :: 0 <= i < |actions| && actions[i].Issue? ==> actions[i].issueOp.Disconnect?
    ensures Run(s, actions).log.auths == s.log.auths && Run(s, actions).log.assocs == s.log.assocs
    decreases |actions|
  {
    if actions != [] {
      ClosedStays(s, actions[0]);
      ClosedRun(Apply(s, actions[0]), actions[1..]);
    }
  }

  /** After a timeout, or after a cancellation with no association command under
      way, nothing that was expected is delivered any more, wherever it was on
      its way, until the next command; and the next command is not refused. */
  lemma NothingComesLate(s: State, a: Action, after: seq<Action>)
    requires (a.TimeUp? || a.Cancel?) && s.caller.Idle? && !s.m.assoc.pending && !s.m.auth.pending
    requires forall i :: 0 <= i < |after| && after[i].Issue? ==> after[i].issueOp.Disconnect?
    ensures var t := Run(Apply(s, a), after); t.log.auths == s.log.auths && t.log.assocs == s.log.assocs
    ensures !Refused(Apply(s, a).m, Auth) && !Refused(Apply(s, a).m, Assoc)
  {
    ClosedRun(Apply(s, a), after);
  }

  // ------------------------------------------------------------ the BSS in store

  /** What is stored, with its reference, once the helpers that a step calls
      have come to rest. */
  function Settled(s: State): B.Store {
    B.Rest(s.refs, s.m.assoc.pending || s.m.assoc.awaiting).store
  }

  /** The driver holds this BSS and one reference to it, or nothing at all. */
  predicate Keeps(r: B.Store, bss: Option<nat>) {
    r.bss == bss && !r.missed && r.held == if bss.Some? then multiset{bss.value} else multiset{}
  }

  lemma RestOfOne(r: B.Refs, h: B.Helper, open: bool)
    requires B.Inv(r) && r.running == [h]
    ensures var t := B.Rest(r, open).store; t.bss == B.Alone(r.store, h, open).bss && Keeps(t, t.bss)
    decreases B.Work(h)
  {
    B.RestIsReached(r, open);
    B.StepsEnd(r, 0, open);
    B.AdvanceKeeps(r, 0, open);
    var next := B.StepOf(r.store, h, open);
    var t := B.Advance(r, 0, open);
    assert t.running == B.Opt(next.next);
    if next.next.Some? {
      RestOfOne(t, next.next.value, open);
    }
  }

  /** A step calls one helper while none is running. */
  lemma OneHelper(s: State, a: Action, h: B.Helper)
    requires B.Inv(s.refs) && s.refs.running == [] && RefsAfter(s, a).running == [h]
    ensures var t := Apply(s, a);
            && Keeps(Settled(t), Settled(t).bss)
            && Settled(t).bss == B.Alone(t.refs.store, h, t.m.assoc.pending || t.m.assoc.awaiting).bss
  {
    B.ActionKeeps(s.refs, BssAction(s, a).value);
    var t := Apply(s, a);
    RestOfOne(t.refs, h, t.m.assoc.pending || t.m.assoc.awaiting);
  }

  lemma PutForgets(s: B.Store, open: bool)
    ensures B.Alone(s, B.PutCall, open).bss.None?
  {
    if s.bss.Some? {
      B.AlonePut(s.(bss := None), s.bss.value, open);
    }
  }

  lemma RefStores(s: B.Store, b: nat, open: bool)
    ensures B.Alone(s, B.RefCall(b), open).bss == Some(b)
  {
    var t := s.(held := s.held + multiset{b});
    if s.bss.Some? && s.bss != Some(b) {
      B.AlonePut(t.(bss := Some(b)), s.bss.value, open);
    } else if s.bss == Some(b) {
      B.AlonePut(t, b, open);
    }
  }

  lemma TakeStores(s: B.Store, b: nat, open: bool)
    ensures B.Alone(s, B.Taking(b), open).bss == if s.bss.None? && !open then None else Some(b)
  {
    if s.bss.Some? && s.bss != Some(b) {
      B.AlonePut(s.(bss := Some(b)), s.bss.value, open);
    } else if s.bss == Some(b) || !open {
      B.AlonePut(s, b, open);
    }
  }

  /** A successful AUTH, and an ASSOC that finds nothing stored, store the BSS
      they name. */
  lemma CommandStoresBss(s: State, a: Action, bss: nat)
    requires B.Inv(s.refs) && s.refs.running == []
    requires || (a.End? && s.caller.Ending? && s.caller.ok && s.caller.cmd.op.Auth? && s.caller.cmd.bss == bss)
             || (a.Issue? && a.issueOp.Assoc? && a.bss == bss && Enters(s, Assoc, a.k) && s.refs.store.bss.None?)
    ensures Keeps(Settled(Apply(s, a)), Some(bss))
  {
    OneHelper(s, a, B.RefCall(bss));
    RefStores(Apply(s, a).refs.store, bss, Apply(s, a).m.assoc.pending || Apply(s, a).m.assoc.awaiting);
  }

  /** A successful ASSOC stores the BSS that cfg80211 gave with it, unless its
      event has been delivered and took the stored one along: then the reference
      is put. One that failed gives back what it had stored itself. */
  lemma AssocEndsWithBss(s: State)
    requires B.Inv(s.refs) && s.refs.running == [] && s.caller.Ending? && s.caller.cmd.op.Assoc?
    requires s.caller.ok || s.caller.cmd.ownRef
    ensures var t := Apply(s, End);
            Keeps(Settled(t), if s.caller.ok && (s.refs.store.bss.Some? || t.m.assoc.awaiting)
                              then Some(s.caller.cmd.bss) else None)
  {
    var t := Apply(s, End);
    if s.caller.ok {
      OneHelper(s, End, B.Taking(s.caller.cmd.bss));
      TakeStores(t.refs.store, s.caller.cmd.bss, t.m.assoc.pending || t.m.assoc.awaiting);
    } else {
      OneHelper(s, End, B.PutCall);
      PutForgets(t.refs.store, t.m.assoc.pending || t.m.assoc.awaiting);
    }
  }

  /** However a connection ends, by an event of either side, by the time being up
      or without an event, and whichever way an association is delivered, nothing
      is stored afterwards and no reference is left. */
  lemma EndForgetsBss(s: State, a: Action)
    requires B.Inv(s.refs) && s.refs.running == []
    requires || (a.Deliver? && a.j < |s.q.taken| && s.q.taken[a.j].op.Disconnect? && EventMatches(s, s.q.taken[a.j]))
             || (a.Deliver? && a.j < |s.q.taken| && s.q.taken[a.j].op.Assoc? && EventMatches(s, s.q.taken[a.j]))
             || (a.TimeUp? && s.m.disc.awaiting) || (a.AfterDisconnect? && a.sync) || a.CallPutBss?
    ensures Keeps(Settled(Apply(s, a)), None)
  {
    var t := Apply(s, a);
    if a.Deliver? && s.q.taken[a.j].op.Assoc? {
      if s.refs.store.bss.Some? {
        OneHelper(s, a, B.Handing(s.refs.store.bss.value));
      } else {
        B.ActionKeeps(s.refs, B.HandOver);
        B.RestIsReached(t.refs, t.m.assoc.pending || t.m.assoc.awaiting);
      }
    } else {
      OneHelper(s, a, B.PutCall);
      PutForgets(t.refs.store, t.m.assoc.pending || t.m.assoc.awaiting);
    }
  }

  // ------------------------------------------------------- an outdated disconnect

  /** Before a new connection is begun, what is left of the last one is retired:
      an event staged for it is taken for delivery, no local disconnect stands
      any more, and the slots are free. */
  lemma RetiringClears(s: State, connected: bool)
    requires !s.m.disc.pending && !s.m.assoc.pending
    ensures var t := Apply(Apply(s, RetireStaged), RetireLocal(connected));
            && t.q.assoc.None? && t.q.disc.None? && t.q.taken == s.q.taken + Opt(s.q.disc)
            && !t.m.assoc.awaiting && !t.m.disc.awaiting && t.m.disc.seqNum == 0 && !t.m.localReq
            && t.g.staged == 0 && t.g.conn == (if connected then s.g.conn else 0)
            && !Refused(t.m, Assoc) && t.m.auth == s.m.auth && t.q.auth == s.q.auth && t.log == s.log
  {
  }
}
