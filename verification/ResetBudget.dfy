/** The transports' own budgets for software resets, kept per commit epoch
    (host/sdio/esp_sdio.c, host/spi/esp_spi.c).

    The common commit advances the epoch; the transport hears of it later, in
    a callback, and requests may come in between. `taken` counts the resets
    charged since the epoch last advanced or the binding was last reset. */
module ResetBudget {

  const MAX_ATTEMPTS: nat := 3

  // --------------------------------------------------------------------- SDIO

  datatype Sdio = Sdio(epoch: nat, budgetEpoch: nat, attempts: nat, taken: nat)

  datatype SdioStep = Advance | Callback | Ask | Take | Drop

  /** esp_sdio_reset_budget_sync_locked */
  function Sync(s: Sdio): Sdio {
    if s.budgetEpoch != s.epoch then s.(budgetEpoch := s.epoch, attempts := 0) else s
  }

  /** An attempt is allowed while the synchronized count is below the limit. */
  predicate Allowed(s: Sdio) {
    Sync(s).attempts < MAX_ATTEMPTS
  }

  /** Asking for a reset only synchronizes; carrying one out charges it. */
  function SdioApply(s: Sdio, a: SdioStep): Sdio {
    match a
    case Advance => s.(epoch := (s.epoch + 1) % 0x1_0000_0000, taken := 0)
    case Callback => Sync(s)
    case Ask => Sync(s)
    case Take => if Allowed(s) then var t := Sync(s); t.(attempts := t.attempts + 1, taken := t.taken + 1) else Sync(s)
    case Drop => s.(budgetEpoch := 0, attempts := 0, taken := 0)
  }

  function SdioRun(s: Sdio, steps: seq<SdioStep>): Sdio
    decreases |steps|
  {
    if steps == [] then s else SdioRun(SdioApply(s, steps[0]), steps[1..])
  }

  /** The count kept covers the resets charged, or belongs to another epoch
      and none has been charged in this one. */
  predicate SdioInv(s: Sdio) {
    s.attempts <= MAX_ATTEMPTS && if s.budgetEpoch == s.epoch then s.taken <= s.attempts else s.taken == 0
  }

  /** However commits, their callbacks, requests and resets interleave, no
      more than three software resets are charged in one epoch of one binding. */
  lemma {:induction false} SdioBounded(s: Sdio, steps: seq<SdioStep>)
    requires SdioInv(s)
    ensures SdioInv(SdioRun(s, steps)) && SdioRun(s, steps).taken <= MAX_ATTEMPTS
    decreases |steps|
  {
    if steps != [] {
      SdioBounded(SdioApply(s, steps[0]), steps[1..]);
    }
  }

  function Advances(steps: seq<SdioStep>): nat {
    if steps == [] then 0 else (if steps[0].Advance? then 1 else 0) + Advances(steps[1..])
  }

  /** A new incarnation starts with the whole budget in every run short of the
      epoch's wrap, whether or not its commit callback, or that of any earlier
      one, has run: an old count cannot reject a request. */
  lemma {:induction false} SdioFreshAfterAdvance(s: Sdio, steps: seq<SdioStep>)
    requires s.budgetEpoch <= s.epoch && s.epoch + Advances(steps) < 0xFFFF_FFFF
    ensures var t := SdioApply(SdioRun(s, steps), Advance); Allowed(t) && Allowed(SdioApply(t, Callback))
    decreases |steps|
  {
    if steps != [] {
      SdioFreshAfterAdvance(SdioApply(s, steps[0]), steps[1..]);
    }
  }

  /** How many resets three to an epoch and binding allow: taken so far, and
      what the steps still make of it. */
  function Granted(taken: nat, steps: seq<SdioStep>): nat
    decreases |steps|
  {
    if steps == [] then taken
    else
      var now := match steps[0]
                 case Advance => 0
                 case Drop => 0
                 case Take => if taken < 3 then taken + 1 else taken
                 case _ => taken;
      Granted(now, steps[1..])
  }

  /** Main result: in every run short of the epoch's wrap exactly the first three
      resets of an epoch and binding are charged; none is refused that is within
      the budget, whichever callbacks have run. */
  lemma {:induction false} SdioGrantsThree(s: Sdio, steps: seq<SdioStep>)
    requires s.budgetEpoch <= s.epoch && s.epoch + Advances(steps) < 0xFFFF_FFFF
    requires s.taken == if s.budgetEpoch == s.epoch then s.attempts else 0
    ensures SdioRun(s, steps).taken == Granted(s.taken, steps)
    decreases |steps|
  {
    if steps != [] {
      SdioGrantsThree(SdioApply(s, steps[0]), steps[1..]);
    }
  }

  class SdioBudget {
    var epoch: nat
    var budgetEpoch: nat
    var attempts: nat
    ghost var taken: nat

    ghost function Now(): Sdio
      reads this
    {
      Sdio(epoch, budgetEpoch, attempts, taken)
    }

    method SyncLocked()
      modifies `budgetEpoch, `attempts
      ensures Now() == Sync(old(Now()))
    {
      if budgetEpoch != epoch {
        budgetEpoch, attempts := epoch, 0;
      }
    }

    /** esp_sdio_soft_reset_budget_take */
    method TakeOne() returns (allowed: bool)
      modifies `budgetEpoch, `attempts, `taken
      ensures Now() == SdioApply(old(Now()), Take) && allowed == Allowed(old(Now()))
    {
      SyncLocked();
      allowed := attempts < MAX_ATTEMPTS;
      if allowed {
        attempts := attempts + 1;
        taken := taken + 1;
      }
    }
  }

  // ---------------------------------------------------------------------- SPI

  /** flight: the epoch for which the request now being queued was charged;
      the resetting bit keeps it alone. taken: requests charged and not taken
      back. counted: the one in flight is among them. */
  datatype Spi = Spi(epoch: nat, budgetEpoch: nat, attempts: nat, resetting: bool, flight: Flight, taken: nat)

  datatype Flight = Nothing | Charged(atEpoch: nat, counted: bool) | Uncharged

  datatype SpiStep = SpiAdvance | SpiCallback | Ask(software: bool) | Queued(ok: bool) | ResetDone | SpiBind

  function SpiSync(s: Spi): Spi {
    if s.budgetEpoch != s.epoch then s.(budgetEpoch := s.epoch, attempts := 0) else s
  }

  function Forgotten(f: Flight): Flight {
    match f
    case Charged(e, counted) => Charged(e, false)
    case _ => f
  }

  /** esp_spi_reset_target up to the queueing. */
  function SpiAsk(s: Spi, software: bool): Spi {
    var t := SpiSync(s);
    if t.resetting then t
    else if !software then t.(resetting := true, flight := Uncharged)
    else if t.attempts >= MAX_ATTEMPTS then t
    else t.(resetting := true, attempts := t.attempts + 1, flight := Charged(t.budgetEpoch, true), taken := t.taken + 1)
  }

  /** A request that could not be queued is taken back, within its epoch only. */
  function SpiQueued(s: Spi, ok: bool): Spi {
    if s.flight.Nothing? then s
    else if ok then s.(flight := Nothing)
    else
      var t := s.(resetting := false, flight := Nothing);
      if s.flight.Uncharged? then t
      else
        t.(attempts := if s.budgetEpoch == s.flight.atEpoch && s.attempts > 0 then s.attempts - 1 else s.attempts,
           taken := if s.flight.counted && s.taken > 0 then s.taken - 1 else s.taken)
  }

  /** The reset work runs only after its request was queued; a binding resets
      the budget and starts with no request in flight. */
  function SpiApply(s: Spi, a: SpiStep): Spi {
    match a
    case SpiAdvance => s.(epoch := (s.epoch + 1) % 0x1_0000_0000, flight := Forgotten(s.flight), taken := 0)
    case SpiCallback => SpiSync(s)
    case Ask(software) => SpiAsk(s, software)
    case Queued(ok) => SpiQueued(s, ok)
    case ResetDone => if s.flight.Nothing? then s.(resetting := false) else s
    case SpiBind => s.(budgetEpoch := s.epoch, attempts := 0, flight := Nothing, resetting := false, taken := 0)
  }

  function SpiRun(s: Spi, steps: seq<SpiStep>): Spi
    decreases |steps|
  {
    if steps == [] then s else SpiRun(SpiApply(s, steps[0]), steps[1..])
  }

  predicate SpiInv(s: Spi) {
    && s.attempts <= MAX_ATTEMPTS
    && (if s.budgetEpoch == s.epoch then s.taken <= s.attempts else s.taken == 0)
    && (!s.flight.Nothing? ==> s.resetting)
    && (s.flight.Charged? && !s.flight.counted ==> s.taken == 0)
    && (s.flight.Charged? && s.flight.counted ==> s.taken > 0 && s.flight.atEpoch == s.epoch == s.budgetEpoch)
  }

  /** However commits, callbacks, requests, failed queueings and rebindings
      interleave, no more than three software resets are charged in one epoch
      of one binding. */
  lemma {:induction false} SpiBounded(s: Spi, steps: seq<SpiStep>)
    requires SpiInv(s)
    ensures SpiInv(SpiRun(s, steps)) && SpiRun(s, steps).taken <= MAX_ATTEMPTS
    decreases |steps|
  {
    if steps != [] {
      SpiBounded(SpiApply(s, steps[0]), steps[1..]);
    }
  }

  /** A request that cannot be queued costs nothing, if its epoch still stands. */
  lemma FailedQueueingIsFree(s: Spi)
    requires SpiInv(s) && !s.resetting && SpiSync(s).attempts < MAX_ATTEMPTS
    ensures var t := SpiQueued(SpiAsk(s, true), false);
            t.attempts == SpiSync(s).attempts && t.taken == s.taken && !t.resetting
  {
  }

  /** n software requests, each queued and carried out, whatever commits'
      callbacks come first. */
  function Requests(s: Spi, n: nat): Spi {
    if n == 0 then s
    else SpiApply(SpiApply(SpiApply(Requests(s, n - 1), SpiStep.Ask(true)), Queued(true)), ResetDone)
  }

  /** Exactly the first three requests of an epoch are charged, from the first
      one after the epoch advanced. */
  lemma {:induction false} SpiGrantsThree(s: Spi, n: nat)
    requires !s.resetting && s.flight.Nothing? && (s.budgetEpoch != s.epoch || s.attempts == 0) && s.taken == 0
    ensures var t := Requests(s, n);
            t.taken == (if n < 3 then n else 3) && !t.resetting && t.flight.Nothing? && t.epoch == s.epoch
            && (n > 0 ==> t.budgetEpoch == t.epoch && t.attempts == t.taken)
  {
    if n > 0 {
      SpiGrantsThree(s, n - 1);
    }
  }

  class SpiBudget {
    var epoch: nat
    var budgetEpoch: nat
    var attempts: nat
    var resetting: bool
    var flight: Flight
    ghost var taken: nat

    ghost function Now(): Spi
      reads this
    {
      Spi(epoch, budgetEpoch, attempts, resetting, flight, taken)
    }

    method SyncLocked()
      modifies `budgetEpoch, `attempts
      ensures Now() == SpiSync(old(Now()))
    {
      if budgetEpoch != epoch {
        budgetEpoch, attempts := epoch, 0;
      }
    }

    /** esp_spi_reset_target up to the queueing; true: the work must be queued. */
    method ResetTarget(software: bool) returns (queue: bool)
      modifies `budgetEpoch, `attempts, `resetting, `flight, `taken
      ensures Now() == SpiAsk(old(Now()), software)
      ensures queue <==> !old(resetting) && (!software || SpiSync(old(Now())).attempts < MAX_ATTEMPTS)
    {
      SyncLocked();
      if resetting || (software && attempts >= MAX_ATTEMPTS) {
        return false;
      }
      resetting, queue := true, true;
      if software {
        attempts, taken := attempts + 1, taken + 1;
        flight := Charged(budgetEpoch, true);
      } else {
        flight := Uncharged;
      }
    }

    /** The end of esp_spi_reset_target: the work was queued, or not. */
    method AfterQueueing(ok: bool)
      requires !flight.Nothing?
      modifies `attempts, `resetting, `flight, `taken
      ensures Now() == SpiQueued(old(Now()), ok)
    {
      if !ok {
        resetting := false;
        if flight.Charged? {
          if budgetEpoch == flight.atEpoch && attempts > 0 {
            attempts := attempts - 1;
          }
          if flight.counted && taken > 0 {
            taken := taken - 1;
          }
        }
      }
      flight := Nothing;
    }
  }
}
