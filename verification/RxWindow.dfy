/** The raw-throughput receive window (host/esp_stats.c).

    `Receiver` is the plain receiver: the set of sequence numbers it has
    accepted, unwrapped, and the number it expects next. `Stats` is what the
    driver keeps: a wrapping 32-bit number, a 64-bit window and counters. */
module RxWindow {

  const U32: nat := 0x1_0000_0000
  const HALF: int := 0x8000_0000
  const U64: nat := 0x1_0000_0000_0000_0000

  function Max(a: int, b: int): int {
    if a < b then b else a
  }

  // ------------------------------------------------ the set-based receiver

  datatype Receiver = Receiver(accepted: set<nat>, expected: nat, dup: nat, reorder: nat)

  /** The least number not below m that has not been accepted. */
  function NextGap(accepted: set<nat>, m: nat): (g: nat)
    ensures g >= m && g !in accepted && forall x :: m <= x < g ==> x in accepted
    decreases set x | x in accepted && x >= m
  {
    if m !in accepted then m
    else
      var here, beyond := set x | x in accepted && x >= m, set x | x in accepted && x >= m + 1;
      assert m in here && m !in beyond && beyond <= here;
      NextGap(accepted, m + 1)
  }

  /** A number below the expected one, or seen before, is a duplicate. Any
      other is accepted, and the expected number becomes the least missing
      one that is at most 63 behind the arrival. */
  function Receive(r: Receiver, n: nat): Receiver {
    if n < r.expected || n in r.accepted then r.(dup := r.dup + 1)
    else
      var base := Max(r.expected, n - 63);
      var accepted := r.accepted + {n};
      Receiver(accepted, NextGap(accepted, base), r.dup,
               if n > NextGap(r.accepted, base) then r.reorder + 1 else r.reorder)
  }

  /** How many of the numbers from lo up to hi were never accepted. */
  function Missing(accepted: set<nat>, lo: nat, hi: nat): (k: nat)
    ensures lo <= hi ==> k <= hi - lo
    decreases hi - lo
  {
    if lo >= hi then 0 else (if lo in accepted then 0 else 1) + Missing(accepted, lo + 1, hi)
  }

  // ----------------------------------------------------- the 64-bit window

  function Pow2(k: nat): (p: nat)
    ensures p > 0
  {
    if k == 0 then 1 else 2 * Pow2(k - 1)
  }

  /** Bit 63 of the window is never set, so this bounds it. */
  const WINDOW_LIMIT: nat := 0x8000_0000_0000_0000

  predicate Bit(w: nat, i: nat) {
    if i == 0 then w % 2 == 1 else Bit(w / 2, i - 1)
  }

  /** w | (1 << i) */
  function SetBit(w: nat, i: nat): (r: nat) {
    if i == 0 then (if w % 2 == 1 then w else w + 1)
    else 2 * SetBit(w / 2, i - 1) + w % 2
  }

  function PopCount(w: nat): nat {
    if w == 0 then 0 else w % 2 + PopCount(w / 2)
  }

  lemma {:induction false} SetBitSets(w: nat, i: nat, j: nat)
    ensures Bit(SetBit(w, i), j) <==> j == i || Bit(w, j)
  {
    if i > 0 && j > 0 {
      SetBitSets(w / 2, i - 1, j - 1);
    }
  }

  lemma {:induction false} SetBitBound(w: nat, i: nat, m: nat)
    requires w < Pow2(m) && i < m
    ensures SetBit(w, i) < Pow2(m)
  {
    var half, p := w / 2, Pow2(m - 1);
    assert w == 2 * half + w % 2 && Pow2(m) == 2 * p;
    if i > 0 {
      SetBitBound(half, i - 1, m - 1);
      var h := SetBit(half, i - 1);
      assert SetBit(w, i) == 2 * h + w % 2;
    }
  }

  lemma {:induction false} BitAbove(w: nat, m: nat, i: nat)
    requires w < Pow2(m) && i >= m
    ensures !Bit(w, i)
  {
    if m == 0 {
      ZeroHasNoBits(i);
    } else {
      BitAbove(w / 2, m - 1, i - 1);
    }
  }

  lemma {:induction false} ZeroHasNoBits(i: nat)
    ensures !Bit(0, i)
  {
    if i > 0 {
      ZeroHasNoBits(i - 1);
    }
  }

  /** Bit i of w tells whether e + i was accepted. */
  ghost predicate Mirrors(w: nat, accepted: set<nat>, e: nat) {
    forall i: nat {:trigger Bit(w, i)} :: Bit(w, i) <==> e + i in accepted
  }

  /** The window behind an expected number, which itself is missing. */
  ghost predicate Shows(w: nat, accepted: set<nat>, expected: nat) {
    w < WINDOW_LIMIT && expected !in accepted && Mirrors(w, accepted, expected + 1)
  }

  lemma MirrorsShift(w: nat, accepted: set<nat>, e: nat)
    requires Mirrors(w, accepted, e)
    ensures Mirrors(w / 2, accepted, e + 1)
  {
    forall i: nat ensures Bit(w / 2, i) <==> e + 1 + i in accepted {
      assert Bit(w, i + 1) == Bit(w / 2, i);
    }
  }

  // -------------------------------------------------- the driver's counters

  datatype Stats = Stats(expected: nat, window: nat, total: nat, lost: nat, dup: nat, reorder: nat, bad: nat)
  {
    predicate Valid() {
      expected < U32 && window < WINDOW_LIMIT && lost < U64
    }
  }

  function Inc(x: nat, k: nat): nat {
    (x + k) % 0x1_0000_0000_0000_0000
  }

  /** (s32)(a - b) on 32-bit numbers. */
  function Diff32(a: nat, b: nat): (d: int)
    requires a < U32 && b < U32
    ensures -HALF <= d < HALF
  {
    var d := (a - b) % 0x1_0000_0000;
    if d >= HALF then d - U32 else d
  }

  /** The run of accepted numbers at the low end, and what lies above it. */
  function Trailing(w: nat): (r: (nat, nat))
    ensures r.1 <= w
  {
    if w % 2 == 1 then var t := Trailing(w / 2); (t.0 + 1, t.1) else (0, w)
  }

  lemma {:induction false} TrailingBound(w: nat, m: nat)
    requires w < Pow2(m)
    ensures Trailing(w).0 <= m
  {
    if w % 2 == 1 && m > 0 {
      TrailingBound(w / 2, m - 1);
    }
  }

  lemma {:induction false} Pow2Sum(a: nat, b: nat)
    ensures Pow2(a + b) == Pow2(a) * Pow2(b)
  {
    if a > 0 {
      Pow2Sum(a - 1, b);
    }
  }

  lemma WindowLimit()
    ensures Pow2(63) == WINDOW_LIMIT
  {
    assert Pow2(7) == 0x80;
    Pow2Sum(7, 7);
    assert Pow2(14) == 0x4000;
    Pow2Sum(14, 7);
    assert Pow2(21) == 0x20_0000;
    Pow2Sum(21, 21);
    assert Pow2(42) == 0x400_0000_0000;
    Pow2Sum(42, 21);
  }

  lemma TrailingFits(w: nat)
    requires w < WINDOW_LIMIT
    ensures Trailing(w).0 <= 63
  {
    WindowLimit();
    TrailingBound(w, 63);
  }

  lemma SetBitFits(w: nat, i: nat)
    requires w < WINDOW_LIMIT && i < 63
    ensures SetBit(w, i) < WINDOW_LIMIT
  {
    WindowLimit();
    SetBitBound(w, i, 63);
  }

  lemma Diff32Moves(a: nat, b: nat, k: nat)
    requires a < U32 && b < U32 && k <= Diff32(a, b)
    ensures Diff32(a, (b + k) % 0x1_0000_0000) == Diff32(a, b) - k
  {
    assert (b + k) % 0x1_0000_0000 == if b + k < U32 then b + k else b + k - U32;
  }

  /** Step past the expected number and those accepted right behind it. */
  function Advance(s: Stats): (t: Stats)
    requires s.Valid()
    ensures t.Valid()
  {
    var (k, w) := Trailing(s.window);
    s.(expected := (s.expected + (1 + k)) % 0x1_0000_0000, window := w / 2)
  }

  /** One more step of that advance: a number passed, a window bit shifted out. */
  lemma AdvanceGoesOn(e: nat, passed: nat, w: nat)
    requires w % 2 == 1
    ensures ((e + (1 + passed)) % 0x1_0000_0000 + 1) % 0x1_0000_0000 == (e + (1 + (passed + 1))) % 0x1_0000_0000
    ensures Trailing(w).0 == Trailing(w / 2).0 + 1 && Trailing(w).1 == Trailing(w / 2).1
  {
    Mod32Adds(e + (1 + passed), 1);
  }

  lemma AdvanceCloses(s: Stats, seq32: nat)
    requires s.Valid() && seq32 < U32 && Diff32(seq32, s.expected) >= 64
    ensures 0 <= Diff32(seq32, Advance(s).expected) < Diff32(seq32, s.expected)
  {
    TrailingFits(s.window);
    Diff32Moves(seq32, s.expected, 1 + Trailing(s.window).0);
  }

  /** Give up the expected number while the arrival is 64 or more ahead. */
  function Slide(s: Stats, seq32: nat): (t: Stats)
    requires s.Valid() && seq32 < U32
    ensures t.Valid()
    ensures Diff32(seq32, s.expected) >= 0 ==> 0 <= Diff32(seq32, t.expected) < 64
    decreases Diff32(seq32, s.expected)
  {
    if Diff32(seq32, s.expected) >= 64 then
      AdvanceCloses(s.(lost := Inc(s.lost, 1)), seq32);
      Slide(Advance(s.(lost := Inc(s.lost, 1))), seq32)
    else s
  }

  /** Among the low k bits of w, those that are clear. */
  function ClearBits(w: nat, k: nat): nat {
    if k == 0 then 0 else (if w % 2 == 1 then 0 else 1) + ClearBits(w / 2, k - 1)
  }

  /** The expected number and the 63 places behind it are given up. */
  function Passed(s: Stats): (t: Stats)
    requires s.Valid()
    ensures t.Valid()
  {
    s.(expected := (s.expected + 64) % 0x1_0000_0000, window := 0, lost := Inc(s.lost, 1 + ClearBits(s.window, 63)))
  }

  /** How far the expected number is from 63 behind the arrival. */
  function Skip(seq32: nat, expected: nat): nat {
    (seq32 - expected - 63) % 0x1_0000_0000
  }

  /** Straight to 63 behind the arrival. */
  function Leapt(s: Stats, seq32: nat): (t: Stats)
    requires s.Valid()
    ensures t.Valid()
  {
    var skip := Skip(seq32, s.expected);
    s.(expected := (s.expected + skip) % 0x1_0000_0000, lost := Inc(s.lost, skip))
  }

  /** The fast path for a gap of more than 128. */
  function BulkSkip(s: Stats, seq32: nat): (t: Stats)
    requires s.Valid()
    ensures t.Valid()
  {
    Leapt(Passed(s), seq32)
  }

  lemma BulkSkipLands(s: Stats, seq32: nat)
    requires s.Valid() && seq32 < U32
    ensures Diff32(seq32, BulkSkip(s, seq32).expected) == 63
  {
    var e := (s.expected + 64) % 0x1_0000_0000;
    var gap := seq32 - e - 63;
    var skip := gap % 0x1_0000_0000;
    assert skip == gap || skip == gap + U32 || skip == gap + 2 * 0x1_0000_0000;
    var at := (e + skip) % 0x1_0000_0000;
    assert at == seq32 - 63 || at == seq32 - 63 + U32;
  }

  /** A frame ahead of the expected one, before its own number is recorded. */
  function CatchUp(s: Stats, seq32: nat): (t: Stats)
    requires s.Valid() && seq32 < U32 && Diff32(seq32, s.expected) > 0
    ensures t.Valid() && 0 <= Diff32(seq32, t.expected) < 64
  {
    if Diff32(seq32, s.expected) > 128 then
      BulkSkipLands(s, seq32);
      Slide(BulkSkip(s, seq32), seq32)
    else Slide(s, seq32)
  }

  /** One received test frame. */
  function Step(s: Stats, seq32: nat, payloadValid: bool): (t: Stats)
    requires s.Valid() && seq32 < U32
    ensures t.Valid()
  {
    if !payloadValid then s.(bad := Inc(s.bad, 1))
    else
      var diff, c := Diff32(seq32, s.expected), s.(total := Inc(s.total, 1));
      if diff == 0 then Advance(c)
      else if diff < 0 then c.(dup := Inc(c.dup, 1))
      else Record(CatchUp(c, seq32), seq32)
  }

  /** Record a frame less than 64 ahead of the expected one. */
  function Record(s: Stats, seq32: nat): (t: Stats)
    requires s.Valid() && seq32 < U32 && 0 <= Diff32(seq32, s.expected) < 64
    ensures t.Valid()
  {
    var ahead := Diff32(seq32, s.expected);
    if ahead == 0 then Advance(s)
    else if Bit(s.window, ahead - 1) then s.(dup := Inc(s.dup, 1))
    else
      SetBitFits(s.window, ahead - 1);
      s.(window := SetBit(s.window, ahead - 1), reorder := Inc(s.reorder, 1))
  }

  // ------------------------------------------------------------ refinement

  lemma NextGapIs(accepted: set<nat>, m: nat, g: nat)
    requires g >= m && g !in accepted && forall x :: m <= x < g ==> x in accepted
    ensures NextGap(accepted, m) == g
  {
    var h := NextGap(accepted, m);
    assert !(h < g) && !(g < h);
  }

  lemma {:induction false} MissingSplit(accepted: set<nat>, lo: nat, mid: nat, hi: nat)
    requires lo <= mid <= hi
    ensures Missing(accepted, lo, hi) == Missing(accepted, lo, mid) + Missing(accepted, mid, hi)
    decreases mid - lo
  {
    if lo < mid {
      MissingSplit(accepted, lo + 1, mid, hi);
    }
  }

  lemma {:induction false} MissingNone(accepted: set<nat>, lo: nat, hi: nat)
    requires forall x :: lo <= x < hi ==> x in accepted
    ensures Missing(accepted, lo, hi) == 0
    decreases hi - lo
  {
    if lo < hi {
      MissingNone(accepted, lo + 1, hi);
    }
  }

  lemma {:induction false} MissingAll(accepted: set<nat>, lo: nat, hi: nat)
    requires lo <= hi && forall x :: lo <= x < hi ==> x !in accepted
    ensures Missing(accepted, lo, hi) == hi - lo
    decreases hi - lo
  {
    if lo < hi {
      MissingAll(accepted, lo + 1, hi);
    }
  }

  /** Accepting a number outside the range leaves the count alone. */
  lemma {:induction false} MissingElsewhere(accepted: set<nat>, n: nat, lo: nat, hi: nat)
    requires n < lo || hi <= n
    ensures Missing(accepted + {n}, lo, hi) == Missing(accepted, lo, hi)
    decreases hi - lo
  {
    if lo < hi {
      MissingElsewhere(accepted, n, lo + 1, hi);
    }
  }

  lemma {:induction false} TrailingGap(w: nat, accepted: set<nat>, e: nat)
    requires Mirrors(w, accepted, e)
    ensures var (k, rest) := Trailing(w);
            && NextGap(accepted, e) == e + k
            && Mirrors(rest, accepted, e + k)
    decreases w
  {
    assert Bit(w, 0) <==> e + 0 in accepted;
    if w % 2 == 1 {
      MirrorsShift(w, accepted, e);
      TrailingGap(w / 2, accepted, e + 1);
    }
  }

  /** The 32-bit difference is the true one while that is within half the range. */
  lemma DiffIsTrue(n: nat, e: nat)
    requires -HALF <= n - e < HALF
    ensures Diff32(n % 0x1_0000_0000, e % 0x1_0000_0000) == n - e
  {
    var k, a, b := e / 0x1_0000_0000, n % 0x1_0000_0000, e % 0x1_0000_0000;
    assert (n - e) % 0x1_0000_0000 == (a - b) % 0x1_0000_0000 by {
      assert n - e == a - b + 0x1_0000_0000 * (n / 0x1_0000_0000 - k);
      ModShift(a - b, n / 0x1_0000_0000 - k);
    }
    assert (n - e) % 0x1_0000_0000 == if n >= e then n - e else n - e + U32;
  }

  lemma {:induction false} ModShift(a: int, k: int)
    ensures (a + 0x1_0000_0000 * k) % 0x1_0000_0000 == a % 0x1_0000_0000
    decreases if k < 0 then -k else k
  {
    if k > 0 {
      ModShift(a, k - 1);
      assert (a + 0x1_0000_0000 * k) == (a + 0x1_0000_0000 * (k - 1)) + U32;
    } else if k < 0 {
      ModShift(a, k + 1);
      assert (a + 0x1_0000_0000 * k) == (a + 0x1_0000_0000 * (k + 1)) - U32;
    }
  }

  /** s shows the numbers accepted so far with e the expected one, unwrapped. */
  ghost predicate At(s: Stats, accepted: set<nat>, e: nat) {
    s.expected == e % 0x1_0000_0000 && Shows(s.window, accepted, e)
  }

  lemma TrailingCounts(w: nat, accepted: set<nat>, e: nat)
    requires w < WINDOW_LIMIT && Mirrors(w, accepted, e)
    ensures Trailing(w).0 <= 63 && NextGap(accepted, e) == e + Trailing(w).0
  {
    TrailingGap(w, accepted, e);
    TrailingFits(w);
  }

  lemma TrailingMirrors(w: nat, accepted: set<nat>, e: nat)
    requires w < WINDOW_LIMIT && Mirrors(w, accepted, e)
    ensures Mirrors(Trailing(w).1 / 2, accepted, NextGap(accepted, e) + 1)
  {
    TrailingGap(w, accepted, e);
    MirrorsShift(Trailing(w).1, accepted, NextGap(accepted, e));
  }

  lemma TrailingShows(w: nat, accepted: set<nat>, e: nat)
    requires w < WINDOW_LIMIT && Mirrors(w, accepted, e)
    ensures Shows(Trailing(w).1 / 2, accepted, NextGap(accepted, e))
  {
    TrailingMirrors(w, accepted, e);
  }

  lemma Mod32Adds(e: nat, k: nat)
    ensures (e % 0x1_0000_0000 + k) % 0x1_0000_0000 == (e + k) % 0x1_0000_0000
  {
  }

  lemma Mod64Adds(x: nat, k: nat)
    ensures Inc(x % 0x1_0000_0000_0000_0000, k) == (x + k) % 0x1_0000_0000_0000_0000
  {
  }

  /** The expected number is taken, either because it arrived or because it
      was given up; in the first case accepted already holds it. */
  lemma AdvanceGap(s: Stats, accepted: set<nat>, e: nat)
    requires s.Valid() && s.expected == e % 0x1_0000_0000 && Mirrors(s.window, accepted, e + 1)
    ensures At(Advance(s), accepted, NextGap(accepted, e + 1))
    ensures e < NextGap(accepted, e + 1) <= e + 64
    ensures Advance(s) == s.(expected := Advance(s).expected, window := Advance(s).window)
  {
    TrailingShows(s.window, accepted, e + 1);
    TrailingCounts(s.window, accepted, e + 1);
    Mod32Adds(e, 1 + Trailing(s.window).0);
  }

  // Sliding: what is reached does not depend on which path was taken.

  /** t is s with the numbers from e up to g given up or passed over. */
  ghost predicate SlidTo(s: Stats, t: Stats, accepted: set<nat>, e: nat, g: nat) {
    && At(t, accepted, g)
    && t == s.(expected := t.expected, window := t.window, lost := Inc(s.lost, Missing(accepted, e, g)))
  }

  lemma GapFurther(accepted: set<nat>, m: nat, b: nat)
    requires m <= b
    ensures NextGap(accepted, Max(NextGap(accepted, m), b)) == NextGap(accepted, b)
  {
    var g := NextGap(accepted, m);
    if b <= g {
      NextGapIs(accepted, b, g);
      NextGapIs(accepted, g, g);
    }
  }

  lemma SlidToTrans(s: Stats, mid: Stats, t: Stats, accepted: set<nat>, e: nat, g: nat, goal: nat)
    requires e <= g <= goal && SlidTo(s, mid, accepted, e, g) && SlidTo(mid, t, accepted, g, goal)
    ensures SlidTo(s, t, accepted, e, goal)
  {
    MissingSplit(accepted, e, g, goal);
    Mod64Adds(s.lost + Missing(accepted, e, g), Missing(accepted, g, goal));
  }

  /** One number given up, and what was already accepted right behind it. */
  lemma GiveUp(s: Stats, accepted: set<nat>, e: nat)
    requires s.Valid() && At(s, accepted, e)
    ensures SlidTo(s, Advance(s.(lost := Inc(s.lost, 1))), accepted, e, NextGap(accepted, e + 1))
  {
    var g := NextGap(accepted, e + 1);
    AdvanceGap(s.(lost := Inc(s.lost, 1)), accepted, e);
    MissingNone(accepted, e + 1, g);
    assert Missing(accepted, e, g) == 1;
  }

  /** The first round of the loop, when there is one. */
  lemma SlideOnce(s: Stats, accepted: set<nat>, e: nat, n: nat) returns (mid: Stats, g: nat)
    requires s.Valid() && At(s, accepted, e) && e + 64 <= n < e + HALF
    ensures mid.Valid() && SlidTo(s, mid, accepted, e, g) && e < g <= n
    ensures Slide(mid, n % 0x1_0000_0000) == Slide(s, n % 0x1_0000_0000)
    ensures NextGap(accepted, Max(g, n - 63)) == NextGap(accepted, n - 63)
  {
    DiffIsTrue(n, e);
    mid, g := Advance(s.(lost := Inc(s.lost, 1))), NextGap(accepted, e + 1);
    GiveUp(s, accepted, e);
    AdvanceGap(s, accepted, e);
    GapFurther(accepted, e + 1, n - 63);
  }

  lemma {:induction false} SlideGap(s: Stats, accepted: set<nat>, e: nat, n: nat)
    requires s.Valid() && At(s, accepted, e) && e <= n < e + HALF
    ensures SlidTo(s, Slide(s, n % 0x1_0000_0000), accepted, e, NextGap(accepted, Max(e, n - 63)))
    ensures NextGap(accepted, Max(e, n - 63)) <= n
    decreases n - e
  {
    if n - e < 64 {
      DiffIsTrue(n, e);
      NextGapIs(accepted, e, e);
    } else {
      var mid, g := SlideOnce(s, accepted, e, n);
      SlideGap(mid, accepted, g, n);
      SlidToTrans(s, mid, Slide(mid, n % 0x1_0000_0000), accepted, e, g, NextGap(accepted, n - 63));
    }
  }

  lemma {:induction false} ClearBitsMissing(w: nat, accepted: set<nat>, e: nat, k: nat)
    requires Mirrors(w, accepted, e)
    ensures ClearBits(w, k) == Missing(accepted, e, e + k)
    decreases k
  {
    if k > 0 {
      assert Bit(w, 0) <==> e + 0 in accepted;
      MirrorsShift(w, accepted, e);
      ClearBitsMissing(w / 2, accepted, e + 1, k - 1);
    }
  }

  /** Nothing has been accepted 64 or more ahead of the expected number. */
  lemma NothingBeyond(w: nat, accepted: set<nat>, e: nat)
    requires Shows(w, accepted, e)
    ensures forall x :: x >= e + 64 ==> x !in accepted
  {
    WindowLimit();
    forall x | x >= e + 64 ensures x !in accepted {
      BitAbove(w, 63, x - e - 1);
      assert Bit(w, x - e - 1) <==> e + 1 + (x - e - 1) in accepted;
    }
  }

  lemma EmptyShows(accepted: set<nat>, e: nat)
    requires forall x :: x >= e ==> x !in accepted
    ensures Shows(0, accepted, e)
  {
    forall i: nat ensures !Bit(0, i) {
      ZeroHasNoBits(i);
    }
  }

  lemma BulkSkipCounts(w: nat, accepted: set<nat>, e: nat, n: nat)
    requires Shows(w, accepted, e) && e + 128 < n
    ensures Missing(accepted, e, n - 63) == 1 + ClearBits(w, 63) + (n - e - 127)
  {
    NothingBeyond(w, accepted, e);
    ClearBitsMissing(w, accepted, e + 1, 63);
    MissingAll(accepted, e + 64, n - 63);
    MissingSplit(accepted, e, e + 1, e + 64);
    MissingSplit(accepted, e, e + 64, n - 63);
  }

  lemma BulkSkipGap(s: Stats, accepted: set<nat>, e: nat, n: nat)
    requires s.Valid() && At(s, accepted, e) && e + 128 < n < e + HALF
    ensures SlidTo(s, BulkSkip(s, n % 0x1_0000_0000), accepted, e, n - 63)
    ensures NextGap(accepted, n - 63) == n - 63
  {
    NothingBeyond(s.window, accepted, e);
    EmptyShows(accepted, n - 63);
    NextGapIs(accepted, n - 63, n - 63);
    BulkSkipCounts(s.window, accepted, e, n);
    BulkSkipNumbers(s, e, n);
  }

  lemma SkipIsTrue(n: nat, e: nat)
    requires 63 <= n - e < HALF
    ensures Skip(n % 0x1_0000_0000, e % 0x1_0000_0000) == n - e - 63
  {
    DiffIsTrue(n, e);
    var d := n % 0x1_0000_0000 - e % 0x1_0000_0000;
    assert d == n - e || d == n - e - 0x1_0000_0000;
  }

  lemma LandsAt(e: nat, n: nat)
    requires e + 128 < n < e + HALF
    ensures var p := (e % 0x1_0000_0000 + 64) % 0x1_0000_0000;
            && Skip(n % 0x1_0000_0000, p) == n - e - 127
            && (p + (n - e - 127)) % 0x1_0000_0000 == (n - 63) % 0x1_0000_0000
  {
    Mod32Adds(e, 64);
    SkipIsTrue(n, e + 64);
    Mod32Adds(e + 64, n - e - 127);
  }

  lemma LossesAdd(lost: nat, a: nat, b: nat)
    ensures Inc(Inc(lost, a), b) == Inc(lost, a + b)
  {
    Mod64Adds(lost + a, b);
  }

  lemma LeapTo(s: Stats, seq32: nat, skip: nat, to: nat, lost: nat)
    requires s.Valid() && Skip(seq32, s.expected) == skip
    requires (s.expected + skip) % 0x1_0000_0000 == to && Inc(s.lost, skip) == lost
    ensures Leapt(s, seq32) == s.(expected := to, lost := lost)
  {
  }

  lemma BulkSkipNumbers(s: Stats, e: nat, n: nat)
    requires s.Valid() && s.expected == e % 0x1_0000_0000 && e + 128 < n < e + HALF
    ensures BulkSkip(s, n % 0x1_0000_0000) ==
            s.(expected := (n - 63) % 0x1_0000_0000, window := 0,
               lost := Inc(s.lost, 1 + ClearBits(s.window, 63) + (n - e - 127)))
  {
    LandsAt(e, n);
    LossesAdd(s.lost, 1 + ClearBits(s.window, 63), n - e - 127);
    LeapTo(Passed(s), n % 0x1_0000_0000, n - e - 127, (n - 63) % 0x1_0000_0000,
           Inc(s.lost, 1 + ClearBits(s.window, 63) + (n - e - 127)));
  }

  /** Any window is the picture of some set of accepted numbers. */
  lemma WindowAsSet(s: Stats) returns (accepted: set<nat>)
    requires s.Valid()
    ensures At(s, accepted, s.expected)
  {
    var e := s.expected;
    accepted := set i | 0 <= i < 63 && Bit(s.window, i) :: e + 1 + i;
    WindowLimit();
    forall i: nat ensures Bit(s.window, i) <==> e + 1 + i in accepted {
      if i >= 63 {
        BitAbove(s.window, 63, i);
      }
    }
  }

  /** Main result: the fast path for a large gap ends exactly where giving up
      one number at a time would, whatever the window held. */
  lemma BulkSkipAgrees(s: Stats, seq32: nat)
    requires s.Valid() && seq32 < U32 && Diff32(seq32, s.expected) > 128
    ensures BulkSkip(s, seq32) == Slide(s, seq32)
  {
    var e, n := s.expected, s.expected + Diff32(seq32, s.expected);
    assert n % 0x1_0000_0000 == seq32;
    var accepted := WindowAsSet(s);
    BulkSkipGap(s, accepted, e, n);
    SlideGap(s, accepted, e, n);
    SlidToUnique(s, BulkSkip(s, seq32), Slide(s, seq32), accepted, e, n - 63);
  }

  lemma CatchUpIsSlide(s: Stats, seq32: nat)
    requires s.Valid() && seq32 < U32 && Diff32(seq32, s.expected) > 0
    ensures CatchUp(s, seq32) == Slide(s, seq32)
  {
    if Diff32(seq32, s.expected) > 128 {
      BulkSkipAgrees(s, seq32);
      BulkSkipLands(s, seq32);
    }
  }

  lemma SlidToUnique(s: Stats, t: Stats, u: Stats, accepted: set<nat>, e: nat, g: nat)
    requires SlidTo(s, t, accepted, e, g) && SlidTo(s, u, accepted, e, g)
    ensures t == u
  {
    MirrorsUnique(t.window, u.window, accepted, g + 1);
  }

  lemma MirrorsUnique(v: nat, w: nat, accepted: set<nat>, e: nat)
    requires Mirrors(v, accepted, e) && Mirrors(w, accepted, e)
    ensures v == w
  {
    forall i: nat ensures Bit(v, i) <==> Bit(w, i) {
      assert (Bit(v, i) <==> e + i in accepted) && (Bit(w, i) <==> e + i in accepted);
    }
    BitsDetermine(v, w);
  }

  lemma {:induction false} BitsDetermine(v: nat, w: nat)
    requires forall i: nat :: Bit(v, i) <==> Bit(w, i)
    ensures v == w
    decreases v + w
  {
    assert Bit(v, 0) <==> Bit(w, 0);
    if v + w > 0 {
      forall i: nat ensures Bit(v / 2, i) <==> Bit(w / 2, i) {
        assert Bit(v, i + 1) <==> Bit(w, i + 1);
      }
      BitsDetermine(v / 2, w / 2);
    }
  }

  /** The driver's numbers tell the truth about the plain receiver. */
  ghost predicate Refines(s: Stats, r: Receiver) {
    && s.Valid()
    && At(s, r.accepted, r.expected)
    && s.lost == Missing(r.accepted, 0, r.expected) % 0x1_0000_0000_0000_0000
    && s.total == (|r.accepted| + r.dup) % 0x1_0000_0000_0000_0000
    && s.dup == r.dup % 0x1_0000_0000_0000_0000
    && s.reorder == r.reorder % 0x1_0000_0000_0000_0000
  }

  /** n is the next number wanted: it is accepted, and none is given up. */
  lemma AcceptNext(s: Stats, accepted: set<nat>, n: nat)
    requires s.Valid() && At(s, accepted, n)
    ensures At(Advance(s), accepted + {n}, NextGap(accepted + {n}, n))
    ensures Advance(s) == s.(expected := Advance(s).expected, window := Advance(s).window)
    ensures Missing(accepted + {n}, 0, NextGap(accepted + {n}, n)) == Missing(accepted, 0, n)
  {
    var with := accepted + {n};
    assert Mirrors(s.window, with, n + 1) by {
      forall i: nat ensures Bit(s.window, i) <==> n + 1 + i in with {
        assert Bit(s.window, i) <==> n + 1 + i in accepted;
      }
    }
    AdvanceGap(s, with, n);
    var g := NextGap(with, n + 1);
    NextGapIs(with, n, g);
    MissingSplit(with, 0, n, g);
    MissingElsewhere(accepted, n, 0, n);
    MissingNone(with, n, g);
  }

  /** n is ahead of the next number wanted and is recorded in the window. */
  lemma AcceptAhead(s: Stats, accepted: set<nat>, e: nat, n: nat)
    requires s.Valid() && At(s, accepted, e) && e < n < e + 64 && n !in accepted
    ensures Shows(SetBit(s.window, n - e - 1), accepted + {n}, e)
    ensures Missing(accepted + {n}, 0, e) == Missing(accepted, 0, e)
  {
    var w, with := SetBit(s.window, n - e - 1), accepted + {n};
    SetBitFits(s.window, n - e - 1);
    forall i: nat ensures Bit(w, i) <==> e + 1 + i in with {
      SetBitSets(s.window, n - e - 1, i);
      assert Bit(s.window, i) <==> e + 1 + i in accepted;
    }
    MissingElsewhere(accepted, n, 0, e);
  }

  /** Receiving the number that ends the gap, or one beyond it. */
  lemma ReceiveNew(r: Receiver, n: nat)
    requires r.expected <= n && n !in r.accepted
    ensures var g, with := NextGap(r.accepted, Max(r.expected, n - 63)), r.accepted + {n};
            && g <= n
            && Receive(r, n) == Receiver(with, if n == g then NextGap(with, n) else g, r.dup, if n > g then r.reorder + 1 else r.reorder)
  {
    var base := Max(r.expected, n - 63);
    var g, with := NextGap(r.accepted, base), r.accepted + {n};
    assert g <= n;
    if n == g {
      NextGapIs(with, base, NextGap(with, n));
    } else {
      NextGapIs(with, base, g);
    }
  }

  /** Once the window has caught up, recording n completes the arrival. */
  lemma RecordRefines(slid: Stats, r: Receiver, n: nat, g: nat)
    requires r.expected < n && n !in r.accepted && g == NextGap(r.accepted, Max(r.expected, n - 63)) && g <= n < g + 64
    requires slid.Valid() && At(slid, r.accepted, g)
    requires slid.lost == Missing(r.accepted, 0, g) % 0x1_0000_0000_0000_0000
    requires slid.total == (|r.accepted| + 1 + r.dup) % 0x1_0000_0000_0000_0000
    requires slid.dup == r.dup % 0x1_0000_0000_0000_0000
    requires slid.reorder == r.reorder % 0x1_0000_0000_0000_0000
    requires Diff32(n % 0x1_0000_0000, slid.expected) == n - g
    ensures Refines(Record(slid, n % 0x1_0000_0000), Receive(r, n))
  {
    ReceiveNew(r, n);
    if n == g {
      AcceptNext(slid, r.accepted, n);
    } else {
      AcceptAhead(slid, r.accepted, g, n);
      assert Bit(slid.window, n - g - 1) <==> g + 1 + (n - g - 1) in r.accepted;
      Mod64Adds(r.reorder, 1);
    }
  }

  /** What catching up has given up, all told. */
  lemma LostSoFar(s: Stats, slid: Stats, accepted: set<nat>, e: nat, g: nat)
    requires e <= g && SlidTo(s, slid, accepted, e, g)
    requires s.lost == Missing(accepted, 0, e) % 0x1_0000_0000_0000_0000
    ensures slid.lost == Missing(accepted, 0, g) % 0x1_0000_0000_0000_0000
  {
    MissingSplit(accepted, 0, e, g);
    Mod64Adds(Missing(accepted, 0, e), Missing(accepted, e, g));
  }

  lemma ReceiveAhead(s: Stats, r: Receiver, n: nat, c: Stats)
    requires Refines(s, r) && r.expected < n < r.expected + HALF && n !in r.accepted
    requires c == s.(total := Inc(s.total, 1)) && Diff32(n % 0x1_0000_0000, c.expected) == n - r.expected
    ensures Refines(Record(CatchUp(c, n % 0x1_0000_0000), n % 0x1_0000_0000), Receive(r, n))
  {
    var e, g, slid := r.expected, NextGap(r.accepted, Max(r.expected, n - 63)), Slide(c, n % 0x1_0000_0000);
    CatchUpIsSlide(c, n % 0x1_0000_0000);
    SlideGap(c, r.accepted, e, n);
    LostSoFar(c, slid, r.accepted, e, g);
    DiffIsTrue(n, g);
    Mod64Adds(|r.accepted| + r.dup, 1);
    RecordRefines(slid, r, n, g);
  }

  lemma ReceiveAgain(s: Stats, r: Receiver, n: nat, c: Stats)
    requires Refines(s, r) && r.expected < n && n in r.accepted
    requires c == s.(total := Inc(s.total, 1)) && Diff32(n % 0x1_0000_0000, c.expected) == n - r.expected
    ensures CatchUp(c, n % 0x1_0000_0000) == c && Record(c, n % 0x1_0000_0000) == c.(dup := Inc(c.dup, 1))
  {
    NothingBeyond(s.window, r.accepted, r.expected);
    assert Bit(s.window, n - r.expected - 1) <==> r.expected + 1 + (n - r.expected - 1) in r.accepted;
  }

  /** Main result: one arrival within half the number range of the expected
      one does to the window and counters what it does to the plain receiver. */
  lemma StepRefines(s: Stats, r: Receiver, n: nat)
    requires Refines(s, r) && -HALF <= n - r.expected < HALF
    ensures Refines(Step(s, n % 0x1_0000_0000, true), Receive(r, n))
  {
    var c := s.(total := Inc(s.total, 1));
    DiffIsTrue(n, r.expected);
    Mod64Adds(|r.accepted| + r.dup, 1);
    Mod64Adds(r.dup, 1);
    if n == r.expected {
      AcceptNext(c, r.accepted, n);
      NextGapIs(r.accepted, n, n);
      ReceiveNew(r, n);
    } else if n > r.expected {
      if n in r.accepted {
        ReceiveAgain(s, r, n, c);
      } else {
        ReceiveAhead(s, r, n, c);
      }
    }
  }

  // ------------------------------------------------------------- whole runs

  /** Every arrival is within half the number range of the expected one. */
  predicate InReach(r: Receiver, arrivals: seq<nat>)
    decreases |arrivals|
  {
    arrivals == [] || (-HALF <= arrivals[0] - r.expected < HALF && InReach(Receive(r, arrivals[0]), arrivals[1..]))
  }

  function ReceiveAll(r: Receiver, arrivals: seq<nat>): Receiver
    decreases |arrivals|
  {
    if arrivals == [] then r else ReceiveAll(Receive(r, arrivals[0]), arrivals[1..])
  }

  function StepAll(s: Stats, arrivals: seq<nat>): (t: Stats)
    requires s.Valid()
    ensures t.Valid()
    decreases |arrivals|
  {
    if arrivals == [] then s else StepAll(Step(s, arrivals[0] % 0x1_0000_0000, true), arrivals[1..])
  }

  const EMPTY := Receiver({}, 0, 0, 0)
  const RESET := Stats(0, 0, 0, 0, 0, 0, 0)

  lemma ResetRefines()
    ensures Refines(RESET, EMPTY)
  {
    EmptyShows({}, 0);
  }

  lemma {:induction false} RunRefines(s: Stats, r: Receiver, arrivals: seq<nat>)
    requires Refines(s, r) && InReach(r, arrivals)
    ensures Refines(StepAll(s, arrivals), ReceiveAll(r, arrivals))
    decreases |arrivals|
  {
    if arrivals != [] {
      StepRefines(s, r, arrivals[0]);
      RunRefines(Step(s, arrivals[0] % 0x1_0000_0000, true), Receive(r, arrivals[0]), arrivals[1..]);
    }
  }

  /** A test frame as it arrives: its number, and whether its payload is as
      long as it should be and carries the pattern. */
  datatype Arrival = Arrival(n: nat, good: bool)

  function StepEach(s: Stats, arrivals: seq<Arrival>): (t: Stats)
    requires s.Valid()
    ensures t.Valid()
    decreases |arrivals|
  {
    if arrivals == [] then s
    else StepEach(Step(s, arrivals[0].n % 0x1_0000_0000, arrivals[0].good), arrivals[1..])
  }

  /** The numbers of the frames whose payload is good. */
  function GoodOnes(arrivals: seq<Arrival>): seq<nat> {
    if arrivals == [] then [] else (if arrivals[0].good then [arrivals[0].n] else []) + GoodOnes(arrivals[1..])
  }

  function BadOnes(arrivals: seq<Arrival>): nat {
    if arrivals == [] then 0 else (if arrivals[0].good then 0 else 1) + BadOnes(arrivals[1..])
  }

  lemma {:induction false} SlideKeepsBad(s: Stats, seq32: nat, bad: nat)
    requires s.Valid() && seq32 < U32
    ensures Slide(s.(bad := bad), seq32) == Slide(s, seq32).(bad := bad)
    decreases Diff32(seq32, s.expected)
  {
    if Diff32(seq32, s.expected) >= 64 {
      AdvanceCloses(s.(lost := Inc(s.lost, 1)), seq32);
      SlideKeepsBad(Advance(s.(lost := Inc(s.lost, 1))), seq32, bad);
    }
  }

  lemma BulkSkipKeepsBad(s: Stats, seq32: nat, bad: nat)
    requires s.Valid()
    ensures BulkSkip(s.(bad := bad), seq32) == BulkSkip(s, seq32).(bad := bad)
  {
  }

  lemma CatchUpKeepsBad(s: Stats, seq32: nat, bad: nat)
    requires s.Valid() && seq32 < U32 && Diff32(seq32, s.expected) > 0
    ensures CatchUp(s.(bad := bad), seq32) == CatchUp(s, seq32).(bad := bad)
  {
    if Diff32(seq32, s.expected) > 128 {
      BulkSkipLands(s, seq32);
      BulkSkipKeepsBad(s, seq32, bad);
      SlideKeepsBad(BulkSkip(s, seq32), seq32, bad);
    } else {
      SlideKeepsBad(s, seq32, bad);
    }
  }

  lemma RecordKeepsBad(s: Stats, seq32: nat, bad: nat)
    requires s.Valid() && seq32 < U32 && 0 <= Diff32(seq32, s.expected) < 64
    ensures Record(s.(bad := bad), seq32) == Record(s, seq32).(bad := bad)
  {
  }

  /** A good frame does the same whatever number of bad ones came before. */
  lemma GoodKeepsBad(s: Stats, seq32: nat, bad: nat)
    requires s.Valid() && seq32 < U32
    ensures Step(s.(bad := bad), seq32, true) == Step(s, seq32, true).(bad := bad)
  {
    var c := s.(total := Inc(s.total, 1));
    assert s.(bad := bad).(total := Inc(s.total, 1)) == c.(bad := bad);
    if Diff32(seq32, s.expected) > 0 {
      CatchUpKeepsBad(c, seq32, bad);
      RecordKeepsBad(CatchUp(c, seq32), seq32, bad);
    }
  }

  lemma {:induction false} RunKeepsBad(s: Stats, arrivals: seq<nat>, bad: nat)
    requires s.Valid()
    ensures StepAll(s.(bad := bad), arrivals) == StepAll(s, arrivals).(bad := bad)
    decreases |arrivals|
  {
    if arrivals != [] {
      GoodKeepsBad(s, arrivals[0] % 0x1_0000_0000, bad);
      RunKeepsBad(Step(s, arrivals[0] % 0x1_0000_0000, true), arrivals[1..], bad);
    }
  }

  lemma {:induction false} BadPayloadsOnlyCount(s: Stats, arrivals: seq<Arrival>)
    requires s.Valid() && s.bad < U64
    ensures StepEach(s, arrivals) == StepAll(s, GoodOnes(arrivals)).(bad := Inc(s.bad, BadOnes(arrivals)))
    decreases |arrivals|
  {
    if arrivals == [] {
      RunKeepsBad(s, [], s.bad);
    } else {
      var n, rest := arrivals[0].n % 0x1_0000_0000, arrivals[1..];
      var next := Step(s, n, arrivals[0].good);
      if arrivals[0].good {
        GoodKeepsBad(s, n, s.bad);
        assert s.(bad := s.bad) == s;
        assert ([arrivals[0].n] + GoodOnes(rest))[1..] == GoodOnes(rest);
      } else {
        LossesAdd(s.bad, 1, BadOnes(rest));
        RunKeepsBad(s, GoodOnes(rest), next.bad);
        assert [] + GoodOnes(rest) == GoodOnes(rest);
      }
      BadPayloadsOnlyCount(next, rest);
    }
  }

  /** Main result: over any arrivals, good and bad, the bad payloads are counted
      and do nothing else; the rest is what the plain receiver makes of the good
      frames alone. */
  lemma ArrivalsRefine(arrivals: seq<Arrival>)
    requires InReach(EMPTY, GoodOnes(arrivals))
    ensures var t := StepEach(RESET, arrivals);
            && t.bad == BadOnes(arrivals) % 0x1_0000_0000_0000_0000
            && t == StepAll(RESET, GoodOnes(arrivals)).(bad := t.bad)
            && Refines(t, ReceiveAll(EMPTY, GoodOnes(arrivals)))
  {
    BadPayloadsOnlyCount(RESET, arrivals);
    ResetRefines();
    RunRefines(RESET, EMPTY, GoodOnes(arrivals));
  }

  lemma {:induction false} CountBelow(accepted: set<nat>, m: nat)
    requires forall x :: x in accepted ==> x < m
    ensures |accepted| + Missing(accepted, 0, m) == m
    decreases m
  {
    if m == 0 {
      assert accepted == {};
    } else {
      var below := accepted - {m - 1};
      CountBelow(below, m - 1);
      MissingSplit(accepted, 0, m - 1, m);
      if m - 1 in accepted {
        assert accepted == below + {m - 1};
        MissingElsewhere(below, m - 1, 0, m - 1);
      } else {
        assert accepted == below;
      }
    }
  }

  lemma {:induction false} ClearAndSet(w: nat, k: nat)
    requires w < Pow2(k)
    ensures ClearBits(w, k) + PopCount(w) == k
  {
    if k > 0 {
      ClearAndSet(w / 2, k - 1);
    }
  }

  /** Every number below the expected one is either lost or accepted, and
      the accepted ones beyond it are the bits of the window. */
  lemma EveryNumberCounted(w: nat, accepted: set<nat>, e: nat)
    requires Shows(w, accepted, e)
    ensures Missing(accepted, 0, e) + |accepted| == e + PopCount(w)
  {
    NothingBeyond(w, accepted, e);
    CountBelow(accepted, e + 64);
    MissingSplit(accepted, 0, e, e + 64);
    MissingSplit(accepted, e, e + 1, e + 64);
    ClearBitsMissing(w, accepted, e + 1, 63);
    WindowLimit();
    ClearAndSet(w, 63);
  }

  /** Main result: nothing is counted twice or not at all: the lost and the
      received frames add up to the numbers passed, those in the window and
      the duplicates. */
  lemma Conservation(s: Stats, r: Receiver)
    requires Refines(s, r)
    ensures Inc(s.lost, s.total) == (r.expected + PopCount(s.window) + r.dup) % 0x1_0000_0000_0000_0000
  {
    var missing := Missing(r.accepted, 0, r.expected);
    EveryNumberCounted(s.window, r.accepted, r.expected);
    Mod64Adds(missing, s.total);
    Mod64Adds(|r.accepted| + r.dup, missing);
  }

  /** Each arrival is new and at most 63 ahead of the lowest missing number. */
  predicate MildlyReordered(accepted: set<nat>, arrivals: seq<nat>)
    decreases |arrivals|
  {
    arrivals == [] ||
    (arrivals[0] !in accepted && arrivals[0] <= NextGap(accepted, 0) + 63
     && MildlyReordered(accepted + {arrivals[0]}, arrivals[1..]))
  }

  lemma {:induction false} MildReorderKeepsAll(r: Receiver, arrivals: seq<nat>)
    requires MildlyReordered(r.accepted, arrivals) && r.expected == NextGap(r.accepted, 0)
    ensures InReach(r, arrivals)
    ensures var t := ReceiveAll(r, arrivals);
            && t.dup == r.dup && t.expected == NextGap(t.accepted, 0)
            && t.accepted == r.accepted + set x | x in arrivals
    decreases |arrivals|
  {
    if arrivals != [] {
      var n := arrivals[0];
      ReceiveNew(r, n);
      NextGapIs(r.accepted, r.expected, r.expected);
      var next := Receive(r, n);
      NextGapIs(next.accepted, 0, next.expected);
      MildReorderKeepsAll(next, arrivals[1..]);
      assert (set x | x in arrivals) == {n} + set x | x in arrivals[1..];
    }
  }

  /** Main result: frames 0 to count - 1, each once, in an order that never
      runs more than 63 ahead of the lowest missing one: nothing is lost,
      nothing is a duplicate, and the window ends empty. */
  lemma MildReorderIsLossless(arrivals: seq<nat>, count: nat)
    requires MildlyReordered({}, arrivals)
    requires forall x: nat :: x in arrivals <==> x < count
    ensures var t := StepAll(RESET, arrivals);
            t.expected == count % 0x1_0000_0000 && t.window == 0 && t.lost == 0 && t.dup == 0
  {
    NextGapIs({}, 0, 0);
    MildReorderKeepsAll(EMPTY, arrivals);
    ResetRefines();
    RunRefines(RESET, EMPTY, arrivals);
    var s, t := StepAll(RESET, arrivals), ReceiveAll(EMPTY, arrivals);
    assert forall x :: x in t.accepted <==> x in arrivals;
    NextGapIs(t.accepted, 0, count);
    MissingNone(t.accepted, 0, count);
    EmptyShows(t.accepted, count + 1);
    MirrorsUnique(s.window, 0, t.accepted, count + 1);
  }

  // -------------------------------------------------------------- the driver

  class RawTpRx {
    var expectedSeq: nat
    var window: nat
    var total: nat
    var lost: nat
    var dup: nat
    var reorder: nat
    var badPayload: nat

    ghost function State(): Stats
      reads this
    {
      Stats(expectedSeq, window, total, lost, dup, reorder, badPayload)
    }

    constructor ()
      ensures State() == RESET
    {
      expectedSeq, window, total, lost, dup, reorder, badPayload := 0, 0, 0, 0, 0, 0, 0;
    }

    /** The expected number is done with: pass it and the run behind it. */
    method AdvanceExpected()
      requires State().Valid()
      modifies `expectedSeq, `window
      ensures State() == Advance(old(State()))
    {
      ghost var e, k, rest := expectedSeq, Trailing(window).0, Trailing(window).1;
      ghost var passed := 0;
      expectedSeq := (expectedSeq + 1) % 0x1_0000_0000;
      while window % 2 == 1
        invariant passed + Trailing(window).0 == k && Trailing(window).1 == rest
        invariant expectedSeq == (e + (1 + passed)) % 0x1_0000_0000
        decreases window
      {
        AdvanceGoesOn(e, passed, window);
        expectedSeq := (expectedSeq + 1) % 0x1_0000_0000;
        window := window / 2;
        passed := passed + 1;
      }
      window := window / 2;
    }

    /** The loop that gives up one number at a time. */
    method GiveUpWhileFar(seq32: nat)
      requires State().Valid() && seq32 < U32
      modifies `expectedSeq, `window, `lost
      ensures State() == Slide(old(State()), seq32)
    {
      while Diff32(seq32, expectedSeq) >= 64
        invariant State().Valid() && Slide(State(), seq32) == Slide(old(State()), seq32)
        decreases Diff32(seq32, expectedSeq)
      {
        ghost var s := State();
        AdvanceCloses(s.(lost := Inc(s.lost, 1)), seq32);
        lost := Inc(lost, 1);
        AdvanceExpected();
      }
    }

    /** Some places of the window, one by one. */
    method PassPlaces(places: nat)
      requires expectedSeq < U32 && lost < U64
      modifies `expectedSeq, `window, `lost
      ensures expectedSeq == (old(expectedSeq) + places) % 0x1_0000_0000
      ensures lost == Inc(old(lost), ClearBits(old(window), places))
    {
      ghost var clear := 0;
      for i := 0 to places
        invariant expectedSeq == (old(expectedSeq) + i) % 0x1_0000_0000
        invariant clear + ClearBits(window, places - i) == ClearBits(old(window), places)
        invariant lost == Inc(old(lost), clear)
      {
        if window % 2 == 0 {
          Mod64Adds(old(lost) + clear, 1);
          lost := Inc(lost, 1);
          clear := clear + 1;
        }
        Mod32Adds(old(expectedSeq) + i, 1);
        expectedSeq := (expectedSeq + 1) % 0x1_0000_0000;
        window := window / 2;
      }
    }

    /** The expected number and the whole window are given up. */
    method PassWindow()
      requires State().Valid()
      modifies `expectedSeq, `window, `lost
      ensures State() == Passed(old(State()))
    {
      Mod64Adds(lost + 1, ClearBits(window, 63));
      Mod32Adds(expectedSeq + 1, 63);
      lost := Inc(lost, 1);
      expectedSeq := (expectedSeq + 1) % 0x1_0000_0000;
      PassPlaces(63);
      window := 0;
    }

    method Leap(seq32: nat)
      requires State().Valid()
      modifies `expectedSeq, `lost
      ensures State() == Leapt(old(State()), seq32)
    {
      var skip := Skip(seq32, expectedSeq);
      if skip > 0 {
        lost := Inc(lost, skip);
        expectedSeq := (expectedSeq + skip) % 0x1_0000_0000;
      }
    }

    /** The fast path: the window place by place, then the rest at once. */
    method SkipAhead(seq32: nat)
      requires State().Valid()
      modifies `expectedSeq, `window, `lost
      ensures State() == BulkSkip(old(State()), seq32)
    {
      PassWindow();
      Leap(seq32);
    }

    method CatchUpWith(seq32: nat)
      requires State().Valid() && seq32 < U32 && Diff32(seq32, expectedSeq) > 0
      modifies `expectedSeq, `window, `lost
      ensures State() == CatchUp(old(State()), seq32)
    {
      if Diff32(seq32, expectedSeq) > 128 {
        BulkSkipLands(State(), seq32);
        SkipAhead(seq32);
      }
      GiveUpWhileFar(seq32);
    }

    /** update_test_raw_tp_rx_stats, from the payload check on. */
    method Update(seq32: nat, payloadValid: bool)
      requires State().Valid() && seq32 < U32
      modifies this
      ensures State() == Step(old(State()), seq32, payloadValid)
    {
      if !payloadValid {
        badPayload := Inc(badPayload, 1);
        return;
      }
      var diff := Diff32(seq32, expectedSeq);
      total := Inc(total, 1);
      if diff == 0 {
        AdvanceExpected();
      } else if diff > 0 {
        CatchUpWith(seq32);
        RecordArrival(seq32);
      } else {
        dup := Inc(dup, 1);
      }
    }

    method RecordArrival(seq32: nat)
      requires State().Valid() && seq32 < U32 && 0 <= Diff32(seq32, expectedSeq) < 64
      modifies this
      ensures State() == Record(old(State()), seq32)
    {
      var ahead := Diff32(seq32, expectedSeq);
      if ahead == 0 {
        AdvanceExpected();
      } else if Bit(window, ahead - 1) {
        dup := Inc(dup, 1);
      } else {
        window := SetBit(window, ahead - 1);
        reorder := Inc(reorder, 1);
      }
    }
  }
}
