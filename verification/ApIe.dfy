/** The access point's information elements (host/esp_cfg80211.c): the filter
    over the element format of section 9.4.2.1 of IEEE Std 802.11-2020, and
    the five-slot transaction that keeps the cache equal to the firmware. */
module ApIe {
  import opened Wire

  // ---------------------------------------------------------------- elements

  /** An element is an id, a length, and that many bytes. */
  function ElementLen(s: seq<Byte>): nat
    requires |s| >= 2
  {
    var n: nat := s[1];
    n + 2
  }

  predicate StartsComplete(s: seq<Byte>) {
    |s| >= 2 && ElementLen(s) <= |s|
  }

  predicate IsElement(e: seq<Byte>) {
    |e| >= 2 && ElementLen(e) == |e|
  }

  /** The complete elements, up to the first that is cut short. */
  function Elements(s: seq<Byte>): seq<seq<Byte>>
    decreases |s|
  {
    if StartsComplete(s) then [s[..ElementLen(s)]] + Elements(s[ElementLen(s)..]) else []
  }

  /** What is left after the complete elements. */
  function Rest(s: seq<Byte>): seq<Byte>
    decreases |s|
  {
    if StartsComplete(s) then Rest(s[ElementLen(s)..]) else s
  }

  /** esp_ie_blob_contains_tlv */
  predicate Contains(blob: seq<Byte>, tlv: seq<Byte>)
    decreases |blob|
  {
    StartsComplete(blob) && (blob[..ElementLen(blob)] == tlv || Contains(blob[ElementLen(blob)..], tlv))
  }

  predicate Present(head: seq<Byte>, tail: seq<Byte>, e: seq<Byte>) {
    Contains(head, e) || Contains(tail, e)
  }

  /** esp_filter_extra_ies */
  function Filter(head: seq<Byte>, tail: seq<Byte>, s: seq<Byte>): (r: seq<Byte>)
    ensures |r| <= |s|
    decreases |s|
  {
    if StartsComplete(s) then
      var e, more := s[..ElementLen(s)], Filter(head, tail, s[ElementLen(s)..]);
      if Present(head, tail, e) then more else e + more
    else s
  }

  /** The elements of the list that are in neither blob, in order. */
  function Missing(head: seq<Byte>, tail: seq<Byte>, es: seq<seq<Byte>>): seq<seq<Byte>> {
    if es == [] then []
    else (if Present(head, tail, es[0]) then [] else [es[0]]) + Missing(head, tail, es[1..])
  }

  lemma {:induction false} ContainsIsMembership(blob: seq<Byte>, tlv: seq<Byte>)
    ensures Contains(blob, tlv) <==> tlv in Elements(blob)
    decreases |blob|
  {
    if StartsComplete(blob) {
      ContainsIsMembership(blob[ElementLen(blob)..], tlv);
    }
  }

  lemma ElementFirst(e: seq<Byte>, t: seq<Byte>)
    requires IsElement(e)
    ensures StartsComplete(e + t) && Elements(e + t) == [e] + Elements(t) && Rest(e + t) == Rest(t)
  {
    assert (e + t)[1] == e[1];
    assert (e + t)[..|e|] == e && (e + t)[|e|..] == t;
  }

  lemma {:induction false} RestIsIncomplete(s: seq<Byte>)
    ensures !StartsComplete(Rest(s))
    decreases |s|
  {
    if StartsComplete(s) {
      RestIsIncomplete(s[ElementLen(s)..]);
    }
  }

  /** Nothing falls between the elements. */
  lemma {:induction false} ElementsAndRest(s: seq<Byte>)
    ensures s == Flatten(Elements(s)) + Rest(s)
    decreases |s|
  {
    if StartsComplete(s) {
      var n := ElementLen(s);
      ElementsAndRest(s[n..]);
      var es := Elements(s);
      assert es[0] == s[..n] && es[1..] == Elements(s[n..]);
      assert Flatten(es) == s[..n] + Flatten(Elements(s[n..]));
      assert s == s[..n] + s[n..];
    }
  }

  // What the elements of a string are, without the walk.

  /** An id, a length, and as many bytes as it says. */
  predicate Tlv(e: seq<Byte>) {
    |e| >= 2 && |e| == 2 + e[1] as int
  }

  /** s is these elements one behind the other, and then no complete one. */
  predicate SplitsInto(s: seq<Byte>, es: seq<seq<Byte>>, rest: seq<Byte>) {
    && s == Flatten(es) + rest
    && (forall i :: 0 <= i < |es| ==> Tlv(es[i]))
    && (|rest| < 2 || |rest| < 2 + rest[1] as int)
  }

  lemma {:induction false} ElementsAreTlvs(s: seq<Byte>, i: nat)
    requires i < |Elements(s)|
    ensures Tlv(Elements(s)[i])
    decreases |s|
  {
    if i > 0 {
      ElementsAreTlvs(s[ElementLen(s)..], i - 1);
    }
  }

  lemma {:induction false} SplitIsElements(s: seq<Byte>, es: seq<seq<Byte>>, rest: seq<Byte>)
    requires SplitsInto(s, es, rest)
    ensures es == Elements(s) && rest == Rest(s)
    decreases |es|
  {
    if es == [] {
      assert s == rest;
    } else {
      var more := Flatten(es[1..]) + rest;
      assert s == es[0] + more;
      ElementFirst(es[0], more);
      SplitIsElements(more, es[1..], rest);
      assert es == [es[0]] + es[1..];
    }
  }

  /** Main result: the walk finds the elements of a string, and there is no
      other way to take it apart. */
  lemma ElementsAre(s: seq<Byte>, es: seq<seq<Byte>>, rest: seq<Byte>)
    ensures es == Elements(s) && rest == Rest(s) <==> SplitsInto(s, es, rest)
  {
    if SplitsInto(s, es, rest) {
      SplitIsElements(s, es, rest);
    } else if es == Elements(s) && rest == Rest(s) {
      ElementsAndRest(s);
      RestIsIncomplete(s);
      forall i | 0 <= i < |es| ensures Tlv(es[i]) {
        ElementsAreTlvs(s, i);
      }
    }
  }

  /** The filter's meaning: its elements are those of the input that are in
      neither HEAD nor TAIL, in their order; the trailing bytes stay, and they
      are an element cut short, or less. */
  lemma {:induction false} FilterMeaning(head: seq<Byte>, tail: seq<Byte>, s: seq<Byte>)
    ensures Elements(Filter(head, tail, s)) == Missing(head, tail, Elements(s))
    ensures Rest(Filter(head, tail, s)) == Rest(s) && !StartsComplete(Rest(s))
    decreases |s|
  {
    RestIsIncomplete(s);
    if StartsComplete(s) {
      var n := ElementLen(s);
      var e := s[..n];
      FilterMeaning(head, tail, s[n..]);
      assert e[1] == s[1] && IsElement(e);
      ElementFirst(e, Filter(head, tail, s[n..]));
    }
  }

  lemma {:induction false} MissingMembers(head: seq<Byte>, tail: seq<Byte>, es: seq<seq<Byte>>, e: seq<Byte>)
    ensures e in Missing(head, tail, es) <==> e in es && !Present(head, tail, e)
  {
    if es != [] {
      MissingMembers(head, tail, es[1..], e);
    }
  }

  lemma {:induction false} MissingTwice(head: seq<Byte>, tail: seq<Byte>, es: seq<seq<Byte>>)
    ensures Missing(head, tail, Missing(head, tail, es)) == Missing(head, tail, es)
  {
    if es != [] {
      MissingTwice(head, tail, es[1..]);
      var more := Missing(head, tail, es[1..]);
      assert ([es[0]] + more)[1..] == more && [] + more == more;
    }
  }

  /** Every complete element of the input is in HEAD, in TAIL or in the output;
      no complete element of the output is in HEAD or TAIL. */
  lemma FilterLosesNothing(head: seq<Byte>, tail: seq<Byte>, s: seq<Byte>, e: seq<Byte>)
    ensures e in Elements(s) ==> e in Elements(head) || e in Elements(tail) || e in Elements(Filter(head, tail, s))
    ensures e in Elements(Filter(head, tail, s)) ==> e in Elements(s) && e !in Elements(head) && e !in Elements(tail)
  {
    FilterMeaning(head, tail, s);
    MissingMembers(head, tail, Elements(s), e);
    ContainsIsMembership(head, e);
    ContainsIsMembership(tail, e);
  }

  /** Filtering twice is filtering once. */
  lemma {:induction false} FilterTwice(head: seq<Byte>, tail: seq<Byte>, s: seq<Byte>)
    ensures Filter(head, tail, Filter(head, tail, s)) == Filter(head, tail, s)
  {
    var once := Filter(head, tail, s);
    var twice := Filter(head, tail, once);
    FilterMeaning(head, tail, s);
    FilterMeaning(head, tail, once);
    MissingTwice(head, tail, Elements(s));
    ElementsAndRest(once);
    ElementsAndRest(twice);
  }

  /** The walk of esp_ie_blob_contains_tlv. */
  method FindTlv(blob: seq<Byte>, tlv: seq<Byte>) returns (found: bool)
    ensures found <==> tlv in Elements(blob)
  {
    ContainsIsMembership(blob, tlv);
    if |tlv| < 2 {
      ShortIsAbsent(blob, tlv);
      return false;
    }
    var pos := 0;
    while StartsComplete(blob[pos..])
      invariant pos <= |blob| && Contains(blob, tlv) == Contains(blob[pos..], tlv)
      decreases |blob| - pos
    {
      var elen := ElementLen(blob[pos..]);
      assert blob[pos..][elen..] == blob[pos + elen..];
      if elen == |tlv| && blob[pos..pos + elen] == tlv {
        assert blob[pos..][..elen] == tlv;
        return true;
      }
      assert blob[pos..][..elen] == blob[pos..pos + elen];
      pos := pos + elen;
    }
    return false;
  }

  lemma {:induction false} ShortIsAbsent(blob: seq<Byte>, tlv: seq<Byte>)
    requires |tlv| < 2
    ensures !Contains(blob, tlv)
    decreases |blob|
  {
    if StartsComplete(blob) {
      ShortIsAbsent(blob[ElementLen(blob)..], tlv);
    }
  }

  /** memcpy into the output buffer. */
  method Append(dst: array<Byte>, kept: nat, src: seq<Byte>)
    requires kept + |src| <= dst.Length
    modifies dst
    ensures dst[..kept + |src|] == old(dst[..kept]) + src
  {
    for i := 0 to |src|
      invariant dst[..kept + i] == old(dst[..kept]) + src[..i]
    {
      dst[kept + i] := src[i];
    }
  }

  /** One element: kept, or dropped because HEAD or TAIL has it. */
  method Sift(head: seq<Byte>, tail: seq<Byte>, e: seq<Byte>, dst: array<Byte>, kept: nat) returns (now: nat)
    requires kept + |e| <= dst.Length
    modifies dst
    ensures now == if Present(head, tail, e) then kept else kept + |e|
    ensures dst[..now] == old(dst[..kept]) + if Present(head, tail, e) then [] else e
  {
    ContainsIsMembership(head, e);
    ContainsIsMembership(tail, e);
    var inHead := FindTlv(head, e);
    var inTail := FindTlv(tail, e);
    now := kept;
    if !inHead && !inTail {
      Append(dst, kept, e);
      now := kept + |e|;
    }
  }

  lemma FilterStep(head: seq<Byte>, tail: seq<Byte>, s: seq<Byte>, kept: seq<Byte>)
    requires StartsComplete(s)
    ensures var e := s[..ElementLen(s)];
            kept + Filter(head, tail, s)
            == (kept + if Present(head, tail, e) then [] else e) + Filter(head, tail, s[ElementLen(s)..])
  {
  }

  /** The filter's loop: dst[..kept] is what has been kept so far. */
  method FilterInto(head: seq<Byte>, tail: seq<Byte>, extra: seq<Byte>, dst: array<Byte>) returns (kept: nat)
    requires dst.Length == |extra|
    modifies dst
    ensures kept <= dst.Length && dst[..kept] == Filter(head, tail, extra)
  {
    var left := extra;
    kept := 0;
    while StartsComplete(left)
      invariant kept + |left| <= |extra|
      invariant dst[..kept] + Filter(head, tail, left) == Filter(head, tail, extra)
      decreases |left|
    {
      var n := ElementLen(left);
      FilterStep(head, tail, left, dst[..kept]);
      kept := Sift(head, tail, left[..n], dst, kept);
      left := left[n..];
    }
    Append(dst, kept, left);
    kept := kept + |left|;
  }

  // ------------------------------------------------------------- the request

  const SLOTS: nat := 5
  const HEAD_FIXED: nat := 34
  const HEAD_IES: nat := 36
  const MAX_LEN: nat := 0xFFFF

  /** A pointer and a length, as cfg80211 hands them over. */
  datatype Field = Absent | NullWithLength | Given(bytes: seq<Byte>)

  datatype Info = Info(head: Field, tail: Field, beacon: Field, probe: Field, assoc: Field)

  type Slots = s: seq<seq<Byte>> | |s| == SLOTS witness [[], [], [], [], []]
  type Plan = s: seq<Option<seq<Byte>>> | |s| == SLOTS witness [None, None, None, None, None]

  const EMPTY: Slots := [[], [], [], [], []]

  predicate FieldOk(f: Field) {
    !f.NullWithLength? && (f.Given? ==> |f.bytes| <= MAX_LEN)
  }

  predicate InfoOk(info: Info) {
    && FieldOk(info.tail) && FieldOk(info.beacon) && FieldOk(info.probe) && FieldOk(info.assoc)
    && !info.head.NullWithLength?
    && (info.head.Given? ==> HEAD_IES <= |info.head.bytes| && |info.head.bytes| - HEAD_FIXED <= MAX_LEN)
  }

  /** esp_ap_compare_head_tail: what extra elements are compared with. */
  function CompareHead(cache: Slots, info: Info): seq<Byte>
    requires InfoOk(info)
  {
    if info.head.Given? then info.head.bytes[HEAD_IES..] else if |cache[0]| > 2 then cache[0][2..] else []
  }

  function CompareTail(cache: Slots, info: Info): seq<Byte> {
    if info.tail.Given? then info.tail.bytes else cache[1]
  }

  function Gone(clear: bool): Option<seq<Byte>> {
    if clear then Some([]) else None
  }

  function Extra(cache: Slots, info: Info, f: Field, clear: bool): Option<seq<Byte>>
    requires InfoOk(info)
  {
    if f.Given? then Some(Filter(CompareHead(cache, info), CompareTail(cache, info), f.bytes)) else Gone(clear)
  }

  /** What each slot is to hold; None leaves it alone. Absent HEAD and TAIL
      are always left alone; the other three are cleared by a change. */
  function PlanOf(cache: Slots, info: Info, clear: bool): Plan
    requires InfoOk(info)
  {
    [if info.head.Given? then Some(info.head.bytes[HEAD_FIXED..]) else None,
     if info.tail.Given? then Some(info.tail.bytes) else None,
     Extra(cache, info, info.beacon, clear),
     Extra(cache, info, info.probe, clear),
     if info.assoc.Given? then Some(info.assoc.bytes) else Gone(clear)]
  }

  /** The slots once the plan is carried out for those below n. */
  function Installed(slots: Slots, plan: Plan, n: nat): (r: Slots)
    requires n <= SLOTS
    ensures forall i :: 0 <= i < SLOTS ==> r[i] == if i < n && plan[i].Some? then plan[i].value else slots[i]
  {
    seq(SLOTS, i requires 0 <= i < SLOTS => if i < n && plan[i].Some? then plan[i].value else slots[i])
  }

  /** Installed elements of a start are free of what HEAD and TAIL carry. */
  lemma PlanIsDeduplicated(cache: Slots, info: Info, clear: bool, slot: nat, e: seq<Byte>)
    requires InfoOk(info) && (slot == 2 || slot == 3)
    requires var p := PlanOf(cache, info, clear); p[slot].Some? && e in Elements(p[slot].value)
    ensures e !in Elements(CompareHead(cache, info)) && e !in Elements(CompareTail(cache, info))
  {
    var f := if slot == 2 then info.beacon else info.probe;
    if f.Given? {
      FilterLosesNothing(CompareHead(cache, info), CompareTail(cache, info), f.bytes, e);
    }
  }

  /** Extra elements are compared with the HEAD and TAIL that will be in force:
      what the first two slots hold once the plan is carried out, HEAD from
      behind its first two bytes on. */
  lemma ComparedIsInForce(cache: Slots, info: Info, clear: bool)
    requires InfoOk(info)
    ensures var now := Installed(cache, PlanOf(cache, info, clear), SLOTS);
            && CompareHead(cache, info) == (if |now[0]| > 2 then now[0][2..] else [])
            && CompareTail(cache, info) == now[1]
  {
    if info.head.Given? {
      assert info.head.bytes[HEAD_FIXED..][2..] == info.head.bytes[HEAD_IES..];
    }
  }

  /** An extra slot holds those elements of its field that are not in force. */
  predicate Extras(f: Field, slot: seq<Byte>, head: seq<Byte>, tail: seq<Byte>, e: seq<Byte>) {
    f.Given? ==>
      (e in Elements(slot) <==>
         e in Elements(f.bytes) && e !in Elements(if |head| > 2 then head[2..] else []) && e !in Elements(tail))
  }

  lemma ExtraHolds(cache: Slots, info: Info, clear: bool, f: Field, e: seq<Byte>)
    requires InfoOk(info) && f.Given?
    ensures var now := Installed(cache, PlanOf(cache, info, clear), SLOTS);
            Extras(f, Extra(cache, info, f, clear).value, now[0], now[1], e)
  {
    ComparedIsInForce(cache, info, clear);
    var head, tail := CompareHead(cache, info), CompareTail(cache, info);
    FilterMeaning(head, tail, f.bytes);
    MissingMembers(head, tail, Elements(f.bytes), e);
    ContainsIsMembership(head, e);
    ContainsIsMembership(tail, e);
  }

  /** Which field feeds which slot, once the plan is carried out: 0 the beacon's
      head from byte 34 on, 1 its tail, 2 and 3 the extra elements of beacons
      and of probe responses, 4 those of association responses. A field not
      given leaves its slot as it was, except that a change empties the last
      three. */
  lemma PlanFeedsSlots(cache: Slots, info: Info, clear: bool, e: seq<Byte>)
    requires InfoOk(info)
    ensures var now := Installed(cache, PlanOf(cache, info, clear), SLOTS);
            && now[0] == (if info.head.Given? then info.head.bytes[34..] else cache[0])
            && now[1] == (if info.tail.Given? then info.tail.bytes else cache[1])
            && Extras(info.beacon, now[2], now[0], now[1], e) && Extras(info.probe, now[3], now[0], now[1], e)
            && (!info.beacon.Given? ==> now[2] == if clear then [] else cache[2])
            && (!info.probe.Given? ==> now[3] == if clear then [] else cache[3])
            && now[4] == (if info.assoc.Given? then info.assoc.bytes else if clear then [] else cache[4])
  {
    if info.beacon.Given? {
      ExtraHolds(cache, info, clear, info.beacon, e);
    }
    if info.probe.Given? {
      ExtraHolds(cache, info, clear, info.probe, e);
    }
  }

  /** What may come of a SET_IE command: done; refused, nothing changed; or no
      answer in time, when it may have been done and a recovery is requested.
      The last stands also for a transport that fails after it may have
      delivered the command: SPI-HD then asks for a transport recovery, and the
      firmware reset follows once the resync finds the transfer ambiguous
      (host/spi_hd/esp_spi_hd.c:2263-2267, 2611-2620). */
  datatype Reply = Done | Refused | TimedOut(applied: bool)

  // ---------------------------------------------------------- the transaction

  /** reply(k) is what comes of the k-th SET_IE command, sent: how many there
      have been. */
  class AccessPoint {
    const reply: nat -> Reply
    var sent: nat
    var cache: Slots
    var fw: Slots
    var recovery: bool

    /** The firmware has done all these commands. */
    ghost predicate AllDone(from: nat, to: nat) {
      forall k: nat :: from <= k < to ==> reply(k).Done?
    }

    /** It has refused one of them and done the others. */
    ghost predicate RefusedOnce(from: nat, to: nat) {
      exists k: nat :: from <= k < to && reply(k).Refused? && AllDone(from, k) && AllDone(k + 1, to)
    }

    /** The promise of the whole module. */
    predicate Consistent()
      reads this
    {
      cache == fw || recovery
    }

    constructor (reply: nat -> Reply)
      ensures cache == fw == EMPTY && !recovery && sent == 0 && this.reply == reply
    {
      this.reply, sent := reply, 0;
      cache, fw, recovery := EMPTY, EMPTY, false;
    }

    /** cmd_set_ie, with any reply the firmware may give. */
    method SetIe(slot: nat, bytes: seq<Byte>) returns (ok: bool)
      requires slot < SLOTS
      modifies `fw, `recovery, `sent
      ensures sent == old(sent) + 1 && ok == reply(old(sent)).Done?
      ensures fw == old(fw) || fw == old(fw)[slot := bytes]
      ensures ok ==> fw == old(fw)[slot := bytes]
      ensures !ok ==> fw == old(fw) || recovery
      ensures recovery <==> old(recovery) || reply(old(sent)).TimedOut?
    {
      var now := reply(sent);
      match now {
        case Done => fw := fw[slot := bytes];
        case Refused =>
        case TimedOut(applied) =>
          recovery := true;
          if applied {
            fw := fw[slot := bytes];
          }
      }
      ok, sent := now.Done?, sent + 1;
    }

    method RequestRecovery()
      modifies `recovery
      ensures recovery
    {
      recovery := true;
    }

    /** esp_clear_ap_ies: every slot is tried, whatever happens to the others. */
    method ClearIes() returns (ok: bool)
      modifies this
      ensures cache == EMPTY && (ok ==> fw == EMPTY) && (old(recovery) ==> recovery)
      ensures sent == old(sent) + SLOTS && (ok <==> AllDone(old(sent), sent))
      ensures ok ==> recovery == old(recovery)
    {
      cache, ok := EMPTY, true;
      for i := 0 to SLOTS
        invariant cache == EMPTY && (old(recovery) ==> recovery)
        invariant sent == old(sent) + i && (ok <==> AllDone(old(sent), sent))
        invariant ok ==> recovery == old(recovery)
        invariant ok ==> forall j :: 0 <= j < i ==> fw[j] == []
      {
        var done := SetIe(i, []);
        ok := ok && done;
      }
      assert ok ==> fw == EMPTY;
    }

    /** esp_set_ies: the cache changes only when every slot has been set. */
    method SetIes(info: Info, memory: bool) returns (ok: bool)
      modifies this
      ensures old(recovery) ==> recovery
      ensures sent >= old(sent) && (ok <==> InfoOk(info) && memory && AllDone(old(sent), sent))
      ensures AllDone(old(sent), sent) ==> recovery == old(recovery)
      ensures ok ==> cache == Installed(old(cache), PlanOf(old(cache), info, false), SLOTS)
      ensures ok ==> fw == Installed(old(fw), PlanOf(old(cache), info, false), SLOTS)
      ensures !ok ==> cache == old(cache)
    {
      if !InfoOk(info) || !memory {
        return false;
      }
      var plan := PlanOf(cache, info, false);
      assert Installed(fw, plan, 0) == fw;
      for i := 0 to SLOTS
        invariant cache == old(cache) && recovery == old(recovery)
        invariant sent >= old(sent) && AllDone(old(sent), sent)
        invariant fw == Installed(old(fw), plan, i)
      {
        if plan[i].Some? {
          var done := SetIe(i, plan[i].value);
          if !done {
            return false;
          }
        }
        assert fw == Installed(old(fw), plan, i + 1);
      }
      cache := Installed(cache, plan, SLOTS);
      ok := true;
    }

    /** The slots set before a failure are put back from the cache. */
    method RollBack(plan: Plan, failed: nat, ghost was: Slots)
      requires failed < SLOTS
      requires fw == Installed(was, plan, failed) || recovery
      requires was == cache || recovery
      modifies `fw, `recovery, `sent
      ensures fw == cache || recovery
      ensures old(recovery) ==> recovery
      ensures sent >= old(sent) && (AllDone(old(sent), sent) ==> recovery == old(recovery))
    {
      var i: nat := failed;
      while i > 0
        invariant i <= failed && (old(recovery) ==> recovery)
        invariant sent >= old(sent) && (AllDone(old(sent), sent) ==> recovery == old(recovery))
        invariant recovery || (was == cache && fw == Installed(was, plan, i))
      {
        i := i - 1;
        if plan[i].Some? {
          var done := SetIe(i, cache[i]);
          if !done {
            RequestRecovery();
          }
        }
        assert recovery || fw == Installed(was, plan, i);
      }
      assert recovery || fw == was;
    }

    /** The plan names only slots whose contents are to change. */
    predicate Changed(plan: Plan)
      reads this
    {
      forall i :: 0 <= i < SLOTS && plan[i].Some? ==> plan[i].value != cache[i]
    }

    /** Redundant updates are left out. */
    method Trim(plan: Plan) returns (t: Plan)
      ensures Changed(t) && Installed(cache, t, SLOTS) == Installed(cache, plan, SLOTS)
    {
      t := plan;
      for i := 0 to SLOTS
        invariant forall j :: 0 <= j < i && t[j].Some? ==> t[j].value != cache[j]
        invariant forall j :: 0 <= j < SLOTS ==> t[j] == plan[j] || (t[j].None? && plan[j] == Some(cache[j]))
        invariant forall j :: i <= j < SLOTS ==> t[j] == plan[j]
      {
        if t[i] == Some(cache[i]) {
          t := t[i := None];
        }
      }
      assert Installed(cache, t, SLOTS) == Installed(cache, plan, SLOTS);
    }

    /** esp_change_ap_ies: all the requested slots are installed, or all the
        old ones are back, or the firmware is to be recovered. */
    method ChangeIes(info: Info, memory: bool) returns (ok: bool)
      requires Consistent()
      modifies this
      ensures Consistent() && (old(recovery) ==> recovery)
      ensures sent >= old(sent) && (ok <==> InfoOk(info) && memory && AllDone(old(sent), sent))
      ensures AllDone(old(sent), sent) || RefusedOnce(old(sent), sent) ==> recovery == old(recovery)
      ensures ok ==> cache == Installed(old(cache), PlanOf(old(cache), info, true), SLOTS)
      ensures !ok ==> cache == old(cache)
      ensures !recovery ==> fw == if ok then Installed(old(fw), PlanOf(old(cache), info, true), SLOTS) else old(fw)
    {
      if !InfoOk(info) || !memory {
        return false;
      }
      var plan := Trim(PlanOf(cache, info, true));
      assert Installed(fw, plan, 0) == fw;
      for i := 0 to SLOTS
        invariant cache == old(cache) && recovery == old(recovery)
        invariant sent >= old(sent) && AllDone(old(sent), sent)
        invariant (recovery || cache == old(fw)) && fw == Installed(old(fw), plan, i)
      {
        if plan[i].Some? {
          var done := SetIe(i, plan[i].value);
          if !done {
            RollBack(plan, i, old(fw));
            return false;
          }
        }
        assert fw == Installed(old(fw), plan, i + 1);
      }
      cache := Installed(cache, plan, SLOTS);
      ok := true;
    }

    /** esp_cfg80211_start_ap after the mode is set. rest: the checks and the
        AP configuration that follow; stopOk: the rollback's stop command. */
    method StartAp(info: Info, memory: bool, rest: bool, stopOk: bool) returns (ok: bool)
      modifies this
      ensures Consistent() && (old(recovery) ==> recovery)
      ensures sent >= old(sent) && (ok <==> InfoOk(info) && memory && rest && AllDone(old(sent), sent))
      ensures AllDone(old(sent), sent) && (ok || stopOk) ==> recovery == old(recovery)
      ensures ok ==> cache == fw == Installed(EMPTY, PlanOf(EMPTY, info, false), SLOTS)
      ensures !ok ==> cache == EMPTY
    {
      ok := ClearIes();
      if ok {
        ok := SetIes(info, memory);
      }
      if !ok || !rest {
        var cleared := ClearIes();
        if !cleared || !stopOk {
          RequestRecovery();
        }
        return false;
      }
    }

    /** esp_cfg80211_stop_ap */
    method StopAp(stopOk: bool) returns (ok: bool)
      requires Consistent()
      modifies this
      ensures Consistent() && (old(recovery) ==> recovery)
      ensures sent >= old(sent) && (AllDone(old(sent), sent) ==> recovery == old(recovery))
      ensures ok == stopOk && (ok ==> cache == EMPTY) && (!ok ==> cache == old(cache) && fw == old(fw))
    {
      ok := stopOk;
      if ok {
        var cleared := ClearIes();
        if !cleared {
          RequestRecovery();
        }
      }
    }
  }

  /** memory, rest, undone, stopOk: the outcome of what is not a SET_IE command. */
  datatype Op =
    | Start(info: Info, memory: bool, rest: bool, undone: bool)
    | Change(info: Info, memory: bool)
    | Stop(stopOk: bool)

  /** Any run of start, change and stop keeps the cache equal to the firmware,
      or has asked for a recovery; and none is asked for while the firmware does
      what it is told. */
  method AnyRun(ap: AccessPoint, ops: seq<Op>)
    requires ap.Consistent()
    modifies ap
    ensures ap.Consistent() && ap.sent >= old(ap.sent)
    ensures ap.AllDone(old(ap.sent), ap.sent) && (forall i :: 0 <= i < |ops| && ops[i].Start? ==> ops[i].undone) ==>
              ap.recovery == old(ap.recovery)
  {
    for i := 0 to |ops|
      invariant ap.Consistent() && ap.sent >= old(ap.sent)
      invariant ap.AllDone(old(ap.sent), ap.sent) && (forall k :: 0 <= k < i && ops[k].Start? ==> ops[k].undone) ==>
                  ap.recovery == old(ap.recovery)
    {
      match ops[i] {
        case Start(info, memory, rest, undone) => var ok := ap.StartAp(info, memory, rest, undone);
        case Change(info, memory) => var ok := ap.ChangeIes(info, memory);
        case Stop(stopOk) => var ok := ap.StopAp(stopOk);
      }
    }
  }
}
