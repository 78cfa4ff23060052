/**
 * Admission of handshake packets: one arrival bucket that decides whether the responder is under load,
 * and a table of eight per-source buckets that evicts idle entries.
 */
module HandshakeRate {
  import opened Counting
  import opened TunnelProtocol

  const COST: int := 50_000_000
  const MAXIMUM_TOKENS: int := 250_000_000
  const UNDER_LOAD_AFTER: int := 1_000_000_000
  const SLOTS: nat := 8

  datatype Bucket = Bucket(tokens: int, lastUpdate: int, initialized: bool)

  const EMPTY_BUCKET := Bucket(0, 0, false)

  function Refilled(b: Bucket, now: int): Bucket {
    if !b.initialized then Bucket(MAXIMUM_TOKENS, now, true)
    else if now > b.lastUpdate
    then Bucket(if b.tokens + (now - b.lastUpdate) < MAXIMUM_TOKENS then b.tokens + (now - b.lastUpdate) else MAXIMUM_TOKENS, now, true)
    else b
  }

  function Consume(b: Bucket, now: int): (Bucket, bool) {
    var refilled := Refilled(b, now);
    if refilled.tokens < COST then (refilled, false) else (refilled.(tokens := refilled.tokens - COST), true)
  }

  /** A source address with its family; the two are compared together. */
  datatype Source = UnspecifiedSource | Ipv4Source(address: seq<Byte>) | Ipv6Source(address: seq<Byte>)

  datatype LimitEntry = LimitEntry(active: bool, source: Source, bucket: Bucket)

  const FREE_ENTRY := LimitEntry(false, UnspecifiedSource, EMPTY_BUCKET)

  type Limits = s: seq<LimitEntry> | |s| == SLOTS witness Repeat(FREE_ENTRY, SLOTS)

  datatype Responder = Responder(arrival: Bucket, underLoadUntil: int, limits: Limits)

  function InitialResponder(): Responder {
    Responder(EMPTY_BUCKET, 0, Repeat(FREE_ENTRY, SLOTS))
  }

  predicate Holds(e: LimitEntry, source: Source) {
    e.active && e.source == source
  }

  /** A free entry, or one idle for more than a second. */
  predicate Reusable(e: LimitEntry, now: int) {
    !e.active || (now > e.bucket.lastUpdate && now - e.bucket.lastUpdate > UNDER_LOAD_AFTER)
  }

  /** The first entry at or after `from` for the source. */
  function EntryFor(limits: Limits, source: Source, from: nat): (i: nat)
    requires from <= SLOTS
    ensures from <= i <= SLOTS
    ensures i < SLOTS ==> Holds(limits[i], source)
    ensures forall j :: from <= j < i ==> !Holds(limits[j], source)
    decreases SLOTS - from
  {
    if from == SLOTS || Holds(limits[from], source) then from else EntryFor(limits, source, from + 1)
  }

  /** The last reusable entry before `before`. */
  function LastReusable(limits: Limits, now: int, before: nat): (i: Option<nat>)
    requires before <= SLOTS
    ensures i.Some? ==> i.value < before && Reusable(limits[i.value], now)
    ensures i.None? ==> forall j :: 0 <= j < before ==> !Reusable(limits[j], now)
  {
    if before == 0 then None
    else if Reusable(limits[before - 1], now) then Some(before - 1)
    else LastReusable(limits, now, before - 1)
  }

  /** The entry to charge for a source, made in a reusable slot when the source has none; none without an address. */
  function Claim(limits: Limits, source: Source, now: int): (Limits, Option<nat>) {
    var i := EntryFor(limits, source, 0);
    if source == UnspecifiedSource then (limits, None)
    else if i < SLOTS then (limits, Some(i))
    else
      var free := LastReusable(limits, now, SLOTS);
      if free.None? then (limits, None)
      else (limits[free.value := LimitEntry(true, source, EMPTY_BUCKET)], free)
  }

  /** A packet as admission sees it: who sent it, what its MACs say, and whether a reply could be made. */
  datatype Packet = Packet(source: Source, macValid: bool, cookieValid: bool, replyMade: bool, now: int)

  datatype Admission = Invalid | Accepted | CookieReply | RateLimited

  datatype Decision = Decision(admission: Admission, underLoad: bool)

  function Admit(r: Responder, p: Packet): (Responder, Decision) {
    if p.source == UnspecifiedSource || !p.macValid then (r, Decision(Invalid, false))
    else
      var (arrival, allowed) := Consume(r.arrival, p.now);
      var until := if allowed then r.underLoadUntil else p.now + UNDER_LOAD_AFTER;
      var loaded := r.(arrival := arrival, underLoadUntil := until);
      if allowed && until <= p.now then (loaded, Decision(Accepted, false))
      else if !p.cookieValid then (loaded, Decision(if p.replyMade then CookieReply else Invalid, true))
      else
        var (limits, slot) := Claim(r.limits, p.source, p.now);
        if slot.None? then (loaded, Decision(RateLimited, true))
        else
          var (bucket, admitted) := Consume(limits[slot.value].bucket, p.now);
          (loaded.(limits := limits[slot.value := limits[slot.value].(bucket := bucket)]),
           Decision(if admitted then Accepted else RateLimited, true))
  }

  // ---------------------------------------------------------------------------------------------
  // Invariant

  predicate BucketOk(b: Bucket, clock: int) {
    b.initialized ==> 0 <= b.tokens <= MAXIMUM_TOKENS && b.lastUpdate <= clock
  }

  ghost predicate Ok(r: Responder, clock: int) {
    BucketOk(r.arrival, clock) &&
    (forall i :: 0 <= i < SLOTS ==> BucketOk(r.limits[i].bucket, clock) && (r.limits[i].active ==> r.limits[i].bucket.initialized)) &&
    (forall i, j :: 0 <= i < j < SLOTS && r.limits[i].active && r.limits[j].active ==> r.limits[i].source != r.limits[j].source)
  }

  function Capped(tokens: int): int {
    if tokens < MAXIMUM_TOKENS then tokens else MAXIMUM_TOKENS
  }

  /** How many tokens a bucket holds at a time: a new one is full, others gain one per nanosecond up to the cap. */
  function LevelOf(b: Bucket, now: int): int {
    if !b.initialized then MAXIMUM_TOKENS else Capped(b.tokens + (if now > b.lastUpdate then now - b.lastUpdate else 0))
  }

  /** The bucket a source has, in the table or, when it has no entry, a full one. */
  function VirtualBucket(limits: Limits, source: Source): Bucket {
    var i := EntryFor(limits, source, 0);
    if i < SLOTS then limits[i].bucket else EMPTY_BUCKET
  }

  function Level(limits: Limits, source: Source, now: int): int {
    LevelOf(VirtualBucket(limits, source), now)
  }

  /** Claiming an entry changes no source's level. */
  lemma ClaimKeepsLevels(r: Responder, source: Source, now: int, other: Source)
    requires Ok(r, now)
    ensures Level(Claim(r.limits, source, now).0, other, now) == Level(r.limits, other, now)
    ensures Claim(r.limits, source, now).1.Some? ==>
            EntryFor(Claim(r.limits, source, now).0, source, 0) == Claim(r.limits, source, now).1.value < SLOTS
  {
    hide Level;
    var slot := LastReusable(r.limits, now, SLOTS);
    if EntryFor(r.limits, source, 0) == SLOTS && slot.Some? {
      EvictionKeepsLevels(r, slot.value, source, now, other);
    }
  }

  /** An entry idle for more than a second is full again, so replacing it changes no level. */
  lemma EvictionKeepsLevels(r: Responder, k: nat, source: Source, now: int, other: Source)
    requires Ok(r, now) && k < SLOTS && Reusable(r.limits[k], now) && EntryFor(r.limits, source, 0) == SLOTS
    ensures var claimed: Limits := r.limits[k := LimitEntry(true, source, EMPTY_BUCKET)];
            EntryFor(claimed, source, 0) == k && Level(claimed, other, now) == Level(r.limits, other, now)
  {
    var claimed: Limits := r.limits[k := LimitEntry(true, source, EMPTY_BUCKET)];
    assert BucketOk(r.limits[k].bucket, now) && (r.limits[k].active ==> r.limits[k].bucket.initialized);
    SameEntry(r.limits, claimed, k, source, other);
    EvictedBucket(r.limits, claimed, k, source, other);
    hide EntryFor, Ok, LevelOf, Reusable, BucketOk, VirtualBucket;
    if other != source && EntryFor(r.limits, other, 0) == k {
      FullAgain(r.limits[k], now);
    }
    NewIsFull(now);
  }

  /** Replacing slot `k` empties the bucket of the source it held, and no other. */
  lemma EvictedBucket(limits: Limits, claimed: Limits, k: nat, source: Source, other: Source)
    requires k < SLOTS && claimed == limits[k := LimitEntry(true, source, EMPTY_BUCKET)]
    requires EntryFor(limits, source, 0) == SLOTS && EntryFor(claimed, source, 0) == k
    requires other != source ==>
      EntryFor(claimed, other, 0) == if EntryFor(limits, other, 0) == k then SLOTS else EntryFor(limits, other, 0)
    ensures if other != source && EntryFor(limits, other, 0) == k
            then VirtualBucket(limits, other) == limits[k].bucket && VirtualBucket(claimed, other) == EMPTY_BUCKET && limits[k].active
            else VirtualBucket(claimed, other) == VirtualBucket(limits, other)
  {
    hide EntryFor;
  }

  lemma FullAgain(e: LimitEntry, now: int)
    requires e.active && e.bucket.initialized && Reusable(e, now) && BucketOk(e.bucket, now)
    ensures LevelOf(e.bucket, now) == MAXIMUM_TOKENS
  {
  }

  lemma NewIsFull(now: int)
    ensures LevelOf(EMPTY_BUCKET, now) == MAXIMUM_TOKENS
  {
  }

  /** Replacing slot `k` moves no other source's entry. */
  lemma SameEntry(limits: Limits, claimed: Limits, k: nat, source: Source, other: Source)
    requires k < SLOTS && claimed == limits[k := LimitEntry(true, source, EMPTY_BUCKET)]
    requires EntryFor(limits, source, 0) == SLOTS
    requires forall i, j :: 0 <= i < j < SLOTS && limits[i].active && limits[j].active ==> limits[i].source != limits[j].source
    ensures EntryFor(claimed, source, 0) == k
    ensures other != source ==>
            EntryFor(claimed, other, 0) == if EntryFor(limits, other, 0) == k then SLOTS else EntryFor(limits, other, 0)
  {
    hide EntryFor;
    assert Holds(claimed[k], source);
    if other != source {
      OtherEntry(limits, claimed, k, source, other);
    }
  }

  lemma OtherEntry(limits: Limits, claimed: Limits, k: nat, source: Source, other: Source)
    requires k < SLOTS && claimed == limits[k := LimitEntry(true, source, EMPTY_BUCKET)] && other != source
    requires forall i, j :: 0 <= i < j < SLOTS && limits[i].active && limits[j].active ==> limits[i].source != limits[j].source
    ensures EntryFor(claimed, other, 0) == if EntryFor(limits, other, 0) == k then SLOTS else EntryFor(limits, other, 0)
  {
    hide EntryFor;
    var i, j := EntryFor(limits, other, 0), EntryFor(claimed, other, 0);
    if j < SLOTS {
      assert j != k && Holds(limits[j], other);
    }
    if i < SLOTS && i != k {
      assert Holds(claimed[i], other);
    }
  }

  lemma ConsumeOk(b: Bucket, now: int)
    requires BucketOk(b, now)
    ensures var (after, ok) := Consume(b, now);
            after.initialized && BucketOk(after, now) && after.lastUpdate == now &&
            after.tokens == LevelOf(b, now) - (if ok then COST else 0) && (ok <==> LevelOf(b, now) >= COST) &&
            forall later :: later >= now ==>
              LevelOf(after, later) == Capped(LevelOf(b, now) - (if ok then COST else 0) + (later - now))
  {
  }

  /** A table in which slot `k` is the source's and may still wait for its first charge. */
  ghost predicate ClaimedOk(claimed: Limits, k: nat, source: Source, now: int) {
    k < SLOTS && Holds(claimed[k], source) &&
    (forall i :: 0 <= i < SLOTS ==> BucketOk(claimed[i].bucket, now)) &&
    (forall i :: 0 <= i < SLOTS && i != k && claimed[i].active ==> claimed[i].bucket.initialized) &&
    (forall i, j :: 0 <= i < j < SLOTS && claimed[i].active && claimed[j].active ==> claimed[i].source != claimed[j].source)
  }

  lemma ClaimOk(r: Responder, source: Source, now: int)
    requires Ok(r, now)
    ensures var (claimed, slot) := Claim(r.limits, source, now);
            slot.Some? ==> ClaimedOk(claimed, slot.value, source, now)
  {
    var (claimed, slot) := Claim(r.limits, source, now);
    if slot.Some? && EntryFor(r.limits, source, 0) == SLOTS {
      forall i | 0 <= i < SLOTS && i != slot.value && claimed[i].active ensures claimed[i].source != source {
        assert !Holds(r.limits[i], source);
      }
    }
  }

  lemma AdmitOk(r: Responder, p: Packet, clock: int)
    requires Ok(r, clock) && p.now >= clock
    ensures Ok(Admit(r, p).0, p.now)
  {
    assert Ok(r, p.now);
    TableStep(r, p);
    ArrivalOk(r, p);
    ClaimOk(r, p.source, p.now);
    hide Claim, Consume, Admit, Charged;
    var (claimed, slot) := Claim(r.limits, p.source, p.now);
    if slot.Some? {
      ChargedTableOk(claimed, slot.value, p.source, p.now);
    }
  }

  lemma ArrivalOk(r: Responder, p: Packet)
    requires BucketOk(r.arrival, p.now)
    ensures BucketOk(Admit(r, p).0.arrival, p.now)
  {
    ConsumeOk(r.arrival, p.now);
    hide Claim, Consume, BucketOk;
  }

  lemma ChargedTableOk(claimed: Limits, k: nat, source: Source, now: int)
    requires ClaimedOk(claimed, k, source, now)
    ensures var after: Limits := claimed[k := claimed[k].(bucket := Consume(claimed[k].bucket, now).0)];
            (forall i :: 0 <= i < SLOTS ==> BucketOk(after[i].bucket, now) && (after[i].active ==> after[i].bucket.initialized)) &&
            (forall i, j :: 0 <= i < j < SLOTS && after[i].active && after[j].active ==> after[i].source != after[j].source)
  {
    ConsumeOk(claimed[k].bucket, now);
    hide Consume, BucketOk;
  }

  // ---------------------------------------------------------------------------------------------
  // The table refines one bucket per source

  /** Whether the table has room for the source. */
  predicate HasSlot(limits: Limits, source: Source, now: int) {
    Claim(limits, source, now).1.Some?
  }

  predicate Charged(d: Decision) {
    d.admission == Accepted && d.underLoad
  }

  predicate Uncookied(d: Decision) {
    d.admission == Accepted && !d.underLoad
  }

  /**
   * Under load with a valid cookie, a packet is accepted exactly when the table has room for its source
   * and that source's own bucket, as if it had never been evicted, holds the cost.
   */
  lemma AcceptedUnderLoad(r: Responder, p: Packet, clock: int)
    requires Ok(r, clock) && p.now >= clock
    ensures Charged(Admit(r, p).1) ==> p.cookieValid && p.source != UnspecifiedSource
    ensures var d := Admit(r, p).1;
            d.underLoad && p.cookieValid ==>
              (d.admission == Accepted <==> HasSlot(r.limits, p.source, p.now) && Level(r.limits, p.source, p.now) >= COST)
  {
    assert Ok(r, p.now);
    ClaimKeepsLevels(r, p.source, p.now, p.source);
    ClaimOk(r, p.source, p.now);
    hide Claim;
    var (claimed, slot) := Claim(r.limits, p.source, p.now);
    if slot.Some? {
      ConsumeOk(claimed[slot.value].bucket, p.now);
    }
  }

  /** What one packet does to the table. */
  lemma TableStep(r: Responder, p: Packet)
    ensures var (q, d) := Admit(r, p);
            var (claimed, slot) := Claim(r.limits, p.source, p.now);
            (q.limits == r.limits && !Charged(d)) ||
            (slot.Some? && slot.value < SLOTS &&
             var (bucket, ok) := Consume(claimed[slot.value].bucket, p.now);
             q.limits == claimed[slot.value := claimed[slot.value].(bucket := bucket)] && Charged(d) == ok)
  {
    hide Consume;
  }

  /** What one packet does to a source's level. */
  lemma LevelStep(r: Responder, p: Packet, clock: int, source: Source)
    requires Ok(r, clock) && p.now >= clock
    ensures var (q, d) := Admit(r, p);
            Level(q.limits, source, p.now) ==
            Level(r.limits, source, p.now) - (if Charged(d) && p.source == source then COST else 0)
  {
    assert Ok(r, p.now);
    hide Claim, Admit, EntryFor, Charged;
    TableStep(r, p);
    var (claimed, slot) := Claim(r.limits, p.source, p.now);
    ClaimKeepsLevels(r, p.source, p.now, source);
    ClaimOk(r, p.source, p.now);
    if slot.Some? {
      hide Level, Ok;
      ChargeLevel(claimed, slot.value, p.source, p.now, source);
    }
  }

  lemma ChargeLevel(limits: Limits, k: nat, source: Source, now: int, other: Source)
    requires k < SLOTS && EntryFor(limits, source, 0) == k && BucketOk(limits[k].bucket, now)
    ensures var (bucket, ok) := Consume(limits[k].bucket, now);
            Level(limits[k := limits[k].(bucket := bucket)], other, now) ==
            Level(limits, other, now) - (if ok && source == other then COST else 0)
  {
    ConsumeOk(limits[k].bucket, now);
    ChargedEntry(limits, k, Consume(limits[k].bucket, now).0, source, other);
    hide EntryFor;
  }

  /** Changing an entry's bucket moves no entry. */
  lemma ChargedEntry(limits: Limits, k: nat, bucket: Bucket, source: Source, other: Source)
    requires k < SLOTS && EntryFor(limits, source, 0) == k
    ensures var after := limits[k := limits[k].(bucket := bucket)];
            VirtualBucket(after, source) == bucket && (other != source ==> VirtualBucket(after, other) == VirtualBucket(limits, other))
  {
    hide EntryFor;
    var after := limits[k := limits[k].(bucket := bucket)];
    assert forall i :: 0 <= i < SLOTS ==> after[i].active == limits[i].active && after[i].source == limits[i].source;
    SameEntries(limits, after, other, 0);
    SameEntries(limits, after, source, 0);
    if other != source {
      assert EntryFor(limits, other, 0) != k;
    }
  }

  lemma {:induction false} SameEntries(a: Limits, b: Limits, source: Source, from: nat)
    requires from <= SLOTS && forall i :: 0 <= i < SLOTS ==> Holds(a[i], source) == Holds(b[i], source)
    ensures EntryFor(a, source, from) == EntryFor(b, source, from)
    decreases SLOTS - from
  {
    if from < SLOTS {
      SameEntries(a, b, source, from + 1);
    }
  }

  // ---------------------------------------------------------------------------------------------
  // Runs

  function Run(r: Responder, packets: seq<Packet>): (Responder, seq<Decision>)
    decreases |packets|
  {
    if packets == [] then (r, [])
    else
      var (next, decision) := Admit(r, packets[0]);
      var (last, decisions) := Run(next, packets[1..]);
      (last, [decision] + decisions)
  }

  predicate ClockSteady(packets: seq<Packet>, clock: int)
    decreases |packets|
  {
    packets == [] || (packets[0].now >= clock && ClockSteady(packets[1..], packets[0].now))
  }

  function LastTime(packets: seq<Packet>, clock: int): int {
    if packets == [] then clock else packets[|packets| - 1].now
  }

  /** Packets of a source accepted under load, after proving a cookie. */
  function ChargedTo(r: Responder, packets: seq<Packet>, source: Source): nat
    decreases |packets|
  {
    if packets == [] then 0
    else
      var (next, d) := Admit(r, packets[0]);
      Tally(Charged(d) && packets[0].source == source) + ChargedTo(next, packets[1..], source)
  }

  /** Packets accepted without a cookie. */
  function AcceptedFreely(r: Responder, packets: seq<Packet>): nat
    decreases |packets|
  {
    if packets == [] then 0
    else
      var (next, d) := Admit(r, packets[0]);
      Tally(Uncookied(d)) + AcceptedFreely(next, packets[1..])
  }

  lemma LevelGrows(b: Bucket, from: int, to: int)
    requires from <= to && BucketOk(b, from)
    ensures 0 <= LevelOf(b, from) <= MAXIMUM_TOKENS
    ensures LevelOf(b, to) <= LevelOf(b, from) + (to - from)
  {
  }

  lemma VirtualOk(r: Responder, clock: int, source: Source)
    requires Ok(r, clock)
    ensures BucketOk(VirtualBucket(r.limits, source), clock)
  {
  }

  /** Spent plus left never exceeds what the source started with plus the time that passed. */
  lemma {:induction false} SourceBalance(r: Responder, packets: seq<Packet>, clock: int, source: Source)
    requires Ok(r, clock) && ClockSteady(packets, clock)
    ensures COST * ChargedTo(r, packets, source) <= Level(r.limits, source, clock) + (LastTime(packets, clock) - clock)
    decreases |packets|
  {
    VirtualOk(r, clock, source);
    if packets == [] {
      LevelGrows(VirtualBucket(r.limits, source), clock, clock);
    } else {
      var p := packets[0];
      var (next, d) := Admit(r, p);
      AdmitOk(r, p, clock);
      LevelStep(r, p, clock, source);
      LevelGrows(VirtualBucket(r.limits, source), clock, p.now);
      SourceBalance(next, packets[1..], p.now, source);
      assert LastTime(packets, clock) == LastTime(packets[1..], p.now);
    }
  }

  lemma ArrivalStep(r: Responder, p: Packet, clock: int)
    requires Ok(r, clock) && p.now >= clock
    ensures var (q, d) := Admit(r, p);
            LevelOf(q.arrival, p.now) <= LevelOf(r.arrival, p.now) - (if Uncookied(d) then COST else 0)
  {
    ConsumeOk(r.arrival, p.now);
    hide Claim;
  }

  lemma {:induction false} ArrivalBalance(r: Responder, packets: seq<Packet>, clock: int)
    requires Ok(r, clock) && ClockSteady(packets, clock)
    ensures COST * AcceptedFreely(r, packets) <= LevelOf(r.arrival, clock) + (LastTime(packets, clock) - clock)
    decreases |packets|
  {
    if packets == [] {
      LevelGrows(r.arrival, clock, clock);
    } else {
      var p := packets[0];
      AdmitOk(r, p, clock);
      ArrivalStep(r, p, clock);
      LevelGrows(r.arrival, clock, p.now);
      ArrivalBalance(Admit(r, p).0, packets[1..], p.now);
      assert LastTime(packets, clock) == LastTime(packets[1..], p.now);
    }
  }

  lemma {:induction false} RunOk(r: Responder, packets: seq<Packet>, clock: int)
    requires Ok(r, clock) && ClockSteady(packets, clock)
    ensures Ok(Run(r, packets).0, LastTime(packets, clock))
    decreases |packets|
  {
    if packets != [] {
      AdmitOk(r, packets[0], clock);
      RunOk(Admit(r, packets[0]).0, packets[1..], packets[0].now);
      assert LastTime(packets, clock) == LastTime(packets[1..], packets[0].now);
    }
  }

  lemma InitialOk(clock: int)
    ensures Ok(InitialResponder(), clock)
  {
  }

  /**
   * Bounded admission, globally: after any history, over any window, 50 ms for each packet accepted
   * without a cookie is at most 250 ms plus the length of the window.
   */
  lemma FreeAdmissionBounded(clock: int, history: seq<Packet>, window: seq<Packet>)
    requires ClockSteady(history, clock) && window != [] && ClockSteady(window, LastTime(history, clock))
    ensures COST * AcceptedFreely(Run(InitialResponder(), history).0, window) <=
            MAXIMUM_TOKENS + (window[|window| - 1].now - window[0].now)
  {
    var r := Run(InitialResponder(), history).0;
    var start := window[0].now;
    InitialOk(clock);
    RunOk(InitialResponder(), history, clock);
    assert Ok(r, start) && ClockSteady(window, start);
    ArrivalBalance(r, window, start);
    LevelGrows(r.arrival, start, start);
  }

  /** Bounded admission, per source: the same bound for packets of one source accepted under load. */
  lemma SourceAdmissionBounded(clock: int, history: seq<Packet>, window: seq<Packet>, source: Source)
    requires ClockSteady(history, clock) && window != [] && ClockSteady(window, LastTime(history, clock))
    ensures COST * ChargedTo(Run(InitialResponder(), history).0, window, source) <=
            MAXIMUM_TOKENS + (window[|window| - 1].now - window[0].now)
  {
    var r := Run(InitialResponder(), history).0;
    var start := window[0].now;
    InitialOk(clock);
    RunOk(InitialResponder(), history, clock);
    assert Ok(r, start) && ClockSteady(window, start);
    SourceBalance(r, window, start, source);
    VirtualOk(r, start, source);
    LevelGrows(VirtualBucket(r.limits, source), start, start);
  }

  // ---------------------------------------------------------------------------------------------
  // The code that updates in place

  class ResponderState {
    var arrival: Bucket
    var underLoadUntil: int
    const limits: array<LimitEntry>

    ghost predicate Shaped() {
      limits.Length == SLOTS
    }

    ghost function Model(): Responder
      requires Shaped()
      reads this, limits
    {
      Responder(arrival, underLoadUntil, limits[..])
    }

    constructor ()
      ensures Shaped() && Model() == InitialResponder() && fresh(limits)
    {
      arrival, underLoadUntil := EMPTY_BUCKET, 0;
      limits := new LimitEntry[SLOTS](_ => FREE_ENTRY);
    }

    method IsUnderLoad(now: int) returns (loaded: bool)
      modifies this
      ensures var (bucket, allowed) := Consume(old(arrival), now);
              arrival == bucket && underLoadUntil == (if allowed then old(underLoadUntil) else now + UNDER_LOAD_AFTER) &&
              loaded == (!allowed || underLoadUntil > now)
    {
      var allowed;
      arrival, allowed := ConsumeRate(arrival, now);
      if !allowed {
        underLoadUntil := now + UNDER_LOAD_AFTER;
      }
      return !allowed || underLoadUntil > now;
    }

    method FindRateLimitEntry(source: Source, now: int) returns (slot: Option<nat>)
      requires Shaped()
      modifies limits
      ensures (limits[..], slot) == Claim(old(limits[..]), source, now)
      ensures slot.Some? ==> slot.value < SLOTS
    {
      if source == UnspecifiedSource {
        return None;
      }
      var reusable: Option<nat> := None;
      for index := 0 to SLOTS
        invariant limits[..] == old(limits[..])
        invariant forall j :: 0 <= j < index ==> !Holds(limits[j], source)
        invariant reusable == LastReusable(limits[..], now, index)
      {
        if limits[index].active && limits[index].source == source {
          return Some(index);
        }
        if Reusable(limits[index], now) {
          reusable := Some(index);
        }
      }
      if reusable.None? {
        return None;
      }
      limits[reusable.value] := LimitEntry(true, source, EMPTY_BUCKET);
      assert limits[..] == old(limits[..])[reusable.value := limits[reusable.value]];
      return reusable;
    }

    method AdmitPacket(p: Packet) returns (admission: Admission)
      requires Shaped()
      modifies this, limits
      ensures Model() == Admit(old(Model()), p).0 && admission == Admit(old(Model()), p).1.admission
    {
      if p.source == UnspecifiedSource || !p.macValid {
        return Invalid;
      }
      var loaded := IsUnderLoad(p.now);
      if !loaded {
        return Accepted;
      }
      if !p.cookieValid {
        return if p.replyMade then CookieReply else Invalid;
      }
      hide Claim;
      var slot := FindRateLimitEntry(p.source, p.now);
      if slot.None? {
        return RateLimited;
      }
      ghost var claimed := limits[..];
      var bucket, admitted := ConsumeRate(limits[slot.value].bucket, p.now);
      limits[slot.value] := limits[slot.value].(bucket := bucket);
      assert limits[..] == claimed[slot.value := claimed[slot.value].(bucket := bucket)];
      return if admitted then Accepted else RateLimited;
    }
  }

  /**
   * Allowed exactly when the level reaches the cost; from then on the level is what it was, less the cost if
   * it was charged, growing with time up to the cap.
   */
  method ConsumeRate(bucket: Bucket, now: int) returns (after: Bucket, allowed: bool)
    ensures (after, allowed) == Consume(bucket, now)
    ensures BucketOk(bucket, now) ==> BucketOk(after, now) && (allowed <==> LevelOf(bucket, now) >= COST)
    ensures BucketOk(bucket, now) ==>
      forall later :: later >= now ==>
        LevelOf(after, later) == Capped(LevelOf(bucket, now) - (if allowed then COST else 0) + (later - now))
  {
    after := bucket;
    if !after.initialized {
      after := Bucket(MAXIMUM_TOKENS, now, true);
    } else if now > after.lastUpdate {
      var filled := after.tokens + (now - after.lastUpdate);
      after := Bucket(if filled < MAXIMUM_TOKENS then filled else MAXIMUM_TOKENS, now, true);
    }
    if after.tokens < COST {
      return after, false;
    }
    return after.(tokens := after.tokens - COST), true;
  }
}
