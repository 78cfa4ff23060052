/**
 * Handshake initiations: TAI64N stamps, whose byte order is time order, and the two checks a responder
 * makes before it accepts one, strictly newer stamp and no flood.
 */
module InitiationOrder {
  import opened Counting
  import opened TunnelProtocol

  const NS_PER_SECOND: int := 1_000_000_000
  const INITIATIONS_PER_SECOND: int := 50
  const BASE_SECONDS: int := 0x4000_0000_0000_000a
  const U64_RANGE: int := 0x1_0000_0000_0000_0000
  const INITIATION_RATE: int := 20_000_000
  const ROUNDING: int := 0x100_0000

  // ---------------------------------------------------------------------------------------------
  // Rounding

  function Power2(n: nat): nat {
    if n == 0 then 1 else 2 * Power2(n - 1)
  }

  /** The largest power of two not above the value; doubling stops before it leaves 64 bits. */
  method RoundDownToPowerOfTwo(value: nat) returns (result: nat)
    requires value < U64_RANGE
    ensures value == 0 ==> result == 0
    ensures value > 0 ==> result <= value < 2 * result && exists n :: result == Power2(n)
  {
    if value == 0 {
      return 0;
    }
    result := 1;
    ghost var n := 0;
    while result * 2 % U64_RANGE > result && result * 2 % U64_RANGE <= value
      invariant 0 < result <= value && result == Power2(n)
      decreases value - result
    {
      result := result * 2;
      n := n + 1;
    }
  }

  /** The granularity of stamps: 20 ms rounded down to a power of two. */
  lemma RoundingIsPowerOfTwo()
    ensures ROUNDING == Power2(24) && ROUNDING <= NS_PER_SECOND / INITIATIONS_PER_SECOND < 2 * ROUNDING
  {
    assert Power2(8) == 256;
    assert Power2(16) == 256 * Power2(8);
    assert Power2(24) == 256 * Power2(16);
  }

  // ---------------------------------------------------------------------------------------------
  // Byte order

  predicate Less(a: seq<Byte>, b: seq<Byte>)
    decreases |a|
  {
    if b == [] then false
    else if a == [] then true
    else a[0] < b[0] || (a[0] == b[0] && Less(a[1..], b[1..]))
  }

  function BigEndian(value: nat, size: nat): (bytes: seq<Byte>)
    ensures |bytes| == size
    decreases size
  {
    if size == 0 then [] else BigEndian(value / 256, size - 1) + [value % 256]
  }

  function Range(size: nat): nat {
    if size == 0 then 1 else 256 * Range(size - 1)
  }

  lemma {:induction false} LessAppend(a: seq<Byte>, b: seq<Byte>, c: seq<Byte>, d: seq<Byte>)
    requires |a| == |b|
    ensures Less(a + c, b + d) <==> Less(a, b) || (a == b && Less(c, d))
    decreases |a|
  {
    if a == [] {
      assert a + c == c && b + d == d;
    } else {
      assert (a + c)[1..] == a[1..] + c && (b + d)[1..] == b[1..] + d;
      assert a == [a[0]] + a[1..] && b == [b[0]] + b[1..];
      LessAppend(a[1..], b[1..], c, d);
    }
  }

  lemma {:induction false} BigEndianOrder(x: nat, y: nat, size: nat)
    requires x < Range(size) && y < Range(size)
    ensures Less(BigEndian(x, size), BigEndian(y, size)) <==> x < y
    ensures BigEndian(x, size) == BigEndian(y, size) <==> x == y
    decreases size
  {
    if size > 0 {
      BigEndianOrder(x / 256, y / 256, size - 1);
      var a, b := BigEndian(x / 256, size - 1), BigEndian(y / 256, size - 1);
      LessAppend(a, b, [x % 256], [y % 256]);
      assert BigEndian(x, size)[..size - 1] == a && BigEndian(y, size)[..size - 1] == b;
      assert BigEndian(x, size)[size - 1] == x % 256 && BigEndian(y, size)[size - 1] == y % 256;
    }
  }

  lemma {:induction false} LessTransitive(a: seq<Byte>, b: seq<Byte>, c: seq<Byte>)
    requires Less(a, b) && Less(b, c)
    ensures Less(a, c)
    decreases |a|
  {
    if a != [] && a[0] == b[0] == c[0] {
      LessTransitive(a[1..], b[1..], c[1..]);
    }
  }

  // ---------------------------------------------------------------------------------------------
  // Stamps

  /** A wall-clock reading: signed 64-bit seconds and nanoseconds within the second. */
  datatype Time = Time(seconds: int, nanoseconds: nat)

  predicate IsTime(t: Time) {
    -0x8000_0000_0000_0000 <= t.seconds < 0x8000_0000_0000_0000 && t.nanoseconds < NS_PER_SECOND
  }

  function StampSeconds(t: Time): (s: nat)
    ensures s < U64_RANGE
  {
    (BASE_SECONDS + t.seconds) % U64_RANGE
  }

  function StampNanoseconds(t: Time): nat {
    t.nanoseconds - t.nanoseconds % ROUNDING
  }

  function Stamp(t: Time): (bytes: seq<Byte>)
    ensures |bytes| == 12
  {
    BigEndian(StampSeconds(t), 8) + BigEndian(StampNanoseconds(t), 4)
  }

  /** The label wraps only for seconds before the label's origin. */
  predicate BeforeOrigin(t: Time) {
    t.seconds < -BASE_SECONDS
  }

  /** Byte order of stamps is the order of the rounded times. */
  lemma StampOrder(a: Time, b: Time)
    requires IsTime(a) && IsTime(b)
    ensures Less(Stamp(a), Stamp(b)) <==>
            StampSeconds(a) < StampSeconds(b) ||
            (StampSeconds(a) == StampSeconds(b) && StampNanoseconds(a) < StampNanoseconds(b))
  {
    Ranges();
    BigEndianOrder(StampSeconds(a), StampSeconds(b), 8);
    BigEndianOrder(StampNanoseconds(a), StampNanoseconds(b), 4);
    LessAppend(BigEndian(StampSeconds(a), 8), BigEndian(StampSeconds(b), 8),
               BigEndian(StampNanoseconds(a), 4), BigEndian(StampNanoseconds(b), 4));
  }

  lemma Ranges()
    ensures Range(4) == 0x1_0000_0000 && Range(8) == U64_RANGE
  {
    assert Range(4) == 0x1_0000_0000;
    assert Range(8) == 0x1_0000_0000 * Range(4);
  }

  lemma SecondsOrder(a: Time, b: Time)
    requires IsTime(a) && IsTime(b) && a.seconds < b.seconds
    ensures StampSeconds(a) < StampSeconds(b) <==> (BeforeOrigin(a) <==> BeforeOrigin(b))
    ensures StampSeconds(a) != StampSeconds(b)
  {
  }

  /**
   * In different seconds, byte order is time order exactly when no wrap of the label lies between the
   * two times.
   */
  lemma StampOrderIsTimeOrder(a: Time, b: Time)
    requires IsTime(a) && IsTime(b) && a.seconds < b.seconds
    ensures Less(Stamp(a), Stamp(b)) <==> (BeforeOrigin(a) <==> BeforeOrigin(b))
  {
    SecondsOrder(a, b);
    StampOrder(a, b);
  }

  /** Counterexample: a time before the label's origin has the greater stamp. */
  lemma OrderLostAtOrigin()
    ensures !Less(Stamp(Time(-0x4000_0000_0000_000B, 0)), Stamp(Time(0, 0)))
  {
    StampOrderIsTimeOrder(Time(-0x4000_0000_0000_000B, 0), Time(0, 0));
  }

  function Nanoseconds(t: Time): int {
    t.seconds * NS_PER_SECOND + t.nanoseconds
  }

  /** Stamps made at least 2^24 ns apart increase despite the rounding, unless the label wraps in between. */
  lemma StampsIncrease(a: Time, b: Time)
    requires IsTime(a) && IsTime(b) && Nanoseconds(b) >= Nanoseconds(a) + ROUNDING
    ensures Less(Stamp(a), Stamp(b)) <==> (BeforeOrigin(a) <==> BeforeOrigin(b))
  {
    if a.seconds == b.seconds {
      StampOrder(a, b);
      SlotsApart(a.nanoseconds, b.nanoseconds);
    } else {
      StampOrderIsTimeOrder(a, b);
    }
  }

  lemma SlotsApart(m: nat, n: nat)
    requires n >= m + ROUNDING
    ensures m - m % ROUNDING < n - n % ROUNDING
  {
  }

  /** Closer stamps are equal exactly when they fall in the same second and the same 2^24 ns slot. */
  lemma EqualStamps(a: Time, b: Time)
    requires IsTime(a) && IsTime(b)
    ensures Stamp(a) == Stamp(b) <==> a.seconds == b.seconds && a.nanoseconds / ROUNDING == b.nanoseconds / ROUNDING
  {
    Ranges();
    BigEndianOrder(StampSeconds(a), StampSeconds(b), 8);
    BigEndianOrder(StampNanoseconds(a), StampNanoseconds(b), 4);
    StampParts(a, b);
    SameSlot(a.nanoseconds, b.nanoseconds);
    hide Stamp, BigEndian, Less;
    if a.seconds != b.seconds {
      SecondsOrder(if a.seconds < b.seconds then a else b, if a.seconds < b.seconds then b else a);
    }
  }

  lemma StampParts(a: Time, b: Time)
    ensures Stamp(a) == Stamp(b) <==>
            BigEndian(StampSeconds(a), 8) == BigEndian(StampSeconds(b), 8) &&
            BigEndian(StampNanoseconds(a), 4) == BigEndian(StampNanoseconds(b), 4)
  {
    var sa, sb := BigEndian(StampSeconds(a), 8), BigEndian(StampSeconds(b), 8);
    var na, nb := BigEndian(StampNanoseconds(a), 4), BigEndian(StampNanoseconds(b), 4);
    hide BigEndian;
    assert Stamp(a)[..8] == sa && Stamp(a)[8..] == na && Stamp(b)[..8] == sb && Stamp(b)[8..] == nb;
  }

  lemma SameSlot(m: nat, n: nat)
    ensures m - m % ROUNDING == n - n % ROUNDING <==> m / ROUNDING == n / ROUNDING
  {
  }

  // ---------------------------------------------------------------------------------------------
  // Accepting initiations

  const STAMP_SIZE: nat := 12

  type StampBytes = s: seq<Byte> | |s| == STAMP_SIZE witness Repeat(0, STAMP_SIZE)

  datatype Guard = Guard(hasLast: bool, lastStamp: StampBytes, lastConsumption: int)

  const FRESH_GUARD := Guard(false, Repeat(0, STAMP_SIZE), 0)

  /** An initiation whose MAC, keys and decryption were checked (`authentic`), with its stamp. */
  datatype Initiation = Initiation(authentic: bool, stamp: StampBytes, now: int)

  predicate Flooded(g: Guard, now: int) {
    g.lastConsumption > 0 && (now < g.lastConsumption || now - g.lastConsumption <= INITIATION_RATE)
  }

  predicate Accepts(g: Guard, i: Initiation) {
    i.authentic && (g.hasLast ==> Less(g.lastStamp, i.stamp)) && !Flooded(g, i.now)
  }

  function Take(g: Guard, i: Initiation): Guard {
    if Accepts(g, i) then Guard(true, i.stamp, i.now) else g
  }

  /** The accepted initiations of a run between two resets of the handshake. */
  function AcceptedIn(g: Guard, run: seq<Initiation>): seq<Initiation>
    decreases |run|
  {
    if run == [] then []
    else (if Accepts(g, run[0]) then [run[0]] else []) + AcceptedIn(Take(g, run[0]), run[1..])
  }

  /** Every accepted initiation is newer than the guard's, and so on down the run. */
  lemma {:induction false} AcceptedAfter(g: Guard, run: seq<Initiation>, k: nat)
    requires k < |AcceptedIn(g, run)| && g.hasLast
    ensures Less(g.lastStamp, AcceptedIn(g, run)[k].stamp)
    decreases |run|
  {
    var i := run[0];
    if Accepts(g, i) {
      if k > 0 {
        AcceptedAfter(Take(g, i), run[1..], k - 1);
        LessTransitive(g.lastStamp, i.stamp, AcceptedIn(g, run)[k].stamp);
      }
    } else {
      AcceptedAfter(g, run[1..], k);
    }
  }

  /** Replay order: accepted initiations carry strictly increasing stamps. */
  lemma {:induction false} StampsStrictlyIncrease(g: Guard, run: seq<Initiation>, j: nat, k: nat)
    requires j < k < |AcceptedIn(g, run)|
    ensures Less(AcceptedIn(g, run)[j].stamp, AcceptedIn(g, run)[k].stamp)
    decreases |run|
  {
    var i := run[0];
    if Accepts(g, i) {
      if j > 0 {
        StampsStrictlyIncrease(Take(g, i), run[1..], j - 1, k - 1);
      } else {
        AcceptedAfter(Take(g, i), run[1..], k - 1);
      }
    } else {
      StampsStrictlyIncrease(g, run[1..], j, k);
    }
  }

  /** The flood check compares with a positive consumption time only. */
  lemma {:induction false} NextAccepted(g: Guard, run: seq<Initiation>)
    requires AcceptedIn(g, run) != []
    ensures g.lastConsumption > 0 ==> AcceptedIn(g, run)[0].now > g.lastConsumption + INITIATION_RATE
    decreases |run|
  {
    if !Accepts(g, run[0]) {
      NextAccepted(g, run[1..]);
    }
  }

  /** Accepted initiations with positive clock readings lie more than 20 ms apart. */
  lemma {:induction false} AcceptedFarApart(g: Guard, run: seq<Initiation>, k: nat)
    requires k + 1 < |AcceptedIn(g, run)| && AcceptedIn(g, run)[k].now > 0
    ensures AcceptedIn(g, run)[k + 1].now > AcceptedIn(g, run)[k].now + INITIATION_RATE
    decreases |run|
  {
    var i := run[0];
    if !Accepts(g, i) {
      AcceptedFarApart(g, run[1..], k);
    } else if k > 0 {
      AcceptedFarApart(Take(g, i), run[1..], k - 1);
    } else {
      NextAccepted(Take(g, i), run[1..]);
    }
  }

  /** The greatest stamp there is. */
  predicate IsLastStamp(s: seq<Byte>) {
    forall i :: 0 <= i < |s| ==> s[i] == 255
  }

  lemma {:induction false} NewerStamp(s: seq<Byte>) returns (newer: seq<Byte>)
    requires !IsLastStamp(s)
    ensures |newer| == |s| && Less(s, newer)
  {
    if s[0] < 255 {
      newer := s[0 := s[0] + 1];
    } else {
      var rest := NewerStamp(s[1..]);
      newer := [s[0]] + rest;
    }
  }

  lemma {:induction false} NothingAfterLast(s: seq<Byte>, t: seq<Byte>)
    requires IsLastStamp(s) && |s| == |t|
    ensures !Less(s, t)
  {
    if s != [] {
      NothingAfterLast(s[1..], t[1..]);
    }
  }

  /** The 20 ms gap is enforced exactly after an acceptance at a positive clock reading. */
  lemma GapEnforcedIff(g: Guard)
    requires g.hasLast
    ensures (forall i :: Accepts(g, i) ==> i.now > g.lastConsumption + INITIATION_RATE) <==>
            g.lastConsumption > 0 || IsLastStamp(g.lastStamp)
  {
    if IsLastStamp(g.lastStamp) {
      forall i | Accepts(g, i) ensures false {
        NothingAfterLast(g.lastStamp, i.stamp);
      }
    } else if g.lastConsumption <= 0 {
      var newer := NewerStamp(g.lastStamp);
      assert Accepts(g, Initiation(true, newer, g.lastConsumption));
    }
  }

  /** Counterexample: after an acceptance at clock zero, a newer stamp is accepted 1 ns later. */
  lemma UnpacedAtClockZero()
    ensures var run := [Initiation(true, Repeat(0, STAMP_SIZE), 0), Initiation(true, Repeat(1, STAMP_SIZE), 1)];
            AcceptedIn(FRESH_GUARD, run) == run
  {
    var run := [Initiation(true, Repeat(0, STAMP_SIZE), 0), Initiation(true, Repeat(1, STAMP_SIZE), 1)];
    var g := Take(FRESH_GUARD, run[0]);
    assert Less(Repeat(0, STAMP_SIZE), Repeat(1, STAMP_SIZE));
    assert AcceptedIn(Take(g, run[1]), run[1..][1..]) == [];
    assert AcceptedIn(g, run[1..]) == [run[1]];
  }

  class HandshakeGuard {
    var hasLast: bool
    var lastStamp: StampBytes
    var lastConsumption: int

    ghost function Model(): Guard
      reads this
    {
      Guard(hasLast, lastStamp, lastConsumption)
    }

    /** A reset handshake remembers no initiation. */
    constructor ()
      ensures Model() == FRESH_GUARD
    {
      hasLast, lastStamp, lastConsumption := false, Repeat(0, STAMP_SIZE), 0;
    }

    method ConsumeInitiation(i: Initiation) returns (accepted: bool)
      modifies this
      ensures Model() == Take(old(Model()), i) && accepted == Accepts(old(Model()), i)
    {
      if !i.authentic {
        return false;
      }
      if hasLast && !Less(lastStamp, i.stamp) {
        return false;
      }
      if lastConsumption > 0 && (i.now < lastConsumption || i.now - lastConsumption <= INITIATION_RATE) {
        return false;
      }
      hasLast, lastStamp, lastConsumption := true, i.stamp, i.now;
      return true;
    }
  }
}
