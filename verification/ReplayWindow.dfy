/**
 * The sliding window against replayed transport counters: a ring of bit blocks that is proved to
 * accept exactly the counters that are new and not too old.
 */
module ReplayWindow {
  import opened Counting

  const BLOCK_BITS: nat := 64
  const RING_BLOCKS: nat := 128
  const WINDOW_SIZE: nat := (RING_BLOCKS - 1) * BLOCK_BITS

  /** A block is the set of its bits that are one. */
  type Ring = s: seq<set<nat>> | |s| == RING_BLOCKS witness Repeat({}, RING_BLOCKS)

  datatype Window = Window(highest: nat, ring: Ring, initialized: bool)

  function Fresh(): Window {
    Window(0, Repeat({}, RING_BLOCKS), false)
  }

  /** Blanks `count` blocks from block number `from` on, wherever the ring wraps. */
  function ClearBlocks(ring: Ring, from: nat, count: nat): Ring
    decreases count
  {
    if count == 0 then ring else ClearBlocks(ring[from % RING_BLOCKS := {}], from + 1, count - 1)
  }

  function Moved(w: Window, counter: nat): Window
    requires counter > w.highest
  {
    var current := w.highest / BLOCK_BITS;
    var diff := counter / BLOCK_BITS - current;
    w.(ring := ClearBlocks(w.ring, current + 1, if diff > RING_BLOCKS then RING_BLOCKS else diff), highest := counter)
  }

  function Marked(w: Window, counter: nat): Window {
    var block := counter / BLOCK_BITS % RING_BLOCKS;
    w.(ring := w.ring[block := w.ring[block] + {counter % BLOCK_BITS}], initialized := true)
  }

  predicate IsSet(ring: Ring, counter: nat) {
    counter % BLOCK_BITS in ring[counter / BLOCK_BITS % RING_BLOCKS]
  }

  function TryAdvance(w: Window, counter: nat): (Window, bool) {
    if counter <= w.highest && w.initialized && w.highest - counter > WINDOW_SIZE then (w, false)
    else
      var moved := if counter > w.highest then Moved(w, counter) else w;
      (Marked(moved, counter), !IsSet(moved.ring, counter))
  }

  // ---------------------------------------------------------------------------------------------
  // The reference: every counter accepted so far

  predicate Acceptable(w: Window, accepted: set<nat>, counter: nat) {
    counter !in accepted && (counter > w.highest || w.highest - counter <= WINDOW_SIZE)
  }

  /** The ring holds, for the last 128 blocks, exactly the accepted counters. */
  ghost predicate Mirrors(w: Window, accepted: set<nat>) {
    (forall c :: c in accepted ==> c <= w.highest) &&
    (forall c: nat :: w.highest / BLOCK_BITS < c / BLOCK_BITS + RING_BLOCKS && c / BLOCK_BITS <= w.highest / BLOCK_BITS ==>
       (IsSet(w.ring, c) <==> c in accepted)) &&
    (!w.initialized ==> w.highest == 0 && accepted == {})
  }

  lemma SameSlot(a: nat, b: nat)
    requires a % RING_BLOCKS == b % RING_BLOCKS && a < b + RING_BLOCKS && b < a + RING_BLOCKS
    ensures a == b
  {
  }

  lemma {:induction false} ClearedSlots(ring: Ring, from: nat, count: nat, block: nat)
    requires count <= RING_BLOCKS
    ensures (from <= block < from + count) ==> ClearBlocks(ring, from, count)[block % RING_BLOCKS] == {}
    ensures (block < from && from + count <= block + RING_BLOCKS) ==>
            ClearBlocks(ring, from, count)[block % RING_BLOCKS] == ring[block % RING_BLOCKS]
    decreases count
  {
    if count > 0 {
      var next: Ring := ring[from % RING_BLOCKS := {}];
      ClearedSlots(next, from + 1, count - 1, block);
      if from == block {
        StaysClear(next, from + 1, count - 1, block % RING_BLOCKS);
      } else if block < from < block + RING_BLOCKS && block % RING_BLOCKS == from % RING_BLOCKS {
        SameSlot(block, from);
      }
    }
  }

  lemma {:induction false} StaysClear(ring: Ring, from: nat, count: nat, slot: nat)
    requires slot < RING_BLOCKS && ring[slot] == {}
    ensures ClearBlocks(ring, from, count)[slot] == {}
    decreases count
  {
    if count > 0 {
      StaysClear(ring[from % RING_BLOCKS := {}], from + 1, count - 1, slot);
    }
  }

  /** Moving the window up forgets only blocks that leave it. */
  lemma MovedMirrors(w: Window, accepted: set<nat>, counter: nat)
    requires Mirrors(w, accepted) && counter > w.highest
    ensures Mirrors(Moved(w, counter).(initialized := true), accepted)
  {
    var was, now := w.highest / BLOCK_BITS, counter / BLOCK_BITS;
    var diff := if now - was > RING_BLOCKS then RING_BLOCKS else now - was;
    var moved := Moved(w, counter);
    forall c: nat | now < c / BLOCK_BITS + RING_BLOCKS && c / BLOCK_BITS <= now
      ensures IsSet(moved.ring, c) <==> c in accepted
    {
      var block := c / BLOCK_BITS;
      if diff < RING_BLOCKS {
        ClearedSlots(w.ring, was + 1, diff, block);
      } else {
        AllClear(w.ring, was + 1, block % RING_BLOCKS);
      }
    }
  }

  lemma AllClear(ring: Ring, from: nat, slot: nat)
    requires slot < RING_BLOCKS
    ensures ClearBlocks(ring, from, RING_BLOCKS)[slot] == {}
  {
    var block := from + (slot + RING_BLOCKS - from % RING_BLOCKS) % RING_BLOCKS;
    assert block % RING_BLOCKS == slot;
    ClearedSlots(ring, from, RING_BLOCKS, block);
  }

  lemma MarkedMirrors(w: Window, accepted: set<nat>, counter: nat)
    requires Mirrors(w.(initialized := true), accepted) && counter <= w.highest
    requires w.highest / BLOCK_BITS < counter / BLOCK_BITS + RING_BLOCKS
    ensures Mirrors(Marked(w, counter), accepted + {counter})
    ensures IsSet(w.ring, counter) <==> counter in accepted
  {
    var marked := Marked(w, counter);
    forall c: nat | w.highest / BLOCK_BITS < c / BLOCK_BITS + RING_BLOCKS && c / BLOCK_BITS <= w.highest / BLOCK_BITS
      ensures IsSet(marked.ring, c) <==> c in accepted + {counter}
    {
      assert IsSet(w.ring, c) <==> c in accepted;
      if c / BLOCK_BITS % RING_BLOCKS == counter / BLOCK_BITS % RING_BLOCKS {
        SameSlot(c / BLOCK_BITS, counter / BLOCK_BITS);
      }
    }
  }

  /** A counter within the window size is within the ring's blocks. */
  lemma InRing(highest: nat, counter: nat)
    requires counter <= highest && highest - counter <= WINDOW_SIZE
    ensures highest / BLOCK_BITS < counter / BLOCK_BITS + RING_BLOCKS
  {
  }

  /** One step: accepted exactly when new and not too old, and then remembered. */
  lemma AdvanceRefines(w: Window, accepted: set<nat>, counter: nat)
    requires Mirrors(w, accepted)
    ensures TryAdvance(w, counter).1 <==> Acceptable(w, accepted, counter)
    ensures Mirrors(TryAdvance(w, counter).0, if Acceptable(w, accepted, counter) then accepted + {counter} else accepted)
  {
    if counter > w.highest {
      MovedMirrors(w, accepted, counter);
      MarkedMirrors(Moved(w, counter), accepted, counter);
    } else if !(w.initialized && w.highest - counter > WINDOW_SIZE) {
      InRing(w.highest, counter);
      MarkedMirrors(w, accepted, counter);
      if counter in accepted {
        assert accepted + {counter} == accepted;
      }
    }
  }

  // ---------------------------------------------------------------------------------------------
  // Runs

  /** The window and the set of accepted counters after a run. */
  function Run(w: Window, accepted: set<nat>, counters: seq<nat>): (Window, set<nat>)
    decreases |counters|
  {
    if counters == [] then (w, accepted)
    else
      var (next, ok) := TryAdvance(w, counters[0]);
      Run(next, if ok then accepted + {counters[0]} else accepted, counters[1..])
  }

  lemma {:induction false} RunMirrors(w: Window, accepted: set<nat>, counters: seq<nat>)
    requires Mirrors(w, accepted)
    ensures Mirrors(Run(w, accepted, counters).0, Run(w, accepted, counters).1)
    decreases |counters|
  {
    if counters != [] {
      AdvanceRefines(w, accepted, counters[0]);
      var (next, ok) := TryAdvance(w, counters[0]);
      RunMirrors(next, if ok then accepted + {counters[0]} else accepted, counters[1..]);
    }
  }

  /**
   * After any run, a counter is accepted exactly when it was not accepted before and is at most 8128
   * behind the highest one accepted.
   */
  lemma AcceptsExactlyFresh(counters: seq<nat>, counter: nat)
    ensures var (w, accepted) := Run(Fresh(), {}, counters);
            TryAdvance(w, counter).1 <==>
            counter !in accepted && (counter > w.highest || w.highest - counter <= WINDOW_SIZE)
  {
    assert Mirrors(Fresh(), {});
    RunMirrors(Fresh(), {}, counters);
    var (w, accepted) := Run(Fresh(), {}, counters);
    AdvanceRefines(w, accepted, counter);
  }

  lemma HighestStep(w: Window, accepted: set<nat>, counter: nat)
    requires (w.initialized ==> w.highest in accepted) && (w.initialized || w.highest == 0)
    requires TryAdvance(w, counter).1 <==> Acceptable(w, accepted, counter)
    requires forall c :: c in accepted ==> c <= w.highest
    ensures var (next, ok) := TryAdvance(w, counter);
            next.initialized && next.highest in (if ok then accepted + {counter} else accepted)
  {
    hide ClearBlocks, IsSet;
  }

  /** The highest counter of a run is one that was accepted, once any was. */
  lemma {:induction false} HighestAccepted(w: Window, accepted: set<nat>, counters: seq<nat>)
    requires Mirrors(w, accepted) && (w.initialized ==> w.highest in accepted)
    ensures var (v, all) := Run(w, accepted, counters);
            (v.initialized ==> v.highest in all) && (counters != [] ==> v.initialized)
    decreases |counters|
  {
    if counters != [] {
      AdvanceRefines(w, accepted, counters[0]);
      HighestStep(w, accepted, counters[0]);
      hide Mirrors, TryAdvance, Acceptable;
      var (next, ok) := TryAdvance(w, counters[0]);
      HighestAccepted(next, if ok then accepted + {counters[0]} else accepted, counters[1..]);
    }
  }

  class Replay {
    var highest: nat
    var initialized: bool
    const ring: array<set<nat>>

    ghost predicate Shaped() {
      ring.Length == RING_BLOCKS
    }

    ghost function Model(): Window
      requires Shaped()
      reads this, ring
    {
      Window(highest, ring[..], initialized)
    }

    constructor ()
      ensures Shaped() && Model() == Fresh()
    {
      highest, initialized := 0, false;
      ring := new set<nat>[RING_BLOCKS](_ => {});
    }

    method Advance(counter: nat) returns (accepted: bool)
      requires Shaped()
      modifies this, ring
      ensures (Model(), accepted) == TryAdvance(old(Model()), counter)
    {
      if counter > highest {
        var current := highest / BLOCK_BITS;
        var diff := counter / BLOCK_BITS - current;
        if diff > RING_BLOCKS {
          diff := RING_BLOCKS;
        }
        for i := 0 to diff
          invariant ClearBlocks(ring[..], current + 1 + i, diff - i) == ClearBlocks(old(ring[..]), current + 1, diff)
        {
          ghost var before := ring[..];
          ring[(current + 1 + i) % RING_BLOCKS] := {};
          assert ring[..] == before[(current + 1 + i) % RING_BLOCKS := {}];
        }
        highest := counter;
      } else if initialized && highest - counter > WINDOW_SIZE {
        return false;
      }
      ghost var moved := ring[..];
      var block := counter / BLOCK_BITS % RING_BLOCKS;
      accepted := counter % BLOCK_BITS !in ring[block];
      ring[block] := ring[block] + {counter % BLOCK_BITS};
      initialized := true;
      assert ring[..] == moved[block := moved[block] + {counter % BLOCK_BITS}];
    }
  }
}
