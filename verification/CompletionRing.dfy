/** A client slot as it is stored: a fixed ring of completions with a head and a count. */
module CompletionRing {
  import opened Counting
  import opened Division
  import opened TunnelProtocol
  import opened FlowPlane

  const BLANK_ENTRY := Entry(BlankRecord(InboundDatagram, Success, 0), NO_SLAB)

  datatype ClientRecord = ClientRecord(
    inUse: bool, generation: U32, completions: seq<Entry>, head: nat, count: nat, dataCount: nat, event: bool)

  predicate RingOk(c: ClientRecord) {
    |c.completions| == COMPLETION_QUEUE_CAPACITY && c.head < COMPLETION_QUEUE_CAPACITY &&
    c.count <= COMPLETION_QUEUE_CAPACITY
  }

  const FREE_SLOT := ClientRecord(false, 0, Repeat(BLANK_ENTRY, COMPLETION_QUEUE_CAPACITY), 0, 0, 0, false)

  type ClientSlot = c: ClientRecord | RingOk(c)
    witness ClientRecord(false, 0, Repeat(BLANK_ENTRY, COMPLETION_QUEUE_CAPACITY), 0, 0, 0, false)

  /** Where the entry `index` places behind the front is stored. */
  function Position(c: ClientSlot, index: nat): (i: nat)
    ensures i < COMPLETION_QUEUE_CAPACITY
  {
    (c.head + index) % COMPLETION_QUEUE_CAPACITY
  }

  function CompletionAt(c: ClientSlot, index: nat): Entry {
    c.completions[Position(c, index)]
  }

  /** The queue the ring stores, front first. */
  function Queue(c: ClientSlot): (q: seq<Entry>)
    ensures |q| == c.count
    ensures forall i :: 0 <= i < c.count ==> q[i] == CompletionAt(c, i)
  {
    seq(c.count, i requires 0 <= i < c.count => CompletionAt(c, i))
  }

  function View(c: ClientSlot): Client {
    Client(c.inUse, c.generation, Queue(c), c.dataCount, c.event)
  }

  /** The entry goes behind the last one; the event is signalled when the queue was empty. */
  function Appended(c: ClientSlot, e: Entry): ClientSlot
    requires c.count < COMPLETION_QUEUE_CAPACITY
  {
    c.(completions := c.completions[Position(c, c.count) := e], count := c.count + 1,
       dataCount := c.dataCount + Tally(IsData(e)), event := c.event || c.count == 0)
  }

  function Overwritten(c: ClientSlot, index: nat, e: Entry): ClientSlot
    requires index < c.count
  {
    c.(completions := c.completions[Position(c, index) := e])
  }

  /** The front entry is blanked and the head moves on; a datagram also leaves the data count. */
  function FrontRemoved(c: ClientSlot): ClientSlot
    requires c.count > 0
  {
    var front := c.completions[c.head];
    c.(completions := c.completions[c.head := BLANK_ENTRY],
       head := (c.head + 1) % COMPLETION_QUEUE_CAPACITY,
       count := c.count - 1,
       dataCount := if IsData(front) && c.dataCount > 0 then c.dataCount - 1 else c.dataCount)
  }

  lemma WrapsOnce(c: ClientSlot, index: nat)
    requires index <= COMPLETION_QUEUE_CAPACITY
    ensures var at := c.head + index;
            Position(c, index) == if at < COMPLETION_QUEUE_CAPACITY then at else at - COMPLETION_QUEUE_CAPACITY
  {
    var at, n := c.head + index, COMPLETION_QUEUE_CAPACITY;
    if at < n {
      Packed(0, at, n);
    } else {
      Packed(1, at - n, n);
    }
  }

  /** Different places in the queue are different places in the ring. */
  lemma PositionsDiffer(c: ClientSlot, i: nat, j: nat)
    requires i < j < COMPLETION_QUEUE_CAPACITY
    ensures Position(c, i) != Position(c, j)
  {
    hide Position;
    WrapsOnce(c, i);
    WrapsOnce(c, j);
  }

  /** Storing behind the last entry appends to the queue, wherever the ring has wrapped to. */
  lemma AppendedQueue(c: ClientSlot, e: Entry)
    requires c.count < COMPLETION_QUEUE_CAPACITY
    ensures Queue(Appended(c, e)) == Queue(c) + [e]
  {
    hide Position, CompletionAt;
    forall i: nat | i <= c.count ensures CompletionAt(Appended(c, e), i) == if i == c.count then e else CompletionAt(c, i) {
      AppendedAt(c, e, i);
    }
  }

  lemma AppendedAt(c: ClientSlot, e: Entry, i: nat)
    requires i <= c.count < COMPLETION_QUEUE_CAPACITY
    ensures CompletionAt(Appended(c, e), i) == if i == c.count then e else CompletionAt(c, i)
  {
    assert Position(Appended(c, e), i) == Position(c, i);
    hide Position;
    if i < c.count {
      PositionsDiffer(c, i, c.count);
    }
  }

  lemma OverwrittenQueue(c: ClientSlot, index: nat, e: Entry)
    requires index < c.count
    ensures Queue(Overwritten(c, index, e)) == Queue(c)[index := e]
  {
    hide Position, CompletionAt;
    forall i: nat | i < c.count
      ensures CompletionAt(Overwritten(c, index, e), i) == if i == index then e else CompletionAt(c, i)
    {
      OverwrittenAt(c, index, e, i);
    }
  }

  lemma OverwrittenAt(c: ClientSlot, index: nat, e: Entry, i: nat)
    requires index < c.count && i < c.count
    ensures CompletionAt(Overwritten(c, index, e), i) == if i == index then e else CompletionAt(c, i)
  {
    assert Position(Overwritten(c, index, e), i) == Position(c, i);
    hide Position;
    if i != index {
      PositionsDiffer(c, if i < index then i else index, if i < index then index else i);
    }
  }

  lemma FrontRemovedQueue(c: ClientSlot)
    requires c.count > 0
    ensures Queue(c)[0] == c.completions[c.head]
    ensures Queue(FrontRemoved(c)) == Queue(c)[1..]
  {
    hide Position, CompletionAt;
    FrontAt(c);
    forall i: nat | i < c.count - 1 ensures CompletionAt(FrontRemoved(c), i) == CompletionAt(c, i + 1) {
      FrontRemovedAt(c, i);
    }
  }

  lemma FrontAt(c: ClientSlot)
    ensures CompletionAt(c, 0) == c.completions[c.head]
  {
    hide Position;
    WrapsOnce(c, 0);
  }

  lemma FrontRemovedAt(c: ClientSlot, i: nat)
    requires i + 1 < c.count
    ensures CompletionAt(FrontRemoved(c), i) == CompletionAt(c, i + 1)
  {
    FrontRemovedHead(c);
    hide Position;
    WrapsOnce(c, 0);
    WrapsOnce(c, i + 1);
    WrapsOnce(FrontRemoved(c), i);
    PositionsDiffer(c, 0, i + 1);
  }

  lemma FrontRemovedHead(c: ClientSlot)
    requires c.count > 0
    ensures FrontRemoved(c).head == if c.head + 1 < COMPLETION_QUEUE_CAPACITY then c.head + 1 else 0
  {
    WrapsOnce(c, 1);
  }

  /** A run stored from the start of a blank ring. */
  function Restarted(c: ClientSlot, entries: seq<Entry>, dataCount: nat): ClientSlot
    requires |entries| <= COMPLETION_QUEUE_CAPACITY
  {
    c.(completions := entries + Repeat(BLANK_ENTRY, COMPLETION_QUEUE_CAPACITY - |entries|),
       head := 0, count := |entries|, dataCount := dataCount)
  }

  lemma RestartedQueue(c: ClientSlot, entries: seq<Entry>, dataCount: nat)
    requires |entries| <= COMPLETION_QUEUE_CAPACITY
    ensures Queue(Restarted(c, entries, dataCount)) == entries
  {
  }

  /** The clients a table of slots stands for. */
  function Views(slots: seq<ClientSlot>): (v: seq<Client>)
    ensures |v| == |slots|
    ensures forall i :: 0 <= i < |slots| ==> v[i] == View(slots[i])
  {
    seq(|slots|, i requires 0 <= i < |slots| => View(slots[i]))
  }
}
