/**
 * Auto-start persistence: any number of concurrent calls capture a request under the state lock, store
 * its name under the persistence lock, and publish its index under the state lock again.  A request
 * is dropped at either check once a newer one was captured.
 */
module AutoStart {
  import opened TunnelProtocol

  /** The size of a name field, its terminator included. */
  const NAME_SIZE: nat := 32
  /** How many different non-zero generations there are. */
  const GENERATIONS: nat := 0xFFFF_FFFF

  /** The configured peers' names; a field without terminator holds NAME_SIZE characters. */
  type Names = s: seq<string> | forall i :: 0 <= i < |s| ==> |s[i]| <= NAME_SIZE witness []

  datatype Request = Request(generation: nat, index: int, name: string)

  predicate ValidIndex(names: Names, index: int) {
    -1 <= index < |names|
  }

  /** What is stored for an index: nothing for -1. */
  function NameOf(names: Names, index: int): Option<string>
    requires ValidIndex(names, index)
  {
    if index < 0 then None else Some(names[index])
  }

  /** A copy of a name: at most 31 characters, so that it ends in a terminator. */
  function Cut(name: string): string {
    if |name| < NAME_SIZE then name else name[..NAME_SIZE - 1]
  }

  /** The name in a request for an index. */
  function Captured(names: Names, index: int): string
    requires ValidIndex(names, index)
  {
    if index < 0 then "" else Cut(names[index])
  }

  // Where a call stands between its lock scopes.
  datatype Call =
    | Waiting(request: Request)
    | Holding(request: Request)
    | Checked(request: Request)
    | Persisted(request: Request)

  datatype State = State(
    next: nat, current: nat, holder: Option<nat>, stored: Option<string>, index: int,
    calls: map<nat, Call>, begun: nat, newest: Request)

  function Initial(stored: Option<string>, index: int): State {
    State(1, 0, None, stored, index, map[], 0, Request(0, -1, ""))
  }

  /** Whether a request is the newest and still names the configured peer. */
  predicate IsCurrent(names: Names, s: State, r: Request) {
    r.generation == s.current && ValidIndex(names, r.index) && (r.index < 0 || names[r.index] == r.name)
  }

  datatype Action =
    | Begin(caller: nat, index: int)
    | Acquire(caller: nat)
    | Check(caller: nat)
    | Store(caller: nat, ok: bool)
    | Publish(caller: nat)

  function Returned(s: State, caller: nat): State {
    s.(calls := s.calls - {caller}, holder := None)
  }

  /** One lock scope of one call; an action whose call is elsewhere does nothing. */
  function Step(names: Names, s: State, a: Action): State {
    match a
    case Begin(caller, index) =>
      if caller in s.calls || !ValidIndex(names, index) then s
      else
        var r := Request(s.next, index, Captured(names, index));
        s.(next := if s.next == GENERATIONS then 1 else s.next + 1, current := r.generation,
           calls := s.calls[caller := Waiting(r)], begun := s.begun + 1, newest := r)
    case Acquire(caller) =>
      if caller in s.calls && s.calls[caller].Waiting? && s.holder.None?
      then s.(holder := Some(caller), calls := s.calls[caller := Holding(s.calls[caller].request)]) else s
    case Check(caller) =>
      if caller !in s.calls || !s.calls[caller].Holding? then s
      else
        var r := s.calls[caller].request;
        if IsCurrent(names, s, r) then s.(calls := s.calls[caller := Checked(r)]) else Returned(s, caller)
    case Store(caller, ok) =>
      if caller !in s.calls || !s.calls[caller].Checked? then s
      else
        var r := s.calls[caller].request;
        if ok then s.(calls := s.calls[caller := Persisted(r)], stored := if r.index >= 0 then Some(r.name) else None)
        else Returned(s, caller)
    case Publish(caller) =>
      if caller !in s.calls || !s.calls[caller].Persisted? then s
      else
        var r := s.calls[caller].request;
        if IsCurrent(names, s, r) then Returned(s.(index := r.index), caller) else Returned(s, caller)
  }

  function Run(names: Names, s: State, actions: seq<Action>): State
    decreases |actions|
  {
    if actions == [] then s else Run(names, Step(names, s, actions[0]), actions[1..])
  }

  /** No store that was attempted failed. */
  predicate StoresSucceed(actions: seq<Action>) {
    forall i :: 0 <= i < |actions| && actions[i].Store? ==> actions[i].ok
  }

  // ---------------------------------------------------------------------------------------------
  // Invariant

  /** The name fits its field with the terminator, or there is no name. */
  predicate Fits(names: Names, index: int) {
    ValidIndex(names, index) && (index < 0 || |names[index]| < NAME_SIZE)
  }

  predicate Converged(names: Names, s: State) {
    ValidIndex(names, s.newest.index) && s.index == s.newest.index && s.stored == NameOf(names, s.newest.index)
  }

  predicate InProgress(c: Call) {
    c.Checked? || c.Persisted?
  }

  predicate CallOk(names: Names, s: State, caller: nat)
    requires caller in s.calls
  {
    var c := s.calls[caller];
    var r := c.request;
    1 <= r.generation <= s.begun && ValidIndex(names, r.index) && r.name == Captured(names, r.index) &&
    (!c.Waiting? ==> s.holder == Some(caller)) &&
    (InProgress(c) ==> Fits(names, r.index)) &&
    (r.generation == s.begun ==> r == s.newest) &&
    (c.Persisted? && r.generation == s.begun ==> s.stored == NameOf(names, r.index))
  }

  /** Some call of the newest request has not returned. */
  ghost predicate NewestPending(s: State) {
    exists caller :: caller in s.calls && s.calls[caller].request.generation == s.begun
  }

  ghost predicate Ok(names: Names, s: State) {
    s.begun <= GENERATIONS && s.next == (if s.begun == GENERATIONS then 1 else s.begun + 1) && s.current == s.begun &&
    (s.begun > 0 ==> s.newest.generation == s.begun && ValidIndex(names, s.newest.index)) &&
    (s.holder.Some? ==> s.holder.value in s.calls && !s.calls[s.holder.value].Waiting?) &&
    (forall caller :: caller in s.calls ==> CallOk(names, s, caller)) &&
    (forall a, b :: a in s.calls && b in s.calls && s.calls[a].request.generation == s.calls[b].request.generation ==> a == b) &&
    (s.begun > 0 && !NewestPending(s) && Fits(names, s.newest.index) ==>
       Converged(names, s) && forall caller :: caller in s.calls ==> !InProgress(s.calls[caller]))
  }

  /** A capture that fits passes both checks while it is the newest, and one that does not never does. */
  lemma CurrentIff(names: Names, s: State, r: Request)
    requires ValidIndex(names, r.index) && r.name == Captured(names, r.index)
    ensures IsCurrent(names, s, r) <==> r.generation == s.current && Fits(names, r.index)
  {
  }

  lemma BeginOk(names: Names, s: State, caller: nat, index: int)
    requires Ok(names, s) && s.begun < GENERATIONS && caller !in s.calls && ValidIndex(names, index)
    ensures Ok(names, Step(names, s, Begin(caller, index)))
  {
    var q := Step(names, s, Begin(caller, index));
    forall c | c in q.calls ensures CallOk(names, q, c) {
      if c != caller {
        assert CallOk(names, s, c);
      }
    }
    assert q.calls[caller].request.generation == q.begun;
    forall a, b | a in q.calls && b in q.calls && q.calls[a].request.generation == q.calls[b].request.generation ensures a == b {
      if a != caller {
        assert CallOk(names, s, a);
      }
      if b != caller {
        assert CallOk(names, s, b);
      }
    }
  }

  /** A call that moves on without changing the stored name or the index. */
  lemma AdvanceOk(names: Names, s: State, caller: nat, c: Call, holder: Option<nat>)
    requires Ok(names, s) && caller in s.calls && c.request == s.calls[caller].request && !c.Waiting? && holder == Some(caller)
    requires s.holder.None? || s.holder == Some(caller)
    requires InProgress(c) ==> Fits(names, c.request.index) && c.request.generation == s.begun
    requires c.Persisted? ==> s.stored == NameOf(names, c.request.index)
    ensures Ok(names, s.(holder := holder, calls := s.calls[caller := c]))
  {
    var q := s.(holder := holder, calls := s.calls[caller := c]);
    forall d | d in q.calls ensures CallOk(names, q, d) {
      assert CallOk(names, s, d);
    }
    if NewestPending(s) {
      var d :| d in s.calls && s.calls[d].request.generation == s.begun;
      assert d in q.calls && q.calls[d].request.generation == q.begun;
    }
  }

  /** A returning call: either it is not the newest, or the newest has converged. */
  lemma ReturnOk(names: Names, s: State, caller: nat)
    requires Ok(names, s) && caller in s.calls && !s.calls[caller].Waiting?
    requires s.calls[caller].request.generation == s.begun && Fits(names, s.newest.index) ==> Converged(names, s)
    ensures Ok(names, Returned(s, caller))
  {
    var q := Returned(s, caller);
    assert CallOk(names, s, caller);
    forall d | d in q.calls ensures CallOk(names, q, d) && !InProgress(q.calls[d]) {
      assert CallOk(names, s, d);
    }
    if s.calls[caller].request.generation != s.begun && NewestPending(s) {
      var d :| d in s.calls && s.calls[d].request.generation == s.begun;
      assert d in q.calls && q.calls[d].request.generation == q.begun;
    }
  }

  lemma StoreOk(names: Names, s: State, caller: nat)
    requires Ok(names, s) && caller in s.calls && s.calls[caller].Checked?
    ensures Ok(names, Step(names, s, Store(caller, true)))
  {
    var q := Step(names, s, Store(caller, true));
    assert CallOk(names, s, caller);
    assert q == s.(calls := s.calls[caller := Persisted(s.calls[caller].request)], stored := q.stored);
    assert q.stored == NameOf(names, s.calls[caller].request.index);
    hide Step;
    forall d | d in q.calls ensures CallOk(names, q, d) {
      assert CallOk(names, s, d);
    }
    if NewestPending(s) {
      var d :| d in s.calls && s.calls[d].request.generation == s.begun;
      assert d in q.calls && q.calls[d].request.generation == q.begun;
    }
  }

  lemma PublishOk(names: Names, s: State, caller: nat)
    requires Ok(names, s) && caller in s.calls && s.calls[caller].Persisted?
    ensures Ok(names, Step(names, s, Publish(caller)))
  {
    var r := s.calls[caller].request;
    assert CallOk(names, s, caller);
    CurrentIff(names, s, r);
    if IsCurrent(names, s, r) {
      var published := s.(index := r.index);
      assert NewestPending(published);
      forall d | d in published.calls ensures CallOk(names, published, d) {
        assert CallOk(names, s, d);
      }
      ReturnOk(names, published, caller);
    } else {
      ReturnOk(names, s, caller);
    }
  }

  lemma StepOk(names: Names, s: State, a: Action)
    requires Ok(names, s) && Step(names, s, a).begun <= GENERATIONS && (a.Store? ==> a.ok)
    ensures Ok(names, Step(names, s, a))
  {
    hide Ok, Returned;
    match a
    case Begin(caller, index) =>
      if caller !in s.calls && ValidIndex(names, index) {
        BeginOk(names, s, caller, index);
      }
    case Acquire(caller) =>
      if caller in s.calls && s.calls[caller].Waiting? && s.holder.None? {
        AdvanceOk(names, s, caller, Holding(s.calls[caller].request), Some(caller));
      }
    case Check(caller) =>
      if caller in s.calls && s.calls[caller].Holding? {
        CheckOk(names, s, caller);
      }
    case Store(caller, _) =>
      if caller in s.calls && s.calls[caller].Checked? {
        StoreOk(names, s, caller);
      }
    case Publish(caller) =>
      if caller in s.calls && s.calls[caller].Persisted? {
        PublishOk(names, s, caller);
      }
  }

  lemma CheckOk(names: Names, s: State, caller: nat)
    requires Ok(names, s) && caller in s.calls && s.calls[caller].Holding?
    ensures Ok(names, Step(names, s, Check(caller)))
  {
    var r := s.calls[caller].request;
    assert CallOk(names, s, caller);
    CurrentIff(names, s, r);
    if IsCurrent(names, s, r) {
      AdvanceOk(names, s, caller, Checked(r), s.holder);
    } else {
      ReturnOk(names, s, caller);
    }
  }

  lemma {:induction false} BegunGrows(names: Names, s: State, actions: seq<Action>)
    ensures s.begun <= Run(names, s, actions).begun
    decreases |actions|
  {
    if actions != [] {
      BegunGrows(names, Step(names, s, actions[0]), actions[1..]);
    }
  }

  lemma {:induction false} RunOk(names: Names, s: State, actions: seq<Action>)
    requires Ok(names, s) && StoresSucceed(actions) && Run(names, s, actions).begun <= GENERATIONS
    ensures Ok(names, Run(names, s, actions))
    decreases |actions|
  {
    if actions != [] {
      BegunGrows(names, Step(names, s, actions[0]), actions[1..]);
      StepOk(names, s, actions[0]);
      RunOk(names, Step(names, s, actions[0]), actions[1..]);
    }
  }

  /** Only an index whose name fits is ever published. */
  lemma {:induction false} RunFits(names: Names, s: State, actions: seq<Action>)
    requires Ok(names, s) && Fits(names, s.index) && StoresSucceed(actions) && Run(names, s, actions).begun <= GENERATIONS
    ensures Fits(names, Run(names, s, actions).index)
    decreases |actions|
  {
    if actions != [] {
      BegunGrows(names, Step(names, s, actions[0]), actions[1..]);
      StepOk(names, s, actions[0]);
      StepFits(names, s, actions[0]);
      hide Ok, Step;
      RunFits(names, Step(names, s, actions[0]), actions[1..]);
    }
  }

  lemma StepFits(names: Names, s: State, a: Action)
    requires Ok(names, s) && Fits(names, s.index)
    ensures Fits(names, Step(names, s, a).index)
  {
    if a.Publish? && a.caller in s.calls {
      assert CallOk(names, s, a.caller);
    }
    hide Ok;
  }

  // ---------------------------------------------------------------------------------------------
  // Results

  /**
   * Convergence: for any number and interleaving of fewer than 2^32 requests whose stores succeed, once
   * every call has returned, the stored name and the index are those of the newest request if that
   * request's name leaves room for its terminator; and, unless the run started at an index whose
   * own name does not, only then.
   */
  lemma ConvergesToNewest(names: Names, stored: Option<string>, index: int, actions: seq<Action>)
    requires StoresSucceed(actions)
    requires var s := Run(names, Initial(stored, index), actions); 0 < s.begun <= GENERATIONS && s.calls == map[]
    ensures var s := Run(names, Initial(stored, index), actions);
            (Fits(names, s.newest.index) ==> Converged(names, s)) &&
            (Fits(names, index) ==> (Converged(names, s) <==> Fits(names, s.newest.index)))
  {
    assert Ok(names, Initial(stored, index));
    RunOk(names, Initial(stored, index), actions);
    if Fits(names, index) {
      RunFits(names, Initial(stored, index), actions);
    }
  }

  /** Counterexample: a name that fills its field is captured, never stored and never published. */
  lemma FullNameNeverStored(name: string)
    requires |name| == NAME_SIZE
    ensures var s := Run([name], Initial(None, -1), [Begin(0, 0), Acquire(0), Check(0)]);
            s.begun == 1 && s.calls == map[] && s.stored == None && s.index == -1 && s.newest.index == 0
  {
    var names := [name];
    var s1 := Step(names, Initial(None, -1), Begin(0, 0));
    var s2 := Step(names, s1, Acquire(0));
    var s3 := Step(names, s2, Check(0));
    assert |Captured(names, 0)| == NAME_SIZE - 1;
    assert s3.calls == map[];
    assert Run(names, s2, [Check(0)]) == Run(names, s3, []);
    assert Run(names, s1, [Acquire(0), Check(0)]) == s3;
  }

  class AutoStartPersistenceState {
    var nextGeneration: U32
    var currentGeneration: U32

    constructor ()
      ensures nextGeneration == 1 && currentGeneration == 0
    {
      nextGeneration, currentGeneration := 1, 0;
    }

    /** The new request is the current one, and its name is cut to leave room for the terminator. */
    method Begin(index: int, name: Option<string>) returns (request: Request)
      modifies this
      ensures request.generation == currentGeneration == old(nextGeneration) && request.index == index
      ensures nextGeneration == NextNonZero(old(nextGeneration))
      ensures request.name == if name.None? then "" else Cut(name.value)
    {
      currentGeneration := nextGeneration;
      nextGeneration := if nextGeneration == 0xFFFF_FFFF then 1 else nextGeneration + 1;
      var copied := "";
      if name.Some? {
        for i := 0 to NAME_SIZE - 1
          invariant copied == name.value[..if i < |name.value| then i else |name.value|]
        {
          if i < |name.value| {
            copied := copied + [name.value[i]];
          }
        }
      }
      return Request(currentGeneration, index, copied);
    }

    predicate IsCurrent(request: Request)
      reads this
    {
      request.generation == currentGeneration
    }
  }
}
