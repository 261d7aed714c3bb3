/**
 Registration, leases and blocking removal of P2P sources (p2p.rs). A read takes its
 lease while it holds the registry lock, so lookup and lease are one step.
 */
module SourceLifecycle {

  /** A read of a source: it holds a lease, and may be inside a provider call. */
  datatype Lease = Lease(id: nat, calling: bool)

  /** A call of `remove`: waiting for the source to go idle, or returned with its answer. */
  datatype Removal = Draining(id: nat) | Returned(id: nat, found: bool)

  datatype State = State(
    nextId: nat,
    registered: set<nat>,
    /** The lifecycle counter of every source ever registered. */
    active: map<nat, nat>,
    leases: map<nat, Lease>,
    removals: map<nat, Removal>)

  const INIT := State(1, {}, map[], map[], map[])

  datatype Step =
    | Register
    | Acquire(reader: nat, id: nat)
    | CallProvider(reader: nat)
    | ProviderReturns(reader: nat)
    | Release(reader: nat)
    /** Takes the source out of the registry and waits, or returns false at once if it is not there. */
    | Remove(remover: nat, id: nat)
    /** `wait_until_idle` sees a zero counter and `remove` returns true. */
    | Finish(remover: nat)

  /** Steps that are not enabled leave the state alone. */
  function Next(s: State, step: Step): State
  {
    match step
    case Register =>
      s.(nextId := s.nextId + 1, registered := s.registered + {s.nextId}, active := s.active[s.nextId := 0])
    case Acquire(r, id) =>
      if r !in s.leases && id in s.registered && id in s.active then
        s.(leases := s.leases[r := Lease(id, false)], active := s.active[id := s.active[id] + 1])
      else s
    case CallProvider(r) =>
      if r in s.leases then s.(leases := s.leases[r := s.leases[r].(calling := true)]) else s
    case ProviderReturns(r) =>
      if r in s.leases then s.(leases := s.leases[r := s.leases[r].(calling := false)]) else s
    case Release(r) =>
      if r in s.leases && !s.leases[r].calling && s.leases[r].id in s.active then
        var id := s.leases[r].id;
        s.(leases := s.leases - {r}, active := s.active[id := if s.active[id] == 0 then 0 else s.active[id] - 1])
      else s
    case Remove(m, id) =>
      if m in s.removals then s
      else if id in s.registered then s.(registered := s.registered - {id}, removals := s.removals[m := Draining(id)])
      else s.(removals := s.removals[m := Returned(id, false)])
    case Finish(m) =>
      if m in s.removals && s.removals[m].Draining? && s.removals[m].id in s.active && s.active[s.removals[m].id] == 0 then
        s.(removals := s.removals[m := Returned(s.removals[m].id, true)])
      else s
  }

  function Exec(s: State, steps: seq<Step>): State
    decreases |steps|
  {
    if steps == [] then s else Exec(Next(s, steps[0]), steps[1..])
  }

  function Holders(s: State, id: nat): set<nat>
  {
    set r | r in s.leases && s.leases[r].id == id
  }

  predicate Leased(s: State, id: nat) { exists r :: r in s.leases && s.leases[r].id == id }

  predicate IsDraining(s: State, id: nat) { exists m :: m in s.removals && s.removals[m] == Draining(id) }

  /** The counter is exact, and a source being removed is out of the registry for good. */
  ghost predicate Inv(s: State)
  {
    Exact(s) && Known(s) && Drained(s) && LeasesHeldUp(s)
  }

  ghost predicate Exact(s: State)
  {
    forall id :: id in s.active ==> s.active[id] == |Holders(s, id)|
  }

  ghost predicate Known(s: State)
  {
    && (forall id :: id in s.registered ==> id in s.active)
    && (forall id :: id in s.active ==> id < s.nextId)
    && (forall r :: r in s.leases ==> s.leases[r].id in s.active)
  }

  ghost predicate Drained(s: State)
  {
    forall m :: m in s.removals && !(s.removals[m].Returned? && !s.removals[m].found) ==>
      var id := s.removals[m].id;
      id in s.active && id !in s.registered && (s.removals[m].Returned? ==> s.active[id] == 0)
  }

  /** A lease is of a registered source, or of one whose removal waits for it. */
  ghost predicate LeasesHeldUp(s: State)
  {
    forall r :: r in s.leases ==> s.leases[r].id in s.registered || IsDraining(s, s.leases[r].id)
  }

  /** An exact counter is zero exactly when nobody holds a lease. */
  lemma NoHolders(s: State, id: nat)
    ensures |Holders(s, id)| == 0 <==> !Leased(s, id)
  {
    if |Holders(s, id)| == 0 {
      assert Holders(s, id) == {};
      forall r | r in s.leases ensures s.leases[r].id != id { assert r !in Holders(s, id); }
    } else {
      var r :| r in Holders(s, id);
    }
  }

  lemma AcquireCounts(s: State, r: nat, id: nat)
    requires r !in s.leases
    ensures |Holders(s.(leases := s.leases[r := Lease(id, false)]), id)| == |Holders(s, id)| + 1
  {
    assert Holders(s.(leases := s.leases[r := Lease(id, false)]), id) == Holders(s, id) + {r};
  }

  lemma ReleaseCounts(s: State, r: nat)
    requires r in s.leases
    ensures |Holders(s.(leases := s.leases - {r}), s.leases[r].id)| == |Holders(s, s.leases[r].id)| - 1
  {
    var id := s.leases[r].id;
    assert r in Holders(s, id);
    assert Holders(s.(leases := s.leases - {r}), id) == Holders(s, id) - {r};
  }

  /** A step that does not take or drop a lease of the source leaves its holders alone. */
  lemma OthersSame(s: State, s': State, id: nat)
    requires forall r :: (r in s.leases && s.leases[r].id == id) <==> (r in s'.leases && s'.leases[r].id == id)
    ensures Holders(s', id) == Holders(s, id)
  {
  }

  lemma StepCounts(s: State, step: Step, id: nat)
    requires Inv(s) && id in Next(s, step).active
    ensures Next(s, step).active[id] == |Holders(Next(s, step), id)|
  {
    var s' := Next(s, step);
    if step.Acquire? && s' != s && step.id == id {
      AcquireCounts(s, step.reader, id);
      OthersSame(s.(leases := s.leases[step.reader := Lease(id, false)]), s', id);
    } else if step.Release? && s' != s && s.leases[step.reader].id == id {
      ReleaseCounts(s, step.reader);
      OthersSame(s.(leases := s.leases - {step.reader}), s', id);
    } else {
      OthersSame(s, s', id);
      if id !in s.active { NoHolders(s, id); }
    }
  }

  lemma StepKnown(s: State, step: Step)
    requires Known(s) && Drained(s)
    ensures Known(Next(s, step)) && Drained(Next(s, step))
  {
  }

  /** A removal stops draining only when the source's last lease is gone. */
  lemma StepHeldUp(s: State, step: Step)
    requires Inv(s)
    ensures LeasesHeldUp(Next(s, step))
  {
    hide Exact, Drained;
    var s' := Next(s, step);
    forall r | r in s'.leases ensures s'.leases[r].id in s'.registered || IsDraining(s', s'.leases[r].id) {
      var id := s'.leases[r].id;
      if id !in s'.registered {
        if r in s.leases && id in s.registered {
          assert s'.removals[step.remover] == Draining(id);
        } else {
          StillDraining(s, step, id, r);
        }
      }
    }
  }

  lemma StillDraining(s: State, step: Step, id: nat, r: nat)
    requires Inv(s) && r in s.leases && s.leases[r].id == id && IsDraining(s, id)
    ensures IsDraining(Next(s, step), id)
  {
    hide Known, Drained, LeasesHeldUp;
    var m :| m in s.removals && s.removals[m] == Draining(id);
    if step == Finish(m) && id in s.active { NoHolders(s, id); }
    assert m in Next(s, step).removals && Next(s, step).removals[m] == Draining(id);
  }

  lemma StepInv(s: State, step: Step)
    requires Inv(s)
    ensures Inv(Next(s, step))
  {
    hide Next, Holders, LeasesHeldUp;
    StepKnown(s, step);
    StepHeldUp(s, step);
    var s' := Next(s, step);
    forall id | id in s'.active ensures s'.active[id] == |Holders(s', id)| { StepCounts(s, step, id); }
  }

  lemma {:induction false} ExecInv(s: State, steps: seq<Step>)
    requires Inv(s)
    ensures Inv(Exec(s, steps))
    decreases |steps|
  {
    hide Inv, Next;
    if steps != [] {
      StepInv(s, steps[0]);
      ExecInv(Next(s, steps[0]), steps[1..]);
    }
  }

  // ----- when a removed source is quiet -----

  /** No read of the source holds a lease, now or after any further steps; so none is in a provider call. */
  ghost predicate QuietForever(s: State, id: nat)
  {
    forall later: seq<Step> :: !Leased(Exec(s, later), id)
  }

  /** The source is known, out of the registry and without a lease. */
  predicate Retired(s: State, id: nat)
  {
    id < s.nextId && id !in s.registered && !Leased(s, id)
  }

  lemma {:induction false} RetiredStays(s: State, later: seq<Step>, id: nat)
    requires Retired(s, id)
    ensures Retired(Exec(s, later), id)
    decreases |later|
  {
    if later != [] {
      StepRetired(s, later[0], id);
      RetiredStays(Next(s, later[0]), later[1..], id);
    }
  }

  lemma StepRetired(s: State, step: Step, id: nat)
    requires Retired(s, id)
    ensures Retired(Next(s, step), id)
  {
    var s' := Next(s, step);
    if r :| r in s'.leases && s'.leases[r].id == id { assert r in s.leases && s.leases[r].id == id; }
  }

  lemma RetiredIsQuiet(s: State, id: nat)
    requires Retired(s, id)
    ensures QuietForever(s, id)
  {
    forall later: seq<Step> ensures !Leased(Exec(s, later), id) { RetiredStays(s, later, id); }
  }

  /** In every reachable state, once `remove` has returned true its source is quiet for good. */
  lemma RemovedIsQuiet(steps: seq<Step>, remover: nat)
    ensures var s := Exec(INIT, steps);
      remover in s.removals && s.removals[remover].Returned? && s.removals[remover].found ==>
        Retired(s, s.removals[remover].id) && QuietForever(s, s.removals[remover].id)
  {
    hide Exec, QuietForever;
    ExecInv(INIT, steps);
    var s := Exec(INIT, steps);
    if remover in s.removals && s.removals[remover].Returned? && s.removals[remover].found {
      NoHolders(s, s.removals[remover].id);
      RetiredIsQuiet(s, s.removals[remover].id);
    }
  }

  /** A removal in progress returns true exactly when the last lease is gone, and otherwise goes on waiting. */
  lemma RemovalReturnsWhenIdle(s: State, remover: nat)
    requires Inv(s) && remover in s.removals && s.removals[remover].Draining?
    ensures var id := s.removals[remover].id;
      Next(s, Finish(remover)) == if Leased(s, id) then s else s.(removals := s.removals[remover := Returned(id, true)])
  {
    NoHolders(s, s.removals[remover].id);
  }

  /** A lease is granted iff the source is registered; its holder may call the provider, and gives it up only outside a call. */
  lemma LeaseSteps(s: State, r: nat, id: nat)
    requires Inv(s)
    ensures r !in s.leases ==>
      Next(s, Acquire(r, id)).leases == (if id in s.registered then s.leases[r := Lease(id, false)] else s.leases)
    ensures r in s.leases ==>
      var held := s.leases[r].id;
      && Next(s, Acquire(r, id)) == s
      && Next(s, CallProvider(r)).leases == s.leases[r := Lease(held, true)]
      && Next(s, ProviderReturns(r)).leases == s.leases[r := Lease(held, false)]
      && Next(s, Release(r)).leases == (if s.leases[r].calling then s.leases else s.leases - {r})
  {
    hide Exact, Drained, LeasesHeldUp;
  }

  lemma ExecPlus(s: State, a: Step, b: Step, rest: seq<Step>)
    ensures Exec(s, [a, b] + rest) == Exec(Next(Next(s, a), b), rest) && Exec(s, [a]) == Next(s, a)
  {
    hide Next;
    var steps := [a, b] + rest;
    assert steps[1..] == [b] + rest && steps[1..][1..] == rest && [a][1..] == [];
  }

  /** One holder fewer once a holder's call has returned and it lets go. */
  lemma HolderLeaves(s: State, r: nat, id: nat)
    requires Inv(s) && r in Holders(s, id)
    ensures var s' := Next(Next(s, ProviderReturns(r)), Release(r));
      Inv(s') && Holders(s', id) == Holders(s, id) - {r} && s'.removals == s.removals
  {
    var s1 := Next(s, ProviderReturns(r));
    StepInv(s, ProviderReturns(r));
    StepInv(s1, Release(r));
    hide Exact, Drained, LeasesHeldUp;
    assert s1.leases[r] == Lease(id, false) && id in s1.active;
  }

  /** Every removal can return: once the readers' calls are over and they let go, it does so with true. */
  lemma {:induction false} RemovalCanFinish(s: State, remover: nat) returns (steps: seq<Step>)
    requires Inv(s) && remover in s.removals && s.removals[remover].Draining?
    ensures remover in Exec(s, steps).removals && Exec(s, steps).removals[remover] == Returned(s.removals[remover].id, true)
    decreases |Holders(s, s.removals[remover].id)|
  {
    var id := s.removals[remover].id;
    assert forall r :: r in s.leases && s.leases[r].id == id ==> r in Holders(s, id);
    if r :| r in Holders(s, id) {
      HolderLeaves(s, r, id);
      hide Next, Inv, Holders;
      var a, b := ProviderReturns(r), Release(r);
      var s' := Next(Next(s, a), b);
      var rest := RemovalCanFinish(s', remover);
      steps := [a, b] + rest;
      ExecPlus(s, a, b, rest);
    } else {
      steps := [Finish(remover)];
      RemovalReturnsWhenIdle(s, remover);
      ExecPlus(s, Finish(remover), Finish(remover), []);
    }
  }

  // ----- a remove that returns false -----

  function Registrations(n: nat): seq<Step> { seq(n, _ => Register) }

  lemma {:induction false} RegisterMany(s: State, n: nat)
    ensures var s' := Exec(s, Registrations(n));
      && s'.nextId == s.nextId + n && s'.leases == s.leases && s'.active.Keys >= s.active.Keys
      && forall id :: s.nextId <= id < s.nextId + n ==> id in s'.registered && id in s'.active
    decreases n
  {
    if n > 0 {
      var steps := Registrations(n);
      assert steps[1..] == Registrations(n - 1);
      RegisterMany(Next(s, Register), n - 1);
      RegisteredStays(Next(s, Register), Registrations(n - 1), s.nextId);
    }
  }

  lemma {:induction false} RegisteredStays(s: State, steps: seq<Step>, id: nat)
    requires id in s.registered && id in s.active && forall i :: 0 <= i < |steps| ==> steps[i].Register?
    ensures id in Exec(s, steps).registered && id in Exec(s, steps).active
    decreases |steps|
  {
    if steps != [] {
      assert forall i :: 0 <= i < |steps[1..]| ==> steps[1..][i] == steps[i + 1];
      RegisteredStays(Next(s, steps[0]), steps[1..], id);
    }
  }

  lemma {:induction false} ExecSnoc(s: State, steps: seq<Step>, step: Step)
    ensures Exec(s, steps + [step]) == Next(Exec(s, steps), step)
    decreases |steps|
  {
    hide Next;
    if steps != [] {
      assert (steps + [step])[1..] == steps[1..] + [step];
      ExecSnoc(Next(s, steps[0]), steps[1..], step);
    }
  }

  /** An id that was not handed out yet can still be registered and read. */
  lemma FutureIsNotQuiet(s: State, id: nat)
    requires id >= s.nextId
    ensures !QuietForever(s, id)
  {
    hide Next;
    var steps := Registrations(id - s.nextId + 1);
    RegisterMany(s, id - s.nextId + 1);
    var s1 := Exec(s, steps);
    var reader := Bound(s1.leases.Keys);
    assert reader !in s1.leases.Keys;
    var last := Acquire(reader, id);
    ExecSnoc(s, steps, last);
    AcquireLeases(s1, reader, id);
    assert Leased(Exec(s, steps + [last]), id);
  }

  lemma AcquireLeases(s: State, reader: nat, id: nat)
    requires reader !in s.leases && id in s.registered && id in s.active
    ensures Leased(Next(s, Acquire(reader, id)), id)
  {
    assert Next(s, Acquire(reader, id)).leases[reader].id == id;
  }

  lemma {:induction false} Bound(used: set<nat>) returns (bound: nat)
    ensures forall r :: r in used ==> r < bound
  {
    bound := 0;
    if used != {} {
      var x :| x in used;
      var rest := Bound(used - {x});
      assert forall r :: r in used ==> r == x || r in used - {x};
      bound := if rest <= x then x + 1 else rest;
    }
  }

  /**
   A `remove` that finds nothing returns at once. Its source is quiet from then on iff
   the id was handed out before and no other removal of it is still waiting for a lease.
   */
  lemma RemoveOfMissing(steps: seq<Step>, remover: nat, id: nat)
    ensures var s := Exec(INIT, steps);
      remover !in s.removals && id !in s.registered ==>
        && var s' := Next(s, Remove(remover, id));
        && s'.removals[remover] == Returned(id, false)
        && (QuietForever(s', id) <==> id < s.nextId && !(IsDraining(s, id) && Leased(s, id)))
  {
    hide Exec, QuietForever;
    ExecInv(INIT, steps);
    var s := Exec(INIT, steps);
    if remover !in s.removals && id !in s.registered {
      var s' := Next(s, Remove(remover, id));
      if id >= s.nextId { FutureIsNotQuiet(s', id); }
      else if Leased(s, id) {
        assert IsDraining(s, id);
        LeasedIsNotQuiet(s', id);
      } else {
        RetiredIsQuiet(s', id);
      }
    }
  }

  lemma LeasedIsNotQuiet(s: State, id: nat)
    requires Leased(s, id)
    ensures !QuietForever(s, id)
  {
    assert Exec(s, []) == s;
  }

  /** Two removers: the second returns while a provider call of the source is running. */
  const TWO_REMOVERS := [Register, Acquire(0, 1), CallProvider(0), Remove(1, 1), Remove(2, 1)]

  lemma SecondRemoverReturnsEarly()
    ensures var s := Exec(INIT, TWO_REMOVERS);
      && 2 in s.removals && s.removals[2] == Returned(1, false)
      && 0 in s.leases && s.leases[0] == Lease(1, true)
  {
    var s1 := Next(INIT, TWO_REMOVERS[0]);
    var s2 := Next(s1, TWO_REMOVERS[1]);
    var s3 := Next(s2, TWO_REMOVERS[2]);
    var s4 := Next(s3, TWO_REMOVERS[3]);
    assert s2.leases == map[0 := Lease(1, false)];
    assert s3.leases == map[0 := Lease(1, true)];
    assert 1 !in s4.registered;
    ExecSnoc(INIT, TWO_REMOVERS[..4], TWO_REMOVERS[4]);
    assert TWO_REMOVERS == TWO_REMOVERS[..4] + [TWO_REMOVERS[4]];
    ExecSnoc(INIT, TWO_REMOVERS[..3], TWO_REMOVERS[3]);
    assert TWO_REMOVERS[..4] == TWO_REMOVERS[..3] + [TWO_REMOVERS[3]];
    ExecSnoc(INIT, TWO_REMOVERS[..2], TWO_REMOVERS[2]);
    assert TWO_REMOVERS[..3] == TWO_REMOVERS[..2] + [TWO_REMOVERS[2]];
  }
}
