/** Rarest-first piece scheduling (p2p_network.rs, PieceScheduler). */
module PieceScheduler {
  import opened Base

  datatype PieceState = Missing | InFlight | Complete

  /** Priorities and failures are 8-bit, availabilities 32-bit. */
  datatype Sched = Sched(
    states: seq<PieceState>,
    availability: seq<nat>,
    failures: seq<nat>,
    maxFailures: nat,
    priorities: seq<nat>)

  const U8_MAX: nat := 255
  const U32_MAX: nat := 0xFFFF_FFFF

  predicate WellFormed(s: Sched)
  {
    && |s.availability| == |s.failures| == |s.priorities| == |s.states|
    && 0 < s.maxFailures <= U8_MAX
    && (forall i :: 0 <= i < |s.states| ==> s.priorities[i] <= U8_MAX && s.failures[i] <= s.maxFailures)
    && (forall i :: 0 <= i < |s.states| && !s.states[i].Missing? ==> s.failures[i] < s.maxFailures)
  }

  const BIT: seq<nat> := [128, 64, 32, 16, 8, 4, 2, 1]

  /** Bit `index` of a peer's bitfield, most significant bit first. */
  predicate HasPiece(bitfield: seq<Byte>, index: nat)
    requires index / 8 < |bitfield|
  {
    (bitfield[index / 8] / BIT[index % 8]) % 2 == 1
  }

  function BitfieldLength(n: nat): nat { (n + 7) / 8 }

  /** One bit per piece and no byte in vain. */
  lemma BitfieldFits(n: nat)
    ensures n <= 8 * BitfieldLength(n) < n + 8
  {
  }

  predicate Eligible(s: Sched, bitfield: seq<Byte>, i: nat)
    requires WellFormed(s) && |bitfield| == BitfieldLength(|s.states|)
  {
    i < |s.states| && HasPiece(bitfield, i) && s.states[i].Missing? && s.failures[i] < s.maxFailures
  }

  /** The claim order: highest priority, then rarest, then fewest failures, then lowest index. */
  predicate Before(s: Sched, i: nat, j: nat)
    requires WellFormed(s) && i < |s.states| && j < |s.states|
  {
    var pi, pj := U8_MAX - s.priorities[i], U8_MAX - s.priorities[j];
    || pi < pj
    || (pi == pj && s.availability[i] < s.availability[j])
    || (pi == pj && s.availability[i] == s.availability[j] && s.failures[i] < s.failures[j])
    || (pi == pj && s.availability[i] == s.availability[j] && s.failures[i] == s.failures[j] && i < j)
  }

  /** The eligible piece that comes before every other eligible one. */
  predicate IsBest(s: Sched, bitfield: seq<Byte>, i: nat)
    requires WellFormed(s) && |bitfield| == BitfieldLength(|s.states|)
  {
    Eligible(s, bitfield, i) && forall j: nat :: j < |s.states| && j != i && Eligible(s, bitfield, j) ==> Before(s, i, j)
  }

  lemma BestIsUnique(s: Sched, bitfield: seq<Byte>, i: nat, j: nat)
    requires WellFormed(s) && |bitfield| == BitfieldLength(|s.states|)
    requires IsBest(s, bitfield, i) && IsBest(s, bitfield, j)
    ensures i == j
  {
  }

  /**
   The best piece is one the peer has, that nobody holds or fetches and that may fail once
   more. Among all such pieces it has the highest priority, among those the fewest copies,
   then the fewest failures, then the lowest index.
   */
  lemma BestIsRarest(s: Sched, bitfield: seq<Byte>, i: nat, j: nat)
    requires WellFormed(s) && |bitfield| == BitfieldLength(|s.states|) && IsBest(s, bitfield, i)
    requires j < |s.states| && HasPiece(bitfield, j) && s.states[j] == Missing && s.failures[j] < s.maxFailures
    ensures i < |s.states| && HasPiece(bitfield, i) && s.states[i] == Missing && s.failures[i] < s.maxFailures
    ensures s.priorities[i] >= s.priorities[j]
    ensures s.priorities[i] == s.priorities[j] ==> s.availability[i] <= s.availability[j]
    ensures s.priorities[i] == s.priorities[j] && s.availability[i] == s.availability[j] ==> s.failures[i] <= s.failures[j]
    ensures s.priorities[i] == s.priorities[j] && s.availability[i] == s.availability[j] && s.failures[i] == s.failures[j] ==> i <= j
  {
    assert Eligible(s, bitfield, j);
  }

  /** Whenever some piece is eligible there is a best one. */
  lemma {:induction false} BestExists(s: Sched, bitfield: seq<Byte>, n: nat) returns (best: Option<nat>)
    requires WellFormed(s) && |bitfield| == BitfieldLength(|s.states|) && n <= |s.states|
    ensures best.None? ==> forall j: nat :: j < n ==> !Eligible(s, bitfield, j)
    ensures best.Some? ==> best.value < n && Eligible(s, bitfield, best.value)
    ensures best.Some? ==> forall j: nat :: j < n && j != best.value && Eligible(s, bitfield, j) ==> Before(s, best.value, j)
  {
    hide WellFormed;
    best := None;
    if n > 0 {
      best := BestExists(s, bitfield, n - 1);
      if Eligible(s, bitfield, n - 1) && (best.None? || Before(s, n - 1, best.value)) { best := Some(n - 1); }
    }
  }

  function Bit(bitfield: seq<Byte>, index: nat): nat
    requires index / 8 < |bitfield|
  {
    if HasPiece(bitfield, index) then 1 else 0
  }

  lemma ByteSpelled(b: int)
    requires 0 <= b < 256
    ensures b == 128 * (b / 128 % 2) + 64 * (b / 64 % 2) + 32 * (b / 32 % 2) + 16 * (b / 16 % 2) + 8 * (b / 8 % 2) + 4 * (b / 4 % 2) + 2 * (b / 2 % 2) + b / 1 % 2
  {
    assert b / 4 == b / 2 / 2 && b / 8 == b / 4 / 2 && b / 16 == b / 8 / 2 && b / 32 == b / 16 / 2 && b / 64 == b / 32 / 2 && b / 128 == b / 64 / 2;
  }

  lemma BitIs(bitfield: seq<Byte>, q: nat, k: nat)
    requires q < |bitfield| && k < 8
    ensures (8 * q + k) / 8 == q && Bit(bitfield, 8 * q + k) == bitfield[q] / BIT[k] % 2
  {
    assert (8 * q + k) % 8 == k;
  }

  /** The eight pieces of byte `q` spell the byte, the first piece being its most significant bit. */
  lemma BitsSpellByte(bitfield: seq<Byte>, q: nat)
    requires q < |bitfield|
    ensures bitfield[q] ==
      128 * Bit(bitfield, 8 * q) + 64 * Bit(bitfield, 8 * q + 1) + 32 * Bit(bitfield, 8 * q + 2) + 16 * Bit(bitfield, 8 * q + 3) +
      8 * Bit(bitfield, 8 * q + 4) + 4 * Bit(bitfield, 8 * q + 5) + 2 * Bit(bitfield, 8 * q + 6) + Bit(bitfield, 8 * q + 7)
  {
    hide Bit;
    BitIs(bitfield, q, 0);
    BitIs(bitfield, q, 1);
    BitIs(bitfield, q, 2);
    BitIs(bitfield, q, 3);
    BitIs(bitfield, q, 4);
    BitIs(bitfield, q, 5);
    BitIs(bitfield, q, 6);
    BitIs(bitfield, q, 7);
    ByteSpelled(bitfield[q]);
  }

  function ClaimState(s: Sched, i: nat): Sched
    requires i < |s.states|
  {
    s.(states := s.states[i := InFlight])
  }

  function CompleteState(s: Sched, i: nat): Result<Sched>
  {
    if i >= |s.states| || !s.states[i].InFlight? then Err(BadRequest) else Ok(s.(states := s.states[i := Complete]))
  }

  function FailState(s: Sched, i: nat): Result<Sched>
    requires WellFormed(s)
  {
    if i >= |s.states| || !s.states[i].InFlight? then Err(BadRequest)
    else Ok(s.(states := s.states[i := Missing], failures := s.failures[i := Min(s.failures[i] + 1, U8_MAX)]))
  }

  /** The piece has the state and the failures, and nothing else changed. */
  predicate OnlyPiece(s: Sched, s': Sched, i: nat, state: PieceState, failures: nat)
  {
    && i < |s.states| == |s'.states| && i < |s.failures| == |s'.failures|
    && s'.states[i] == state && s'.failures[i] == failures
    && (forall j :: 0 <= j < |s.states| && j != i ==> s'.states[j] == s.states[j])
    && (forall j :: 0 <= j < |s.failures| && j != i ==> s'.failures[j] == s.failures[j])
    && s'.availability == s.availability && s'.priorities == s.priorities && s'.maxFailures == s.maxFailures
  }

  /**
   Claiming, completing and failing keep the scheduler well formed. Only a piece in flight
   completes or fails; a completed one is complete for good, a failed one is missing again
   with one failure more, and the counter never saturates.
   */
  lemma TransitionsKeep(s: Sched, i: nat)
    requires WellFormed(s)
    ensures i < |s.states| && s.failures[i] < s.maxFailures ==> WellFormed(ClaimState(s, i)) && OnlyPiece(s, ClaimState(s, i), i, InFlight, s.failures[i])
    ensures CompleteState(s, i).Ok? <==> i < |s.states| && s.states[i] == InFlight
    ensures CompleteState(s, i).Ok? ==> WellFormed(CompleteState(s, i).value) && OnlyPiece(s, CompleteState(s, i).value, i, Complete, s.failures[i])
    ensures FailState(s, i).Ok? <==> i < |s.states| && s.states[i] == InFlight
    ensures FailState(s, i).Ok? ==> WellFormed(FailState(s, i).value) && OnlyPiece(s, FailState(s, i).value, i, Missing, s.failures[i] + 1)
  {
  }

  /** A new scheduler: nothing fetched, failed, seen or preferred. */
  predicate Blank(s: Sched, pieceCount: nat, maxFailures: nat)
  {
    && |s.states| == |s.availability| == |s.failures| == |s.priorities| == pieceCount && s.maxFailures == maxFailures
    && forall i :: 0 <= i < pieceCount ==> s.states[i] == Missing && s.availability[i] == 0 && s.failures[i] == 0 && s.priorities[i] == 0
  }

  class Scheduler {
    var states: seq<PieceState>
    var availability: seq<nat>
    var failures: seq<nat>
    const maxFailures: nat
    var priorities: seq<nat>

    function State(): Sched
      reads this
    {
      Sched(states, availability, failures, maxFailures, priorities)
    }

    constructor (pieceCount: nat, maxFailures: nat)
      requires 0 < pieceCount <= 1_000_000 && 0 < maxFailures <= U8_MAX
      ensures WellFormed(State()) && Blank(State(), pieceCount, maxFailures)
    {
      states := seq(pieceCount, _ => Missing);
      availability, failures, priorities := seq(pieceCount, _ => 0), seq(pieceCount, _ => 0), seq(pieceCount, _ => 0);
      this.maxFailures := maxFailures;
    }

    /** Counts the bits that are set, and only then looks at the spare bits. */
    method ObserveBitfield(bitfield: seq<Byte>) returns (r: Result<()>)
      requires WellFormed(State())
      modifies this`availability
      ensures |bitfield| != BitfieldLength(|states|) ==> r.Err? && availability == old(availability)
      ensures r.Err? ==> r.error == Malformed
      ensures |bitfield| == BitfieldLength(|states|) ==>
        && |availability| == |states|
        && (forall i :: 0 <= i < |states| ==>
             availability[i] == if HasPiece(bitfield, i) then Min(old(availability)[i] + 1, U32_MAX) else old(availability)[i])
        && (r.Ok? <==> forall i :: |states| <= i < 8 * |bitfield| ==> !HasPiece(bitfield, i))
      ensures WellFormed(State())
    {
      if |bitfield| != BitfieldLength(|states|) { return Err(Malformed); }
      for i := 0 to |states|
        invariant |availability| == |states|
        invariant forall j :: 0 <= j < i ==>
          availability[j] == if HasPiece(bitfield, j) then Min(old(availability)[j] + 1, U32_MAX) else old(availability)[j]
        invariant forall j :: i <= j < |states| ==> availability[j] == old(availability)[j]
      {
        if HasPiece(bitfield, i) { availability := availability[i := Min(availability[i] + 1, U32_MAX)]; }
      }
      for i := |states| to 8 * |bitfield|
        invariant forall j :: |states| <= j < i ==> !HasPiece(bitfield, j)
      {
        if HasPiece(bitfield, i) { return Err(Malformed); }
      }
      return Ok(());
    }

    /** Claims the best eligible piece, if any, and marks it in flight. */
    method ClaimNext(bitfield: seq<Byte>) returns (r: Result<Option<nat>>)
      requires WellFormed(State())
      modifies this`states
      ensures WellFormed(State())
      ensures r.Err? <==> |bitfield| != BitfieldLength(|old(states)|)
      ensures r.Err? ==> r.error == Malformed
      ensures r.Ok? && r.value.Some? ==>
        && IsBest(old(State()), bitfield, r.value.value) && State() == ClaimState(old(State()), r.value.value)
        && OnlyPiece(old(State()), State(), r.value.value, InFlight, old(failures)[r.value.value])
      ensures r.Ok? && r.value.None? ==>
        State() == old(State()) && forall i: nat :: i < |states| ==> !Eligible(State(), bitfield, i)
      ensures r.Err? ==> State() == old(State())
    {
      if |bitfield| != BitfieldLength(|states|) { return Err(Malformed); }
      var best: Option<nat> := None;
      for i := 0 to |states|
        invariant best.None? ==> forall j: nat :: j < i ==> !Eligible(State(), bitfield, j)
        invariant best.Some? ==> best.value < i && Eligible(State(), bitfield, best.value)
        invariant best.Some? ==> forall j: nat :: j < i && j != best.value && Eligible(State(), bitfield, j) ==> Before(State(), best.value, j)
      {
        if Eligible(State(), bitfield, i) && (best.None? || Before(State(), i, best.value)) { best := Some(i); }
      }
      if best.Some? { states := states[best.value := InFlight]; }
      return Ok(best);
    }

    method MarkComplete(index: nat) returns (r: Result<()>)
      requires WellFormed(State())
      modifies this`states
      ensures WellFormed(State())
      ensures match CompleteState(old(State()), index)
        case Ok(after) => r.Ok? && State() == after
        case Err(_) => r.Err? && State() == old(State())
      ensures r.Ok? <==> index < |old(states)| && old(states)[index] == InFlight
      ensures r.Err? ==> r.error == BadRequest
      ensures r.Ok? ==> OnlyPiece(old(State()), State(), index, Complete, old(failures)[index])
    {
      TransitionsKeep(State(), index);
      if index >= |states| || !states[index].InFlight? { return Err(BadRequest); }
      states := states[index := Complete];
      return Ok(());
    }

    method MarkFailed(index: nat) returns (r: Result<()>)
      requires WellFormed(State())
      modifies this`states, this`failures
      ensures WellFormed(State())
      ensures match FailState(old(State()), index)
        case Ok(after) => r.Ok? && State() == after
        case Err(_) => r.Err? && State() == old(State())
      ensures r.Ok? <==> index < |old(states)| && old(states)[index] == InFlight
      ensures r.Err? ==> r.error == BadRequest
      ensures r.Ok? ==> OnlyPiece(old(State()), State(), index, Missing, old(failures)[index] + 1)
    {
      TransitionsKeep(State(), index);
      if index >= |states| || !states[index].InFlight? { return Err(BadRequest); }
      failures := failures[index := Min(failures[index] + 1, U8_MAX)];
      states := states[index := Missing];
      return Ok(());
    }
  }

  /** PieceScheduler::new, with its limits. */
  method NewScheduler(pieceCount: nat, maxFailures: nat) returns (r: Result<Scheduler>)
    requires maxFailures <= U8_MAX
    ensures r.Ok? <==> 0 < pieceCount <= 1_000_000 && maxFailures > 0
    ensures r.Err? ==> r.error == BadRequest
    ensures r.Ok? ==> fresh(r.value) && WellFormed(r.value.State()) && Blank(r.value.State(), pieceCount, maxFailures)
  {
    if pieceCount == 0 || pieceCount > 1_000_000 || maxFailures == 0 { return Err(BadRequest); }
    var scheduler := new Scheduler(pieceCount, maxFailures);
    return Ok(scheduler);
  }
}
