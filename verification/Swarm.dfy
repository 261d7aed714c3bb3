/**
 The multi-peer download of p2p_network.rs: peer tasks that share one scheduler and one
 piece store, interleaved at the scheduler's mutex.
 */
module Swarm {
  import opened Base
  import opened PieceScheduler

  const MAX_STORED_BYTES: nat := 8 * 1024 * 1024

  type Hash = string

  /** The torrent: one hash per piece, and the hash function, of which nothing is assumed. */
  datatype Torrent = Torrent(hashes: seq<Hash>, sha1: Bytes -> Hash)

  predicate Verifies(t: Torrent, index: nat, bytes: Bytes)
  {
    0 < |bytes| <= MAX_STORED_BYTES && index < |t.hashes| && t.sha1(bytes) == t.hashes[index]
  }

  datatype Event = Claimed(index: nat) | Failed(index: nat) | Completed(index: nat)

  datatype State = State(sched: Sched, tasks: map<nat, nat>, store: map<nat, Bytes>, log: seq<Event>)

  datatype Step =
    /** Peers announce pieces and players move: only availabilities and priorities change. */
    | Adjust(availability: seq<nat>, priorities: seq<nat>)
    | Claim(task: nat, bitfield: seq<Byte>, index: nat)
    /** The store already holds a verified copy of the claimed piece. */
    | FoundInStore(task: nat)
    /** The peer delivered the piece and the store took it. */
    | Downloaded(task: nat, bytes: Bytes)
    /** The connection, the verification or the store failed; the store may have lost its invalid copy. */
    | GaveUp(task: nat, discarded: bool)

  function Settle(s: State, task: nat, after: Result<Sched>, e: Event): State
  {
    if after.Err? then s else s.(sched := after.value, tasks := s.tasks - {task}, log := s.log + [e])
  }

  /** Steps that are not enabled leave the state alone. */
  function Next(t: Torrent, s: State, step: Step): (s': State)
    requires WellFormed(s.sched)
    ensures WellFormed(s'.sched)
  {
    match step
    case Adjust(availability, priorities) =>
      var sched := s.sched.(availability := availability, priorities := priorities);
      if WellFormed(sched) then s.(sched := sched) else s
    case Claim(task, bitfield, index) =>
      if task !in s.tasks && |bitfield| == BitfieldLength(|s.sched.states|) && IsBest(s.sched, bitfield, index) then
        s.(sched := ClaimState(s.sched, index), tasks := s.tasks[task := index], log := s.log + [Claimed(index)])
      else s
    case FoundInStore(task) =>
      if task in s.tasks && s.tasks[task] in s.store && Verifies(t, s.tasks[task], s.store[s.tasks[task]]) then
        Settle(s, task, CompleteState(s.sched, s.tasks[task]), Completed(s.tasks[task]))
      else s
    case Downloaded(task, bytes) =>
      if task in s.tasks && Verifies(t, s.tasks[task], bytes) then
        Settle(s.(store := s.store[s.tasks[task] := bytes]), task, CompleteState(s.sched, s.tasks[task]), Completed(s.tasks[task]))
      else s
    case GaveUp(task, discarded) =>
      if task in s.tasks then
        var i := s.tasks[task];
        var lost := discarded && i in s.store && !Verifies(t, i, s.store[i]);
        Settle(if lost then s.(store := s.store - {i}) else s, task, FailState(s.sched, i), Failed(i))
      else s
  }

  function Count(log: seq<Event>, e: Event): nat
  {
    if log == [] then 0 else Count(log[..|log| - 1], e) + (if log[|log| - 1] == e then 1 else 0)
  }

  lemma CountSnoc(log: seq<Event>, last: Event, e: Event)
    ensures Count(log + [last], e) == Count(log, e) + (if last == e then 1 else 0)
  {
    assert (log + [last])[..|log|] == log;
  }

  // ----- invariant -----

  /** Claims so far are the failures plus the claim that is open or was completed. */
  ghost predicate ClaimsCounted(s: State)
    requires WellFormed(s.sched)
  {
    forall i: nat :: i < |s.sched.states| ==>
      && Count(s.log, Claimed(i)) == s.sched.failures[i] + (if s.sched.states[i].Missing? then 0 else 1)
      && Count(s.log, Failed(i)) == s.sched.failures[i]
  }

  /** Each task works on its own in-flight piece. */
  ghost predicate TasksDistinct(s: State)
  {
    && (forall k :: k in s.tasks ==> s.tasks[k] < |s.sched.states| && s.sched.states[s.tasks[k]].InFlight?)
    && (forall a, b :: a in s.tasks && b in s.tasks && a != b ==> s.tasks[a] != s.tasks[b])
  }

  /** A complete piece is in the store with the torrent's hash. */
  ghost predicate CompleteIsStored(t: Torrent, s: State)
  {
    forall i: nat :: i < |s.sched.states| && s.sched.states[i].Complete? ==> i in s.store && Verifies(t, i, s.store[i])
  }

  ghost predicate Inv(t: Torrent, s: State)
  {
    WellFormed(s.sched) && ClaimsCounted(s) && TasksDistinct(s) && CompleteIsStored(t, s)
  }

  ghost predicate Initial(s: State)
  {
    && WellFormed(s.sched) && s.tasks == map[] && s.log == []
    && forall i :: 0 <= i < |s.sched.states| ==> s.sched.states[i].Missing? && s.sched.failures[i] == 0
  }

  lemma InitInv(t: Torrent, s: State)
    requires Initial(s)
    ensures Inv(t, s)
  {
  }

  lemma ClaimInv(t: Torrent, s: State, task: nat, bitfield: seq<Byte>, index: nat)
    requires Inv(t, s)
    ensures Inv(t, Next(t, s, Claim(task, bitfield, index)))
  {
    hide Verifies, Before;
    var s' := Next(t, s, Claim(task, bitfield, index));
    forall i: nat | i < |s.sched.states|
      ensures Count(s.log + [Claimed(index)], Claimed(i)) == Count(s.log, Claimed(i)) + (if i == index then 1 else 0)
      ensures Count(s.log + [Claimed(index)], Failed(i)) == Count(s.log, Failed(i))
    {
      CountSnoc(s.log, Claimed(index), Claimed(i));
      CountSnoc(s.log, Claimed(index), Failed(i));
    }
  }

  /** Completing or failing a task's piece, with the store already brought up to date. */
  lemma SettleInv(t: Torrent, s: State, task: nat, success: bool)
    requires WellFormed(s.sched) && ClaimsCounted(s) && TasksDistinct(s) && CompleteIsStored(t, s) && task in s.tasks
    requires success ==> s.tasks[task] in s.store && Verifies(t, s.tasks[task], s.store[s.tasks[task]])
    ensures var i := s.tasks[task];
      if success then Inv(t, Settle(s, task, CompleteState(s.sched, i), Completed(i)))
      else Inv(t, Settle(s, task, FailState(s.sched, i), Failed(i)))
  {
    hide Verifies, ClaimsCounted;
    TransitionsKeep(s.sched, s.tasks[task]);
    SettleCounts(s, task, success);
  }

  lemma SettleCounts(s: State, task: nat, success: bool)
    requires WellFormed(s.sched) && ClaimsCounted(s) && TasksDistinct(s) && task in s.tasks
    ensures var i := s.tasks[task];
      var s' := if success then Settle(s, task, CompleteState(s.sched, i), Completed(i)) else Settle(s, task, FailState(s.sched, i), Failed(i));
      WellFormed(s'.sched) && ClaimsCounted(s')
  {
    hide Count;
    var index := s.tasks[task];
    var e := if success then Completed(index) else Failed(index);
    TransitionsKeep(s.sched, index);
    forall i: nat | i < |s.sched.states|
      ensures Count(s.log + [e], Claimed(i)) == Count(s.log, Claimed(i))
      ensures Count(s.log + [e], Failed(i)) == Count(s.log, Failed(i)) + (if e == Failed(i) then 1 else 0)
    {
      CountSnoc(s.log, e, Claimed(i));
      CountSnoc(s.log, e, Failed(i));
    }
  }

  lemma StepInv(t: Torrent, s: State, step: Step)
    requires Inv(t, s)
    ensures Inv(t, Next(t, s, step))
  {
    hide Settle, Count, IsBest;
    match step
    case Adjust(_, _) =>
    case Claim(task, bitfield, index) => ClaimInv(t, s, task, bitfield, index);
    case FoundInStore(task) =>
      if task in s.tasks && s.tasks[task] in s.store && Verifies(t, s.tasks[task], s.store[s.tasks[task]]) {
        SettleInv(t, s, task, true);
      }
    case Downloaded(task, bytes) =>
      if task in s.tasks && Verifies(t, s.tasks[task], bytes) {
        SettleInv(t, s.(store := s.store[s.tasks[task] := bytes]), task, true);
      }
    case GaveUp(task, discarded) =>
      if task in s.tasks {
        var i := s.tasks[task];
        var lost := discarded && i in s.store && !Verifies(t, i, s.store[i]);
        SettleInv(t, if lost then s.(store := s.store - {i}) else s, task, false);
      }
  }

  function Exec(t: Torrent, s: State, steps: seq<Step>): State
    requires WellFormed(s.sched)
    decreases |steps|
  {
    if steps == [] then s else Exec(t, Next(t, s, steps[0]), steps[1..])
  }

  lemma {:induction false} ExecInv(t: Torrent, s: State, steps: seq<Step>)
    requires Inv(t, s)
    ensures Inv(t, Exec(t, s, steps))
    decreases |steps|
  {
    hide Next, ClaimsCounted, TasksDistinct, CompleteIsStored;
    if steps != [] {
      StepInv(t, s, steps[0]);
      ExecInv(t, Next(t, s, steps[0]), steps[1..]);
    }
  }

  // ----- what every run guarantees -----

  /** Each piece is claimed at most `maxFailures` times. */
  lemma ClaimsBounded(t: Torrent, s: State, steps: seq<Step>, i: nat)
    requires Initial(s) && i < |Exec(t, s, steps).sched.states|
    ensures Count(Exec(t, s, steps).log, Claimed(i)) <= Exec(t, s, steps).sched.maxFailures
  {
    hide Count, Exec;
    InitInv(t, s);
    ExecInv(t, s, steps);
    var after := Exec(t, s, steps);
    assert Count(after.log, Claimed(i)) == after.sched.failures[i] + (if after.sched.states[i].Missing? then 0 else 1);
  }

  /** A completed piece is in the store under its hash. */
  lemma CompletedIsVerified(t: Torrent, s: State, steps: seq<Step>, i: nat)
    requires Initial(s) && i < |Exec(t, s, steps).sched.states|
    ensures var after := Exec(t, s, steps);
      after.sched.states[i] == Complete ==>
        i in after.store && i < |t.hashes| && t.sha1(after.store[i]) == t.hashes[i] && 0 < |after.store[i]| <= 8 * 1024 * 1024
  {
    hide Count, Exec;
    InitInv(t, s);
    ExecInv(t, s, steps);
  }

  /** Announcements and preferences are taken over as they come; a task at work claims nothing more. */
  lemma OtherSteps(t: Torrent, s: State, availability: seq<nat>, priorities: seq<nat>, task: nat, bitfield: seq<Byte>, index: nat)
    requires Inv(t, s)
    ensures var s' := Next(t, s, Adjust(availability, priorities));
      |availability| == |priorities| == |s.sched.states| && (forall i :: 0 <= i < |priorities| ==> priorities[i] <= 255) ==>
        s' == s.(sched := s.sched.(availability := availability, priorities := priorities))
    ensures task in s.tasks ==> Next(t, s, Claim(task, bitfield, index)) == s
    ensures task !in s.tasks && |bitfield| == BitfieldLength(|s.sched.states|) && IsBest(s.sched, bitfield, index) ==>
      var s' := Next(t, s, Claim(task, bitfield, index));
      s'.tasks == s.tasks[task := index] && OnlyPiece(s.sched, s'.sched, index, InFlight, s.sched.failures[index])
  {
    hide Count, ClaimsCounted, CompleteIsStored, TasksDistinct;
  }

  /**
   How a task ends, in every reachable state: with bytes of the right hash its piece is
   complete and stored, a verified copy in the store completes it too, and giving up makes
   the piece missing again with one failure more. Wrong bytes change nothing.
   */
  lemma TaskEnds(t: Torrent, s: State, task: nat, bytes: Bytes, discarded: bool)
    requires Inv(t, s) && task in s.tasks
    ensures var i, good := s.tasks[task], s.tasks[task] < |t.hashes| && t.sha1(bytes) == t.hashes[s.tasks[task]] && 0 < |bytes| <= 8 * 1024 * 1024;
      var done, failed := Next(t, s, Downloaded(task, bytes)), Next(t, s, GaveUp(task, discarded));
      && (!good ==> done == s)
      && (good ==> OnlyPiece(s.sched, done.sched, i, Complete, s.sched.failures[i]) && done.tasks == s.tasks - {task} && done.store == s.store[i := bytes])
      && OnlyPiece(s.sched, failed.sched, i, Missing, s.sched.failures[i] + 1) && failed.tasks == s.tasks - {task}
      && (forall k :: k in s.store && k != i ==> k in failed.store && failed.store[k] == s.store[k])
      && (good && i in s.store && s.store[i] == bytes ==>
           OnlyPiece(s.sched, Next(t, s, FoundInStore(task)).sched, i, Complete, s.sched.failures[i]) && Next(t, s, FoundInStore(task)).tasks == s.tasks - {task})
  {
    hide Count, ClaimsCounted, CompleteIsStored, WellFormed;
    TransitionsKeep(s.sched, s.tasks[task]);
  }

  // ----- a download can finish -----

  /** A peer that has everything. */
  function FullBitfield(n: nat): (b: seq<Byte>)
    ensures |b| == BitfieldLength(n)
  {
    seq(BitfieldLength(n), _ => 255)
  }

  lemma FullHasAll(n: nat, i: nat)
    requires i < n
    ensures i / 8 < |FullBitfield(n)| && HasPiece(FullBitfield(n), i)
  {
    var k := i % 8;
    assert BIT[k] == 128 || BIT[k] == 64 || BIT[k] == 32 || BIT[k] == 16 || BIT[k] == 8 || BIT[k] == 4 || BIT[k] == 2 || BIT[k] == 1;
  }

  function CountMissing(states: seq<PieceState>): nat
  {
    if states == [] then 0 else CountMissing(states[1..]) + (if states[0].Missing? then 1 else 0)
  }

  lemma {:induction false} OneFewerMissing(states: seq<PieceState>, i: nat, state: PieceState)
    requires i < |states| && states[i].Missing? && !state.Missing?
    ensures CountMissing(states[i := state]) == CountMissing(states) - 1
  {
    if i > 0 {
      assert states[i := state][1..] == states[1..][i - 1 := state];
      OneFewerMissing(states[1..], i - 1, state);
    } else {
      assert states[i := state][1..] == states[1..];
    }
  }

  /** Nobody is at work, and every missing piece may still be tried and has known bytes of the right hash. */
  ghost predicate Ready(t: Torrent, s: State, content: nat -> Bytes)
  {
    && Inv(t, s) && s.tasks == map[]
    && forall i: nat :: i < |s.sched.states| && s.sched.states[i].Missing? ==> s.sched.failures[i] < s.sched.maxFailures && Verifies(t, i, content(i))
  }

  lemma FindBest(s: Sched, missing: nat) returns (i: nat)
    requires WellFormed(s) && missing < |s.states| && s.states[missing].Missing? && s.failures[missing] < s.maxFailures
    ensures IsBest(s, FullBitfield(|s.states|), i) && i < |s.states| && s.states[i].Missing?
  {
    var full := FullBitfield(|s.states|);
    FullHasAll(|s.states|, missing);
    assert Eligible(s, full, missing);
    hide HasPiece;
    var best := BestExists(s, full, |s.states|);
    i := best.value;
  }

  lemma ClaimEffect(t: Torrent, s: State, i: nat)
    requires WellFormed(s.sched) && s.tasks == map[] && IsBest(s.sched, FullBitfield(|s.sched.states|), i)
    ensures i < |s.sched.states|
    ensures Next(t, s, Claim(0, FullBitfield(|s.sched.states|), i)) ==
      s.(sched := ClaimState(s.sched, i), tasks := map[0 := i], log := s.log + [Claimed(i)])
  {
    hide Before, HasPiece;
  }

  lemma DeliverEffect(t: Torrent, s: State, i: nat, bytes: Bytes)
    requires WellFormed(s.sched) && s.tasks == map[0 := i] && i < |s.sched.states| && s.sched.states[i].InFlight? && Verifies(t, i, bytes)
    ensures var s' := Next(t, s, Downloaded(0, bytes)); s'.tasks == map[] && s'.sched == s.sched.(states := s.sched.states[i := Complete])
  {
    hide Verifies, WellFormed;
    assert s.tasks - {0} == map[];
  }

  lemma StaysReady(t: Torrent, s: State, s': State, content: nat -> Bytes, i: nat)
    requires Ready(t, s, content) && Inv(t, s') && s'.tasks == map[]
    requires i < |s.sched.states| && s'.sched == s.sched.(states := s.sched.states[i := Complete])
    ensures Ready(t, s', content)
  {
    hide ClaimsCounted, CompleteIsStored, Verifies;
  }

  /** A full peer's next piece: claimed, delivered, complete. */
  lemma NextPiece(t: Torrent, s: State, content: nat -> Bytes, missing: nat) returns (i: nat)
    requires Ready(t, s, content) && missing < |s.sched.states| && s.sched.states[missing].Missing?
    ensures i < |s.sched.states| && s.sched.states[i].Missing?
    ensures var s' := Next(t, Next(t, s, Claim(0, FullBitfield(|s.sched.states|), i)), Downloaded(0, content(i)));
      Ready(t, s', content) && s'.sched.states == s.sched.states[i := Complete]
  {
    i := FindBest(s.sched, missing);
    assert Verifies(t, i, content(i));
    hide Next, Verifies, IsBest, ClaimsCounted, CompleteIsStored, TasksDistinct, WellFormed;
    var claim, deliver := Claim(0, FullBitfield(|s.sched.states|), i), Downloaded(0, content(i));
    ClaimEffect(t, s, i);
    StepInv(t, s, claim);
    var s1 := Next(t, s, claim);
    DeliverEffect(t, s1, i, content(i));
    StepInv(t, s1, deliver);
    assert s1.sched.states[i := Complete] == s.sched.states[i := Complete];
    StaysReady(t, s, Next(t, s1, deliver), content, i);
  }

  lemma ExecTwo(t: Torrent, s: State, a: Step, b: Step, rest: seq<Step>)
    requires WellFormed(s.sched)
    ensures Exec(t, s, [a, b] + rest) == Exec(t, Next(t, Next(t, s, a), b), rest)
  {
    hide Next;
    var steps := [a, b] + rest;
    assert steps[1..] == [b] + rest && steps[1..][1..] == rest;
  }

  /** From every such state a peer that has everything can complete every missing piece. */
  lemma {:induction false} DownloadCanFinish(t: Torrent, s: State, content: nat -> Bytes) returns (steps: seq<Step>)
    requires Ready(t, s, content)
    ensures var after := Exec(t, s, steps);
      && |after.sched.states| == |s.sched.states|
      && forall i :: 0 <= i < |s.sched.states| ==> (after.sched.states[i] == Complete <==> s.sched.states[i] == Missing || s.sched.states[i] == Complete)
    decreases CountMissing(s.sched.states)
  {
    steps := [];
    if missing: nat :| missing < |s.sched.states| && s.sched.states[missing].Missing? {
      hide Next, Inv;
      var i := NextPiece(t, s, content, missing);
      var a, b := Claim(0, FullBitfield(|s.sched.states|), i), Downloaded(0, content(i));
      var s' := Next(t, Next(t, s, a), b);
      OneFewerMissing(s.sched.states, i, Complete);
      var rest := DownloadCanFinish(t, s', content);
      steps := [a, b] + rest;
      assert WellFormed(s.sched) by { InvIsWellFormed(t, s); }
      ExecTwo(t, s, a, b, rest);
    }
  }

  lemma InvIsWellFormed(t: Torrent, s: State)
    requires Inv(t, s)
    ensures WellFormed(s.sched)
  {
  }

  /** Claims of a piece alternate with its failures. */
  predicate Alternates(log: seq<Event>, i: nat)
  {
    log == [] || (
      var init := log[..|log| - 1];
      Alternates(init, i) && (log[|log| - 1] == Claimed(i) ==> Count(init, Claimed(i)) == Count(init, Failed(i))))
  }

  lemma StepAlternates(t: Torrent, s: State, step: Step, i: nat)
    requires Inv(t, s) && Alternates(s.log, i) && i < |s.sched.states|
    ensures Alternates(Next(t, s, step).log, i)
  {
    hide Count, Before, Verifies;
    var log' := Next(t, s, step).log;
    if log' != s.log {
      assert log'[..|log'| - 1] == s.log;
      assert Count(s.log, Claimed(i)) == s.sched.failures[i] + (if s.sched.states[i].Missing? then 0 else 1);
    }
  }

  lemma StepKeepsSize(t: Torrent, s: State, step: Step)
    requires Inv(t, s)
    ensures |Next(t, s, step).sched.states| == |s.sched.states|
    ensures Next(t, s, step).sched.maxFailures == s.sched.maxFailures
  {
    hide Before, HasPiece, Verifies, Count;
  }

  lemma {:induction false} ExecAlternates(t: Torrent, s: State, steps: seq<Step>, i: nat)
    requires Inv(t, s) && Alternates(s.log, i) && i < |s.sched.states|
    ensures Alternates(Exec(t, s, steps).log, i)
    decreases |steps|
  {
    hide ClaimsCounted, TasksDistinct, CompleteIsStored, Alternates, Next;
    if steps != [] {
      StepAlternates(t, s, steps[0], i);
      StepInv(t, s, steps[0]);
      StepKeepsSize(t, s, steps[0]);
      ExecAlternates(t, Next(t, s, steps[0]), steps[1..], i);
    }
  }

  /** The balance of a prefix: claims never run ahead of failures by more than one. */
  lemma {:induction false} CountPrefix(log: seq<Event>, k: nat, e: Event)
    requires k <= |log|
    ensures Count(log[..k], e) <= Count(log, e)
    ensures Count(log, e) > Count(log[..k], e) ==> exists c :: k <= c < |log| && log[c] == e
    ensures k < |log| && log[k] == e ==> Count(log, e) > Count(log[..k], e)
    decreases |log|
  {
    if k < |log| {
      var n := |log| - 1;
      CountPrefix(log[..n], k, e);
      assert log[..n][..k] == log[..k];
      if log[n] != e && Count(log, e) > Count(log[..k], e) {
        var c :| k <= c < n && log[..n][c] == e;
        assert log[c] == e;
      }
      if k < n { assert log[..n][k] == log[k]; }
    } else {
      assert log[..k] == log;
    }
  }

  lemma {:induction false} AlternatesAt(log: seq<Event>, k: nat, i: nat)
    requires Alternates(log, i) && k < |log| && log[k] == Claimed(i)
    ensures Count(log[..k], Claimed(i)) == Count(log[..k], Failed(i))
  {
    if k < |log| - 1 {
      assert log[..|log| - 1][..k] == log[..k];
      AlternatesAt(log[..|log| - 1], k, i);
    }
  }

  /** A claimed piece is never handed out again until it has failed. */
  lemma ReclaimedOnlyAfterFailure(t: Torrent, s: State, steps: seq<Step>, i: nat, a: nat, b: nat)
    requires Initial(s) && i < |s.sched.states|
    ensures var log := Exec(t, s, steps).log;
      a < b < |log| && log[a] == Claimed(i) && log[b] == Claimed(i) ==> exists c :: a < c < b && log[c] == Failed(i)
  {
    InitInv(t, s);
    ExecAlternates(t, s, steps, i);
    var log := Exec(t, s, steps).log;
    hide Exec, Inv;
    if a < b < |log| && log[a] == Claimed(i) && log[b] == Claimed(i) {
      LogReclaim(log, i, a, b);
    }
  }

  lemma LogReclaim(log: seq<Event>, i: nat, a: nat, b: nat)
    requires Alternates(log, i) && a < b < |log| && log[a] == Claimed(i) && log[b] == Claimed(i)
    ensures exists c :: a < c < b && log[c] == Failed(i)
  {
    hide Alternates, Count;
    AlternatesAt(log, a, i);
    AlternatesAt(log, b, i);
    var p, q := log[..a + 1], log[..b];
    assert p == log[..a] + [Claimed(i)] && q[..a + 1] == p;
    CountSnoc(log[..a], Claimed(i), Claimed(i));
    CountSnoc(log[..a], Claimed(i), Failed(i));
    CountPrefix(q, a + 1, Claimed(i));
    CountPrefix(q, a + 1, Failed(i));
    var c :| a + 1 <= c < b && q[c] == Failed(i);
    assert log[c] == Failed(i);
  }

  /** How many claims a run has made in all, the measure that makes the download loops end. */
  function Claims(log: seq<Event>): nat
  {
    if log == [] then 0 else Claims(log[..|log| - 1]) + (if log[|log| - 1].Claimed? then 1 else 0)
  }

  function ClaimsBelow(log: seq<Event>, n: nat): nat
  {
    if n == 0 then 0 else ClaimsBelow(log, n - 1) + Count(log, Claimed(n - 1))
  }

  lemma {:induction false} ClaimsBelowSnoc(log: seq<Event>, e: Event, n: nat)
    ensures ClaimsBelow(log + [e], n) == ClaimsBelow(log, n) + (if e.Claimed? && e.index < n then 1 else 0)
  {
    if n > 0 {
      ClaimsBelowSnoc(log, e, n - 1);
      CountSnoc(log, e, Claimed(n - 1));
    }
  }

  lemma {:induction false} NoClaimsBelow(n: nat)
    ensures ClaimsBelow([], n) == 0
  {
    if n > 0 { NoClaimsBelow(n - 1); }
  }

  /** Counting claims piece by piece counts them all. */
  lemma {:induction false} ClaimsByPiece(log: seq<Event>, n: nat)
    requires forall k :: 0 <= k < |log| ==> log[k].index < n
    ensures Claims(log) == ClaimsBelow(log, n)
  {
    if log == [] {
      NoClaimsBelow(n);
    } else {
      var m := |log| - 1;
      ClaimsByPiece(log[..m], n);
      ClaimsBelowSnoc(log[..m], log[m], n);
      assert log == log[..m] + [log[m]];
    }
  }

  lemma {:induction false} BelowBounded(log: seq<Event>, n: nat, bound: nat)
    requires forall i: nat :: i < n ==> Count(log, Claimed(i)) <= bound
    ensures ClaimsBelow(log, n) <= n * bound
  {
    if n > 0 {
      BelowBounded(log, n - 1, bound);
      assert n * bound == (n - 1) * bound + bound;
    }
  }

  predicate IndexesListed(s: State)
  {
    forall k :: 0 <= k < |s.log| ==> s.log[k].index < |s.sched.states|
  }

  lemma StepIndexes(t: Torrent, s: State, step: Step)
    requires Inv(t, s) && IndexesListed(s)
    ensures IndexesListed(Next(t, s, step))
  {
    hide ClaimsCounted, CompleteIsStored, Count, Before, HasPiece, Verifies, WellFormed;
    StepKeepsSize(t, s, step);
  }

  lemma {:induction false} ExecIndexes(t: Torrent, s: State, steps: seq<Step>)
    requires Inv(t, s) && IndexesListed(s)
    ensures var after := Exec(t, s, steps);
      && |after.sched.states| == |s.sched.states| && after.sched.maxFailures == s.sched.maxFailures
      && IndexesListed(after)
    decreases |steps|
  {
    hide ClaimsCounted, CompleteIsStored, TasksDistinct, Next, IndexesListed;
    if steps != [] {
      StepInv(t, s, steps[0]);
      StepKeepsSize(t, s, steps[0]);
      StepIndexes(t, s, steps[0]);
      ExecIndexes(t, Next(t, s, steps[0]), steps[1..]);
    }
  }

  /** No run claims more than `pieces * maxFailures` times in all. */
  lemma DownloadsEnd(t: Torrent, s: State, steps: seq<Step>)
    requires Initial(s)
    ensures Claims(Exec(t, s, steps).log) <= |s.sched.states| * s.sched.maxFailures
  {
    InitInv(t, s);
    ExecIndexes(t, s, steps);
    hide Exec;
    var after := Exec(t, s, steps);
    forall i: nat | i < |after.sched.states| ensures Count(after.log, Claimed(i)) <= after.sched.maxFailures {
      ClaimsBounded(t, s, steps, i);
    }
    BelowBounded(after.log, |after.sched.states|, after.sched.maxFailures);
    ClaimsByPiece(after.log, |after.sched.states|);
  }
}
