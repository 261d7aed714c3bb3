/**
 The single-flight table of handlers/single_flight.rs as a protocol: `join` and the two
 halves of the leader guard's drop are separate atomic steps.
 */
module SingleFlight {
  import opened Base

  type FlightKey = (Key, u64, u64)

  /** Where a request is. A leader that has left the table still has to broadcast. */
  datatype Phase =
    | Fresh
    | Leading(key: FlightKey, channel: nat)
    | Finishing(key: FlightKey, channel: nat)
    | Finished
    | Waiting(key: FlightKey, channel: nat)
    | Woken(timedOut: bool)

  /** A watch channel: its value and the request that created it. */
  datatype Channel = Channel(done: bool, leader: nat)

  datatype State = State(
    table: map<FlightKey, nat>,
    channels: seq<Channel>,
    requests: map<nat, Phase>,
    /** How many waits each request has begun. */
    waits: map<nat, nat>)

  const INIT := State(map[], [], map[], map[])

  function PhaseOf(s: State, r: nat): Phase { if r in s.requests then s.requests[r] else Fresh }

  function WaitsOf(s: State, r: nat): nat { if r in s.waits then s.waits[r] else 0 }

  datatype Step =
    | Join(request: nat, key: FlightKey)
    | Unregister(request: nat)
    | Broadcast(request: nat)
    | Wake(request: nat)
    | TimeOut(request: nat)

  /** `watch::Sender::send` changes the value only while some receiver is alive. */
  predicate HasReceiver(s: State, channel: nat)
  {
    exists r :: r in s.requests && s.requests[r].Waiting? && s.requests[r].channel == channel
  }

  /** Some sender of the channel is alive: the guard's own, or the table's clone. */
  predicate HasSender(s: State, channel: nat)
    requires channel < |s.channels|
  {
    var p := PhaseOf(s, s.channels[channel].leader);
    || (p.Leading? && p.channel == channel) || (p.Finishing? && p.channel == channel)
    || channel in s.table.Values
  }

  /** Steps that are not enabled leave the state alone. */
  function Next(s: State, step: Step): State
  {
    match step
    case Join(r, key) =>
      if !PhaseOf(s, r).Fresh? then s
      else if key in s.table then
        s.(requests := s.requests[r := Waiting(key, s.table[key])], waits := s.waits[r := WaitsOf(s, r) + 1])
      else
        var c := |s.channels|;
        s.(table := s.table[key := c], channels := s.channels + [Channel(false, r)], requests := s.requests[r := Leading(key, c)])
    case Unregister(r) =>
      (match PhaseOf(s, r)
       case Leading(key, c) => s.(table := s.table - {key}, requests := s.requests[r := Finishing(key, c)])
       case _ => s)
    case Broadcast(r) =>
      (match PhaseOf(s, r)
       case Finishing(key, c) =>
         var told := c < |s.channels| && HasReceiver(s, c);
         s.(channels := if told then s.channels[c := s.channels[c].(done := true)] else s.channels,
            requests := s.requests[r := Finished])
       case _ => s)
    case Wake(r) =>
      (match PhaseOf(s, r)
       case Waiting(key, c) =>
         if c < |s.channels| && (s.channels[c].done || !HasSender(s, c)) then s.(requests := s.requests[r := Woken(false)]) else s
       case _ => s)
    case TimeOut(r) =>
      if PhaseOf(s, r).Waiting? then s.(requests := s.requests[r := Woken(true)]) else s
  }

  function Exec(s: State, steps: seq<Step>): State
    decreases |steps|
  {
    if steps == [] then s else Exec(Next(s, steps[0]), steps[1..])
  }

  // ----- invariant -----

  /** A listed range has a live leader on its own channel. */
  ghost predicate TableLed(s: State)
  {
    forall key :: key in s.table ==>
      s.table[key] < |s.channels| && PhaseOf(s, s.channels[s.table[key]].leader) == Leading(key, s.table[key])
  }

  /** Every live leader is the one listed for its range. */
  ghost predicate LeadersListed(s: State)
  {
    forall r :: r in s.requests && s.requests[r].Leading? ==>
      s.requests[r].key in s.table && s.table[s.requests[r].key] == s.requests[r].channel
  }

  ghost predicate LeadersOwnChannel(s: State)
  {
    forall r :: r in s.requests && (s.requests[r].Leading? || s.requests[r].Finishing?) ==>
      s.requests[r].channel < |s.channels| && s.channels[s.requests[r].channel].leader == r
  }

  /** A follower's channel was announced, or its leader has yet to announce. */
  ghost predicate NobodyForgotten(s: State)
  {
    forall r :: r in s.requests && s.requests[r].Waiting? ==>
      var c := s.requests[r].channel;
      && c < |s.channels|
      && (s.channels[c].done ||
          var p := PhaseOf(s, s.channels[c].leader);
          (p.Leading? || p.Finishing?) && p.channel == c)
  }

  ghost predicate WaitsOnce(s: State)
  {
    forall r: nat :: WaitsOf(s, r) == if PhaseOf(s, r).Waiting? || PhaseOf(s, r).Woken? then 1 else 0
  }

  /** A channel is announced only by a leader that has finished. */
  ghost predicate AnnouncedLate(s: State)
  {
    forall c :: 0 <= c < |s.channels| && s.channels[c].done ==> PhaseOf(s, s.channels[c].leader).Finished?
  }

  ghost predicate Inv(s: State)
  {
    TableLed(s) && LeadersListed(s) && LeadersOwnChannel(s) && NobodyForgotten(s) && WaitsOnce(s) && AnnouncedLate(s)
  }

  lemma StepKeepsWaits(s: State, step: Step)
    requires WaitsOnce(s)
    ensures WaitsOnce(Next(s, step))
  {
    var s' := Next(s, step);
    forall r: nat ensures WaitsOf(s', r) == if PhaseOf(s', r).Waiting? || PhaseOf(s', r).Woken? then 1 else 0 {
      assert WaitsOf(s, r) == if PhaseOf(s, r).Waiting? || PhaseOf(s, r).Woken? then 1 else 0;
    }
  }

  lemma StepKeepsTable(s: State, step: Step)
    requires Inv(s)
    ensures TableLed(Next(s, step))
  {
    hide WaitsOnce, NobodyForgotten, HasReceiver, HasSender;
  }

  lemma StepKeepsListing(s: State, step: Step)
    requires Inv(s)
    ensures LeadersListed(Next(s, step))
  {
    hide WaitsOnce, NobodyForgotten, HasReceiver, HasSender;
  }

  lemma StepKeepsChannels(s: State, step: Step)
    requires Inv(s)
    ensures LeadersOwnChannel(Next(s, step))
  {
    hide WaitsOnce, NobodyForgotten, HasReceiver, HasSender, TableLed, LeadersListed;
  }

  lemma StepKeepsFollowers(s: State, step: Step)
    requires Inv(s)
    ensures NobodyForgotten(Next(s, step))
  {
    hide WaitsOnce, LeadersListed;
  }

  lemma StepKeepsAnnounced(s: State, step: Step)
    requires Inv(s)
    ensures AnnouncedLate(Next(s, step))
  {
    hide WaitsOnce, NobodyForgotten, HasReceiver, HasSender, TableLed, LeadersListed;
  }

  lemma StepKeeps(s: State, step: Step)
    requires Inv(s)
    ensures Inv(Next(s, step))
  {
    StepKeepsWaits(s, step);
    StepKeepsTable(s, step);
    StepKeepsListing(s, step);
    StepKeepsChannels(s, step);
    StepKeepsFollowers(s, step);
    StepKeepsAnnounced(s, step);
  }

  ghost predicate OnlyLeader(s: State, key: FlightKey, r: nat)
    requires key in s.table
  {
    && PhaseOf(s, r) == Leading(key, s.table[key])
    && forall q :: q in s.requests && s.requests[q].Leading? && s.requests[q].key == key ==> q == r
  }

  /** Single-flight safety in every reachable state. */
  ghost predicate Safe(s: State)
  {
    // each listed range has exactly one live registered leader
    && (forall key :: key in s.table ==> exists r :: OnlyLeader(s, key, r))
    // no follower waits on a channel whose leader is gone while its value is false
    && (forall r :: r in s.requests && s.requests[r].Waiting? ==>
         var c := s.requests[r].channel; c < |s.channels| && (s.channels[c].done || HasSender(s, c)))
    // each request waits at most once
    && (forall r: nat :: WaitsOf(s, r) <= 1)
  }

  lemma InvIsSafe(s: State)
    requires Inv(s)
    ensures Safe(s)
  {
    forall key | key in s.table ensures exists r :: OnlyLeader(s, key, r) {
      assert OnlyLeader(s, key, s.channels[s.table[key]].leader);
    }
  }

  lemma {:induction false} ExecSafe(s: State, steps: seq<Step>)
    requires Inv(s)
    ensures Inv(Exec(s, steps)) && Safe(Exec(s, steps))
    decreases |steps|
  {
    hide Inv, Safe, Next;
    if steps == [] {
      InvIsSafe(s);
    } else {
      StepKeeps(s, steps[0]);
      ExecSafe(Next(s, steps[0]), steps[1..]);
    }
  }

  /** Every interleaving of any number of requests is safe. */
  lemma SingleFlightSafe(steps: seq<Step>)
    ensures Safe(Exec(INIT, steps))
  {
    ExecSafe(INIT, steps);
  }

  /** A leader that leaves the table takes only its own registration with it. */
  lemma UnregisterIsOwn(s: State, r: nat, key: FlightKey)
    requires Inv(s) && key in s.table
    ensures key !in Next(s, Unregister(r)).table <==> PhaseOf(s, r) == Leading(key, s.table[key])
    ensures key in Next(s, Unregister(r)).table ==> Next(s, Unregister(r)).table[key] == s.table[key]
  {
  }

  /** A follower can wake without a timeout exactly when its leader has finished: neither sooner, when nothing may be cached yet, nor left to its timeout. */
  lemma FinishedLeaderWakes(s: State, r: nat)
    requires Inv(s) && PhaseOf(s, r).Waiting?
    ensures var c := PhaseOf(s, r).channel;
      && c < |s.channels|
      && (PhaseOf(Next(s, Wake(r)), r) == Woken(false) <==> PhaseOf(s, s.channels[c].leader).Finished?)
      && (PhaseOf(Next(s, Wake(r)), r) == Woken(false) || Next(s, Wake(r)) == s)
  {
  }

  /** A first request for a range becomes its leader on a channel of its own, a later one waits for that leader; nobody else is touched. */
  lemma JoinDecides(s: State, r: nat, key: FlightKey)
    requires Inv(s) && PhaseOf(s, r).Fresh?
    ensures var s' := Next(s, Join(r, key));
      && (key !in s.table ==>
           && PhaseOf(s', r) == Leading(key, |s.channels|) && s'.table == s.table[key := |s.channels|]
           && s'.channels == s.channels + [Channel(false, r)] && OnlyLeader(s', key, r))
      && (key in s.table ==>
           && PhaseOf(s', r) == Waiting(key, s.table[key]) && s'.table == s.table && s'.channels == s.channels
           && PhaseOf(s', s'.channels[s.table[key]].leader) == Leading(key, s.table[key]))
      && forall q :: q != r ==> PhaseOf(s', q) == PhaseOf(s, q)
  {
    StepKeepsListing(s, Join(r, key));
  }

  /** A leader's two steps of leaving: it is off the table, then finished; the channel is announced if anyone still listens. */
  lemma LeaderLeaves(s: State, l: nat)
    requires Inv(s) && PhaseOf(s, l).Leading?
    ensures var Leading(key, c) := PhaseOf(s, l);
      var s1 := Next(s, Unregister(l));
      var s2 := Next(s1, Broadcast(l));
      && PhaseOf(s1, l) == Finishing(key, c) && s1.table == s.table - {key} && s1.channels == s.channels
      && PhaseOf(s2, l) == Finished && s2.table == s1.table && |s2.channels| == |s.channels|
      && c < |s.channels|
      && (s2.channels[c].done <==> s.channels[c].done || exists q :: q in s.requests && s.requests[q].Waiting? && s.requests[q].channel == c)
      && (forall d :: 0 <= d < |s.channels| && d != c ==> s2.channels[d] == s.channels[d])
      && forall q :: q != l ==> PhaseOf(s2, q) == PhaseOf(s, q)
  {
    var c := PhaseOf(s, l).channel;
    var s1 := Next(s, Unregister(l));
    assert HasReceiver(s1, c) == HasReceiver(s, c) by {
      assert forall q :: q in s.requests && q != l ==> s1.requests[q] == s.requests[q];
    }
  }

  lemma ExecThree(s: State, a: Step, b: Step, c: Step)
    ensures Exec(s, [a, b, c]) == Next(Next(Next(s, a), b), c)
  {
    hide Next;
    assert [a, b, c][1..] == [b, c] && [b, c][1..] == [c] && [c][1..] == [];
    assert Exec(Next(s, a), [b, c]) == Exec(Next(Next(s, a), b), [c]);
    assert Exec(Next(Next(s, a), b), [c]) == Exec(Next(Next(Next(s, a), b), c), []);
  }

  /** A channel that is announced, or whose leader has yet to leave, stays announced or becomes so when that leader leaves. */
  lemma LeavingAnnounces(s: State, r: nat)
    requires Inv(s) && PhaseOf(s, r).Waiting?
    ensures var c := PhaseOf(s, r).channel;
      && c < |s.channels|
      && var l := s.channels[c].leader;
         var s2 := Next(Next(s, Unregister(l)), Broadcast(l));
         PhaseOf(s2, r) == PhaseOf(s, r) && |s2.channels| == |s.channels| && s2.channels[c].done
  {
    var c := PhaseOf(s, r).channel;
    var l := s.channels[c].leader;
    assert HasReceiver(s, c);
    if PhaseOf(s, l).Leading? {
      LeaderLeaves(s, l);
    } else {
      assert Next(s, Unregister(l)) == s;
    }
  }

  /** In every reachable state, once the leader has left, its follower wakes without a timeout. */
  lemma LeaderReleasesFollower(s: State, r: nat)
    requires Inv(s) && PhaseOf(s, r).Waiting?
    ensures var c := PhaseOf(s, r).channel;
      && c < |s.channels|
      && var l := s.channels[c].leader;
         PhaseOf(Exec(s, [Unregister(l), Broadcast(l), Wake(r)]), r) == Woken(false)
    ensures PhaseOf(Next(s, TimeOut(r)), r) == Woken(true)
  {
    hide Exec, Inv;
    LeavingAnnounces(s, r);
    var l := s.channels[PhaseOf(s, r).channel].leader;
    ExecThree(s, Unregister(l), Broadcast(l), Wake(r));
  }
}
