// The admission gate: a lease-fenced door that opens at most once.
//
// `Apply` gives the effect of one gate call as a function of the gate's state
// and of the clock reading the call makes; the class does the same work on
// fields. The theorems quantify over every sequence of calls.

module Gate {
  import opened Options
  import opened Timing

  datatype Door = Closed | Open

  datatype GateState = GateState(
    generation: nat,
    door: Door,
    leaseUntil: int,
    lastSequence: int,
    openedOnce: bool,
    safeReason: string,
    closedAt: Option<int>)

  function Fresh(generation: nat): GateState {
    GateState(generation, Closed, 0, 0, false, "starting", None)
  }

  datatype Op =
    | Renew(generation: nat, sequence: int, leaseUntil: int)
    | OpenDoor(generation: nat, sequence: int, leaseUntil: int, ready: bool)
    | Close(reason: string)
    | Permits(isPrivate: bool)

  // One call and the clock reading it makes while holding the lock.
  datatype Call = Call(op: Op, now: int)

  // Has this gate neither been opened nor been given a reason to stay shut?
  predicate Startable(g: GateState) {
    !g.openedOnce && g.safeReason == "starting"
  }

  predicate AcceptsLease(g: GateState, generation: nat, sequence: int, leaseUntil: int, now: int) {
    && generation == g.generation
    && sequence > g.lastSequence
    && now < leaseUntil <= now + LEASE_SLACK
  }

  function Shut(g: GateState, reason: string, now: int): GateState {
    g.(door := Closed,
       safeReason := reason,
       closedAt := if g.door.Open? || g.closedAt.None? then Some(now) else g.closedAt)
  }

  // The state after a call and the value it returns (`Close` returns true).
  function Apply(g: GateState, c: Call): (GateState, bool) {
    match c.op
    case Renew(generation, sequence, leaseUntil) =>
      if AcceptsLease(g, generation, sequence, leaseUntil, c.now)
      then (g.(lastSequence := sequence, leaseUntil := leaseUntil), true)
      else (g, false)
    case OpenDoor(generation, sequence, leaseUntil, ready) =>
      if ready && Startable(g) && AcceptsLease(g, generation, sequence, leaseUntil, c.now)
      then (g.(lastSequence := sequence, leaseUntil := leaseUntil,
               openedOnce := true, door := Open, safeReason := "ready"), true)
      else (g, false)
    case Close(reason) =>
      (Shut(g, reason, c.now), true)
    case Permits(isPrivate) =>
      if isPrivate && Startable(g) then (g, true)
      else if g.door.Open? && c.now >= g.leaseUntil then (Shut(g, "lease_expired", c.now), false)
      else (g, g.door.Open?)
  }

  // The gate as the program has it: fields updated in place under one lock.
  class AdmissionGate {
    const generation: nat
    var door: Door
    var leaseUntil: int
    var lastSequence: int
    var openedOnce: bool
    var safeReason: string
    var closedAt: Option<int>

    ghost function Value(): GateState
      reads this
    {
      GateState(generation, door, leaseUntil, lastSequence, openedOnce, safeReason, closedAt)
    }

    constructor (generation: nat)
      ensures Value() == Fresh(generation)
    {
      this.generation := generation;
      door, leaseUntil, lastSequence := Closed, 0, 0;
      openedOnce, safeReason, closedAt := false, "starting", None;
    }

    method Renew(generation: nat, sequence: int, leaseUntil: int, now: int) returns (ok: bool)
      modifies this
      ensures (Value(), ok) == Apply(old(Value()), Call(Op.Renew(generation, sequence, leaseUntil), now))
    {
      if generation != this.generation || sequence <= lastSequence
         || leaseUntil <= now || leaseUntil > now + LEASE_SLACK {
        return false;
      }
      lastSequence := sequence;
      this.leaseUntil := leaseUntil;
      return true;
    }

    method TryOpen(generation: nat, sequence: int, leaseUntil: int, ready: bool, now: int) returns (ok: bool)
      modifies this
      ensures (Value(), ok) == Apply(old(Value()), Call(OpenDoor(generation, sequence, leaseUntil, ready), now))
    {
      if !ready || openedOnce || safeReason != "starting" {
        return false;
      }
      var renewed := Renew(generation, sequence, leaseUntil, now);
      if !renewed {
        return false;
      }
      openedOnce := true;
      door, safeReason := Open, "ready";
      return true;
    }

    method CloseDoor(reason: string, now: int)
      modifies this
      ensures (Value(), true) == Apply(old(Value()), Call(Close(reason), now))
    {
      if door != Closed || closedAt.None? {
        closedAt := Some(now);
      }
      door, safeReason := Closed, reason;
    }

    method CheckPermits(isPrivate: bool, now: int) returns (ok: bool)
      modifies this
      ensures (Value(), ok) == Apply(old(Value()), Call(Permits(isPrivate), now))
    {
      if isPrivate && !openedOnce && safeReason == "starting" {
        return true;
      }
      if door == Open && now >= leaseUntil {
        CloseDoor("lease_expired", now);
      }
      return door == Open;
    }
  }

  // ----- whole runs -----

  // The state a sequence of calls leads to.
  function After(g: GateState, calls: seq<Call>): GateState {
    if calls == [] then g else Apply(After(g, calls[..|calls| - 1]), calls[|calls| - 1]).0
  }

  // What call number i returned.
  function Returned(g: GateState, calls: seq<Call>, i: nat): bool
    requires i < |calls|
  {
    Apply(After(g, calls[..i]), calls[i]).1
  }

  // Call number i handed the gate a lease that it accepted.
  predicate TookLease(g: GateState, calls: seq<Call>, i: nat)
    requires i < |calls|
  {
    (calls[i].op.Renew? || calls[i].op.OpenDoor?) && Returned(g, calls, i)
  }

  lemma AfterStep(g: GateState, calls: seq<Call>, i: nat)
    requires i < |calls|
    ensures After(g, calls[..i + 1]) == Apply(After(g, calls[..i]), calls[i]).0
  {
    assert calls[..i + 1][..i] == calls[..i];
  }

  lemma {:induction false} AfterAppend(g: GateState, calls: seq<Call>, more: seq<Call>)
    ensures After(g, calls + more) == After(After(g, calls), more)
  {
    if more == [] {
      assert calls + more == calls;
    } else {
      var n := |more| - 1;
      AfterAppend(g, calls, more[..n]);
      assert (calls + more)[..|calls| + n] == calls + more[..n];
    }
  }

  function Joined(batches: seq<seq<Call>>): seq<Call> {
    if batches == [] then [] else Joined(batches[..|batches| - 1]) + batches[|batches| - 1]
  }

  // A gate that each batch of calls takes from one state to the next goes
  // through the run of all the batches joined.
  lemma {:induction false} BatchesRun(gates: seq<GateState>, batches: seq<seq<Call>>, n: nat)
    requires n <= |batches| < |gates|
    requires forall i: nat :: i < |batches| ==> gates[i + 1] == After(gates[i], batches[i])
    ensures gates[n] == After(gates[0], Joined(batches[..n]))
  {
    if n > 0 {
      BatchesRun(gates, batches, n - 1);
      AfterAppend(gates[0], Joined(batches[..n - 1]), batches[n - 1]);
      assert batches[..n][..n - 1] == batches[..n - 1];
    }
  }

  // Once it has been open, a closed gate stays closed.
  lemma {:induction false} ShutForGood(g: GateState, calls: seq<Call>, i: nat, j: nat)
    requires i <= j <= |calls|
    requires After(g, calls[..i]).openedOnce && After(g, calls[..i]).door.Closed?
    ensures After(g, calls[..j]).openedOnce && After(g, calls[..j]).door.Closed?
  {
    if i < j {
      ShutForGood(g, calls, i, j - 1);
      AfterStep(g, calls, j - 1);
    }
  }

  lemma {:induction false} OpenedOnceIfOpen(generation: nat, calls: seq<Call>)
    ensures After(Fresh(generation), calls).door.Open? ==> After(Fresh(generation), calls).openedOnce
  {
    if calls != [] {
      OpenedOnceIfOpen(generation, calls[..|calls| - 1]);
    }
  }

  // The open states of any run form one contiguous interval: renewals,
  // refused openings and expired leases never lead back to an open door.
  lemma OpenIsOneInterval(generation: nat, calls: seq<Call>, i: nat, j: nat, k: nat)
    requires i <= j <= k <= |calls|
    requires After(Fresh(generation), calls[..i]).door.Open?
    requires After(Fresh(generation), calls[..k]).door.Open?
    ensures After(Fresh(generation), calls[..j]).door.Open?
  {
    var g := Fresh(generation);
    OpenedOnceIfOpen(generation, calls[..i]);
    StaysOpenedOnce(g, calls, i, j);
    if After(g, calls[..j]).door.Closed? {
      ShutForGood(g, calls, j, k);
    }
  }

  lemma {:induction false} StaysOpenedOnce(g: GateState, calls: seq<Call>, i: nat, j: nat)
    requires i <= j <= |calls|
    requires After(g, calls[..i]).openedOnce
    ensures After(g, calls[..j]).openedOnce
  {
    if i < j {
      StaysOpenedOnce(g, calls, i, j - 1);
      AfterStep(g, calls, j - 1);
    }
  }

  lemma {:induction false} SequenceNeverFalls(g: GateState, calls: seq<Call>, i: nat, j: nat)
    requires i <= j <= |calls|
    ensures After(g, calls[..i]).lastSequence <= After(g, calls[..j]).lastSequence
  {
    if i < j {
      SequenceNeverFalls(g, calls, i, j - 1);
      AfterStep(g, calls, j - 1);
    }
  }

  // Accepted sequence numbers strictly increase, and the door opens at most
  // once, whatever is replayed or reordered in between.
  lemma AcceptedSequencesIncrease(generation: nat, calls: seq<Call>, i: nat, j: nat)
    requires i < j < |calls|
    requires TookLease(Fresh(generation), calls, i) && TookLease(Fresh(generation), calls, j)
    ensures calls[i].op.sequence < calls[j].op.sequence
    ensures !(calls[i].op.OpenDoor? && calls[j].op.OpenDoor?)
  {
    var g := Fresh(generation);
    AfterStep(g, calls, i);
    SequenceNeverFalls(g, calls, i + 1, j);
    if calls[i].op.OpenDoor? {
      StaysOpenedOnce(g, calls, i + 1, j);
    }
  }

  // The lease in force was granted by an accepted call of this very run, for
  // this generation, and reaches at most the slack past that call.
  lemma {:induction false} LeaseProvenance(generation: nat, calls: seq<Call>) returns (granted: nat)
    requires After(Fresh(generation), calls).openedOnce || After(Fresh(generation), calls).leaseUntil != 0
    ensures granted < |calls| && TookLease(Fresh(generation), calls, granted)
    ensures calls[granted].op.generation == generation
    ensures calls[granted].op.leaseUntil == After(Fresh(generation), calls).leaseUntil
    ensures calls[granted].now < calls[granted].op.leaseUntil <= calls[granted].now + LEASE_SLACK
  {
    var g := Fresh(generation);
    var n := |calls| - 1;
    KeepsGeneration(g, calls[..n]);
    if TookLease(g, calls, n) {
      granted := n;
    } else {
      granted := LeaseProvenance(generation, calls[..n]);
      assert calls[..n][..granted] == calls[..granted];
    }
  }

  lemma {:induction false} KeepsGeneration(g: GateState, calls: seq<Call>)
    ensures After(g, calls).generation == g.generation
  {
    if calls != [] {
      KeepsGeneration(g, calls[..|calls| - 1]);
    }
  }

  // A public check that passes lies strictly inside an accepted lease, so at
  // most the slack after the moment that lease was accepted.
  lemma PublicAdmissionIsFenced(generation: nat, calls: seq<Call>, i: nat) returns (granted: nat)
    requires i < |calls| && calls[i].op == Permits(false) && Returned(Fresh(generation), calls, i)
    ensures granted < i && TookLease(Fresh(generation), calls, granted)
    ensures calls[i].now < calls[granted].op.leaseUntil <= calls[granted].now + LEASE_SLACK
  {
    OpenedOnceIfOpen(generation, calls[..i]);
    granted := LeaseProvenance(generation, calls[..i]);
    assert calls[..i][..granted] == calls[..granted];
  }

  // Was the last explicit close, if any, one that gave the reason "starting"?
  predicate OnlyStartingReason(calls: seq<Call>) {
    calls == [] ||
    (var last := calls[|calls| - 1];
     if last.op.Close? then last.op.reason == "starting" else OnlyStartingReason(calls[..|calls| - 1]))
  }

  ghost predicate NeverOpened(generation: nat, calls: seq<Call>) {
    forall k: nat :: k < |calls| && calls[k].op.OpenDoor? ==> !Returned(Fresh(generation), calls, k)
  }

  lemma {:induction false} StartableExactly(generation: nat, calls: seq<Call>)
    ensures !After(Fresh(generation), calls).openedOnce <==> NeverOpened(generation, calls)
    ensures NeverOpened(generation, calls) ==>
              (After(Fresh(generation), calls).safeReason == "starting" <==> OnlyStartingReason(calls))
  {
    var g := Fresh(generation);
    if calls != [] {
      var n := |calls| - 1;
      var init := calls[..n];
      StartableExactly(generation, init);
      OpenedOnceIfOpen(generation, init);
      assert forall k: nat :: k < n ==> init[..k] == calls[..k];
      assert forall k: nat :: k < n ==> Returned(g, init, k) == Returned(g, calls, k);
      assert NeverOpened(generation, calls) <==>
          NeverOpened(generation, init) && !(calls[n].op.OpenDoor? && Returned(g, calls, n));
    }
  }

  // The lease that the last accepting call brought, or 0.
  function LeaseInForce(generation: nat, calls: seq<Call>): int {
    if calls == [] then 0
    else
      var n := |calls| - 1;
      if TookLease(Fresh(generation), calls, n) then calls[n].op.leaseUntil
      else LeaseInForce(generation, calls[..n])
  }

  // The highest number an accepting call brought, or 0.
  ghost predicate IsNewest(generation: nat, calls: seq<Call>, sequence: int) {
    && 0 < sequence
    && forall k: nat :: k < |calls| && TookLease(Fresh(generation), calls, k) ==> calls[k].op.sequence < sequence
  }

  lemma PrefixReturns(g: GateState, calls: seq<Call>, n: nat, k: nat)
    requires k < n <= |calls|
    ensures calls[..n][k] == calls[k] && Returned(g, calls[..n], k) == Returned(g, calls, k)
  {
    assert calls[..n][..k] == calls[..k];
  }

  lemma NewestStep(generation: nat, calls: seq<Call>, sequence: int)
    requires calls != []
    ensures var n := |calls| - 1;
            IsNewest(generation, calls, sequence) <==>
              && IsNewest(generation, calls[..n], sequence)
              && (TookLease(Fresh(generation), calls, n) ==> calls[n].op.sequence < sequence)
  {
    var n := |calls| - 1;
    forall k: nat | k < n
      ensures TookLease(Fresh(generation), calls[..n], k) == TookLease(Fresh(generation), calls, k)
      ensures calls[..n][k] == calls[k]
    {
      PrefixReturns(Fresh(generation), calls, n, k);
    }
  }

  lemma {:induction false} LeaseAndNumberExactly(generation: nat, calls: seq<Call>, sequence: int)
    ensures After(Fresh(generation), calls).leaseUntil == LeaseInForce(generation, calls)
    ensures After(Fresh(generation), calls).lastSequence < sequence <==> IsNewest(generation, calls, sequence)
  {
    var g := Fresh(generation);
    if calls != [] {
      var n := |calls| - 1;
      LeaseAndNumberExactly(generation, calls[..n], sequence);
      NewestStep(generation, calls, sequence);
      if TookLease(g, calls, n) {
        LeaseAndNumberExactly(generation, calls[..n], calls[n].op.sequence);
      }
    }
  }

  // A lease that any gate of this generation may take now: a higher number
  // than all that were accepted, ending in the future but not too far in it.
  ghost predicate Acceptable(generation: nat, calls: seq<Call>, c: Call)
    requires c.op.Renew? || c.op.OpenDoor?
  {
    && c.op.generation == generation
    && IsNewest(generation, calls, c.op.sequence)
    && c.now < c.op.leaseUntil <= c.now + 1050 * MILLISECOND
  }

  // A renewal is taken exactly if its lease is acceptable, whatever the door
  // is; and then that lease is the one in force, and nothing else changed.
  lemma RenewalExactly(generation: nat, calls: seq<Call>, i: nat)
    requires i < |calls| && calls[i].op.Renew?
    ensures Returned(Fresh(generation), calls, i) <==> Acceptable(generation, calls[..i], calls[i])
    ensures var before, after := After(Fresh(generation), calls[..i]), After(Fresh(generation), calls[..i + 1]);
            && (Returned(Fresh(generation), calls, i) ==>
                  after == before.(leaseUntil := calls[i].op.leaseUntil, lastSequence := calls[i].op.sequence))
            && (!Returned(Fresh(generation), calls, i) ==> after == before)
  {
    KeepsGeneration(Fresh(generation), calls[..i]);
    LeaseAndNumberExactly(generation, calls[..i], calls[i].op.sequence);
    AfterStep(Fresh(generation), calls, i);
  }

  // The door opens exactly for an acceptable lease, if what is behind it is
  // ready, at the first such call, and with no close before it that gave a
  // reason other than "starting" last.
  lemma OpeningExactly(generation: nat, calls: seq<Call>, i: nat)
    requires i < |calls| && calls[i].op.OpenDoor?
    ensures Returned(Fresh(generation), calls, i) <==>
              && calls[i].op.ready && NeverOpened(generation, calls[..i]) && OnlyStartingReason(calls[..i])
              && Acceptable(generation, calls[..i], calls[i])
    ensures Returned(Fresh(generation), calls, i) ==> After(Fresh(generation), calls[..i + 1]).door.Open?
  {
    KeepsGeneration(Fresh(generation), calls[..i]);
    StartableExactly(generation, calls[..i]);
    LeaseAndNumberExactly(generation, calls[..i], calls[i].op.sequence);
    AfterStep(Fresh(generation), calls, i);
  }

  // Call m does not shut an open door: it is no close, and a check finds the
  // lease in force still running.
  predicate LeavesOpen(generation: nat, calls: seq<Call>, m: nat)
    requires m < |calls|
  {
    && !calls[m].op.Close?
    && (calls[m].op.Permits? ==> calls[m].now < LeaseInForce(generation, calls[..m]))
  }

  // Call k opened the door, and no call since has shut it.
  ghost predicate HeldOpenSince(generation: nat, calls: seq<Call>, k: nat) {
    && k < |calls| && calls[k].op.OpenDoor? && Returned(Fresh(generation), calls, k)
    && forall m: nat :: k < m < |calls| ==> LeavesOpen(generation, calls, m)
  }

  ghost predicate HeldOpen(generation: nat, calls: seq<Call>) {
    exists k: nat :: HeldOpenSince(generation, calls, k)
  }

  // What is true of a call in a run is true of it in every longer run.
  lemma HeldOpenPrefix(generation: nat, calls: seq<Call>, k: nat)
    requires k < |calls| - 1
    ensures HeldOpenSince(generation, calls, k) <==>
              HeldOpenSince(generation, calls[..|calls| - 1], k) && LeavesOpen(generation, calls, |calls| - 1)
  {
    var n := |calls| - 1;
    var init := calls[..n];
    PrefixReturns(Fresh(generation), calls, n, k);
    assert forall m: nat :: m < n ==> init[..m] == calls[..m];
    assert forall m: nat :: k < m < n ==> LeavesOpen(generation, init, m) == LeavesOpen(generation, calls, m);
    if HeldOpenSince(generation, calls, k) {
      forall m: nat | k < m < n
        ensures LeavesOpen(generation, init, m)
      {
        assert LeavesOpen(generation, calls, m);
      }
    }
  }

  lemma ApplyDoor(g: GateState, c: Call)
    requires g.door.Open? ==> g.openedOnce
    ensures Apply(g, c).0.door.Open? <==>
              || (c.op.OpenDoor? && Apply(g, c).1)
              || (g.door.Open? && !c.op.Close? && (c.op.Permits? ==> c.now < g.leaseUntil))
  {
  }

  lemma DoorStep(generation: nat, calls: seq<Call>)
    requires calls != []
    ensures var n := |calls| - 1;
            After(Fresh(generation), calls).door.Open? <==>
              || (calls[n].op.OpenDoor? && Returned(Fresh(generation), calls, n))
              || (After(Fresh(generation), calls[..n]).door.Open? && LeavesOpen(generation, calls, n))
  {
    LeaseAndNumberExactly(generation, calls[..|calls| - 1], 0);
    OpenedOnceIfOpen(generation, calls[..|calls| - 1]);
    ApplyDoor(After(Fresh(generation), calls[..|calls| - 1]), calls[|calls| - 1]);
  }

  lemma {:induction false} DoorExactly(generation: nat, calls: seq<Call>)
    ensures After(Fresh(generation), calls).door.Open? <==> HeldOpen(generation, calls)
  {
    if calls != [] {
      var n := |calls| - 1;
      DoorExactly(generation, calls[..n]);
      DoorStep(generation, calls);
      forall k: nat | k < n
        ensures HeldOpenSince(generation, calls, k) <==>
                  HeldOpenSince(generation, calls[..n], k) && LeavesOpen(generation, calls, n)
      {
        HeldOpenPrefix(generation, calls, k);
      }
      if calls[n].op.OpenDoor? && Returned(Fresh(generation), calls, n) {
        assert HeldOpenSince(generation, calls, n);
      }
    }
  }

  // Exactly when the public is let in: some call opened the door, no close and
  // no lapse shut it since, and the lease in force still runs.
  lemma PublicAdmissionExactly(generation: nat, calls: seq<Call>, i: nat)
    requires i < |calls| && calls[i].op == Permits(false)
    ensures Returned(Fresh(generation), calls, i) <==>
              HeldOpen(generation, calls[..i]) && calls[i].now < LeaseInForce(generation, calls[..i])
  {
    DoorExactly(generation, calls[..i]);
    LeaseAndNumberExactly(generation, calls[..i], 0);
  }

  // Exactly when the private probe is let in: before any successful opening,
  // as long as no close has given a reason other than "starting"; or whenever
  // the public is.
  lemma PrivateAdmissionExactly(generation: nat, calls: seq<Call>, i: nat)
    requires i < |calls| && calls[i].op == Permits(true)
    ensures Returned(Fresh(generation), calls, i) <==>
              || (NeverOpened(generation, calls[..i]) && OnlyStartingReason(calls[..i]))
              || (HeldOpen(generation, calls[..i]) && calls[i].now < LeaseInForce(generation, calls[..i]))
  {
    StartableExactly(generation, calls[..i]);
    DoorExactly(generation, calls[..i]);
    LeaseAndNumberExactly(generation, calls[..i], 0);
  }

  // A close that gives the reason "starting" before the door was ever opened
  // shuts nothing: the probe is still admitted and the door can still open.
  // The program's control loop never sends that reason.
  lemma StartingCloseDoesNotLatch(generation: nat)
    ensures var calls := [Call(Close("starting"), 0),
                          Call(Permits(true), 0),
                          Call(OpenDoor(generation, 1, LEASE, true), 0)];
            Returned(Fresh(generation), calls, 1) && Returned(Fresh(generation), calls, 2)
  {
    var calls := [Call(Close("starting"), 0), Call(Permits(true), 0), Call(OpenDoor(generation, 1, LEASE, true), 0)];
    AfterStep(Fresh(generation), calls, 0);
    AfterStep(Fresh(generation), calls, 1);
    assert calls[..0] == [];
  }

  // Any other close is final: from then on nothing is admitted, publicly or
  // privately, and nothing opens, unless a later close gives that reason.
  lemma {:induction false} CloseIsFinal(generation: nat, calls: seq<Call>, i: nat, j: nat)
    requires i < j < |calls|
    requires calls[i].op.Close? && calls[i].op.reason != "starting"
    requires forall k :: i < k < j && calls[k].op.Close? ==> calls[k].op.reason != "starting"
    ensures After(Fresh(generation), calls[..j]).door.Closed? && !Startable(After(Fresh(generation), calls[..j]))
    ensures calls[j].op.Permits? || calls[j].op.OpenDoor? ==> !Returned(Fresh(generation), calls, j)
  {
    var g := Fresh(generation);
    if j == i + 1 {
      AfterStep(g, calls, i);
    } else {
      CloseIsFinal(generation, calls, i, j - 1);
      AfterStep(g, calls, j - 1);
    }
  }
}
