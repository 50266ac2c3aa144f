// What an observer of the supervisor can see, and what it may rely on.
//
// A supervisor leaves a log of events. `Allowed` says which event may come
// next given a summary of the events so far; `Accepted` logs are those all of
// whose events were allowed. The class in Supervisor.dfy is proved to leave
// only accepted logs; the theorems here say what holds of every one of them.

module Protocol {
  import opened Options
  import opened Timing
  import Pool
  import Wire

  datatype SupervisorState = Starting | Ready | Degraded | Draining | Recovering | Unavailable

  datatype AckedCommand = CloseCommand | OpenCommand | StopCommand

  datatype GateView = GateClosed | GateOpen | GateUnknown

  // An absent occupancy counts as 0.
  datatype Ack = Ack(command: AckedCommand, number: nat, sentAt: int, gate: GateView, occupancy: Option<nat>)

  // Why a recovery was decided. An unconfirmed work age names the deadline
  // that passed, a stale heartbeat the stamp of the last one.
  datatype Reason =
    | ChildCrash
    | ControlLost(what: string)
    | HeartbeatStale(heartbeat: int)
    | WorkAgeExceeded
    | WorkAgeUnconfirmed(deadline: int)
    | PublicGateClosed

  datatype Event =
    | StateSet(generation: nat, state: SupervisorState)
    | Spawned(generation: nat)
    | HelloSeen(generation: nat, sound: bool)
    | HeartbeatSeen(generation: nat, snapshot: Pool.Snapshot)
    | ProbeSeen(generation: nat, ok: bool, occupancy: Option<nat>)
    | AckSeen(generation: nat, ack: Ack)
    | ExitSeen(generation: nat)                                 // the process was found to have ended
    | FaultSeen(generation: nat, what: string)                  // a fault of the channel or the child was found
    | ClosedSeen(generation: nat)                               // the channel was found closed
    | CommandSent(generation: nat, command: Wire.Command, number: nat, at: int)
    | ReadyAnnounced(generation: nat)
    | RequestRefused(generation: nat, deadline: int, at: int)  // the channel refused to ask for a snapshot
    | StopSeen(generation: nat)
    | FailureSeen(generation: nat)                              // the parent asked to fail closed
    | FailureTaken(generation: nat)                             // and a tick begins to
    | Incident(generation: nat, attempt: nat, reason: Reason, at: int, shown: Option<Pool.Snapshot>)
    | Retired(generation: nat, accredited: bool)

  // What the supervisor decided and did so far.
  datatype Core = Core(
    generation: nat,
    attempts: nat,
    state: SupervisorState,
    held: bool,            // a child was spawned and its handle not given up
    mayRenew: bool,        // spawned, and neither an incident nor UNAVAILABLE since
    stopping: bool,
    failing: bool,         // asked to fail closed, and not yet about it
    unavailable: bool,     // UNAVAILABLE was announced, and no start since
    wasReady: bool,        // READY was reached in this generation
    openNumber: nat,       // the number of this generation's open command (0 if none)
    refusedFor: Option<int>,  // the deadline for which a snapshot request was refused
    clock: int)            // the latest stamp in the log

  // What it heard from the current generation's child.
  datatype Ears = Ears(
    sound: bool,                // a hello with all checks true
    beats: seq<Pool.Snapshot>,  // the accepted heartbeats
    probed: bool,               // an ok probe with occupancy 0
    acks: set<Ack>,
    gone: bool,
    fault: Option<string>,      // the fault found last
    severed: bool)

  datatype Monitor = Monitor(core: Core, ears: Ears)

  const DEAF := Ears(false, [], false, {}, false, None, false)
  const INITIAL := Monitor(Core(0, 0, Starting, false, false, false, false, false, false, 0, None, 0), DEAF)

  predicate IsHeard(e: Event) {
    || e.HelloSeen? || e.HeartbeatSeen? || e.ProbeSeen? || e.AckSeen?
    || e.ExitSeen? || e.FaultSeen? || e.ClosedSeen?
  }

  function Hear(h: Ears, e: Event): Ears {
    match e
    case HelloSeen(_, sound) => h.(sound := h.sound || sound)
    case HeartbeatSeen(_, snapshot) => h.(beats := h.beats + [snapshot])
    case ProbeSeen(_, ok, occupancy) => h.(probed := h.probed || (ok && occupancy == Some(0)))
    case AckSeen(_, ack) => h.(acks := h.acks + {ack})
    case ExitSeen(_) => h.(gone := true)
    case FaultSeen(_, what) => h.(fault := Some(what))
    case ClosedSeen(_) => h.(severed := true)
    case StateSet(_, state) => if state.Starting? then DEAF else h
    case _ => h
  }

  function Decide(c: Core, e: Event): Core {
    match e
    case StateSet(generation, Starting) =>
      c.(generation := generation, state := Starting, mayRenew := false, wasReady := false, openNumber := 0,
         unavailable := false, refusedFor := None)
    case StateSet(_, state) =>
      c.(state := state,
         wasReady := c.wasReady || state.Ready?,
         unavailable := c.unavailable || state.Unavailable?,
         mayRenew := c.mayRenew && !state.Unavailable?)
    case Spawned(_) => c.(held := true, mayRenew := true)
    case CommandSent(_, command, number, at) =>
      c.(clock := at, openNumber := if command.Open? then number else c.openNumber)
    case RequestRefused(_, deadline, at) => c.(refusedFor := Some(deadline), clock := at)
    case StopSeen(_) => c.(stopping := true)
    case FailureSeen(_) => c.(failing := true)
    case FailureTaken(_) => c.(failing := false, mayRenew := false)
    case Incident(_, attempt, _, at, _) => c.(attempts := attempt, state := Recovering, mayRenew := false, clock := at)
    case Retired(_, accredited) => c.(held := !accredited)
    case _ => c
  }

  function Update(m: Monitor, e: Event): Monitor {
    Monitor(Decide(m.core, e), Hear(m.ears, e))
  }

  predicate OpenAcknowledged(m: Monitor, a: Ack) {
    a in m.ears.acks && AcknowledgesOpen(a) && a.number == m.core.openNumber
  }

  predicate AcknowledgesOpen(a: Ack) {
    a.command.OpenCommand? && a.gate.GateOpen? && (a.occupancy.None? || a.occupancy == Some(0))
  }

  ghost predicate Earned(m: Monitor) {
    m.core.held && Checked(m.ears) && exists a :: OpenAcknowledged(m, a)
  }

  // A snapshot stamped at or after some job's limit still holds that job.
  ghost predicate Overdue(s: Pool.Snapshot) {
    exists id :: id in s.jobs && s.heartbeat >= s.jobs[id].admittedAt + WORK_LIMIT
  }

  // No job of the snapshot was admitted before `a`, and one was at `a`.
  ghost predicate OldestAt(s: Pool.Snapshot, a: int) {
    && (forall id :: id in s.jobs ==> a <= s.jobs[id].admittedAt)
    && (exists id :: id in s.jobs && s.jobs[id].admittedAt == a)
  }

  // One of these snapshots holds a job, its oldest, whose limit is `deadline`.
  ghost predicate Owes(beats: seq<Pool.Snapshot>, deadline: int) {
    exists i :: 0 <= i < |beats| && OldestAt(beats[i], deadline - WORK_LIMIT)
  }

  // The last heartbeat still speaks for work whose limit has passed since.
  ghost predicate Unsettled(beats: seq<Pool.Snapshot>, deadline: int, at: int) {
    Owes(beats, deadline) && beats[|beats| - 1].heartbeat < deadline <= at
  }

  predicate RestsOnSnapshot(reason: Reason) {
    reason.WorkAgeExceeded? || reason.WorkAgeUnconfirmed? || reason.PublicGateClosed?
  }

  // The evidence an incident must carry.
  ghost predicate Justified(m: Monitor, reason: Reason, at: int) {
    var beats := m.ears.beats;
    match reason
    case ChildCrash => m.ears.gone
    case ControlLost(what) => m.ears.fault == Some(what) || (m.ears.severed && what == "control_lost")
    case HeartbeatStale(heartbeat) =>
      beats != [] && heartbeat == beats[|beats| - 1].heartbeat && at >= heartbeat + HEARTBEAT_LIMIT
    case WorkAgeExceeded => beats != [] && Overdue(beats[|beats| - 1])
    case WorkAgeUnconfirmed(deadline) =>
      && Unsettled(beats, deadline, at)
      && (at >= deadline + WORK_CONFIRMATION || m.core.refusedFor == Some(deadline))
    case PublicGateClosed => beats != [] && !beats[|beats| - 1].gateOpen
  }

  ghost predicate Allowed(m: Monitor, e: Event) {
    var c := m.core;
    match e
    case StateSet(generation, Starting) =>
      && !c.held && generation == c.generation + 1 <= c.attempts + 1
      && (c.unavailable || c.stopping || c.failing ==> c.generation == 0)
    case StateSet(generation, Ready) =>
      generation == c.generation && !c.unavailable && (c.wasReady || Earned(m))
    case StateSet(generation, Degraded) =>
      generation == c.generation && !c.unavailable && c.wasReady
    case Spawned(generation) =>
      && generation == c.generation && c.state.Starting? && 0 < generation
      && !c.held && !c.mayRenew && !c.unavailable
    case CommandSent(generation, command, number, at) =>
      && generation == c.generation && 0 < number && c.clock <= at
      && (GrantsLease(e) ==> c.mayRenew && !c.unavailable && command.leaseUntil == at + LEASE)
      && (command.Lease? ==> !c.stopping && !c.failing)
      && (command.Open? ==> c.state.Starting? && c.held && c.openNumber == 0 && Checked(m.ears))
    case RequestRefused(generation, deadline, at) =>
      generation == c.generation && c.clock <= at && Unsettled(m.ears.beats, deadline, at)
    case FailureTaken(generation) =>
      generation == c.generation && c.failing && (c.state.Starting? ==> c.generation == 0)
    case ReadyAnnounced(generation) => generation == c.generation && c.state.Ready? && c.wasReady && !c.unavailable
    case Incident(generation, attempt, reason, at, shown) =>
      && generation == c.generation && c.clock <= at && !c.unavailable
      && c.attempts <= attempt <= c.attempts + 1 && attempt <= MAX_RECOVERIES
      && (shown.Some? ==> m.ears.beats != [] && shown.value == m.ears.beats[|m.ears.beats| - 1])
      && Justified(m, reason, at) && (RestsOnSnapshot(reason) ==> shown.Some?)
    case Retired(generation, _) => generation == c.generation && c.held
    case HeartbeatSeen(generation, snapshot) =>
      generation == c.generation && c.held && Newer(m.ears.beats, snapshot)
    case _ => e.generation == c.generation && (IsHeard(e) ==> c.held)
  }

  // A sound hello, a heartbeat and a passed probe.
  predicate Checked(h: Ears) {
    h.sound && h.beats != [] && h.probed
  }

  predicate Newer(beats: seq<Pool.Snapshot>, snapshot: Pool.Snapshot) {
    beats == [] || beats[|beats| - 1].heartbeat < snapshot.heartbeat
  }

  predicate GrantsLease(e: Event) {
    e.CommandSent? && (e.command.Lease? || e.command.Open?)
  }

  // Event number i was allowed, and led from one monitor to the next.
  ghost predicate LinkedAt(log: seq<Event>, ms: seq<Monitor>, i: nat)
    requires i < |log| < |ms|
  {
    Allowed(ms[i], log[i]) && ms[i + 1] == Update(ms[i], log[i])
  }

  // An accepted log, with the monitor before each event and after the last.
  ghost predicate Accepted(log: seq<Event>, ms: seq<Monitor>) {
    && |ms| == |log| + 1
    && ms[0] == INITIAL
    && forall i: nat :: i < |log| ==> LinkedAt(log, ms, i)
  }

  // A log under construction.
  datatype Trace = Trace(log: seq<Event>, ms: seq<Monitor>)

  type History = t: Trace | Accepted(t.log, t.ms) ghost witness Trace([], [INITIAL])

  ghost function Last(h: History): Monitor {
    h.ms[|h.log|]
  }

  lemma LinksStay(h: History, e: Event, m: Monitor)
    ensures forall i: nat :: i < |h.log| ==> LinkedAt(h.log + [e], h.ms + [m], i)
  {
    forall i: nat | i < |h.log|
      ensures LinkedAt(h.log + [e], h.ms + [m], i)
    {
      assert LinkedAt(h.log, h.ms, i);
      assert (h.log + [e])[i] == h.log[i] && (h.ms + [m])[i] == h.ms[i] && (h.ms + [m])[i + 1] == h.ms[i + 1];
    }
  }

  ghost function Extend(h: History, e: Event): (r: History)
    requires Allowed(Last(h), e)
    ensures r.log == h.log + [e] && Last(r) == Update(Last(h), e)
  {
    LinksStay(h, e, Update(Last(h), e));
    Trace(h.log + [e], h.ms + [Update(Last(h), e)])
  }

  // ----- one live child, bounded replacement -----

  // Generations spawned and not yet given up after an accredited reap.
  function Unreaped(log: seq<Event>): set<nat> {
    if log == [] then {} else UnreapedStep(Unreaped(log[..|log| - 1]), log[|log| - 1])
  }

  function UnreapedStep(before: set<nat>, e: Event): set<nat> {
    match e
    case Spawned(generation) => before + {generation}
    case Retired(generation, accredited) => if accredited then before - {generation} else before
    case _ => before
  }

  predicate CountersBounded(m: Monitor) {
    m.core.generation <= m.core.attempts + 1 && m.core.attempts <= MAX_RECOVERIES
  }

  function HeldSet(m: Monitor): set<nat> {
    if m.core.held then {m.core.generation} else {}
  }

  lemma CountersStep(log: seq<Event>, ms: seq<Monitor>, i: nat)
    requires Accepted(log, ms) && i < |log| && CountersBounded(ms[i])
    ensures CountersBounded(ms[i + 1])
  {
    assert LinkedAt(log, ms, i);
  }

  lemma OwnershipStep(log: seq<Event>, ms: seq<Monitor>, i: nat)
    requires Accepted(log, ms) && i < |log|
    ensures UnreapedStep(HeldSet(ms[i]), log[i]) == HeldSet(ms[i + 1])
    ensures log[i].Spawned? ==> HeldSet(ms[i]) == {}
  {
    assert LinkedAt(log, ms, i);
  }

  // At every moment the supervisor owns at most one unreaped child, and it
  // spawns only when it owns none; there are never more than three
  // generations, one more than the recoveries decided.
  lemma {:induction false} OneLiveChild(log: seq<Event>, ms: seq<Monitor>, n: nat)
    requires Accepted(log, ms) && n <= |log|
    ensures Unreaped(log[..n]) == HeldSet(ms[n]) && |Unreaped(log[..n])| <= 1
    ensures ms[n].core.generation <= ms[n].core.attempts + 1 <= MAX_RECOVERIES + 1
    ensures n < |log| && log[n].Spawned? ==> Unreaped(log[..n]) == {}
  {
    if n > 0 {
      OneLiveChild(log, ms, n - 1);
      CountersStep(log, ms, n - 1);
      OwnershipStep(log, ms, n - 1);
      assert log[..n][..n - 1] == log[..n - 1];
    }
    if n < |log| {
      OwnershipStep(log, ms, n);
    }
  }

  // ----- readiness is earned -----

  // Event e happened before position n.
  ghost predicate Happened(log: seq<Event>, n: nat, e: Event)
    requires n <= |log|
  {
    exists i :: 0 <= i < n && log[i] == e
  }

  lemma HappenedLater(log: seq<Event>, n: nat, e: Event)
    requires n < |log| && Happened(log, n, e)
    ensures Happened(log, n + 1, e)
  {
    var i :| 0 <= i < n && log[i] == e;
    assert log[i] == e;
  }

  // Every flag of the monitor stands for an event of the current generation.
  ghost predicate Backed(log: seq<Event>, n: nat, m: Monitor)
    requires n <= |log|
  {
    && (m.ears.sound ==> Happened(log, n, HelloSeen(m.core.generation, true)))
    && (forall s :: s in m.ears.beats ==> Happened(log, n, HeartbeatSeen(m.core.generation, s)))
    && (m.ears.probed ==> Happened(log, n, ProbeSeen(m.core.generation, true, Some(0))))
    && (forall a :: a in m.ears.acks ==> Happened(log, n, AckSeen(m.core.generation, a)))
    && (m.ears.gone ==> Happened(log, n, ExitSeen(m.core.generation)))
    && (m.ears.fault.Some? ==> Happened(log, n, FaultSeen(m.core.generation, m.ears.fault.value)))
    && (m.ears.severed ==> Happened(log, n, ClosedSeen(m.core.generation)))
  }

  lemma BackedLater(log: seq<Event>, n: nat, m: Monitor)
    requires n < |log| && Backed(log, n, m)
    ensures Backed(log, n + 1, m)
  {
    forall e | Happened(log, n, e)
      ensures Happened(log, n + 1, e)
    {
      HappenedLater(log, n, e);
    }
  }

  lemma GenerationStep(log: seq<Event>, ms: seq<Monitor>, i: nat)
    requires Accepted(log, ms) && i < |log|
    ensures log[i].generation == ms[i].core.generation || (log[i].StateSet? && log[i].state.Starting?)
    ensures ms[i + 1] == Update(ms[i], log[i])
  {
    assert LinkedAt(log, ms, i);
  }

  lemma BackedStep(log: seq<Event>, n: nat, m: Monitor)
    requires n < |log| && Backed(log, n + 1, m)
    requires log[n].generation == m.core.generation || (log[n].StateSet? && log[n].state.Starting?)
    ensures Backed(log, n + 1, Update(m, log[n]))
  {
    assert Happened(log, n + 1, log[n]);
    match log[n]
    case HeartbeatSeen(_, snapshot) =>
      assert forall s :: s in m.ears.beats + [snapshot] ==> s in m.ears.beats || s == snapshot;
    case _ =>
  }

  lemma {:induction false} AlwaysBacked(log: seq<Event>, ms: seq<Monitor>, n: nat)
    requires Accepted(log, ms) && n <= |log|
    ensures Backed(log, n, ms[n])
  {
    if n > 0 {
      AlwaysBacked(log, ms, n - 1);
      GenerationStep(log, ms, n - 1);
      BackedLater(log, n - 1, ms[n - 1]);
      BackedStep(log, n - 1, ms[n - 1]);
    }
  }

  // The complete evidence for a generation's readiness, before position n.
  ghost predicate Evidence(log: seq<Event>, n: nat, generation: nat)
    requires n <= |log|
  {
    && Happened(log, n, HelloSeen(generation, true))
    && (exists s :: Happened(log, n, HeartbeatSeen(generation, s)))
    && Happened(log, n, ProbeSeen(generation, true, Some(0)))
    && (exists a :: AcknowledgesOpen(a) && Happened(log, n, AckSeen(generation, a)))
  }

  lemma EvidenceLater(log: seq<Event>, n: nat, generation: nat)
    requires n < |log| && Evidence(log, n, generation)
    ensures Evidence(log, n + 1, generation)
  {
    forall e | Happened(log, n, e)
      ensures Happened(log, n + 1, e)
    {
      HappenedLater(log, n, e);
    }
  }

  lemma EarnedIsEvidence(log: seq<Event>, ms: seq<Monitor>, n: nat)
    requires Accepted(log, ms) && n <= |log| && Earned(ms[n])
    ensures Evidence(log, n, ms[n].core.generation)
  {
    AlwaysBacked(log, ms, n);
    assert ms[n].ears.beats[0] in ms[n].ears.beats;
    var a :| OpenAcknowledged(ms[n], a);
    assert AcknowledgesOpen(a) && Happened(log, n, AckSeen(ms[n].core.generation, a));
  }

  lemma WasReadyStep(log: seq<Event>, ms: seq<Monitor>, i: nat)
    requires Accepted(log, ms) && i < |log|
    ensures ms[i + 1].core.wasReady ==>
              (ms[i].core.wasReady || Earned(ms[i])) && ms[i + 1].core.generation == ms[i].core.generation
    ensures log[i].ReadyAnnounced? || (log[i].StateSet? && (log[i].state.Ready? || log[i].state.Degraded?)) ==>
              (ms[i].core.wasReady || Earned(ms[i])) && ms[i].core.generation == log[i].generation
  {
    assert LinkedAt(log, ms, i);
  }

  lemma {:induction false} WasReadyMeansEvidence(log: seq<Event>, ms: seq<Monitor>, n: nat)
    requires Accepted(log, ms) && n <= |log| && ms[n].core.wasReady
    ensures Evidence(log, n, ms[n].core.generation)
  {
    if n > 0 {
      WasReadyStep(log, ms, n - 1);
      if ms[n - 1].core.wasReady {
        WasReadyMeansEvidence(log, ms, n - 1);
      } else {
        EarnedIsEvidence(log, ms, n - 1);
      }
      EvidenceLater(log, n - 1, ms[n].core.generation);
    }
  }

  // Every READY, DEGRADED or ready announcement of a generation comes after a
  // sound hello, a heartbeat, an ok probe at occupancy 0 and an OPEN
  // acknowledgement, all of that generation.
  lemma ReadinessIsEarned(log: seq<Event>, ms: seq<Monitor>, n: nat)
    requires Accepted(log, ms) && n < |log|
    requires log[n].ReadyAnnounced? || (log[n].StateSet? && (log[n].state.Ready? || log[n].state.Degraded?))
    ensures Evidence(log, n, log[n].generation)
  {
    WasReadyStep(log, ms, n);
    if ms[n].core.wasReady {
      WasReadyMeansEvidence(log, ms, n);
    } else {
      EarnedIsEvidence(log, ms, n);
    }
  }

  // ----- UNAVAILABLE is final -----

  // Out of service, in a generation that was started.
  predicate GivenUp(m: Monitor) {
    m.core.unavailable && !m.core.mayRenew && 0 < m.core.generation
  }

  // An event that begins or resumes service.
  predicate BringsService(e: Event) {
    || e.Spawned? || e.ReadyAnnounced? || e.Incident? || GrantsLease(e)
    || (e.StateSet? && (e.state.Starting? || e.state.Ready? || e.state.Degraded?))
  }

  lemma UnavailableStep(log: seq<Event>, ms: seq<Monitor>, i: nat)
    requires Accepted(log, ms) && i < |log|
    ensures log[i].StateSet? && log[i].state.Unavailable? && 0 < log[i].generation ==> GivenUp(ms[i + 1])
    ensures GivenUp(ms[i]) ==> GivenUp(ms[i + 1]) && !BringsService(log[i])
  {
    assert LinkedAt(log, ms, i);
  }

  lemma {:induction false} UnavailableLatches(log: seq<Event>, ms: seq<Monitor>, i: nat, n: nat)
    requires Accepted(log, ms) && i < n <= |log| && log[i].StateSet? && log[i].state.Unavailable?
    requires 0 < log[i].generation
    ensures GivenUp(ms[n])
  {
    if i < n - 1 {
      UnavailableLatches(log, ms, i, n - 1);
    }
    UnavailableStep(log, ms, n - 1);
  }

  // After UNAVAILABLE in a generation that was started there is no STARTING,
  // no READY, no ready announcement, no spawn, no lease and no further
  // incident.
  lemma UnavailableIsFinal(log: seq<Event>, ms: seq<Monitor>, i: nat, j: nat)
    requires Accepted(log, ms) && i < j < |log| && log[i].StateSet? && log[i].state.Unavailable?
    requires 0 < log[i].generation
    ensures !BringsService(log[j])
  {
    UnavailableLatches(log, ms, i, j);
    UnavailableStep(log, ms, j);
  }

  lemma {:induction false} GenerationZeroOwnsNothing(log: seq<Event>, ms: seq<Monitor>, n: nat)
    requires Accepted(log, ms) && n <= |log|
    ensures ms[n].core.held ==> 0 < ms[n].core.generation
  {
    if n > 0 {
      GenerationZeroOwnsNothing(log, ms, n - 1);
      assert LinkedAt(log, ms, n - 1);
    }
  }

  // The log goes on from h to an event that brings service.
  ghost predicate CanServeAgain(h: History) {
    exists later: History, j :: ServesAgain(h, later, j)
  }

  ghost predicate ServesAgain(h: History, later: History, j: nat) {
    h.log <= later.log && |h.log| <= j < |later.log| && BringsService(later.log[j])
  }

  // Exactly then: a supervisor that has just announced UNAVAILABLE can still
  // serve, by a `start` that comes after it, if and only if it was never
  // started before.
  lemma RestartableExactly(h: History)
    requires h.log != [] && h.log[|h.log| - 1].StateSet? && h.log[|h.log| - 1].state.Unavailable?
    ensures CanServeAgain(h) <==> h.log[|h.log| - 1].generation == 0
  {
    var n := |h.log|;
    assert LinkedAt(h.log, h.ms, n - 1);
    if Last(h).core.generation == 0 {
      GenerationZeroOwnsNothing(h.log, h.ms, n);
      assert ServesAgain(h, Extend(h, StateSet(1, Starting)), n);
    } else {
      forall later: History, j: nat
        ensures !ServesAgain(h, later, j)
      {
        if h.log <= later.log && n <= j < |later.log| {
          assert later.log[n - 1] == h.log[n - 1];
          UnavailableIsFinal(later.log, later.ms, n - 1, j);
        }
      }
    }
  }

  // A start that comes after a tick gave in: STARTING after UNAVAILABLE.
  lemma LateStartServes() returns (h: History)
    ensures h.log == [StateSet(0, Unavailable), StateSet(1, Starting), Spawned(1)]
  {
    h := Extend(Trace([], [INITIAL]), StateSet(0, Unavailable));
    h := Extend(h, StateSet(1, Starting));
    h := Extend(h, Spawned(1));
  }

  // A log determines its monitors.
  lemma {:induction false} SameMonitor(h: History, later: History, n: nat)
    requires h.log <= later.log && n <= |h.log|
    ensures later.ms[n] == h.ms[n]
  {
    if n > 0 {
      SameMonitor(h, later, n - 1);
      assert LinkedAt(h.log, h.ms, n - 1) && LinkedAt(later.log, later.ms, n - 1);
      assert h.log[n - 1] == later.log[n - 1];
    }
  }

  // ----- after a stop -----

  // A stop, or the parent's request to fail closed.
  predicate Halts(e: Event) {
    e.StopSeen? || e.FailureSeen?
  }

  // A halt that is still in force.
  predicate Halted(m: Monitor) {
    m.core.stopping || m.core.failing
  }

  lemma HaltStep(log: seq<Event>, ms: seq<Monitor>, i: nat)
    requires Accepted(log, ms) && i < |log|
    ensures Halts(log[i]) ==> Halted(ms[i + 1])
    ensures ms[i].core.stopping ==> ms[i + 1].core.stopping
    ensures Halted(ms[i]) ==> !(log[i].CommandSent? && log[i].command.Lease?)
    ensures Halted(ms[i]) && !Halted(ms[i + 1]) ==> log[i].FailureTaken?
  {
    assert LinkedAt(log, ms, i);
  }

  // No lease is renewed once a stop was seen.
  lemma {:induction false} NoRenewalAfterStop(log: seq<Event>, ms: seq<Monitor>, i: nat, j: nat)
    requires Accepted(log, ms) && i < j <= |log| && log[i].StopSeen?
    ensures ms[j].core.stopping
    ensures j < |log| ==> !(log[j].CommandSent? && log[j].command.Lease?)
  {
    if i < j - 1 {
      NoRenewalAfterStop(log, ms, i, j - 1);
      HaltStep(log, ms, j - 1);
    } else {
      assert LinkedAt(log, ms, i);
    }
    if j < |log| {
      HaltStep(log, ms, j);
    }
  }

  // This generation's lease is not renewed any more.
  predicate RenewsNoMore(m: Monitor, generation: nat) {
    || generation < m.core.generation
    || (generation == m.core.generation && (Halted(m) || (!m.core.mayRenew && !m.core.state.Starting?)))
  }

  lemma RenewsNoMoreStep(log: seq<Event>, ms: seq<Monitor>, i: nat, generation: nat)
    requires Accepted(log, ms) && i < |log| && 0 < generation
    ensures Halts(log[i]) && log[i].generation == generation ==> RenewsNoMore(ms[i + 1], generation)
    ensures RenewsNoMore(ms[i], generation) ==>
              && RenewsNoMore(ms[i + 1], generation)
              && !(log[i].CommandSent? && log[i].command.Lease? && log[i].generation == generation)
  {
    assert LinkedAt(log, ms, i);
  }

  // Nor is the lease of a started generation once its supervisor was asked to
  // fail closed.
  lemma {:induction false} NoRenewalAfterFailure(log: seq<Event>, ms: seq<Monitor>, i: nat, j: nat)
    requires Accepted(log, ms) && i < j <= |log| && log[i].FailureSeen? && 0 < log[i].generation
    ensures RenewsNoMore(ms[j], log[i].generation)
    ensures j < |log| ==>
              !(log[j].CommandSent? && log[j].command.Lease? && log[j].generation == log[i].generation)
  {
    RenewsNoMoreStep(log, ms, j - 1, log[i].generation);
    if i < j - 1 {
      NoRenewalAfterFailure(log, ms, i, j - 1);
    }
    if j < |log| {
      RenewsNoMoreStep(log, ms, j, log[i].generation);
    }
  }

  // This supervisor can still come to send an open command, whether or not it
  // was asked to stop.
  predicate MayStillOpen(c: Core) {
    c.generation == 0 || (c.state.Starting? && !c.unavailable && c.openNumber == 0 && c.held == c.mayRenew)
  }

  ghost predicate StartingOwnerRenews(m: Monitor) {
    && (m.core.held ==> 0 < m.core.generation)
    && (m.core.state.Starting? && m.core.held ==> m.core.mayRenew)
  }

  lemma {:induction false} AlwaysStartingOwnerRenews(log: seq<Event>, ms: seq<Monitor>, n: nat)
    requires Accepted(log, ms) && n <= |log|
    ensures StartingOwnerRenews(ms[n])
  {
    if n > 0 {
      AlwaysStartingOwnerRenews(log, ms, n - 1);
      assert LinkedAt(log, ms, n - 1);
    }
  }

  lemma StoppedStep(log: seq<Event>, ms: seq<Monitor>, i: nat)
    requires Accepted(log, ms) && i < |log| && ms[i].core.stopping
    ensures GrantsLease(log[i]) ==> MayStillOpen(ms[i].core) && !MayStillOpen(ms[i + 1].core)
    ensures !MayStillOpen(ms[i].core) ==> !MayStillOpen(ms[i + 1].core)
    ensures ms[i + 1].core.stopping
  {
    AlwaysStartingOwnerRenews(log, ms, i);
    assert LinkedAt(log, ms, i);
  }

  lemma {:induction false} OpenedStays(log: seq<Event>, ms: seq<Monitor>, i: nat, n: nat)
    requires Accepted(log, ms) && i <= n <= |log| && ms[i].core.stopping && !MayStillOpen(ms[i].core)
    ensures ms[n].core.stopping && !MayStillOpen(ms[n].core)
  {
    if i < n {
      OpenedStays(log, ms, i, n - 1);
      StoppedStep(log, ms, n - 1);
    }
  }

  // At most one lease is granted after a stop: the one of an open command.
  lemma AtMostOneLeaseAfterStop(log: seq<Event>, ms: seq<Monitor>, i: nat, j: nat, k: nat)
    requires Accepted(log, ms) && i < j < k < |log| && log[i].StopSeen?
    ensures !(GrantsLease(log[j]) && GrantsLease(log[k]))
    ensures GrantsLease(log[j]) ==> log[j].command.Open?
  {
    NoRenewalAfterStop(log, ms, i, j);
    if GrantsLease(log[j]) {
      StoppedStep(log, ms, j);
      OpenedStays(log, ms, j + 1, k);
      StoppedStep(log, ms, k);
    }
  }

  // The log goes on from h to a lease.
  ghost predicate CanStillGrant(h: History) {
    exists later: History, j :: GrantsLater(h, later, j)
  }

  ghost predicate GrantsLater(h: History, later: History, j: nat) {
    h.log <= later.log && |h.log| <= j < |later.log| && GrantsLease(later.log[j])
  }

  lemma NewerSnapshot(beats: seq<Pool.Snapshot>) returns (s: Pool.Snapshot)
    ensures Newer(beats, s)
  {
    s := Pool.Snapshot(if beats == [] then 1 else beats[|beats| - 1].heartbeat + 1, false, 0, map[]);
  }

  lemma ComesToOpen(h: History) returns (later: History)
    requires MayStillOpen(Last(h).core) && 0 < Last(h).core.generation && Last(h).core.held
    ensures h.log <= later.log && |h.log| < |later.log| && GrantsLease(later.log[|later.log| - 1])
  {
    var g := Last(h).core.generation;
    LatestLeaseBound(h.log, h.ms, g, |h.log|);
    var s := NewerSnapshot(Last(h).ears.beats);
    var a := Extend(h, HelloSeen(g, true));
    var b := Extend(a, HeartbeatSeen(g, s));
    var c := Extend(b, ProbeSeen(g, true, Some(0)));
    var at := Last(h).core.clock;
    later := Extend(c, CommandSent(g, Wire.Open(at + LEASE), 1, at));
  }

  lemma ComesToOwn(h: History) returns (later: History)
    requires MayStillOpen(Last(h).core)
    ensures h.log <= later.log && MayStillOpen(Last(later).core)
    ensures 0 < Last(later).core.generation && Last(later).core.held
  {
    AlwaysStartingOwnerRenews(h.log, h.ms, |h.log|);
    later := h;
    if Last(later).core.generation == 0 {
      later := Extend(later, StateSet(1, Starting));
    }
    if !Last(later).core.held {
      later := Extend(later, Spawned(Last(later).core.generation));
    }
  }

  // After a stop a lease can still be granted exactly while the supervisor has
  // not been started, or is STARTING with a child it did not give up and has
  // not sent its open command.
  lemma LeaseAfterStopExactly(h: History)
    requires Last(h).core.stopping
    ensures CanStillGrant(h) <==> MayStillOpen(Last(h).core)
  {
    if MayStillOpen(Last(h).core) {
      var owning := ComesToOwn(h);
      var later := ComesToOpen(owning);
      assert GrantsLater(h, later, |later.log| - 1);
    } else {
      forall later: History, j: nat
        ensures !GrantsLater(h, later, j)
      {
        if h.log <= later.log && |h.log| <= j < |later.log| {
          SameMonitor(h, later, |h.log|);
          OpenedStays(later.log, later.ms, |h.log|, j);
          StoppedStep(later.log, later.ms, j);
        }
      }
    }
  }

  // ----- leases -----

  // The latest lease granted to a generation (0 before the first).
  function LatestLease(log: seq<Event>, generation: nat): int {
    if log == [] then 0
    else
      var e := log[|log| - 1];
      if GrantsLease(e) && e.generation == generation then e.command.leaseUntil
      else LatestLease(log[..|log| - 1], generation)
  }

  lemma ClockStep(log: seq<Event>, ms: seq<Monitor>, i: nat)
    requires Accepted(log, ms) && i < |log|
    ensures ms[i].core.clock <= ms[i + 1].core.clock
    ensures GrantsLease(log[i]) ==>
              log[i].command.leaseUntil == log[i].at + LEASE && ms[i].core.clock <= log[i].at == ms[i + 1].core.clock
    ensures log[i].Incident? ==> ms[i].core.clock <= log[i].at
  {
    assert LinkedAt(log, ms, i);
  }

  lemma LatestLeaseStep(log: seq<Event>, generation: nat, n: nat)
    requires 0 < n <= |log|
    ensures LatestLease(log[..n], generation) ==
              if GrantsLease(log[n - 1]) && log[n - 1].generation == generation then log[n - 1].command.leaseUntil
              else LatestLease(log[..n - 1], generation)
  {
    assert log[..n][..n - 1] == log[..n - 1];
  }

  lemma {:induction false} LatestLeaseBound(log: seq<Event>, ms: seq<Monitor>, generation: nat, n: nat)
    requires Accepted(log, ms) && n <= |log|
    ensures 0 <= ms[n].core.clock && LatestLease(log[..n], generation) <= ms[n].core.clock + LEASE
  {
    if n > 0 {
      LatestLeaseBound(log, ms, generation, n - 1);
      ClockStep(log, ms, n - 1);
      LatestLeaseStep(log, generation, n);
    }
  }

  // A lease is granted one lease period ahead, and grants never go back: the
  // latest is also the furthest.
  lemma {:induction false} LatestIsFurthest(log: seq<Event>, ms: seq<Monitor>, generation: nat, n: nat, i: nat)
    requires Accepted(log, ms) && i < n <= |log| && GrantsLease(log[i]) && log[i].generation == generation
    ensures log[i].command.leaseUntil == log[i].at + LEASE
    ensures log[i].at <= ms[n].core.clock
    ensures log[i].command.leaseUntil <= LatestLease(log[..n], generation)
  {
    ClockStep(log, ms, n - 1);
    LatestLeaseStep(log, generation, n);
    if i < n - 1 {
      LatestIsFurthest(log, ms, generation, n - 1, i);
    }
  }

  // This generation gets no lease any more: it is over, or it has left STARTING
  // and its child was given up or a halt was seen.
  predicate Frozen(m: Monitor, generation: nat) {
    || m.core.generation > generation
    || (m.core.generation == generation && !m.core.state.Starting? && (Halted(m) || !m.core.mayRenew))
  }

  lemma FrozenStep(log: seq<Event>, ms: seq<Monitor>, i: nat, generation: nat)
    requires Accepted(log, ms) && i < |log|
    ensures Frozen(ms[i], generation) ==>
              Frozen(ms[i + 1], generation) && !(GrantsLease(log[i]) && log[i].generation == generation)
  {
    assert LinkedAt(log, ms, i);
  }

  // A frozen generation's latest lease is its last.
  lemma {:induction false} FrozenForGood(log: seq<Event>, ms: seq<Monitor>, i: nat, n: nat, generation: nat)
    requires Accepted(log, ms) && i <= n <= |log| && Frozen(ms[i], generation)
    ensures Frozen(ms[n], generation)
    ensures LatestLease(log[..n], generation) == LatestLease(log[..i], generation)
  {
    if i < n {
      FrozenForGood(log, ms, i, n - 1, generation);
      FrozenStep(log, ms, n - 1, generation);
      LatestLeaseStep(log, generation, n);
    }
  }

  lemma FreezingStep(log: seq<Event>, ms: seq<Monitor>, i: nat)
    requires Accepted(log, ms) && i < |log|
    ensures log[i].Incident? || (log[i].StateSet? && log[i].state.Unavailable?) ==> Frozen(ms[i + 1], log[i].generation)
    ensures Halts(log[i]) && !ms[i].core.state.Starting? ==> Frozen(ms[i + 1], log[i].generation)
  {
    assert LinkedAt(log, ms, i);
  }

  // From the decision of an incident on, its generation gets no lease any
  // more: the latest one it ever has ends at most one lease after the decision.
  lemma IncidentFreezesLease(log: seq<Event>, ms: seq<Monitor>, i: nat, n: nat)
    requires Accepted(log, ms) && i < n <= |log| && log[i].Incident?
    ensures LatestLease(log[..n], log[i].generation) == LatestLease(log[..i], log[i].generation) <= log[i].at + LEASE
  {
    FreezingStep(log, ms, i);
    LatestLeaseStep(log, log[i].generation, i + 1);
    FrozenForGood(log, ms, i + 1, n, log[i].generation);
    LatestLeaseBound(log, ms, log[i].generation, i);
    ClockStep(log, ms, i);
  }

  // Likewise from UNAVAILABLE on, and from a stop or a request to fail closed on
  // once STARTING is over.
  lemma EndFreezesLease(log: seq<Event>, ms: seq<Monitor>, i: nat, n: nat)
    requires Accepted(log, ms) && i < n <= |log|
    requires || (log[i].StateSet? && log[i].state.Unavailable?)
             || (Halts(log[i]) && !ms[i].core.state.Starting?)
    ensures LatestLease(log[..n], log[i].generation) == LatestLease(log[..i], log[i].generation)
    ensures LatestLease(log[..n], log[i].generation) <= ms[i].core.clock + LEASE
  {
    FreezingStep(log, ms, i);
    LatestLeaseStep(log, log[i].generation, i + 1);
    FrozenForGood(log, ms, i + 1, n, log[i].generation);
    LatestLeaseBound(log, ms, log[i].generation, i);
  }

  // After any stop, also one during STARTING, a generation's latest lease is
  // the one it had at the stop, or that of the one open command sent since.
  lemma {:induction false} StopBoundsLease(log: seq<Event>, ms: seq<Monitor>, i: nat, n: nat, generation: nat)
    requires Accepted(log, ms) && i < n <= |log| && log[i].StopSeen?
    ensures || LatestLease(log[..n], generation) == LatestLease(log[..i], generation)
            || exists j :: i < j < n && OpenSentAt(log, j, generation)
                         && LatestLease(log[..n], generation) == log[j].at + LEASE
  {
    LatestLeaseStep(log, generation, n);
    if i < n - 1 {
      StopBoundsLease(log, ms, i, n - 1, generation);
      NoRenewalAfterStop(log, ms, i, n - 1);
      ClockStep(log, ms, n - 1);
      if GrantsLease(log[n - 1]) && log[n - 1].generation == generation {
        assert OpenSentAt(log, n - 1, generation);
      }
    }
  }

  predicate OpenSentAt(log: seq<Event>, j: nat, generation: nat)
    requires j < |log|
  {
    log[j].CommandSent? && log[j].command.Open? && log[j].generation == generation
  }

  // ----- heartbeats -----

  ghost predicate Increasing(beats: seq<Pool.Snapshot>) {
    forall i, j :: 0 <= i < j < |beats| ==> beats[i].heartbeat < beats[j].heartbeat
  }

  lemma IncreasingMore(beats: seq<Pool.Snapshot>, snapshot: Pool.Snapshot)
    requires Increasing(beats) && Newer(beats, snapshot)
    ensures Increasing(beats + [snapshot])
  {
    var more := beats + [snapshot];
    forall i, j | 0 <= i < j < |more|
      ensures more[i].heartbeat < more[j].heartbeat
    {
      if j == |beats| && i < j - 1 {
        assert beats[i].heartbeat < beats[j - 1].heartbeat;
      }
    }
  }

  // The monitor holds every heartbeat of its generation seen before n.
  ghost predicate HoldsAllBeats(log: seq<Event>, n: nat, m: Monitor)
    requires n <= |log|
  {
    && (forall j :: 0 <= j < n && log[j].HeartbeatSeen? && log[j].generation == m.core.generation ==>
          log[j].snapshot in m.ears.beats)
    && (forall j :: 0 <= j < n ==> log[j].generation <= m.core.generation)
  }

  lemma BeatsStep(log: seq<Event>, ms: seq<Monitor>, i: nat)
    requires Accepted(log, ms) && i < |log| && Increasing(ms[i].ears.beats) && HoldsAllBeats(log, i, ms[i])
    ensures Increasing(ms[i + 1].ears.beats) && HoldsAllBeats(log, i + 1, ms[i + 1])
  {
    assert LinkedAt(log, ms, i);
    if log[i].HeartbeatSeen? {
      var beats := ms[i].ears.beats;
      IncreasingMore(beats, log[i].snapshot);
      assert forall s :: s in beats + [log[i].snapshot] <==> s in beats || s == log[i].snapshot;
    }
  }

  lemma {:induction false} AlwaysAllBeats(log: seq<Event>, ms: seq<Monitor>, n: nat)
    requires Accepted(log, ms) && n <= |log|
    ensures Increasing(ms[n].ears.beats) && HoldsAllBeats(log, n, ms[n])
  {
    if n > 0 {
      AlwaysAllBeats(log, ms, n - 1);
      BeatsStep(log, ms, n - 1);
    }
  }

  lemma LastIsNewest(log: seq<Event>, ms: seq<Monitor>, i: nat, j: nat)
    requires Accepted(log, ms) && j < i <= |log| && log[j].HeartbeatSeen? && log[j].generation == ms[i].core.generation
    ensures ms[i].ears.beats != []
    ensures log[j].snapshot.heartbeat <= ms[i].ears.beats[|ms[i].ears.beats| - 1].heartbeat
  {
    AlwaysAllBeats(log, ms, i);
    var beats := ms[i].ears.beats;
    var k :| 0 <= k < |beats| && beats[k] == log[j].snapshot;
    assert k < |beats| - 1 ==> beats[k].heartbeat < beats[|beats| - 1].heartbeat;
  }

  // A request that was refused before position n, for this deadline.
  ghost predicate RefusedBefore(log: seq<Event>, n: nat, generation: nat, deadline: int)
    requires n <= |log|
  {
    exists j, at :: 0 <= j < n && log[j] == RequestRefused(generation, deadline, at)
  }

  lemma RefusalStep(log: seq<Event>, ms: seq<Monitor>, i: nat)
    requires Accepted(log, ms) && i < |log| && ms[i + 1].core.refusedFor.Some?
    ensures if log[i].RequestRefused?
            then log[i] == RequestRefused(ms[i + 1].core.generation, ms[i + 1].core.refusedFor.value, log[i].at)
            else ms[i].core.refusedFor == ms[i + 1].core.refusedFor
                 && ms[i].core.generation == ms[i + 1].core.generation
  {
    assert LinkedAt(log, ms, i);
  }

  lemma {:induction false} RefusalIsLogged(log: seq<Event>, ms: seq<Monitor>, n: nat)
    requires Accepted(log, ms) && n <= |log| && ms[n].core.refusedFor.Some?
    ensures RefusedBefore(log, n, ms[n].core.generation, ms[n].core.refusedFor.value)
  {
    assert 0 < n;
    RefusalStep(log, ms, n - 1);
    if !log[n - 1].RequestRefused? {
      RefusalIsLogged(log, ms, n - 1);
      var j, at :| 0 <= j < n - 1
        && log[j] == RequestRefused(ms[n - 1].core.generation, ms[n - 1].core.refusedFor.value, at);
    }
  }

  // Work is held against a child only on silence about it. When an incident
  // rests on an unconfirmed work age, a heartbeat of that generation showed a
  // job, the oldest it showed, whose limit was the deadline; no heartbeat of
  // that generation was stamped at or after the deadline; and the confirmation
  // window had passed, or the channel had refused to ask for a snapshot.
  lemma UnconfirmedIsSound(log: seq<Event>, ms: seq<Monitor>, i: nat) returns (shown: nat)
    requires Accepted(log, ms) && i < |log| && log[i].Incident? && log[i].reason.WorkAgeUnconfirmed?
    ensures shown < i && log[shown].HeartbeatSeen? && log[shown].generation == log[i].generation
    ensures OldestAt(log[shown].snapshot, log[i].reason.deadline - WORK_LIMIT)
    ensures forall j :: 0 <= j < i && log[j].HeartbeatSeen? && log[j].generation == log[i].generation ==>
              log[j].snapshot.heartbeat < log[i].reason.deadline
    ensures log[i].reason.deadline <= log[i].at
    ensures log[i].at >= log[i].reason.deadline + WORK_CONFIRMATION
         || RefusedBefore(log, i, log[i].generation, log[i].reason.deadline)
  {
    var deadline, beats := log[i].reason.deadline, ms[i].ears.beats;
    assert LinkedAt(log, ms, i);
    assert Owes(beats, deadline);
    var k :| 0 <= k < |beats| && OldestAt(beats[k], deadline - WORK_LIMIT);
    AlwaysBacked(log, ms, i);
    assert beats[k] in beats;
    shown :| 0 <= shown < i && log[shown] == HeartbeatSeen(log[i].generation, beats[k]);
    forall j | 0 <= j < i && log[j].HeartbeatSeen? && log[j].generation == log[i].generation
      ensures log[j].snapshot.heartbeat < deadline
    {
      LastIsNewest(log, ms, i, j);
    }
    if ms[i].core.refusedFor == Some(deadline) {
      RefusalIsLogged(log, ms, i);
    }
  }

  // A crash is blamed only on a process that was found to have ended, and a lost
  // control only on a channel that was found faulty, with that fault, or closed.
  lemma BlameIsSound(log: seq<Event>, ms: seq<Monitor>, i: nat)
    requires Accepted(log, ms) && i < |log| && log[i].Incident?
    ensures log[i].reason.ChildCrash? ==> Happened(log, i, ExitSeen(log[i].generation))
    ensures log[i].reason.ControlLost? ==>
              || Happened(log, i, FaultSeen(log[i].generation, log[i].reason.what))
              || (log[i].reason.what == "control_lost" && Happened(log, i, ClosedSeen(log[i].generation)))
  {
    AlwaysBacked(log, ms, i);
    assert LinkedAt(log, ms, i);
  }

  // A heartbeat is called stale only when none of that generation was stamped
  // in the two seconds before the decision, and one was stamped before that.
  lemma StaleIsSound(log: seq<Event>, ms: seq<Monitor>, i: nat)
    requires Accepted(log, ms) && i < |log| && log[i].Incident? && log[i].reason.HeartbeatStale?
    ensures forall j :: 0 <= j < i && log[j].HeartbeatSeen? && log[j].generation == log[i].generation ==>
              log[j].snapshot.heartbeat <= log[i].reason.heartbeat
    ensures log[i].reason.heartbeat + HEARTBEAT_LIMIT <= log[i].at
    ensures exists s: Pool.Snapshot :: s.heartbeat == log[i].reason.heartbeat
                                       && Happened(log, i, HeartbeatSeen(log[i].generation, s))
  {
    var beats := ms[i].ears.beats;
    assert LinkedAt(log, ms, i);
    forall j | 0 <= j < i && log[j].HeartbeatSeen? && log[j].generation == log[i].generation
      ensures log[j].snapshot.heartbeat <= log[i].reason.heartbeat
    {
      LastIsNewest(log, ms, i, j);
    }
    AlwaysBacked(log, ms, i);
    assert beats[|beats| - 1] in beats;
  }

  // ----- each generation has one child -----

  lemma SpawnStep(log: seq<Event>, ms: seq<Monitor>, i: nat, generation: nat)
    requires Accepted(log, ms) && i < |log|
    ensures log[i].Spawned? ==> SpawnedBy(ms[i + 1], log[i].generation) && !SpawnedBy(ms[i], log[i].generation)
    ensures SpawnedBy(ms[i], generation) ==> SpawnedBy(ms[i + 1], generation)
  {
    assert LinkedAt(log, ms, i);
  }

  // This generation can have no further spawn.
  predicate SpawnedBy(m: Monitor, generation: nat) {
    || generation < m.core.generation
    || (0 < generation == m.core.generation && (m.core.mayRenew || !m.core.state.Starting?))
  }

  lemma {:induction false} SpawnedStays(log: seq<Event>, ms: seq<Monitor>, i: nat, n: nat)
    requires Accepted(log, ms) && i < n <= |log| && log[i].Spawned?
    ensures SpawnedBy(ms[n], log[i].generation)
  {
    SpawnStep(log, ms, n - 1, log[i].generation);
    if i < n - 1 {
      SpawnedStays(log, ms, i, n - 1);
    }
  }

  // No generation is spawned twice.
  lemma SpawnedOnce(log: seq<Event>, ms: seq<Monitor>, i: nat, j: nat)
    requires Accepted(log, ms) && i < j < |log| && log[i].Spawned? && log[j].Spawned?
    ensures log[i].generation != log[j].generation
  {
    SpawnedStays(log, ms, i, j);
    SpawnStep(log, ms, j, log[j].generation);
  }
}
