// The supervisor itself: one object whose methods update its fields, in the
// program's own order of steps.
//
// Everything outside it is left open: the clock advances by any amount, the
// child may exit, stall or say anything at any time, the channel may refuse a
// message or die, and its parent may ask for a stop or a failure whenever it
// is polled. Each message, state change and reap is recorded in the ghost
// `log`; the invariant keeps that log accepted by the protocol.

module Supervisor {
  import opened Options
  import opened Timing
  import opened Protocol
  import Pool
  import Wire

  datatype Hello = Hello(pid: nat, monotonic: int, integrityOk: bool, listenerBound: bool, fixturesOk: bool)
  {
    predicate Sound() {
      integrityOk && listenerBound && fixturesOk
    }
  }

  datatype Report =
    | HelloReport(hello: Hello)
    | HeartbeatReport(snapshot: Pool.Snapshot, ownJobs: bool)  // do all its jobs name this generation?
    | AckReport(command: AckedCommand, number: nat, gate: GateView, occupancy: Option<nat>)
    | ProbeReport(ok: bool, occupancy: Option<nat>)
    | FaultReport(reason: string)
    | OtherReport

  datatype Envelope = Envelope(sentAt: int, report: Report)

  datatype Received = Received(sentAt: int, snapshot: Pool.Snapshot)

  datatype Probe = Probe(ok: bool, occupancy: Option<nat>)

  datatype Confirmation = Confirmation(deadline: int, until: int)

  // What a wait is for.
  datatype Awaited =
    | StartedSafely
    | ProbeAnswered
    | Acknowledged(command: AckedCommand, number: nat)
    | ChildGone
    | Drained(since: int)

  datatype Outcome = Finished(ok: bool) | ReapRequired

  // How often the parent was asked, and what it said last; how often the channel
  // to the child was read, and what it gave last.
  datatype Asked = Asked(times: nat, stop: bool, failure: Option<string>)
  datatype Given = Given(times: nat, messages: seq<Envelope>)

  // What may go wrong, apart from the answers of the channel and the system.
  datatype Setback =
    | Past(deadline: int)
    | NoChannel
    | Interruption
    | BadProbe
    | Unopened(number: nat)
    | Unclosed(number: nat)
    | CalledOff

  datatype StartResult = Started(ok: bool) | AlreadyStarted

  // `self.acks[...] = message`, keeping the eight most recent keys.
  function PutAck(acks: seq<Ack>, a: Ack): (r: seq<Ack>)
    ensures a in r && forall x :: x in r ==> x in acks || x == a
    ensures |acks| <= 8 ==> |r| <= 8
    ensures forall x :: x in acks ==>
              x in r || (x.command == a.command && x.number == a.number) || (|acks| >= 8 && x == acks[0])
  {
    var i := AckIndex(acks, a.command, a.number);
    if i < |acks| then
      assert acks[i := a][i] == a;
      assert forall k :: 0 <= k < |acks| && k != i ==> acks[i := a][k] == acks[k];
      acks[i := a]
    else (if |acks| >= 8 then acks[1..] else acks) + [a]
  }

  function AckIndex(acks: seq<Ack>, command: AckedCommand, number: nat): (i: nat)
    ensures i <= |acks|
    ensures i < |acks| ==> acks[i].command == command && acks[i].number == number
  {
    if acks == [] || (acks[0].command == command && acks[0].number == number) then 0
    else AckIndex(acks[1..], command, number) + 1
  }

  predicate AcknowledgesClose(a: Ack) {
    a.command.CloseCommand? && a.gate.GateClosed?
  }

  // Some job's awaiter has left.
  predicate Abandoned(s: Pool.Snapshot) {
    exists id | id in s.jobs :: s.jobs[id].abandonedAt.Some?
  }

  // The snapshot is the last one accepted, and this is its stamp.
  ghost predicate Latest(s: Pool.Snapshot, heartbeat: int, beats: seq<Pool.Snapshot>) {
    beats != [] && s == beats[|beats| - 1] && s.heartbeat == heartbeat
  }

  lemma OldestNeverGoesBack(beats: seq<Pool.Snapshot>, i: nat, j: nat, a: int)
    requires Pool.FromOnePool(beats) && i <= j < |beats| && OldestAt(beats[i], a)
    ensures forall id :: id in beats[j].jobs ==> a <= beats[j].jobs[id].admittedAt
  {
    assert Pool.MayFollow(beats[i], beats[j]);
  }

  method OldestOverdue(jobs: map<nat, Pool.JobReport>, now: int) returns (oldest: Option<nat>)
    ensures oldest.None? ==> forall id :: id in jobs ==> now - jobs[id].admittedAt < WORK_LIMIT
    ensures oldest.Some? ==>
              && oldest.value in jobs
              && now - jobs[oldest.value].admittedAt >= WORK_LIMIT
              && forall id :: id in jobs ==> jobs[oldest.value].admittedAt <= jobs[id].admittedAt
  {
    oldest := None;
    var left := jobs.Keys;
    while left != {}
      invariant left <= jobs.Keys
      invariant oldest.None? ==> forall id :: id in jobs.Keys - left ==> now - jobs[id].admittedAt < WORK_LIMIT
      invariant oldest.Some? ==>
                  && oldest.value in jobs
                  && now - jobs[oldest.value].admittedAt >= WORK_LIMIT
                  && forall id :: id in jobs.Keys - left ==> jobs[oldest.value].admittedAt <= jobs[id].admittedAt
      decreases left
    {
      var id :| id in left;
      left := left - {id};
      if now - jobs[id].admittedAt >= WORK_LIMIT
         && (oldest.None? || jobs[id].admittedAt < jobs[oldest.value].admittedAt) {
        oldest := Some(id);
      }
    }
  }

  // A job of the snapshot has reached its limit.
  ghost predicate HasOverdue(s: Pool.Snapshot, now: int) {
    exists id :: id in s.jobs && now >= s.jobs[id].admittedAt + WORK_LIMIT
  }

  // What the work of a child calls for, given the confirmation that was pending
  // and the last event that the check left in the log.
  //
  // While a confirmation is open, only its window decides. Otherwise the oldest
  // job over its limit does: an incident at once if the snapshot speaks for a
  // time past the limit, or if the window has passed too, or if the snapshot
  // that is then asked for is refused. With no job over its limit, there is an
  // incident exactly for a gate found shut since it was opened.
  ghost predicate Calls(pending: Option<Confirmation>, seen: Received, openAckAt: int, now: int, generation: nat,
                        log: seq<Event>, incident: Option<Reason>)
  {
    var s := seen.snapshot;
    if pending.Some? && s.heartbeat < pending.value.deadline then
      incident == if now >= pending.value.until then Some(WorkAgeUnconfirmed(pending.value.deadline)) else None
    else if HasOverdue(s, now) then
      exists oldest :: oldest in s.jobs && CallsFor(s, oldest, now, generation, log, incident)
    else
      incident == if seen.sentAt >= openAckAt && !s.gateOpen then Some(PublicGateClosed) else None
  }

  ghost predicate CallsFor(s: Pool.Snapshot, oldest: nat, now: int, generation: nat, log: seq<Event>,
                           incident: Option<Reason>)
    requires oldest in s.jobs
  {
    var deadline := s.jobs[oldest].admittedAt + WORK_LIMIT;
    && (forall id :: id in s.jobs ==> s.jobs[oldest].admittedAt <= s.jobs[id].admittedAt)
    && incident == if s.heartbeat >= deadline then Some(WorkAgeExceeded)
                   else if now >= deadline + WORK_CONFIRMATION
                           || (log != [] && log[|log| - 1] == RequestRefused(generation, deadline, now))
                   then Some(WorkAgeUnconfirmed(deadline)) else None
  }

  // What a supervisor sees of its child when it looks.
  datatype Sight = Sight(gone: bool, fault: Option<string>, connected: bool, heartbeat: int,
                         pending: Option<Confirmation>, seen: Received, openAckAt: int, generation: nat)

  // What a full check finds, in the program's order: an exit, then a fault or
  // a closed channel, then two seconds of silence; and only of a child that
  // runs, can be heard and speaks does its work decide.
  ghost predicate Finds(v: Sight, now: int, log: seq<Event>, incident: Option<Reason>) {
    if v.gone then incident == Some(ChildCrash)
    else if v.fault.Some? then incident == Some(ControlLost(v.fault.value))
    else if !v.connected then incident == Some(ControlLost("control_lost"))
    else if now - v.heartbeat >= HEARTBEAT_LIMIT then incident == Some(HeartbeatStale(v.heartbeat))
    else Calls(v.pending, v.seen, v.openAckAt, now, v.generation, log, incident)
  }

  // A check that is due is full; one that is not finds nothing.
  ghost predicate Decides(v: Sight, lastCheck: int, known: bool, now: int, log: seq<Event>, incident: Option<Reason>) {
    if now - lastCheck >= CHECK_INTERVAL || known
    then Finds(v.(gone := incident == Some(ChildCrash)), now, log, incident)
    else incident.None?
  }

  // A healthy child is left alone: one that runs, with no fault on an open
  // channel, that spoke in the last two seconds, without work over its limit or
  // a confirmation that is still open, and whose gate has not been found shut
  // since it was opened. And whatever its work may be, such a child is never
  // called crashed, lost or silent.
  lemma HealthyIsKept(v: Sight, now: int, log: seq<Event>, incident: Option<Reason>)
    requires Finds(v, now, log, incident)
    requires !v.gone && v.fault.None? && v.connected && now < v.heartbeat + 2 * SECOND
    ensures incident.Some? ==> RestsOnSnapshot(incident.value)
    ensures (forall id :: id in v.seen.snapshot.jobs ==> now < v.seen.snapshot.jobs[id].admittedAt + 5 * SECOND)
            && (v.pending.None? || v.seen.snapshot.heartbeat >= v.pending.value.deadline)
            && (v.seen.snapshot.gateOpen || v.seen.sentAt < v.openAckAt)
            ==> incident.None?
  {
  }

  // Listening only adds to what was heard.
  ghost predicate HeardMore(before: Ears, after: Ears) {
    && (before.sound ==> after.sound)
    && (before.probed ==> after.probed)
    && before.beats <= after.beats
    && before.acks <= after.acks
  }

  // Renewing a lease and noticing a stop or a failure change nothing else.
  predicate StillDecided(before: Core, after: Core) {
    && after == before.(stopping := after.stopping, failing := after.failing, clock := after.clock)
    && (before.stopping ==> after.stopping) && (before.failing ==> after.failing)
    && before.clock <= after.clock
  }

  class Supervisor {
    const posix: bool
    var state: SupervisorState
    var generation: nat
    var attempts: nat
    var child: Option<nat>          // the owned process, by pid
    var childGone: bool             // it has exited and been reaped by a poll
    var hasControl: bool
    var controlClosed: bool
    var sentNumber: nat
    var lastHeartbeat: int
    var lastLeaseUntil: int
    var lastSnapshot: Option<Received>
    var hello: Option<Hello>
    var probeResult: Option<Probe>
    var acks: seq<Ack>
    var residual: bool
    var clockVerified: bool
    var renew: bool
    var lastRenewed: int
    var lastCheck: int
    var requestedStop: bool
    var requestedFailure: Option<string>
    var controlFault: Option<string>
    var recovering: bool
    var stopped: bool
    var spawnedAt: int
    var openAckAt: int
    var recoveryDeadline: Option<int>
    var workConfirmation: Option<Confirmation>
    var clock: nat

    ghost var history: History      // the accepted log so far
    ghost var core: Core            // the monitor after the whole log
    ghost var ears: Ears
    ghost var confirming: nat       // the heartbeat a work confirmation was opened on
    ghost var setbacks: nat         // what went wrong on the way: a message refused, a budget exceeded, ...
    ghost var drains: nat           // how often the work of a child was waited for
    ghost var asked: Asked
    ghost var given: Given

    // ----- the invariant -----

    ghost predicate Logged()
      reads this`history, this`core, this`ears
    {
      Last(history) == Monitor(core, ears)
    }

    ghost predicate Owned()
      reads this`core, this`generation, this`attempts, this`state, this`child, this`renew, this`requestedStop,
            this`requestedFailure, this`residual
    {
      && core == core.(generation := generation, attempts := attempts, state := state, held := child.Some?,
                       stopping := requestedStop, failing := requestedFailure.Some?)
      && (renew ==> core.mayRenew && child.Some?)
      && (child.Some? ==> 0 < generation)
      && (residual ==> child.Some?)
      && (core.unavailable ==> !core.mayRenew)
      && generation <= attempts + 1
      && attempts <= MAX_RECOVERIES
    }

    ghost predicate Heard()
      reads this`ears, this`hello, this`lastSnapshot, this`lastHeartbeat, this`probeResult, this`acks, this`child
    {
      && (hello.Some? && hello.value.Sound() ==> ears.sound)
      && (lastSnapshot.Some? ==> Latest(lastSnapshot.value.snapshot, lastHeartbeat, ears.beats))
      && (lastHeartbeat != 0 ==> lastSnapshot.Some?)
      && (child.Some? && ears.beats != [] ==> lastSnapshot.Some?)
      && 0 <= lastHeartbeat
      && (probeResult.Some? && probeResult.value.ok && probeResult.value.occupancy == Some(0) ==> ears.probed)
      && (forall a :: a in acks ==> a in ears.acks)
    }

    ghost predicate Confirming()
      reads this`ears, this`workConfirmation, this`confirming
    {
      workConfirmation.Some? ==>
        && workConfirmation.value.until == workConfirmation.value.deadline + WORK_CONFIRMATION
        && confirming < |ears.beats|
        && OldestAt(ears.beats[confirming], workConfirmation.value.deadline - WORK_LIMIT)
    }

    // Only the owned child is on the other end of an open channel.
    predicate Connected()
      reads this`hasControl, this`controlClosed
    {
      hasControl && !controlClosed
    }

    // What listening relies on and keeps.
    ghost predicate Listening()
      reads this`history, this`core, this`ears, this`generation, this`hello, this`lastSnapshot, this`lastHeartbeat,
            this`probeResult, this`acks, this`child, this`workConfirmation, this`confirming, this`hasControl,
            this`controlClosed
    {
      && Logged() && core.generation == generation && core.held == child.Some? && Heard() && Confirming()
      && (Connected() ==> child.Some?)
    }

    ghost predicate Timely()
      reads this`core, this`clock
    {
      core.clock <= clock
    }

    ghost predicate Inv()
      reads this`history, this`core, this`ears, this`generation, this`hello, this`lastSnapshot, this`lastHeartbeat,
            this`probeResult, this`acks, this`child, this`workConfirmation, this`confirming, this`attempts,
            this`state, this`renew, this`requestedStop, this`requestedFailure, this`residual, this`clock,
            this`hasControl, this`controlClosed
    {
      Listening() && Owned() && Timely()
    }

    predicate Serving()
      reads this`state
    {
      state.Ready? || state.Degraded?
    }

    ghost predicate Settled()
      reads this`core, this`state, this`child, this`lastSnapshot, this`generation
    {
      && (core.unavailable ==> state.Unavailable?)
      && (state.Starting? ==> generation == 0)
      && (Serving() ==> core.wasReady && child.Some? && lastSnapshot.Some?)
    }

    // Between two public calls.
    ghost predicate Quiet()
      reads this
    {
      Inv() && Settled() && !recovering && (Serving() ==> renew)
    }

    constructor (posix: bool)
      ensures Quiet() && history.log == [] && generation == 0 && state.Starting? && child.None?
      ensures this.posix == posix
    {
      this.posix := posix;
      state, generation, attempts := Starting, 0, 0;
      child, childGone, hasControl, controlClosed, sentNumber := None, false, false, false, 0;
      lastHeartbeat, lastLeaseUntil, lastSnapshot, hello, probeResult, acks := 0, 0, None, None, None, [];
      residual, clockVerified, renew, lastRenewed, lastCheck := false, false, false, 0, 0;
      requestedStop, requestedFailure, controlFault := false, None, None;
      recovering, stopped, spawnedAt, openAckAt := false, false, 0, 0;
      recoveryDeadline, workConfirmation, clock := None, None, 0;
      history, core, ears, confirming, setbacks := Trace([], [INITIAL]), INITIAL.core, INITIAL.ears, 0, 0;
      drains, asked, given := 0, Asked(0, false, None), Given(0, []);
    }

    // ----- the world outside -----

    method ReadClock() returns (t: nat)
      modifies this`clock
      ensures t == clock >= old(clock)
    {
      var later: nat :| clock <= later;
      clock := later;
      return clock;
    }

    method Now() returns (t: nat)
      requires Inv()
      modifies this`clock
      ensures Inv() && t == clock >= old(clock)
    {
      t := ReadClock();
    }

    // A pass of a waiting loop takes some time.
    method Sleep()
      requires Inv()
      modifies this`clock
      ensures Inv() && clock > old(clock)
    {
      var later: nat :| clock < later;
      clock := later;
    }

    method PollChild() returns (gone: bool)
      requires Inv()
      modifies this`childGone
      ensures Inv() && gone == childGone && (old(childGone) ==> childGone)
    {
      if * {
        childGone := true;
      }
      return childGone;
    }

    ghost method EmitStarting()
      requires Logged() && Allowed(Monitor(core, ears), StateSet(core.generation + 1, Starting))
      modifies this`history, this`core, this`ears
      ensures Logged() && ears == DEAF
      ensures core == Protocol.Decide(old(core), StateSet(old(core).generation + 1, Starting))
      ensures history.log == old(history.log) + [StateSet(old(core).generation + 1, Starting)]
    {
      history := Extend(history, StateSet(core.generation + 1, Starting));
      core, ears := Last(history).core, Last(history).ears;
    }

    ghost method EmitHeard(e: Event)
      requires Logged() && IsHeard(e) && Allowed(Monitor(core, ears), e)
      modifies this`history, this`ears
      ensures Logged() && ears == Hear(old(ears), e) && history.log == old(history.log) + [e]
    {
      history := Extend(history, e);
      ears := Hear(ears, e);
    }

    ghost method EmitDecided(e: Event)
      requires Logged() && !IsHeard(e) && !(e.StateSet? && e.state.Starting?) && Allowed(Monitor(core, ears), e)
      modifies this`history, this`core
      ensures Logged() && core == Decide(old(core), e) && history.log == old(history.log) + [e]
    {
      history := Extend(history, e);
      core := Decide(core, e);
    }

    // ----- sending and receiving -----

    method SetState(next: SupervisorState)
      requires Logged() && !next.Starting? && Allowed(Monitor(core, ears), StateSet(generation, next))
      modifies this`state, this`history, this`core
      ensures state == next && Logged() && core == Decide(old(core), StateSet(generation, next))
    {
      state := next;
      EmitDecided(StateSet(generation, next));
    }

    ghost method EmitSent(command: Wire.Command, number: nat, at: int)
      requires 0 < number && Inv() && core.clock <= at <= clock
      requires command.Lease? ==> core.mayRenew && !core.stopping && !core.failing && command.leaseUntil == at + LEASE
      requires command.Open? ==> core.state.Starting? && core.held && core.mayRenew && core.openNumber == 0
                                 && Checked(ears)
      requires command.Open? ==> command.leaseUntil == at + LEASE
      modifies this`history, this`core
      ensures Inv() && history.log == old(history.log) + [CommandSent(generation, command, number, at)]
      ensures core == old(core).(clock := at, openNumber := if command.Open? then number else old(core).openNumber)
    {
      EmitDecided(CommandSent(generation, command, number, at));
    }

    // This is what went wrong.
    ghost predicate Befell(why: Setback)
      reads this`clock, this`hasControl, this`controlClosed, this`requestedStop, this`requestedFailure,
            this`controlFault, this`probeResult, this`acks
    {
      match why
      case Past(deadline) => deadline < clock
      case NoChannel => !Connected()
      case Interruption => requestedStop || requestedFailure.Some? || controlFault.Some?
      case BadProbe => probeResult.Some? && !(probeResult.value.ok && probeResult.value.occupancy == Some(0))
      case Unopened(number) =>
        exists a :: a in acks && a.command.OpenCommand? && a.number == number
                    && !(a.gate.GateOpen? && (a.occupancy == None || a.occupancy == Some(0)))
      case Unclosed(number) =>
        exists a :: a in acks && a.command.CloseCommand? && a.number == number && !a.gate.GateClosed?
      case CalledOff => requestedStop || requestedFailure.Some?
    }

    // The supervisor itself can count a setback only when there is one; the
    // channel and the system count what they refuse.
    ghost method Suffer(why: Setback)
      requires Befell(why)
      modifies this`setbacks
      ensures setbacks == old(setbacks) + 1
    {
      setbacks := setbacks + 1;
    }

    // The channel's own answer to a message: it may take it, refuse it, or close.
    method Offer() returns (accepted: bool)
      modifies this`controlClosed, this`setbacks
      ensures setbacks == old(setbacks) + if accepted then 0 else 1
      ensures old(controlClosed) ==> controlClosed
      ensures accepted ==> controlClosed == old(controlClosed)
    {
      var closes: bool := *;
      accepted := *;
      if !accepted {
        setbacks := setbacks + 1;
        if closes {
          controlClosed := true;
        }
      }
    }

    // An accepted message has the next number, and is in the log.
    method Number(command: Wire.Command, at: int) returns (number: nat)
      requires Inv() && core.clock <= at <= clock
      requires command.Lease? ==> core.mayRenew && !core.stopping && !core.failing && command.leaseUntil == at + LEASE
      requires command.Open? ==> core.state.Starting? && core.held && core.mayRenew && core.openNumber == 0
                                 && Checked(ears)
      requires command.Open? ==> command.leaseUntil == at + LEASE
      modifies this`sentNumber, this`history, this`core
      ensures Inv() && number == sentNumber == old(sentNumber) + 1
      ensures history.log == old(history.log) + [CommandSent(generation, command, number, at)]
      ensures core == old(core).(clock := at, openNumber := if command.Open? then number else old(core).openNumber)
    {
      number := sentNumber + 1;
      EmitSent(command, number, at);
      sentNumber := number;
    }

    // A number comes back exactly if the channel accepted the message.
    method SendCommand(command: Wire.Command, at: int) returns (number: Option<nat>)
      requires Inv() && core.clock <= at <= clock
      requires command.Lease? ==> core.mayRenew && !core.stopping && !core.failing && command.leaseUntil == at + LEASE
      requires command.Open? ==> core.state.Starting? && core.held && core.mayRenew && core.openNumber == 0
                                 && Checked(ears)
      requires command.Open? ==> command.leaseUntil == at + LEASE
      modifies this`controlClosed, this`sentNumber, this`setbacks, this`history, this`core
      ensures Inv()
      ensures number.None? ==> core == old(core) && history == old(history) && sentNumber == old(sentNumber)
      ensures number.Some? ==> old(Connected())
      ensures number.Some? ==> number.value == sentNumber == old(sentNumber) + 1
      ensures number.Some? ==> history.log == old(history.log) + [CommandSent(generation, command, sentNumber, at)]
      ensures number.Some? ==>
                core == old(core).(clock := at,
                                   openNumber := if command.Open? then sentNumber else old(core).openNumber)
      ensures setbacks == old(setbacks) + if number.None? then 1 else 0
    {
      var accepted := TryChannel();
      if !accepted {
        return None;
      }
      var next := Number(command, at);
      return Some(next);
    }

    // Whether there is an open channel that takes a message.
    method TryChannel() returns (accepted: bool)
      requires Inv()
      modifies this`controlClosed, this`setbacks
      ensures Inv() && (accepted ==> old(Connected())) && setbacks == old(setbacks) + if accepted then 0 else 1
    {
      accepted := false;
      if Connected() {
        accepted := Offer();
      } else {
        Suffer(NoChannel);
      }
    }

    method RequestStop()
      requires Inv()
      modifies this`requestedStop, this`history, this`core
      ensures Inv() && requestedStop && core == old(core).(stopping := true)
    {
      requestedStop := true;
      EmitDecided(StopSeen(generation));
    }

    method RequestFailure(reason: string)
      requires Inv()
      modifies this`requestedFailure, this`history, this`core
      ensures Inv() && requestedFailure == Some(reason) && core == old(core).(failing := true)
    {
      requestedFailure := Some(reason);
      EmitDecided(FailureSeen(generation));
    }

    // The parent's own doing: it may ask for a stop, for a failure, or both.
    method AskParent() returns (stop: bool, failure: Option<string>)
      modifies this`asked
      ensures asked == Asked(old(asked).times + 1, stop, failure)
    {
      stop, failure := *, *;
      asked := Asked(asked.times + 1, stop, failure);
    }

    method ReceiveParent()
      requires Inv()
      modifies this`requestedStop, this`requestedFailure, this`asked, this`history, this`core
      ensures Inv() && StillDecided(old(core), core)
      ensures asked.times == old(asked).times + 1
      ensures requestedStop == (old(requestedStop) || asked.stop)
      ensures requestedFailure == if asked.failure.Some? then asked.failure else old(requestedFailure)
    {
      var stop, failure := AskParent();
      HeedStop(stop);
      HeedFailure(failure);
    }

    method HeedStop(stop: bool)
      requires Inv()
      modifies this`requestedStop, this`history, this`core
      ensures Inv() && requestedStop == (old(requestedStop) || stop)
      ensures core == old(core).(stopping := old(core).stopping || stop)
    {
      if stop {
        RequestStop();
      }
    }

    method HeedFailure(failure: Option<string>)
      requires Inv()
      modifies this`requestedFailure, this`history, this`core
      ensures Inv() && requestedFailure == if failure.Some? then failure else old(requestedFailure)
      ensures core == old(core).(failing := old(core).failing || failure.Some?)
    {
      if failure.Some? {
        RequestFailure(failure.value);
      }
    }

    // The first hello of the owned process, stamped between its spawn and now.
    predicate HelloFits(h: Hello, now: int)
      reads this`hello, this`child, this`spawnedAt
    {
      && hello.None? && child.Some? && h.pid == child.value
      && spawnedAt - STAMP_TOLERANCE <= h.monotonic <= now + STAMP_TOLERANCE
    }

    method HandleHello(h: Hello, now: int)
      requires Listening() && child.Some?
      modifies this`hello, this`clockVerified, this`controlFault, this`history, this`ears
      ensures Listening() && HeardMore(old(ears), ears)
      ensures hello == if old(HelloFits(h, now)) then Some(h) else old(hello)
      ensures if old(HelloFits(h, now)) then clockVerified && controlFault == old(controlFault)
              else controlFault == Some("startup_control_invalid") && ears == old(ears)
    {
      if hello.Some? || child.None? || h.pid != child.value
         || !(spawnedAt - STAMP_TOLERANCE <= h.monotonic <= now + STAMP_TOLERANCE) {
        controlFault := Some("startup_control_invalid");
        return;
      }
      KeepHello(h);
    }

    method KeepHello(h: Hello)
      requires Listening() && child.Some? && hello.None?
      modifies this`hello, this`clockVerified, this`history, this`ears
      ensures Listening() && HeardMore(old(ears), ears) && hello == Some(h) && clockVerified
    {
      EmitHeard(HelloSeen(generation, h.Sound()));
      hello := Some(h);
      clockVerified := true;
    }

    // A heartbeat newer than the last, stamped between the spawn and now.
    predicate StampFits(stamp: int, now: int)
      reads this`lastHeartbeat, this`spawnedAt
    {
      lastHeartbeat < stamp <= now + STAMP_TOLERANCE && spawnedAt - STAMP_TOLERANCE <= stamp
    }

    // All its jobs are this generation's, and none was admitted after it.
    predicate JobsFit(s: Pool.Snapshot, ownJobs: bool) {
      ownJobs && forall id :: id in s.jobs ==> s.jobs[id].admittedAt <= s.heartbeat + STAMP_TOLERANCE
    }

    method HandleHeartbeat(sentAt: int, s: Pool.Snapshot, ownJobs: bool, now: int)
      requires Listening() && child.Some?
      modifies this`lastHeartbeat, this`lastSnapshot, this`controlFault, this`history, this`ears
      ensures Listening() && HeardMore(old(ears), ears)
      ensures old(StampFits(s.heartbeat, now)) && JobsFit(s, ownJobs) ==>
                && lastSnapshot == Some(Received(sentAt, s)) && lastHeartbeat == s.heartbeat
                && ears == old(ears).(beats := old(ears).beats + [s]) && controlFault == old(controlFault)
      ensures !(old(StampFits(s.heartbeat, now)) && JobsFit(s, ownJobs)) ==>
                && lastSnapshot == old(lastSnapshot) && lastHeartbeat == old(lastHeartbeat) && ears == old(ears)
                && controlFault == if old(StampFits(s.heartbeat, now)) then Some("job_snapshot_invalid")
                                   else Some("heartbeat_clock_invalid")
    {
      var stamp := s.heartbeat;
      if stamp <= lastHeartbeat || stamp > now + STAMP_TOLERANCE || stamp < spawnedAt - STAMP_TOLERANCE {
        controlFault := Some("heartbeat_clock_invalid");
        return;
      }
      if !ownJobs || exists id | id in s.jobs :: s.jobs[id].admittedAt > stamp + STAMP_TOLERANCE {
        controlFault := Some("job_snapshot_invalid");
        return;
      }
      KeepHeartbeat(sentAt, s);
    }

    method KeepHeartbeat(sentAt: int, s: Pool.Snapshot)
      requires Listening() && child.Some? && lastHeartbeat < s.heartbeat
      modifies this`lastHeartbeat, this`lastSnapshot, this`history, this`ears
      ensures Listening() && HeardMore(old(ears), ears)
      ensures lastSnapshot == Some(Received(sentAt, s)) && lastHeartbeat == s.heartbeat
      ensures ears == old(ears).(beats := old(ears).beats + [s])
    {
      EmitHeard(HeartbeatSeen(generation, s));
      lastHeartbeat := s.heartbeat;
      lastSnapshot := Some(Received(sentAt, s));
    }

    method HandleAck(a: Ack)
      requires Listening() && child.Some?
      modifies this`acks, this`history, this`ears
      ensures Listening() && HeardMore(old(ears), ears) && acks == PutAck(old(acks), a) && a in ears.acks
    {
      EmitHeard(AckSeen(generation, a));
      acks := PutAck(acks, a);
    }

    method HandleProbe(p: Probe)
      requires Listening() && child.Some?
      modifies this`probeResult, this`controlFault, this`history, this`ears
      ensures Listening() && HeardMore(old(ears), ears)
      ensures probeResult == if old(probeResult).Some? then old(probeResult) else Some(p)
      ensures controlFault == if old(probeResult).Some? then Some("duplicate_probe_result") else old(controlFault)
    {
      if probeResult.Some? {
        controlFault := Some("duplicate_probe_result");
        return;
      }
      EmitHeard(ProbeSeen(generation, p.ok, p.occupancy));
      probeResult := Some(p);
    }

    // A stamp between the spawn of the process and now, as far as clocks agree.
    predicate ClockFits(sentAt: int, now: int)
      reads this`spawnedAt
    {
      spawnedAt - STAMP_TOLERANCE <= sentAt <= now + STAMP_TOLERANCE
    }

    // A report that was heard has had its effect, or it was superseded, or it left
    // a fault.
    ghost predicate Accounted(message: Envelope)
      reads this`hello, this`lastHeartbeat, this`probeResult, this`controlFault, this`ears
    {
      controlFault.Some? ||
      match message.report
      case HelloReport(_) => hello.Some?
      case HeartbeatReport(s, _) => s.heartbeat <= lastHeartbeat
      case ProbeReport(_, _) => probeResult.Some?
      case AckReport(command, number, gate, occupancy) =>
        Ack(command, number, message.sentAt, gate, occupancy) in ears.acks
      case _ => false
    }

    twostate predicate NothingForgotten()
      reads this`hello, this`lastHeartbeat, this`probeResult, this`controlFault
    {
      && (old(hello).Some? ==> hello.Some?) && old(lastHeartbeat) <= lastHeartbeat
      && (old(probeResult).Some? ==> probeResult.Some?) && (old(controlFault).Some? ==> controlFault.Some?)
    }

    method HandleReport(message: Envelope, now: int)
      requires Listening() && child.Some?
      modifies this`hello, this`clockVerified, this`controlFault, this`lastHeartbeat, this`lastSnapshot, this`acks,
               this`probeResult, this`history, this`ears
      ensures Listening() && HeardMore(old(ears), ears)
      ensures !ClockFits(message.sentAt, now) ==>
                && controlFault == Some("clock_domain_invalid") && history == old(history)
                && hello == old(hello) && lastSnapshot == old(lastSnapshot) && acks == old(acks)
                && probeResult == old(probeResult)
      ensures ClockFits(message.sentAt, now) ==>
                match message.report
                case HelloReport(h) => hello == if old(HelloFits(h, now)) then Some(h) else old(hello)
                case HeartbeatReport(s, ownJobs) =>
                  if old(StampFits(s.heartbeat, now)) && JobsFit(s, ownJobs)
                  then lastSnapshot == Some(Received(message.sentAt, s)) && lastHeartbeat == s.heartbeat
                  else controlFault.Some?
                case AckReport(command, number, gate, occupancy) =>
                  acks == PutAck(old(acks), Ack(command, number, message.sentAt, gate, occupancy))
                case ProbeReport(ok, occupancy) =>
                  probeResult == if old(probeResult).Some? then old(probeResult) else Some(Probe(ok, occupancy))
                case FaultReport(reason) => controlFault == Some(reason)
                case OtherReport => controlFault == Some("unexpected_child_message")
      ensures Accounted(message) && NothingForgotten()
    {
      if !(spawnedAt - STAMP_TOLERANCE <= message.sentAt <= now + STAMP_TOLERANCE) {
        controlFault := Some("clock_domain_invalid");
      } else {
        Dispatch(message, now);
      }
    }

    // Each kind of report has its own handler; what is none is a fault.
    method Dispatch(message: Envelope, now: int)
      requires Listening() && child.Some?
      modifies this`hello, this`clockVerified, this`controlFault, this`lastHeartbeat, this`lastSnapshot, this`acks,
               this`probeResult, this`history, this`ears
      ensures Listening() && HeardMore(old(ears), ears) && Accounted(message) && NothingForgotten()
      ensures match message.report
              case HelloReport(h) => hello == if old(HelloFits(h, now)) then Some(h) else old(hello)
              case HeartbeatReport(s, ownJobs) =>
                if old(StampFits(s.heartbeat, now)) && JobsFit(s, ownJobs)
                then lastSnapshot == Some(Received(message.sentAt, s)) && lastHeartbeat == s.heartbeat
                else controlFault.Some?
              case AckReport(command, number, gate, occupancy) =>
                acks == PutAck(old(acks), Ack(command, number, message.sentAt, gate, occupancy))
              case ProbeReport(ok, occupancy) =>
                probeResult == if old(probeResult).Some? then old(probeResult) else Some(Probe(ok, occupancy))
              case FaultReport(reason) => controlFault == Some(reason)
              case OtherReport => controlFault == Some("unexpected_child_message")
    {
      var sentAt := message.sentAt;
      match message.report {
        case HelloReport(h) => HandleHello(h, now);
        case HeartbeatReport(s, ownJobs) => HandleHeartbeat(sentAt, s, ownJobs, now);
        case AckReport(command, number, gate, occupancy) => HandleAck(Ack(command, number, sentAt, gate, occupancy));
        case ProbeReport(ok, occupancy) => HandleProbe(Probe(ok, occupancy));
        case FaultReport(reason) => controlFault := Some(reason);
        case OtherReport => controlFault := Some("unexpected_child_message");
      }
    }

    method HearAll(messages: seq<Envelope>, now: int)
      requires Listening() && child.Some?
      modifies this`hello, this`clockVerified, this`controlFault, this`lastHeartbeat, this`lastSnapshot, this`acks,
               this`probeResult, this`history, this`ears
      ensures Listening() && HeardMore(old(ears), ears)
      ensures forall i :: 0 <= i < |messages| ==> Accounted(messages[i])
    {
      for i := 0 to |messages|
        invariant Listening() && HeardMore(old(ears), ears)
        invariant forall k :: 0 <= k < i ==> Accounted(messages[k])
      {
        HandleReport(messages[i], now);
      }
    }

    // The channel's own doing: it may raise, or give any messages, and it may
    // close.
    method ReadChannel() returns (raised: bool, messages: seq<Envelope>, closes: bool)
      modifies this`given
      ensures given == Given(old(given).times + 1, messages) && (raised ==> messages == [])
    {
      raised, messages, closes := *, *, *;
      if raised {
        messages := [];
      }
      given := Given(given.times + 1, messages);
    }

    // Nothing is heard over a closed channel, nor in a call that raises; a
    // channel may also close behind its last messages.
    method ReceiveChild() returns (raised: bool)
      requires Listening()
      modifies this`hello, this`clockVerified, this`controlFault, this`lastHeartbeat, this`lastSnapshot, this`acks,
               this`probeResult, this`controlClosed, this`clock, this`history, this`ears, this`given
      ensures Listening() && HeardMore(old(ears), ears) && old(clock) <= clock
      ensures given.times == old(given).times + if old(Connected()) then 1 else 0
      ensures old(Connected()) ==> forall i :: 0 <= i < |given.messages| ==> Accounted(given.messages[i])
      ensures !old(Connected()) ==> !raised && history == old(history) && controlFault == old(controlFault)
      ensures raised ==> history == old(history) && controlFault == Some("control_invalid") && !Connected()
    {
      raised := false;
      if Connected() {
        var messages, closes;
        raised, messages, closes := ReadChannel();
        if raised {
          controlClosed := true;
          controlFault := Some("control_invalid");
        } else {
          controlClosed := closes;
          var now := ReadClock();
          HearAll(messages, now);
        }
      }
    }

    method NoteRenewal(now: nat)
      requires Inv()
      modifies this`lastRenewed, this`lastLeaseUntil
      ensures Inv() && lastRenewed == now && lastLeaseUntil == now + LEASE
    {
      lastRenewed := now;
      lastLeaseUntil := now + LEASE;
    }

    predicate RenewalDue(now: nat)
      reads this`renew, this`requestedStop, this`requestedFailure, this`lastRenewed
    {
      renew && !requestedStop && requestedFailure.None? && now >= lastRenewed + 250 * MILLISECOND
    }

    // Renew the lease if the renewal is on, nothing stops it and the last one is
    // a quarter of a second old.
    method RenewLease(now: nat)
      requires Inv() && core.clock <= now <= clock
      modifies this`controlClosed, this`sentNumber, this`setbacks, this`history, this`core, this`lastRenewed,
               this`lastLeaseUntil, this`controlFault
      ensures Inv() && StillDecided(old(core), core)
      ensures !old(RenewalDue(now)) ==> history == old(history) && lastRenewed == old(lastRenewed)
      ensures old(RenewalDue(now)) && lastRenewed != old(lastRenewed) ==>
                && lastRenewed == now && lastLeaseUntil == now + LEASE
                && history.log == old(history.log) + [CommandSent(generation, Wire.Lease(now + LEASE), sentNumber, now)]
      ensures old(RenewalDue(now)) && lastRenewed == old(lastRenewed) ==>
                controlFault == Some("lease_send_failed") && history == old(history)
      ensures old(setbacks) <= setbacks
    {
      if renew && !requestedStop && requestedFailure.None? && now - lastRenewed >= CHECK_INTERVAL {
        var number := SendCommand(Wire.Lease(now + LEASE), now);
        if number.Some? {
          NoteRenewal(now);
        } else {
          Blame("lease_send_failed");
        }
      }
    }

    method HearChild()
      requires Inv()
      modifies this`hello, this`clockVerified, this`controlFault, this`lastHeartbeat, this`lastSnapshot, this`acks,
               this`probeResult, this`controlClosed, this`clock, this`history, this`ears, this`given
      ensures Inv() && HeardMore(old(ears), ears)
      ensures given.times == old(given).times + if old(Connected()) then 1 else 0
      ensures old(Connected()) ==> forall i :: 0 <= i < |given.messages| ==> Accounted(given.messages[i])
      ensures old(clock) <= clock
    {
      var raised := ReceiveChild();
    }

    // Both sides were listened to: the parent, and the child if a channel was
    // open to it.
    twostate predicate Listened()
      reads this`asked, this`given
    {
      asked.times == old(asked).times + 1 && given.times == old(given).times + if old(Connected()) then 1 else 0
    }

    method Listen()
      requires Inv()
      modifies this`hello, this`clockVerified, this`controlFault, this`lastHeartbeat, this`lastSnapshot, this`acks,
               this`probeResult, this`controlClosed, this`clock, this`history, this`core, this`ears,
               this`requestedStop, this`requestedFailure, this`asked, this`given
      ensures Inv() && StillDecided(old(core), core) && HeardMore(old(ears), ears)
      ensures old(clock) <= clock && Listened()
      ensures old(Connected()) ==> forall i :: 0 <= i < |given.messages| ==> Accounted(given.messages[i])
      ensures requestedStop == (old(requestedStop) || asked.stop)
      ensures requestedFailure == if asked.failure.Some? then asked.failure else old(requestedFailure)
    {
      ReceiveParent();
      HearChild();
    }

    // Listen to both sides, then see to the lease.
    method Pump()
      requires Inv()
      modifies this`hello, this`clockVerified, this`controlFault, this`lastHeartbeat, this`lastSnapshot, this`acks,
               this`probeResult, this`controlClosed, this`clock, this`history, this`core, this`ears,
               this`requestedStop, this`requestedFailure, this`asked, this`given, this`sentNumber, this`setbacks,
               this`lastRenewed, this`lastLeaseUntil
      ensures Inv() && StillDecided(old(core), core) && HeardMore(old(ears), ears)
      ensures old(clock) <= clock && Listened()
      ensures requestedStop == (old(requestedStop) || asked.stop)
      ensures RenewalDue(clock) ==> controlFault == Some("lease_send_failed")
      ensures old(setbacks) <= setbacks
    {
      Listen();
      var now := Now();
      RenewLease(now);
    }

    // ----- waiting -----

    predicate Holds(awaited: Awaited)
      reads this`hello, this`lastHeartbeat, this`clockVerified, this`probeResult, this`acks, this`childGone,
            this`lastSnapshot
    {
      match awaited
      case StartedSafely =>
        !childGone && hello.Some? && lastHeartbeat != 0 && clockVerified && hello.value.Sound()
      case ProbeAnswered => probeResult.Some?
      case Acknowledged(command, number) => AckIndex(acks, command, number) < |acks|
      case ChildGone => childGone
      case Drained(since) =>
        childGone || (lastSnapshot.Some? && lastSnapshot.value.sentAt >= since
                      && !lastSnapshot.value.snapshot.gateOpen && |lastSnapshot.value.snapshot.jobs| == 0)
    }

    method Check(awaited: Awaited) returns (ok: bool)
      requires Inv()
      modifies this`childGone, this`controlFault
      ensures Inv() && (ok <==> Holds(awaited)) && (old(childGone) ==> childGone)
      ensures controlFault == if awaited.StartedSafely? && childGone then Some("child_exited_startup")
                              else old(controlFault)
    {
      match awaited
      case StartedSafely =>
        var gone := PollChild();
        if gone {
          controlFault := Some("child_exited_startup");
          return false;
        }
        ok := hello.Some? && lastHeartbeat != 0 && clockVerified
              && hello.value.integrityOk && hello.value.listenerBound && hello.value.fixturesOk;
      case ProbeAnswered =>
        ok := probeResult.Some?;
      case Acknowledged(command, number) =>
        ok := AckIndex(acks, command, number) < |acks|;
      case ChildGone =>
        ok := PollChild();
      case Drained(since) =>
        var gone := PollChild();
        ok := gone || (lastSnapshot.Some? && lastSnapshot.value.sentAt >= since
                       && !lastSnapshot.value.snapshot.gateOpen && |lastSnapshot.value.snapshot.jobs| == 0);
    }

    predicate Interrupted()
      reads this`requestedStop, this`requestedFailure, this`controlFault
    {
      requestedStop || requestedFailure.Some? || controlFault.Some?
    }

    method PumpAndLook() returns (now: nat)
      requires Inv()
      modifies this`hello, this`clockVerified, this`controlFault, this`lastHeartbeat, this`lastSnapshot, this`acks,
               this`probeResult, this`controlClosed, this`clock, this`history, this`core, this`ears,
               this`requestedStop, this`requestedFailure, this`asked, this`given, this`sentNumber, this`setbacks,
               this`lastRenewed, this`lastLeaseUntil
      ensures Inv() && StillDecided(old(core), core) && HeardMore(old(ears), ears)
      ensures old(clock) <= now == clock && Listened()
      ensures old(setbacks) <= setbacks
    {
      Pump();
      now := Now();
    }

    // Look at the deadline, at the condition and at what calls for giving up, in
    // that order.
    method Judge(awaited: Awaited, deadline: int, abort: bool, now: nat) returns (verdict: Option<bool>)
      requires Inv() && now == clock
      modifies this`childGone, this`controlFault, this`setbacks
      ensures Inv() && (old(childGone) ==> childGone)
      ensures setbacks == old(setbacks) + if verdict == Some(false) then 1 else 0
      ensures verdict == Some(false) <==> deadline < clock || (!Holds(awaited) && abort && Interrupted())
      ensures verdict == Some(true) <==> clock <= deadline && Holds(awaited)
    {
      if now > deadline {
        Suffer(Past(deadline));
        return Some(false);
      }
      var ok := Check(awaited);
      if ok {
        return Some(true);
      }
      if abort && Interrupted() {
        Suffer(Interruption);
        return Some(false);
      }
      return None;
    }

    // One pass of a wait: pump, then judge.
    method Pass(awaited: Awaited, deadline: int, abort: bool) returns (verdict: Option<bool>)
      requires Inv()
      modifies this`hello, this`clockVerified, this`controlFault, this`lastHeartbeat, this`lastSnapshot, this`acks,
               this`probeResult, this`controlClosed, this`clock, this`history, this`core, this`ears,
               this`requestedStop, this`requestedFailure, this`asked, this`given, this`sentNumber, this`setbacks,
               this`lastRenewed, this`lastLeaseUntil, this`childGone
      ensures Inv() && StillDecided(old(core), core) && HeardMore(old(ears), ears)
      ensures verdict == Some(true) ==> Holds(awaited) && clock <= deadline
      ensures verdict == Some(false) ==> deadline < clock || (!Holds(awaited) && abort && Interrupted())
      ensures old(clock) <= clock && (old(childGone) ==> childGone) && Listened()
      ensures verdict.None? ==> old(clock) < clock && old(clock) <= deadline
      ensures old(setbacks) <= setbacks && (verdict == Some(false) ==> old(setbacks) < setbacks)
    {
      var now := PumpAndLook();
      verdict := Judge(awaited, deadline, abort, now);
      if verdict.None? {
        Sleep();
      }
    }

    method Wait(awaited: Awaited, deadline: int, abort: bool) returns (ok: bool)
      requires Inv()
      modifies this`hello, this`clockVerified, this`controlFault, this`lastHeartbeat, this`lastSnapshot, this`acks,
               this`probeResult, this`controlClosed, this`clock, this`history, this`core, this`ears,
               this`requestedStop, this`requestedFailure, this`asked, this`given, this`sentNumber, this`setbacks,
               this`lastRenewed, this`lastLeaseUntil, this`childGone
      ensures Inv() && StillDecided(old(core), core) && HeardMore(old(ears), ears)
      ensures ok ==> Holds(awaited) && clock <= deadline
      ensures !ok ==> deadline < clock || (!Holds(awaited) && abort && Interrupted())
      ensures old(clock) <= clock && (old(childGone) ==> childGone) && old(asked).times < asked.times
      ensures old(setbacks) <= setbacks && (!ok ==> old(setbacks) < setbacks)
    {
      while true
        invariant Inv() && StillDecided(old(core), core) && HeardMore(old(ears), ears)
        invariant old(setbacks) <= setbacks && old(clock) <= clock && (old(childGone) ==> childGone)
        invariant old(asked).times <= asked.times
        decreases deadline - clock
      {
        var verdict := Pass(awaited, deadline, abort);
        if verdict.Some? {
          return verdict.value;
        }
      }
    }

    method Blame(reason: string)
      requires Inv()
      modifies this`controlFault
      ensures Inv() && controlFault == Some(reason)
    {
      controlFault := Some(reason);
    }

    // Did a phase keep its budget, and succeed if it had to?
    method Phase(started: int, budget: int, success: bool, requireSuccess: bool) returns (ok: bool)
      requires Inv()
      modifies this`clock, this`setbacks
      ensures Inv() && old(clock) <= clock && (ok <==> clock - started <= budget && (success || !requireSuccess))
      ensures setbacks == old(setbacks) + if clock - started > budget then 1 else 0
    {
      var finished := Now();
      if finished - started > budget {
        Suffer(Past(started + budget));
      }
      return finished - started <= budget && (success || !requireSuccess);
    }

    // ----- startup -----

    // A new generation may begin: the first one always, a replacement only in
    // service and with nothing asking for an end.
    ghost predicate MayStart()
      reads this`core, this`generation, this`attempts
    {
      generation <= attempts && (core.unavailable || core.stopping || core.failing ==> generation == 0)
    }

    // STARTING is announced under the next number.
    method AnnounceStarting()
      requires Inv() && child.None? && MayStart()
      modifies this`generation, this`state, this`history, this`core, this`ears
      ensures Logged() && Owned() && Timely() && core.generation == generation
      ensures generation == old(generation) + 1 && state.Starting? && Unspawned()
    {
      EmitStarting();
      generation, state := generation + 1, Starting;
    }

    // A fresh generation with nothing heard yet.
    method Announce()
      requires Inv() && child.None? && MayStart()
      modifies this`generation, this`hello, this`probeResult, this`lastSnapshot, this`acks, this`lastHeartbeat,
               this`lastLeaseUntil, this`controlFault, this`clockVerified, this`openAckAt, this`workConfirmation,
               this`state, this`history, this`core, this`ears
      ensures Inv() && generation == old(generation) + 1 && state.Starting? && Unspawned()
      ensures lastSnapshot.None? && hello.None? && probeResult.None? && workConfirmation.None?
    {
      AnnounceStarting();
      Forget();
    }

    // What a new generation has not heard yet.
    method Forget()
      modifies this`hello, this`probeResult, this`lastSnapshot, this`acks, this`lastHeartbeat, this`lastLeaseUntil,
               this`controlFault, this`clockVerified, this`openAckAt, this`workConfirmation
      ensures hello.None? && probeResult.None? && lastSnapshot.None? && acks == [] && lastHeartbeat == 0
      ensures lastLeaseUntil == 0 && controlFault.None? && !clockVerified && openAckAt == 0 && workConfirmation.None?
    {
      hello, probeResult, lastSnapshot, acks := None, None, None, [];
      lastHeartbeat, lastLeaseUntil := 0, 0;
      controlFault, clockVerified, openAckAt, workConfirmation := None, false, 0, None;
    }

    // The process exists: its handle is held, a new channel leads to it, and
    // its lease may be renewed.
    method Own(pid: nat)
      requires Inv() && child.None? && state.Starting? && 0 < generation && Unspawned()
      modifies this`hasControl, this`controlClosed, this`sentNumber, this`child, this`childGone, this`renew,
               this`lastRenewed, this`history, this`core
      ensures Inv() && child == Some(pid) && renew && Connected()
      ensures core == old(core).(held := true, mayRenew := true)
    {
      Hold(pid);
      Connect();
    }

    method Hold(pid: nat)
      requires Inv() && child.None? && state.Starting? && 0 < generation && Unspawned()
      modifies this`child, this`childGone, this`renew, this`lastRenewed, this`history, this`core
      ensures Inv() && child == Some(pid) && !childGone && renew
      ensures core == old(core).(held := true, mayRenew := true)
    {
      EmitDecided(Spawned(generation));
      SetHandle(pid);
    }

    method SetHandle(pid: nat)
      modifies this`child, this`childGone, this`renew, this`lastRenewed
      ensures child == Some(pid) && !childGone && renew && lastRenewed == 0
    {
      child, childGone, renew, lastRenewed := Some(pid), false, true, 0;
    }

    method Connect()
      requires Inv() && child.Some?
      modifies this`hasControl, this`controlClosed, this`sentNumber
      ensures Inv() && Connected() && sentNumber == 0
    {
      hasControl, controlClosed, sentNumber := true, false, 0;
    }

    method SpawnFails()
      requires Inv()
      modifies this`controlFault, this`controlClosed
      ensures Inv()
    {
      controlFault := Some("spawn_or_channel_failed");
      controlClosed := true;
    }

    // No child of this generation yet, and nothing heard.
    ghost predicate Unspawned()
      reads this`core, this`ears
    {
      !core.unavailable && !core.mayRenew && core.openNumber == 0 && ears == DEAF
    }

    // The system's own answer: a new process and a channel to it, or neither.
    method Fork() returns (pid: Option<nat>)
      modifies this`setbacks
      ensures setbacks == old(setbacks) + if pid.Some? then 0 else 1
    {
      var forked: bool := *;
      var number: nat := *;
      if forked {
        return Some(number);
      }
      setbacks := setbacks + 1;
      return None;
    }

    // The channel and the process; either may fail.
    method Spawn() returns (ok: bool)
      requires Inv() && child.None? && state.Starting? && 0 < generation && Unspawned()
      modifies this`hasControl, this`controlClosed, this`sentNumber, this`setbacks, this`controlFault, this`spawnedAt,
               this`child, this`childGone, this`renew, this`lastRenewed, this`clock, this`history, this`core
      ensures Inv()
      ensures ok ==> child.Some? && renew && Connected() && core == old(core).(held := true, mayRenew := true)
      ensures !ok ==> child.None? && core == old(core) && renew == old(renew)
      ensures old(setbacks) <= setbacks && (!ok ==> old(setbacks) < setbacks)
    {
      spawnedAt := Now();
      var pid := Fork();
      ok := pid.Some?;
      if ok {
        Own(pid.value);
      } else {
        SpawnFails();
      }
    }

    // Wait for a sound hello and a heartbeat.
    method AwaitStart(started: int) returns (ok: bool)
      requires Inv()
      modifies this`hello, this`clockVerified, this`controlFault, this`lastHeartbeat, this`lastSnapshot, this`acks,
               this`probeResult, this`controlClosed, this`clock, this`history, this`core, this`ears,
               this`requestedStop, this`requestedFailure, this`asked, this`given, this`sentNumber, this`setbacks,
               this`lastRenewed, this`lastLeaseUntil, this`childGone
      ensures Inv() && StillDecided(old(core), core)
      ensures ok ==> ears.sound && ears.beats != [] && lastSnapshot.Some?
      ensures !ok ==> started + 4 * SECOND < clock || (Interrupted() && !Holds(StartedSafely))
      ensures old(setbacks) <= setbacks && (!ok ==> old(setbacks) < setbacks)
    {
      var arrived := Wait(StartedSafely, started + STARTUP_BUDGET, true);
      ok := Phase(started, STARTUP_BUDGET, arrived, true);
    }

    // Ask for the probe and wait for its result.
    method AwaitProbe() returns (ok: bool)
      requires Inv()
      modifies this`hello, this`clockVerified, this`controlFault, this`lastHeartbeat, this`lastSnapshot, this`acks,
               this`probeResult, this`controlClosed, this`clock, this`history, this`core, this`ears,
               this`requestedStop, this`requestedFailure, this`asked, this`given, this`sentNumber, this`setbacks,
               this`lastRenewed, this`lastLeaseUntil, this`childGone
      ensures Inv() && StillDecided(old(core), core) && HeardMore(old(ears), ears)
      ensures ok ==> ears.probed
      ensures old(setbacks) <= setbacks && (!ok ==> old(setbacks) < setbacks)
      ensures !ok ==> history == old(history) || old(clock) + 3500 * MILLISECOND < clock || Interrupted()
                      || Befell(BadProbe)
    {
      var started := Now();
      var number := SendCommand(Wire.Probe, started);
      ok := false;
      if number.Some? {
        ok := JudgeProbe(started);
      }
    }

    // Only an ok result with nothing running, in time, will do.
    method JudgeProbe(started: nat) returns (ok: bool)
      requires Inv()
      modifies this`hello, this`clockVerified, this`controlFault, this`lastHeartbeat, this`lastSnapshot, this`acks,
               this`probeResult, this`controlClosed, this`clock, this`history, this`core, this`ears,
               this`requestedStop, this`requestedFailure, this`asked, this`given, this`sentNumber, this`setbacks,
               this`lastRenewed, this`lastLeaseUntil, this`childGone
      ensures Inv() && StillDecided(old(core), core) && HeardMore(old(ears), ears)
      ensures ok ==> ears.probed
      ensures old(setbacks) <= setbacks && (!ok ==> old(setbacks) < setbacks)
      ensures !ok ==> started + 3500 * MILLISECOND < clock || Interrupted() || Befell(BadProbe)
    {
      var passed := ProbePasses(started);
      ok := Phase(started, PROBE_BUDGET, passed, true);
    }

    method ProbePasses(started: nat) returns (passed: bool)
      requires Inv()
      modifies this`hello, this`clockVerified, this`controlFault, this`lastHeartbeat, this`lastSnapshot, this`acks,
               this`probeResult, this`controlClosed, this`clock, this`history, this`core, this`ears,
               this`requestedStop, this`requestedFailure, this`asked, this`given, this`sentNumber, this`setbacks,
               this`lastRenewed, this`lastLeaseUntil, this`childGone
      ensures Inv() && StillDecided(old(core), core) && HeardMore(old(ears), ears)
      ensures passed ==> ears.probed
      ensures !passed ==> started + 3500 * MILLISECOND < clock || Interrupted() || Befell(BadProbe)
      ensures old(setbacks) <= setbacks && (!passed ==> old(setbacks) < setbacks)
    {
      passed := Wait(ProbeAnswered, started + PROBE_BUDGET, true);
      if passed {
        passed := JudgeAnswer();
      }
    }

    method JudgeAnswer() returns (passed: bool)
      requires Inv() && probeResult.Some?
      modifies this`setbacks
      ensures Inv() && if passed then ears.probed else Befell(BadProbe)
      ensures setbacks == old(setbacks) + if passed then 0 else 1
    {
      passed := probeResult.value.ok && probeResult.value.occupancy == Some(0);
      if !passed {
        Suffer(BadProbe);
      }
    }

    // The gate was acknowledged to be open, at this stamp.
    ghost predicate Opened()
      reads this`core, this`ears, this`openAckAt
    {
      exists a :: OpenAcknowledged(Monitor(core, ears), a) && a.sentAt == openAckAt
    }

    // Wait for the acknowledgement of the open command and judge it.
    method ConfirmOpen(number: nat, deadline: int) returns (confirmed: bool)
      requires Inv() && core.openNumber == number && core.held && Checked(ears)
      modifies this`hello, this`clockVerified, this`controlFault, this`lastHeartbeat, this`lastSnapshot, this`acks,
               this`probeResult, this`controlClosed, this`clock, this`history, this`core, this`ears,
               this`requestedStop, this`requestedFailure, this`asked, this`given, this`sentNumber, this`setbacks,
               this`lastRenewed, this`lastLeaseUntil, this`childGone, this`openAckAt
      ensures Inv() && StillDecided(old(core), core)
      ensures confirmed ==> Earned(Monitor(core, ears)) && Opened()
      ensures !confirmed ==> deadline < clock || Interrupted() || Befell(Unopened(number))
      ensures old(setbacks) <= setbacks && (!confirmed ==> old(setbacks) < setbacks)
    {
      confirmed := Wait(Acknowledged(OpenCommand, number), deadline, true);
      if confirmed {
        confirmed := JudgeOpen(number);
      }
    }

    // The gate is open since this acknowledgement, if it says OPEN and that
    // nothing runs.
    method JudgeOpen(number: nat) returns (confirmed: bool)
      requires Inv() && core.openNumber == number && Holds(Acknowledged(OpenCommand, number))
      modifies this`openAckAt, this`setbacks
      ensures Inv() && if confirmed then Opened() else Befell(Unopened(number))
      ensures setbacks == old(setbacks) + if confirmed then 0 else 1
    {
      var ack := acks[AckIndex(acks, OpenCommand, number)];
      assert ack in acks;
      openAckAt := ack.sentAt;
      confirmed := AcknowledgesOpen(ack);
      if confirmed {
        assert OpenAcknowledged(Monitor(core, ears), ack);
      } else {
        Suffer(Unopened(number));
      }
    }

    // Send the one open command, with a lease, and wait for its OPEN ack.
    method AwaitOpen() returns (ok: bool)
      requires Inv() && core.state.Starting? && core.held && core.mayRenew && core.openNumber == 0 && Checked(ears)
      modifies this`hello, this`clockVerified, this`controlFault, this`lastHeartbeat, this`lastSnapshot, this`acks,
               this`probeResult, this`controlClosed, this`clock, this`history, this`core, this`ears,
               this`requestedStop, this`requestedFailure, this`asked, this`given, this`sentNumber, this`setbacks,
               this`lastRenewed, this`lastLeaseUntil, this`childGone, this`openAckAt
      ensures Inv()
      ensures core == old(core).(openNumber := core.openNumber, stopping := core.stopping, failing := core.failing,
                                 clock := core.clock)
      ensures ok ==> Earned(Monitor(core, ears)) && Opened()
      ensures old(setbacks) <= setbacks && (!ok ==> old(setbacks) < setbacks)
      ensures !ok ==> history == old(history) || old(clock) + 250 * MILLISECOND < clock || Interrupted()
                      || exists n :: Befell(Unopened(n))
    {
      var openedAt := Now();
      var confirmed := OpenGate(openedAt);
      ok := Phase(openedAt, OPEN_BUDGET, confirmed, true);
    }

    method OpenGate(openedAt: nat) returns (confirmed: bool)
      requires Inv() && core.state.Starting? && core.held && core.mayRenew && core.openNumber == 0 && Checked(ears)
      requires core.clock <= openedAt == clock
      modifies this`hello, this`clockVerified, this`controlFault, this`lastHeartbeat, this`lastSnapshot, this`acks,
               this`probeResult, this`controlClosed, this`clock, this`history, this`core, this`ears,
               this`requestedStop, this`requestedFailure, this`asked, this`given, this`sentNumber, this`setbacks,
               this`lastRenewed, this`lastLeaseUntil, this`childGone, this`openAckAt
      ensures Inv()
      ensures core == old(core).(openNumber := core.openNumber, stopping := core.stopping, failing := core.failing,
                                 clock := core.clock)
      ensures confirmed ==> Earned(Monitor(core, ears)) && Opened()
      ensures old(setbacks) <= setbacks && (!confirmed ==> old(setbacks) < setbacks)
      ensures !confirmed ==> history == old(history) || openedAt + 250 * MILLISECOND < clock || Interrupted()
                             || exists n :: Befell(Unopened(n))
    {
      lastLeaseUntil := openedAt + LEASE;
      var number := SendCommand(Wire.Open(openedAt + LEASE), openedAt);
      confirmed := false;
      if number.Some? {
        confirmed := ConfirmOpen(number.value, openedAt + OPEN_BUDGET);
      }
    }

    // Hello and heartbeat, then the probe, then the gate; each must succeed.
    method BringUp(started: int) returns (ok: bool)
      requires Inv() && core.state.Starting? && core.held && core.mayRenew && core.openNumber == 0
      modifies this`hello, this`clockVerified, this`controlFault, this`lastHeartbeat, this`lastSnapshot, this`acks,
               this`probeResult, this`controlClosed, this`clock, this`history, this`core, this`ears,
               this`requestedStop, this`requestedFailure, this`asked, this`given, this`sentNumber, this`setbacks,
               this`lastRenewed, this`lastLeaseUntil, this`childGone, this`openAckAt
      ensures Inv()
      ensures core == old(core).(openNumber := core.openNumber, stopping := core.stopping, failing := core.failing,
                                 clock := core.clock)
      ensures ok ==> Earned(Monitor(core, ears)) && Opened()
      ensures old(setbacks) <= setbacks && (!ok ==> old(setbacks) < setbacks)
    {
      ok := AwaitStart(started);
      if !ok {
        return;
      }
      ok := AwaitProbe();
      if !ok {
        return;
      }
      ok := AwaitOpen();
    }

    // READY, unless the recovery took too long.
    method ReachReady() returns (ok: bool)
      requires Inv() && !core.unavailable && Earned(Monitor(core, ears))
      modifies this`state, this`history, this`core, this`clock, this`controlFault, this`setbacks
      ensures Inv()
      ensures ok ==> state.Ready? && core == old(core).(state := Ready, wasReady := true)
      ensures !ok ==> state == old(state) && core == old(core)
      ensures old(setbacks) <= setbacks && (!ok ==> old(setbacks) < setbacks)
    {
      var now := Now();
      if recoveryDeadline.Some? && now > recoveryDeadline.value {
        controlFault := Some("recovery_budget_exceeded");
        Suffer(Past(recoveryDeadline.value));
        return false;
      }
      BecomeReady();
      AnnounceReady();
      return true;
    }

    method BecomeReady()
      requires Inv() && !core.unavailable && (core.wasReady || Earned(Monitor(core, ears)))
      modifies this`state, this`history, this`core
      ensures Inv() && state.Ready? && core == old(core).(state := Ready, wasReady := true)
    {
      SetState(Ready);
    }

    method AnnounceReady()
      requires Inv() && !core.unavailable && core.wasReady && core.state.Ready?
      modifies this`clock, this`history, this`core
      ensures Inv() && core == old(core)
    {
      var readyAt := Now();
      EmitDecided(ReadyAnnounced(generation));
    }

    // Spawn the announced generation and bring it up.
    method Launch(started: int) returns (ok: bool)
      requires Inv() && child.None? && state.Starting? && 0 < generation && Unspawned()
      modifies this`hasControl, this`controlClosed, this`sentNumber, this`setbacks, this`controlFault, this`spawnedAt,
               this`child, this`childGone, this`renew, this`lastRenewed, this`clock, this`history, this`core,
               this`hello, this`clockVerified, this`lastHeartbeat, this`lastSnapshot, this`acks, this`probeResult,
               this`ears, this`requestedStop, this`requestedFailure, this`asked, this`given, this`lastLeaseUntil,
               this`openAckAt, this`state
      ensures Inv() && !core.unavailable
      ensures ok ==> state.Ready? && core.wasReady && renew && child.Some? && lastSnapshot.Some?
      ensures old(setbacks) <= setbacks && (!ok ==> old(setbacks) < setbacks)
    {
      ok := Spawn();
      if !ok {
        StopRenewing();
        return;
      }
      ok := BringUp(started);
      if ok {
        ok := ReachReady();
      }
    }

    // `_startup`: a new generation, from spawn to READY. It refuses to start
    // while a child is still held.
    method Startup() returns (r: Outcome)
      requires Inv() && MayStart()
      modifies this
      ensures Inv() && !core.unavailable
      ensures attempts == old(attempts) && recovering == old(recovering) && stopped == old(stopped)
      ensures r.ReapRequired? <==> old(child.Some?)
      ensures generation == if r.ReapRequired? then old(generation) else old(generation) + 1
      ensures r.ReapRequired? ==> state == old(state)
      ensures r == Finished(true) ==> state.Ready? && core.wasReady && renew && child.Some? && lastSnapshot.Some?
      ensures old(setbacks) <= setbacks && (r == Finished(false) ==> old(setbacks) < setbacks)
    {
      var started := Now();
      if child.Some? {
        return ReapRequired;
      }
      var ok := StartNext(started);
      return Finished(ok);
    }

    method StartNext(started: int) returns (ok: bool)
      requires Inv() && child.None? && MayStart()
      modifies this
      ensures Inv() && !core.unavailable && generation == old(generation) + 1
      ensures attempts == old(attempts) && recovering == old(recovering) && stopped == old(stopped)
      ensures ok ==> state.Ready? && core.wasReady && renew && child.Some? && lastSnapshot.Some?
      ensures old(setbacks) <= setbacks && (!ok ==> old(setbacks) < setbacks)
    {
      Announce();
      ok := Launch(started);
    }

    // ----- retirement -----

    // A state that only an end, not a beginning, may follow.
    method Move(next: SupervisorState)
      requires Inv() && (next.Draining? || next.Recovering?)
      modifies this`state, this`history, this`core
      ensures Inv() && state == next && core == old(core).(state := next)
    {
      SetState(next);
    }

    method CloseControl()
      requires Inv()
      modifies this`controlClosed
      ensures Inv() && !Connected()
    {
      if hasControl {
        controlClosed := true;
      }
    }

    // The CLOSED acknowledgement of close command `number`, if it comes in time.
    method AwaitClosed(number: nat, deadline: int) returns (closed: Option<Ack>)
      requires Inv()
      modifies this`hello, this`clockVerified, this`controlFault, this`lastHeartbeat, this`lastSnapshot, this`acks,
               this`probeResult, this`controlClosed, this`clock, this`history, this`core, this`ears,
               this`requestedStop, this`requestedFailure, this`asked, this`given, this`sentNumber, this`setbacks,
               this`lastRenewed, this`lastLeaseUntil, this`childGone
      ensures Inv() && StillDecided(old(core), core)
      ensures closed.Some? ==> closed.value in ears.acks && AcknowledgesClose(closed.value)
      ensures closed.None? ==> deadline < clock || Befell(Unclosed(number))
      ensures old(setbacks) <= setbacks && (closed.None? ==> old(setbacks) < setbacks)
    {
      closed := None;
      var acked := Wait(Acknowledged(CloseCommand, number), deadline, false);
      if acked {
        var ack := acks[AckIndex(acks, CloseCommand, number)];
        assert ack in acks;
        if ack.gate.GateClosed? {
          closed := Some(ack);
        } else {
          Suffer(Unclosed(number));
        }
      }
    }

    // Ask the child to close its gate, and wait a little for the answer.
    method RequestClose() returns (closed: Option<Ack>, within: bool)
      requires Inv()
      modifies this`hello, this`clockVerified, this`controlFault, this`lastHeartbeat, this`lastSnapshot, this`acks,
               this`probeResult, this`controlClosed, this`clock, this`history, this`core, this`ears,
               this`requestedStop, this`requestedFailure, this`asked, this`given, this`sentNumber, this`setbacks,
               this`lastRenewed, this`lastLeaseUntil, this`childGone
      ensures Inv() && StillDecided(old(core), core)
      ensures closed.Some? ==> closed.value in ears.acks && AcknowledgesClose(closed.value)
      ensures old(setbacks) <= setbacks && (!within ==> old(setbacks) < setbacks)
      ensures closed.None? ==> childGone || old(setbacks) < setbacks
      ensures !within ==> old(clock) + 250 * MILLISECOND < clock
    {
      var started := Now();
      closed := AskToClose(started);
      within := Phase(started, CLOSE_ACK_BUDGET, closed.Some?, false);
    }

    method AskToClose(started: nat) returns (closed: Option<Ack>)
      requires Inv() && core.clock <= started == clock
      modifies this`hello, this`clockVerified, this`controlFault, this`lastHeartbeat, this`lastSnapshot, this`acks,
               this`probeResult, this`controlClosed, this`clock, this`history, this`core, this`ears,
               this`requestedStop, this`requestedFailure, this`asked, this`given, this`sentNumber, this`setbacks,
               this`lastRenewed, this`lastLeaseUntil, this`childGone
      ensures Inv() && StillDecided(old(core), core)
      ensures closed.Some? ==> closed.value in ears.acks && AcknowledgesClose(closed.value)
      ensures old(setbacks) <= setbacks && (closed.None? ==> childGone || old(setbacks) < setbacks)
      ensures closed.None? ==> childGone || history == old(history) || started + 249 * MILLISECOND < clock
                               || exists n :: Befell(Unclosed(n))
    {
      closed := None;
      var number := SendCommand(Wire.Close, started);
      if number.Some? {
        var gone := PollChild();
        if !gone {
          closed := AwaitClosed(number.value, started + CLOSE_ACK_BUDGET - MILLISECOND);
        }
      }
    }

    // Let the work that is still running finish.
    method Drain(ack: Ack) returns (within: bool)
      requires Inv() && AcknowledgesClose(ack)
      modifies this`hello, this`clockVerified, this`controlFault, this`lastHeartbeat, this`lastSnapshot, this`acks,
               this`probeResult, this`controlClosed, this`clock, this`history, this`core, this`ears,
               this`requestedStop, this`requestedFailure, this`asked, this`given, this`sentNumber, this`setbacks,
               this`lastRenewed, this`lastLeaseUntil, this`childGone, this`state, this`drains
      ensures Inv() && state.Draining? && StillDecided(old(core).(state := Draining), core)
      ensures old(setbacks) <= setbacks && (!within ==> old(setbacks) < setbacks)
      ensures ack.occupancy == Some(0) || Holds(Drained(ack.sentAt)) || old(setbacks) < setbacks
      ensures drains == old(drains) + 1
    {
      BeginDrain();
      within := AwaitDrained(ack);
    }

    method BeginDrain()
      requires Inv()
      modifies this`state, this`history, this`core, this`drains
      ensures Inv() && state.Draining? && core == old(core).(state := Draining) && drains == old(drains) + 1
    {
      drains := drains + 1;
      Move(Draining);
    }

    method AwaitDrained(ack: Ack) returns (within: bool)
      requires Inv()
      modifies this`hello, this`clockVerified, this`controlFault, this`lastHeartbeat, this`lastSnapshot, this`acks,
               this`probeResult, this`controlClosed, this`clock, this`history, this`core, this`ears,
               this`requestedStop, this`requestedFailure, this`asked, this`given, this`sentNumber, this`setbacks,
               this`lastRenewed, this`lastLeaseUntil, this`childGone
      ensures Inv() && StillDecided(old(core), core)
      ensures old(setbacks) <= setbacks && (!within ==> old(setbacks) < setbacks)
      ensures ack.occupancy == Some(0) || Holds(Drained(ack.sentAt)) || old(clock) + 999 * MILLISECOND < clock
      ensures ack.occupancy == Some(0) || Holds(Drained(ack.sentAt)) || old(setbacks) < setbacks
      ensures !within ==> old(clock) + 1 * SECOND < clock
    {
      var started := Now();
      if ack.occupancy != Some(0) {
        var drained := Wait(Drained(ack.sentAt), started + DRAIN_BUDGET - MILLISECOND, false);
      }
      within := Phase(started, DRAIN_BUDGET, true, true);
    }

    // Signal the process and wait for its exit; twice at most.
    method Terminate() returns (reaped: bool, within: bool)
      requires Inv()
      modifies this`hello, this`clockVerified, this`controlFault, this`lastHeartbeat, this`lastSnapshot, this`acks,
               this`probeResult, this`controlClosed, this`clock, this`history, this`core, this`ears,
               this`requestedStop, this`requestedFailure, this`asked, this`given, this`sentNumber, this`setbacks,
               this`lastRenewed, this`lastLeaseUntil, this`childGone
      ensures Inv() && StillDecided(old(core), core)
      ensures reaped ==> childGone
      ensures !reaped ==> old(clock) + 349 * MILLISECOND < clock
      ensures !reaped && !childGone ==> old(clock) + 998 * MILLISECOND < clock
      ensures old(setbacks) <= setbacks && (!within || !reaped ==> old(setbacks) < setbacks)
      ensures !within ==> old(clock) + 350 * MILLISECOND < clock
    {
      var started := Now();
      var terminated := Wait(ChildGone, started + TERMINATE_BUDGET - MILLISECOND, false);
      within := Phase(started, TERMINATE_BUDGET, terminated, false);
      started := Now();
      reaped := Wait(ChildGone, started + KILL_REAP_BUDGET - MILLISECOND, false);
      var killed := Phase(started, KILL_REAP_BUDGET, reaped, false);
      within := within && killed;
    }

    // An accredited reap: the handle is given up, and what the child last said.
    method GiveUp()
      requires Inv() && child.Some? && !renew && !Connected()
      modifies this`residual, this`child, this`lastSnapshot, this`lastHeartbeat, this`workConfirmation, this`history,
               this`core
      ensures Inv() && child.None? && core == old(core).(held := false)
    {
      EmitDecided(Retired(generation, true));
      DropChild();
    }

    method DropChild()
      modifies this`residual, this`child, this`lastSnapshot, this`lastHeartbeat, this`workConfirmation
      ensures !residual && child.None? && lastSnapshot.None? && lastHeartbeat == 0 && workConfirmation.None?
    {
      residual := false;
      child, lastSnapshot, lastHeartbeat, workConfirmation := None, None, 0, None;
    }

    method KeepHandle()
      requires Inv() && child.Some?
      modifies this`residual, this`controlFault, this`history, this`core
      ensures Inv() && residual && core == old(core)
    {
      residual := true;
      EmitDecided(Retired(generation, false));
      controlFault := Some("reap_not_accredited");
    }

    // Record whether the reap is accredited; only then is the handle given up.
    method Accredit(accredited: bool)
      requires Inv() && child.Some? && !renew && (accredited ==> childGone)
      modifies this`residual, this`controlClosed, this`child, this`lastSnapshot, this`lastHeartbeat,
               this`workConfirmation, this`controlFault, this`history, this`core
      ensures Inv() && core == old(core).(held := !accredited)
      ensures (accredited <==> child.None?) && (residual <==> child.Some?)
    {
      CloseControl();
      if accredited {
        GiveUp();
      } else {
        KeepHandle();
      }
    }

    // Close the gate, drain if it was acknowledged, and announce RECOVERING.
    method Quiesce(drain: bool) returns (within: bool)
      requires Inv()
      modifies this`hello, this`clockVerified, this`controlFault, this`lastHeartbeat, this`lastSnapshot, this`acks,
               this`probeResult, this`controlClosed, this`clock, this`history, this`core, this`ears,
               this`requestedStop, this`requestedFailure, this`asked, this`given, this`sentNumber, this`setbacks,
               this`lastRenewed, this`lastLeaseUntil, this`childGone, this`state, this`drains
      ensures Inv() && state.Recovering? && core.unavailable == old(core).unavailable
      ensures old(setbacks) <= setbacks && (!within ==> old(setbacks) < setbacks)
      ensures drain ==> childGone || drains == old(drains) + 1 || old(setbacks) < setbacks
    {
      within := CloseAndDrain(drain);
      Move(Recovering);
    }

    method CloseAndDrain(drain: bool) returns (within: bool)
      requires Inv()
      modifies this`hello, this`clockVerified, this`controlFault, this`lastHeartbeat, this`lastSnapshot, this`acks,
               this`probeResult, this`controlClosed, this`clock, this`history, this`core, this`ears,
               this`requestedStop, this`requestedFailure, this`asked, this`given, this`sentNumber, this`setbacks,
               this`lastRenewed, this`lastLeaseUntil, this`childGone, this`state, this`drains
      ensures Inv() && core.unavailable == old(core).unavailable
      ensures old(setbacks) <= setbacks && (!within ==> old(setbacks) < setbacks)
      ensures drain ==> childGone || drains == old(drains) + 1 || old(setbacks) < setbacks
    {
      var closed;
      closed, within := RequestClose();
      if closed.Some? && drain {
        var drained := DrainIfRunning(closed.value);
        within := within && drained;
      }
    }

    method DrainIfRunning(ack: Ack) returns (within: bool)
      requires Inv() && AcknowledgesClose(ack)
      modifies this`hello, this`clockVerified, this`controlFault, this`lastHeartbeat, this`lastSnapshot, this`acks,
               this`probeResult, this`controlClosed, this`clock, this`history, this`core, this`ears,
               this`requestedStop, this`requestedFailure, this`asked, this`given, this`sentNumber, this`setbacks,
               this`lastRenewed, this`lastLeaseUntil, this`childGone, this`state, this`drains
      ensures Inv() && core.unavailable == old(core).unavailable
      ensures old(setbacks) <= setbacks && (!within ==> old(setbacks) < setbacks)
      ensures childGone || drains == old(drains) + 1
    {
      within := true;
      var gone := PollChild();
      if !gone {
        within := Drain(ack);
      }
    }

    // The system's own answer: does anything of the process remain, or of
    // those it started?
    method Census() returns (remains: bool)
      modifies this`setbacks
      ensures setbacks == old(setbacks) + if remains then 1 else 0
    {
      remains := *;
      if remains {
        setbacks := setbacks + 1;
      }
    }

    // Whether the process was seen to go, and nothing of it remains.
    method Reap() returns (accredited: bool, within: bool)
      requires Inv()
      modifies this`hello, this`clockVerified, this`controlFault, this`lastHeartbeat, this`lastSnapshot, this`acks,
               this`probeResult, this`controlClosed, this`clock, this`history, this`core, this`ears,
               this`requestedStop, this`requestedFailure, this`asked, this`given, this`sentNumber, this`setbacks,
               this`lastRenewed, this`lastLeaseUntil, this`childGone
      ensures Inv() && StillDecided(old(core), core)
      ensures accredited ==> childGone
      ensures old(setbacks) <= setbacks && (!within || !accredited ==> old(setbacks) < setbacks)
    {
      var reaped;
      reaped, within := Terminate();
      var remains := Census();
      accredited := reaped && !remains;
    }

    // Bring the owned process down, without or with its cooperation.
    method PutDown(drain: bool) returns (accredited: bool, within: bool)
      requires Inv()
      modifies this`hello, this`clockVerified, this`controlFault, this`lastHeartbeat, this`lastSnapshot, this`acks,
               this`probeResult, this`controlClosed, this`clock, this`history, this`core, this`ears,
               this`requestedStop, this`requestedFailure, this`asked, this`given, this`sentNumber, this`setbacks,
               this`lastRenewed, this`lastLeaseUntil, this`childGone, this`state, this`drains
      ensures Inv() && state.Recovering? && core.unavailable == old(core).unavailable
      ensures accredited ==> childGone
      ensures old(setbacks) <= setbacks && (!within || !accredited ==> old(setbacks) < setbacks)
      ensures drain ==> childGone || drains == old(drains) + 1 || old(setbacks) < setbacks
    {
      var quiesced := Quiesce(drain);
      accredited, within := Reap();
      within := within && quiesced;
    }

    method StopRenewing()
      requires Inv()
      modifies this`renew
      ensures Inv() && !renew
    {
      renew := false;
    }

    method JudgeBudgets(within: bool)
      requires Inv()
      modifies this`controlFault
      ensures Inv() && controlFault == if within then old(controlFault) else Some("retirement_phase_budget_exceeded")
    {
      if !within {
        controlFault := Some("retirement_phase_budget_exceeded");
      }
    }

    // The owned child, down and accounted for.
    method RetireOwned(drain: bool) returns (ok: bool)
      requires Inv() && child.Some? && !renew
      modifies this`controlClosed, this`hello, this`clockVerified, this`controlFault, this`lastHeartbeat,
               this`lastSnapshot, this`acks, this`probeResult, this`clock, this`history, this`core, this`ears,
               this`requestedStop, this`requestedFailure, this`asked, this`given, this`sentNumber, this`setbacks,
               this`lastRenewed, this`lastLeaseUntil, this`childGone, this`state, this`residual, this`child,
               this`workConfirmation, this`drains
      ensures Inv() && state.Recovering? && core.unavailable == old(core).unavailable
      ensures (ok ==> child.None?) && (residual <==> child.Some?)
      ensures !ok ==> residual || controlFault == Some("retirement_phase_budget_exceeded")
      ensures child.None? ==> childGone
      ensures old(setbacks) <= setbacks && (!ok ==> old(setbacks) < setbacks)
    {
      var accredited, within := PutDown(drain);
      Accredit(accredited);
      JudgeBudgets(within);
      return accredited && within;
    }

    // `_retire`: close, drain, terminate, kill, reap. Renewal is off from the
    // first line on, whatever the child answers.
    method Retire(drain: bool) returns (ok: bool)
      requires Inv()
      modifies this`renew, this`controlClosed, this`hello, this`clockVerified, this`controlFault, this`lastHeartbeat,
               this`lastSnapshot, this`acks, this`probeResult, this`clock, this`history, this`core, this`ears,
               this`requestedStop, this`requestedFailure, this`asked, this`given, this`sentNumber, this`setbacks,
               this`lastRenewed, this`lastLeaseUntil, this`childGone, this`state, this`residual, this`child,
               this`workConfirmation, this`drains
      ensures Inv() && !renew
      ensures core.unavailable == old(core).unavailable
      ensures state == old(state) || state.Recovering?
      ensures (ok ==> child.None?) && (residual <==> child.Some?)
      ensures !ok ==> residual || controlFault == Some("retirement_phase_budget_exceeded")
      ensures old(child).Some? && child.None? ==> childGone
      ensures old(setbacks) <= setbacks && (!ok ==> old(setbacks) < setbacks)
    {
      StopRenewing();
      if child.None? {
        CloseControl();
        return true;
      }
      ok := RetireOwned(drain);
    }

    // `_unavailable`: no child is left running if one was to be retired, and
    // UNAVAILABLE is announced.
    method GiveIn(retire: bool)
      requires Inv()
      modifies this`renew, this`controlClosed, this`hello, this`clockVerified, this`controlFault, this`lastHeartbeat,
               this`lastSnapshot, this`acks, this`probeResult, this`clock, this`history, this`core, this`ears,
               this`requestedStop, this`requestedFailure, this`asked, this`given, this`sentNumber, this`setbacks,
               this`lastRenewed, this`lastLeaseUntil, this`childGone, this`state, this`residual, this`child,
               this`workConfirmation, this`drains
      ensures Inv() && state.Unavailable? && !renew && core.unavailable
      ensures retire ==> (residual <==> child.Some?)
      ensures old(setbacks) <= setbacks
    {
      StopRenewing();
      if retire && child.Some? {
        var retired := Retire(false);
      }
      AnnounceUnavailable();
    }

    method AnnounceUnavailable()
      requires Inv() && !renew
      modifies this`state, this`history, this`core
      ensures Inv() && state.Unavailable? && core.unavailable
    {
      SetState(Unavailable);
    }

    // ----- recovery -----

    // The snapshot an incident would show.
    function Shown(): Option<Pool.Snapshot>
      reads this`lastSnapshot
    {
      if lastSnapshot.Some? then Some(lastSnapshot.value.snapshot) else None
    }

    // The evidence for an incident is at hand.
    ghost predicate Founded(reason: Reason, at: int)
      reads this`core, this`ears, this`lastSnapshot
    {
      Justified(Monitor(core, ears), reason, at) && (RestsOnSnapshot(reason) ==> lastSnapshot.Some?)
    }

    // The decision itself, once renewal has stopped.
    method RecordIncident(reason: Reason, decision: nat, attempt: nat)
      requires Inv() && !renew && !core.unavailable && core.clock <= decision <= clock && Founded(reason, decision)
      requires attempts <= attempt <= attempts + 1 && attempt <= MAX_RECOVERIES
      modifies this`attempts, this`state, this`history, this`core
      ensures history.log == old(history.log) + [Incident(generation, attempt, reason, decision, Shown())]
      ensures Inv() && attempts == attempt && !core.unavailable && !core.mayRenew
    {
      LogIncident(reason, decision, attempt);
      attempts, state := attempt, Recovering;
    }

    ghost method LogIncident(reason: Reason, decision: nat, attempt: nat)
      requires Logged() && core.generation == generation && core.attempts == attempts && Heard()
      requires !core.unavailable && core.clock <= decision && Founded(reason, decision)
      requires attempts <= attempt <= attempts + 1 && attempt <= MAX_RECOVERIES
      modifies this`history, this`core
      ensures history.log == old(history.log) + [Incident(generation, attempt, reason, decision, Shown())]
      ensures Logged()
      ensures core == old(core).(attempts := attempt, state := Recovering, mayRenew := false, clock := decision)
    {
      EmitDecided(Incident(generation, attempt, reason, decision, Shown()));
    }

    // The clock of the decision; from here on the recovery's budget runs.
    method DecideNow() returns (decision: nat)
      requires Inv()
      modifies this`clock, this`renew, this`recoveryDeadline
      ensures Inv() && !renew && decision == clock >= old(clock)
      ensures recoveryDeadline == Some(decision + 12 * SECOND)
    {
      decision := Now();
      StopRenewing();
      recoveryDeadline := Some(decision + RECOVERY_BUDGET);
    }

    // Decide an incident, and whether a replacement is due.
    method OpenIncident(reason: Reason) returns (decision: nat, replace: bool)
      requires Inv() && !core.unavailable && Founded(reason, clock)
      modifies this`clock, this`renew, this`recoveryDeadline, this`attempts, this`state, this`history, this`core
      ensures Inv() && !renew && !core.unavailable && !core.mayRenew && state.Recovering?
      ensures replace <==> old(attempts) < MAX_RECOVERIES
      ensures attempts == if replace then old(attempts) + 1 else old(attempts)
      ensures replace ==> generation <= attempts
    {
      decision := DecideNow();
      replace := attempts < MAX_RECOVERIES;
      RecordIncident(reason, decision, if replace then attempts + 1 else attempts);
      Move(Recovering);
    }

    method CloseIncident()
      requires Inv()
      modifies this`recovering, this`recoveryDeadline
      ensures Inv() && !recovering
    {
      recovering := false;
      recoveryDeadline := None;
    }

    // A new generation, within the budget of the whole recovery. The error of a
    // spawn that finds a child still held cannot occur.
    method Restart(decision: nat) returns (ok: bool)
      requires Inv() && child.None? && MayStart()
      modifies this
      ensures Inv() && recovering == old(recovering) && stopped == old(stopped) && attempts == old(attempts)
      ensures !core.unavailable && generation == old(generation) + 1
      ensures ok ==> state.Ready? && core.wasReady && renew && child.Some? && lastSnapshot.Some?
      ensures old(setbacks) <= setbacks && (!ok ==> old(setbacks) < setbacks)
    {
      ok := StartUnheld();
      if ok {
        ok := Phase(decision, RECOVERY_BUDGET, true, true);
      }
    }

    // Retire the child, then start its replacement if one is due.
    method Replace(decision: nat, replace: bool) returns (ok: bool)
      requires Inv() && !core.unavailable && (replace ==> generation <= attempts)
      modifies this
      ensures Inv() && recovering == old(recovering) && stopped == old(stopped) && attempts == old(attempts)
      ensures ok ==> state.Ready? && core.wasReady && renew && !core.unavailable && child.Some? && lastSnapshot.Some?
      ensures ok ==> replace && generation == old(generation) + 1
      ensures !ok ==> state.Unavailable? && core.unavailable && !renew && generation <= old(generation) + 1
      ensures !ok && replace ==> old(setbacks) < setbacks
    {
      var retired := Retire(true);
      ok := Proceed(decision, retired && replace);
    }

    // Unless something speaks against it, start anew.
    method Proceed(decision: nat, fit: bool) returns (ok: bool)
      requires Inv() && !core.unavailable && (fit ==> child.None? && generation <= attempts)
      modifies this
      ensures Inv() && recovering == old(recovering) && stopped == old(stopped) && attempts == old(attempts)
      ensures ok ==> fit && generation == old(generation) + 1
      ensures if ok then state.Ready? && core.wasReady && renew && !core.unavailable
                         && child.Some? && lastSnapshot.Some?
              else state.Unavailable? && core.unavailable && !renew && generation <= old(generation) + 1
      ensures !ok && fit ==> old(setbacks) < setbacks
      ensures old(setbacks) <= setbacks
    {
      ok := false;
      if fit && !requestedStop && requestedFailure.None? {
        ok := RestartOrGiveIn(decision);
      } else {
        Decline(fit);
      }
    }

    // No replacement: none is left, or something speaks against it.
    method Decline(fit: bool)
      requires Inv() && (fit ==> requestedStop || requestedFailure.Some?)
      modifies this`renew, this`setbacks, this`controlClosed, this`hello, this`clockVerified, this`controlFault,
               this`lastHeartbeat, this`lastSnapshot, this`acks, this`probeResult, this`clock, this`history,
               this`core, this`ears, this`requestedStop, this`requestedFailure, this`asked, this`given,
               this`sentNumber, this`lastRenewed, this`lastLeaseUntil, this`childGone, this`state, this`residual,
               this`child, this`workConfirmation, this`drains
      ensures Inv() && state.Unavailable? && !renew && core.unavailable
      ensures old(setbacks) <= setbacks && (fit ==> old(setbacks) < setbacks)
    {
      if fit {
        Suffer(CalledOff);
      }
      GiveIn(false);
    }

    method RestartOrGiveIn(decision: nat) returns (ok: bool)
      requires Inv() && child.None? && MayStart() && !core.unavailable
      modifies this
      ensures Inv() && recovering == old(recovering) && stopped == old(stopped) && attempts == old(attempts)
      ensures generation == old(generation) + 1
      ensures if ok then state.Ready? && core.wasReady && renew && !core.unavailable
                         && child.Some? && lastSnapshot.Some?
              else state.Unavailable? && core.unavailable && !renew
      ensures old(setbacks) <= setbacks && (!ok ==> old(setbacks) < setbacks)
    {
      ok := Restart(decision);
      if !ok {
        GiveIn(true);
      }
    }

    // `recover`: one decided incident. It ends READY in a new generation, or
    // UNAVAILABLE for good.
    method Recover(reason: Reason) returns (ok: bool)
      requires Quiet() && Founded(reason, clock)
      modifies this
      ensures Quiet() && stopped == old(stopped)
      ensures ok ==> state.Ready? && generation == old(generation) + 1 && attempts == old(attempts) + 1
      ensures !ok ==> state.Unavailable? && old(attempts) <= attempts && generation <= old(generation) + 1
      ensures !ok ==> old(state).Unavailable? || old(attempts) == 2 || old(setbacks) < setbacks
    {
      ok := false;
      if !state.Unavailable? && !recovering {
        BeginIncident(reason);
        ok := Replaced(reason);
        CloseIncident();
      }
    }

    // Decide, and act on the decision.
    method Replaced(reason: Reason) returns (ok: bool)
      requires Inv() && !core.unavailable && Founded(reason, clock)
      modifies this
      ensures Inv() && recovering == old(recovering) && stopped == old(stopped)
      ensures ok ==> state.Ready? && core.wasReady && renew && !core.unavailable && child.Some? && lastSnapshot.Some?
      ensures ok ==> generation == old(generation) + 1 && attempts == old(attempts) + 1
      ensures !ok ==> state.Unavailable? && old(attempts) <= attempts && generation <= old(generation) + 1
      ensures !ok ==> old(attempts) == 2 || old(setbacks) < setbacks
    {
      var decision, replace := OpenIncident(reason);
      ok := Replace(decision, replace);
    }

    method BeginIncident(reason: Reason)
      requires Inv() && Founded(reason, clock)
      modifies this`recovering
      ensures Inv() && Founded(reason, clock) && recovering
    {
      recovering := true;
    }

    // ----- detection -----

    // No job of the last snapshot is older than its limit and the confirmation
    // window allow, provided the child's heartbeats come from one pool.
    ghost predicate WorkInTime(now: int)
      reads this`lastSnapshot, this`ears
    {
      lastSnapshot.Some? && (Pool.FromOnePool(ears.beats) ==>
        forall id :: id in lastSnapshot.value.snapshot.jobs ==>
          now < lastSnapshot.value.snapshot.jobs[id].admittedAt + WORK_LIMIT + WORK_CONFIRMATION)
    }

    ghost predicate InTime(now: int)
      reads this`lastSnapshot, this`lastHeartbeat, this`ears
    {
      now < lastHeartbeat + HEARTBEAT_LIMIT && WorkInTime(now)
    }

    // A pending confirmation: settled by a later heartbeat, out of time, or
    // still waiting.
    method SettleConfirmation(now: nat) returns (incident: Option<Reason>, waiting: bool)
      requires Inv() && lastSnapshot.Some?
      modifies this`workConfirmation
      ensures Inv()
      ensures incident.Some? ==> Founded(incident.value, now)
      ensures waiting ==> WorkInTime(now)
      ensures !waiting ==> workConfirmation.None?
      ensures old(workConfirmation).None? ==> incident.None? && !waiting
      ensures old(workConfirmation).Some? ==>
                var confirmation, seen := old(workConfirmation).value, lastSnapshot.value.snapshot.heartbeat;
                && (waiting <==> seen < confirmation.deadline && now < confirmation.until)
                && (incident.Some? <==> seen < confirmation.deadline && now >= confirmation.until)
                && (incident.Some? ==> incident.value == WorkAgeUnconfirmed(confirmation.deadline))
    {
      incident, waiting := None, false;
      if workConfirmation.Some? {
        var confirmation := workConfirmation.value;
        if lastSnapshot.value.snapshot.heartbeat >= confirmation.deadline {
          workConfirmation := None;
        } else if now >= confirmation.until {
          workConfirmation := None;
          incident := Some(WorkAgeUnconfirmed(confirmation.deadline));
        } else {
          if Pool.FromOnePool(ears.beats) {
            OldestNeverGoesBack(ears.beats, confirming, |ears.beats| - 1, confirmation.deadline - WORK_LIMIT);
          }
          waiting := true;
        }
      }
    }

    // Open a confirmation on the oldest overdue job and ask for a snapshot.
    method OpenConfirmation(oldest: nat, now: nat) returns (incident: Option<Reason>)
      requires Inv() && lastSnapshot.Some? && core.clock <= now <= clock
      requires oldest in lastSnapshot.value.snapshot.jobs
      requires OldestAt(lastSnapshot.value.snapshot, lastSnapshot.value.snapshot.jobs[oldest].admittedAt)
      requires lastSnapshot.value.snapshot.heartbeat
            < lastSnapshot.value.snapshot.jobs[oldest].admittedAt + WORK_LIMIT <= now
      modifies this`workConfirmation, this`confirming, this`controlClosed, this`sentNumber, this`setbacks,
               this`history, this`core
      ensures Inv() && core == old(core).(clock := core.clock, refusedFor := core.refusedFor)
      ensures incident.Some? ==> Founded(incident.value, now) && workConfirmation.None?
      ensures incident.None? ==> WorkInTime(now) && workConfirmation.Some?
      ensures var deadline := lastSnapshot.value.snapshot.jobs[oldest].admittedAt + WORK_LIMIT;
              if now >= deadline + WORK_CONFIRMATION
              then incident == Some(WorkAgeUnconfirmed(deadline)) && history == old(history)
              else if incident.Some?
              then && incident == Some(WorkAgeUnconfirmed(deadline))
                   && history.log == old(history.log) + [RequestRefused(generation, deadline, now)]
              else history.log == old(history.log) + [CommandSent(generation, Wire.SnapshotRequest, sentNumber, now)]
    {
      var deadline := lastSnapshot.value.snapshot.jobs[oldest].admittedAt + WORK_LIMIT;
      Confirm(deadline);
      if now >= deadline + WORK_CONFIRMATION {
        incident := Some(WorkAgeUnconfirmed(deadline));
        DropConfirmation();
      } else {
        incident := RequestSnapshot(deadline, now);
      }
    }

    // Ask for a snapshot about the confirmation that was just opened.
    method RequestSnapshot(deadline: int, now: nat) returns (incident: Option<Reason>)
      requires Inv() && lastSnapshot.Some? && core.clock <= now <= clock && Unsettled(ears.beats, deadline, now)
      modifies this`workConfirmation, this`controlClosed, this`sentNumber, this`setbacks, this`history, this`core
      ensures Inv() && core == old(core).(clock := core.clock, refusedFor := core.refusedFor)
      ensures incident.Some? ==>
                && incident == Some(WorkAgeUnconfirmed(deadline)) && Founded(incident.value, now)
                && workConfirmation.None?
                && history.log == old(history.log) + [RequestRefused(generation, deadline, now)]
      ensures incident.None? ==>
                && workConfirmation == old(workConfirmation)
                && history.log == old(history.log) + [CommandSent(generation, Wire.SnapshotRequest, sentNumber, now)]
    {
      incident := None;
      var number := SendCommand(Wire.SnapshotRequest, now);
      if number.None? {
        NoteRefusal(deadline, now);
        incident := Some(WorkAgeUnconfirmed(deadline));
        DropConfirmation();
      }
    }

    ghost method NoteRefusal(deadline: int, now: nat)
      requires Inv() && core.clock <= now <= clock && Unsettled(ears.beats, deadline, now)
      modifies this`history, this`core
      ensures Inv() && core == old(core).(clock := now, refusedFor := Some(deadline))
      ensures history.log == old(history.log) + [RequestRefused(generation, deadline, now)]
    {
      EmitDecided(RequestRefused(generation, deadline, now));
    }

    method Confirm(deadline: int)
      requires Inv() && lastSnapshot.Some? && OldestAt(lastSnapshot.value.snapshot, deadline - WORK_LIMIT)
      modifies this`workConfirmation, this`confirming
      ensures Inv() && workConfirmation == Some(Confirmation(deadline, deadline + WORK_CONFIRMATION))
    {
      workConfirmation := Some(Confirmation(deadline, deadline + WORK_CONFIRMATION));
      confirming := |ears.beats| - 1;
    }

    method DropConfirmation()
      requires Inv()
      modifies this`workConfirmation
      ensures Inv() && workConfirmation.None?
    {
      workConfirmation := None;
    }

    // Is some work over age? Then either the evidence is complete, or a
    // confirmation is opened.
    method CheckAge(now: nat) returns (incident: Option<Reason>, overdue: bool)
      requires Inv() && lastSnapshot.Some? && core.clock <= now <= clock
      modifies this`workConfirmation, this`confirming, this`controlClosed, this`sentNumber, this`setbacks,
               this`history, this`core
      ensures Inv() && core == old(core).(clock := core.clock, refusedFor := core.refusedFor)
      ensures overdue <==> HasOverdue(lastSnapshot.value.snapshot, now)
      ensures !overdue ==> incident.None? && history == old(history) && core == old(core)
      ensures incident.Some? ==> Founded(incident.value, now)
      ensures incident.None? ==> WorkInTime(now)
      ensures overdue ==>
                var s := lastSnapshot.value.snapshot;
                exists oldest :: oldest in s.jobs && CallsFor(s, oldest, now, generation, history.log, incident)
    {
      var snapshot := lastSnapshot.value.snapshot;
      var oldest := OldestOverdue(snapshot.jobs, now);
      if oldest.None? {
        return None, false;
      }
      overdue := true;
      incident := CheckOldest(oldest.value, now);
    }

    // The oldest job is over its limit: is the evidence complete?
    method CheckOldest(oldest: nat, now: nat) returns (incident: Option<Reason>)
      requires Inv() && lastSnapshot.Some? && core.clock <= now <= clock
      requires oldest in lastSnapshot.value.snapshot.jobs
      requires OldestAt(lastSnapshot.value.snapshot, lastSnapshot.value.snapshot.jobs[oldest].admittedAt)
      requires now >= lastSnapshot.value.snapshot.jobs[oldest].admittedAt + WORK_LIMIT
      modifies this`workConfirmation, this`confirming, this`controlClosed, this`sentNumber, this`setbacks,
               this`history, this`core
      ensures Inv() && core == old(core).(clock := core.clock, refusedFor := core.refusedFor)
      ensures incident.Some? ==> Founded(incident.value, now)
      ensures incident.None? ==> WorkInTime(now)
      ensures CallsFor(lastSnapshot.value.snapshot, oldest, now, generation, history.log, incident)
    {
      var snapshot := lastSnapshot.value.snapshot;
      if snapshot.heartbeat >= snapshot.jobs[oldest].admittedAt + WORK_LIMIT {
        incident := Some(WorkAgeExceeded);
      } else {
        incident := OpenConfirmation(oldest, now);
      }
    }

    // A snapshot sent since the gate was opened shows it shut.
    predicate GateLost()
      requires lastSnapshot.Some?
      reads this`lastSnapshot, this`openAckAt
    {
      lastSnapshot.value.sentAt >= openAckAt && !lastSnapshot.value.snapshot.gateOpen
    }

    // The public gate, then DEGRADED or READY by whether an awaiter left.
    method CheckGate() returns (incident: Option<Reason>)
      requires Inv() && Settled() && Serving()
      modifies this`state, this`history, this`core
      ensures Inv() && Settled() && Serving()
      ensures incident.Some? ==> incident == Some(PublicGateClosed) && Founded(PublicGateClosed, clock)
      ensures incident.Some? <==> GateLost()
      ensures incident.None? ==>
                var jobs := lastSnapshot.value.snapshot.jobs;
                state.Degraded? <==> exists id :: id in jobs && jobs[id].abandonedAt.Some?
    {
      var snapshot := lastSnapshot.value.snapshot;
      if lastSnapshot.value.sentAt >= openAckAt && !snapshot.gateOpen {
        return Some(PublicGateClosed);
      }
      var desired := if Abandoned(snapshot) then Degraded else Ready;
      if state != desired {
        SetState(desired);
      }
      return None;
    }

    method CheckWork(now: nat) returns (incident: Option<Reason>)
      requires Inv() && Settled() && Serving() && core.clock <= now <= clock
      modifies this`workConfirmation, this`confirming, this`controlClosed, this`sentNumber, this`setbacks,
               this`history, this`core, this`state
      ensures Inv() && Settled() && Serving()
      ensures incident.Some? ==> Founded(incident.value, clock)
      ensures incident.None? ==> WorkInTime(now)
      ensures Calls(old(workConfirmation), lastSnapshot.value, openAckAt, now, generation, history.log, incident)
    {
      var waiting: bool;
      incident, waiting := SettleConfirmation(now);
      if incident.None? && !waiting {
        incident := CheckUnconfirmed(now);
      }
    }

    // No confirmation is open.
    method CheckUnconfirmed(now: nat) returns (incident: Option<Reason>)
      requires Inv() && Settled() && Serving() && core.clock <= now <= clock && workConfirmation.None?
      modifies this`workConfirmation, this`confirming, this`controlClosed, this`sentNumber, this`setbacks,
               this`history, this`core, this`state
      ensures Inv() && Settled() && Serving()
      ensures incident.Some? ==> Founded(incident.value, clock)
      ensures incident.None? ==> WorkInTime(now)
      ensures Calls(None, lastSnapshot.value, openAckAt, now, generation, history.log, incident)
    {
      var overdue: bool;
      incident, overdue := CheckAge(now);
      if !overdue {
        incident := CheckGate();
      }
    }

    // What there is to see; whether the process has ended, only polling tells.
    ghost function Look(): Sight
      requires lastSnapshot.Some?
      reads this`childGone, this`controlFault, this`hasControl, this`controlClosed, this`lastHeartbeat,
            this`workConfirmation, this`lastSnapshot, this`openAckAt, this`generation
    {
      Sight(childGone, controlFault, Connected(), lastHeartbeat, workConfirmation, lastSnapshot.value, openAckAt,
            generation)
    }

    ghost method NoteExit()
      requires Inv() && child.Some? && childGone
      modifies this`history, this`ears
      ensures Inv() && ears == old(ears).(gone := true)
    {
      EmitHeard(ExitSeen(generation));
    }

    ghost method NoteFault()
      requires Inv() && child.Some? && controlFault.Some?
      modifies this`history, this`ears
      ensures Inv() && ears == old(ears).(fault := controlFault)
    {
      EmitHeard(FaultSeen(generation, controlFault.value));
    }

    ghost method NoteClosed()
      requires Inv() && child.Some? && !Connected()
      modifies this`history, this`ears
      ensures Inv() && ears == old(ears).(severed := true)
    {
      EmitHeard(ClosedSeen(generation));
    }

    // A full check begins; has the child ended?
    method NoteCheck(now: nat) returns (incident: Option<Reason>)
      requires Inv() && child.Some?
      modifies this`lastCheck, this`childGone, this`history, this`ears
      ensures Inv() && lastCheck == now && (old(childGone) ==> childGone)
      ensures incident == (if childGone then Some(ChildCrash) else None)
      ensures incident.Some? ==> Founded(incident.value, clock)
      ensures ears == old(ears).(gone := ears.gone)
    {
      lastCheck := now;
      incident := None;
      var gone := PollChild();
      if gone {
        NoteExit();
        incident := Some(ChildCrash);
      }
    }

    // Is the channel at fault, or gone? Then that is the reason.
    method JudgeControl() returns (incident: Option<Reason>)
      requires Inv() && child.Some?
      modifies this`history, this`ears
      ensures Inv() && ears == old(ears).(fault := ears.fault, severed := ears.severed)
      ensures incident.Some? ==> Founded(incident.value, clock)
      ensures incident == if controlFault.Some? then Some(ControlLost(controlFault.value))
                          else if !Connected() then Some(ControlLost("control_lost")) else None
      ensures incident.None? ==> history == old(history)
    {
      incident := None;
      if controlFault.Some? {
        NoteFault();
        incident := Some(ControlLost(controlFault.value));
      } else if !Connected() {
        NoteClosed();
        incident := Some(ControlLost("control_lost"));
      }
    }

    // Why the child must be replaced now, if it must, in the program's order: an
    // exit, then a fault or a closed channel, then two seconds of silence; and
    // only of a child that runs, can be heard and speaks does its work decide.
    method Diagnose(now: nat) returns (incident: Option<Reason>)
      requires Inv() && Settled() && Serving() && core.clock <= now <= clock
      modifies this`lastCheck, this`childGone, this`workConfirmation, this`confirming, this`controlClosed,
               this`sentNumber, this`setbacks, this`history, this`core, this`state, this`ears
      ensures Inv() && Settled() && Serving() && lastCheck == now
      ensures incident.Some? ==> Founded(incident.value, clock)
      ensures incident.None? ==> InTime(now)
      ensures Finds(old(Look()).(gone := childGone), now, history.log, incident)
    {
      incident := NoteCheck(now);
      assert Look() == old(Look()).(gone := childGone);
      if incident.None? {
        incident := JudgeRunning(now);
      }
    }

    method JudgeRunning(now: nat) returns (incident: Option<Reason>)
      requires Inv() && Settled() && Serving() && core.clock <= now <= clock && !childGone
      modifies this`workConfirmation, this`confirming, this`controlClosed, this`sentNumber, this`setbacks,
               this`history, this`core, this`state, this`ears
      ensures Inv() && Settled() && Serving()
      ensures incident.Some? ==> Founded(incident.value, clock)
      ensures incident.None? ==> InTime(now)
      ensures Finds(old(Look()), now, history.log, incident)
    {
      incident := JudgeControl();
      if incident.None? {
        incident := JudgeHeart(now);
      }
    }

    // Silence, or what the work calls for.
    method JudgeHeart(now: nat) returns (incident: Option<Reason>)
      requires Inv() && Settled() && Serving() && core.clock <= now <= clock
      modifies this`workConfirmation, this`confirming, this`controlClosed, this`sentNumber, this`setbacks,
               this`history, this`core, this`state
      ensures Inv() && Settled() && Serving()
      ensures incident.Some? ==> Founded(incident.value, clock)
      ensures incident.None? ==> InTime(now)
      ensures if now - lastHeartbeat >= HEARTBEAT_LIMIT then incident == Some(HeartbeatStale(lastHeartbeat))
              else Calls(old(workConfirmation), lastSnapshot.value, openAckAt, now, generation, history.log, incident)
    {
      if now - lastHeartbeat >= HEARTBEAT_LIMIT {
        incident := Some(HeartbeatStale(lastHeartbeat));
      } else {
        incident := CheckWork(now);
      }
    }

    // An already known absolute deadline is due.
    predicate KnownDeadline(now: int)
      requires lastSnapshot.Some?
      reads this`workConfirmation, this`lastHeartbeat, this`lastSnapshot
    {
      || workConfirmation.Some? || now >= lastHeartbeat + HEARTBEAT_LIMIT
      || exists id | id in lastSnapshot.value.snapshot.jobs ::
           now >= lastSnapshot.value.snapshot.jobs[id].admittedAt + WORK_LIMIT
    }

    method DeadlineDue(now: nat) returns (due: bool)
      requires Inv() && lastSnapshot.Some?
      ensures due <==> KnownDeadline(now)
      ensures !due ==> InTime(now)
    {
      var jobs := lastSnapshot.value.snapshot.jobs;
      due := workConfirmation.Some? || now >= lastHeartbeat + HEARTBEAT_LIMIT
             || exists id | id in jobs :: now >= jobs[id].admittedAt + WORK_LIMIT;
    }

    // A requested failure: give in.
    method FailClosed()
      requires Quiet() && requestedFailure.Some?
      modifies this`renew, this`controlClosed, this`hello, this`clockVerified, this`controlFault, this`lastHeartbeat,
               this`lastSnapshot, this`acks, this`probeResult, this`clock, this`history, this`core, this`ears,
               this`requestedStop, this`requestedFailure, this`asked, this`given, this`sentNumber, this`setbacks,
               this`lastRenewed, this`lastLeaseUntil, this`childGone, this`state, this`residual, this`child,
               this`workConfirmation, this`drains
      ensures Quiet() && state.Unavailable?
    {
      TakeFailure();
      GiveIn(true);
    }

    // The request is taken up: giving in begins by ending renewal.
    method TakeFailure()
      requires Inv() && requestedFailure.Some? && (state.Starting? ==> generation == 0)
      modifies this`requestedFailure, this`renew, this`history, this`core
      ensures Inv() && requestedFailure.None? && !renew
      ensures core == old(core).(failing := false, mayRenew := false)
    {
      requestedFailure := None;
      renew := false;
      EmitDecided(FailureTaken(generation));
    }

    // Nothing was decided: the same child of the same generation, in service.
    twostate predicate Kept()
      reads this`generation, this`attempts, this`child, this`state, this`lastRenewed
    {
      && generation == old(generation) && attempts == old(attempts) && child == old(child)
      && lastRenewed == old(lastRenewed)
      && (old(Serving()) ==> Serving())
    }

    // A full check. It decides an incident exactly if it finds one, and without
    // one it leaves everything as it is.
    method Examine(now: nat) returns (incident: Option<Reason>, ghost log: seq<Event>)
      requires Quiet() && Serving() && core.clock <= now <= clock
      modifies this
      ensures Quiet() && stopped == old(stopped)
      ensures generation <= old(generation) + 1 && old(attempts) <= attempts
      ensures Serving() && generation == old(generation) ==> now <= clock && InTime(now)
      ensures Serving() && generation == old(generation) ==> lastCheck == now && !childGone && controlFault.None?
      ensures Finds(old(Look()).(gone := incident == Some(ChildCrash)), now, log, incident)
      ensures incident.None? ==> Kept()
      ensures incident.Some? ==> generation == old(generation) + 1 || state.Unavailable?
    {
      incident := Diagnose(now);
      log := history.log;
      if incident.Some? {
        var recovered := Recover(incident.value);
      }
    }

    // One check of a supervisor in service: a full one once a check interval has
    // passed, or a known deadline is due.
    method Inspect() returns (checked: nat, incident: Option<Reason>, ghost log: seq<Event>)
      requires Quiet() && Serving()
      modifies this
      ensures Quiet() && stopped == old(stopped)
      ensures generation <= old(generation) + 1 && old(attempts) <= attempts && old(clock) <= checked
      ensures Serving() && generation == old(generation) ==> checked <= clock && InTime(checked)
      ensures Serving() && generation == old(generation) && checked - old(lastCheck) >= CHECK_INTERVAL ==>
                lastCheck == checked && !childGone && controlFault.None?
      ensures Decides(old(Look()), old(lastCheck), old(KnownDeadline(checked)), checked, log, incident)
      ensures incident.None? ==> Kept()
      ensures incident.Some? ==> generation == old(generation) + 1 || state.Unavailable?
    {
      checked := Now();
      incident, log := None, [];
      var due := DeadlineDue(checked);
      if checked - lastCheck < CHECK_INTERVAL && !due {
        return;
      }
      incident, log := Examine(checked);
    }

    // The lease was less than a quarter of a second old.
    predicate FreshAt(t: nat)
      reads this`lastRenewed
    {
      t < lastRenewed + 250 * MILLISECOND
    }

    method PumpBetweenChecks()
      requires Quiet()
      modifies this`hello, this`clockVerified, this`controlFault, this`lastHeartbeat, this`lastSnapshot, this`acks,
               this`probeResult, this`controlClosed, this`clock, this`history, this`core, this`ears,
               this`requestedStop, this`requestedFailure, this`asked, this`given, this`sentNumber, this`setbacks,
               this`lastRenewed, this`lastLeaseUntil
      ensures Quiet() && old(clock) <= clock && Listened()
      ensures requestedStop == (old(requestedStop) || asked.stop)
      ensures Serving() && !requestedStop && requestedFailure.None? && controlFault.None? ==> FreshAt(clock)
    {
      Pump();
    }

    // Attend to the child: give in to a failure, look at nothing once a stop is
    // pending or outside service, and check otherwise.
    method Attend() returns (checked: Option<nat>, incident: Option<Reason>, ghost seen: Option<Sight>,
                             ghost known: bool, ghost log: seq<Event>)
      requires Quiet()
      modifies this
      ensures Quiet() && stopped == old(stopped)
      ensures generation <= old(generation) + 1 && old(attempts) <= attempts
      ensures Serving() && generation == old(generation) && !requestedStop ==>
                checked.Some? && old(clock) <= checked.value <= clock && InTime(checked.value)
      ensures Serving() && generation == old(generation) && !requestedStop
              && checked.Some? && checked.value - old(lastCheck) >= CHECK_INTERVAL ==>
                lastCheck == checked.value && !childGone && controlFault.None?
      ensures checked.Some? <==> old(requestedFailure.None? && !requestedStop && Serving())
      ensures checked.Some? ==>
                && old(clock) <= checked.value
                && seen == Some(old(Look()))
                && Decides(seen.value, old(lastCheck), known, checked.value, log, incident)
      ensures incident.Some? ==> checked.Some? && (generation == old(generation) + 1 || state.Unavailable?)
      ensures old(requestedFailure).Some? ==> state.Unavailable?
      ensures old(requestedFailure).None? && incident.None? ==> Kept()
    {
      checked, incident, seen, known, log := None, None, None, false, [];
      if requestedFailure.Some? {
        FailClosed();
      } else if !requestedStop && Serving() {
        seen := Some(Look());
        var now;
        now, incident, log := Inspect();
        known := old(KnownDeadline(now));
        checked := Some(now);
      }
    }

    // `tick`. A supervisor that a tick leaves in service, in the generation it
    // had and with no stop pending, has just looked at its clock and found the
    // last heartbeat and all the work it knows of inside their limits; if the
    // last full check was a check interval ago, also the child running and no
    // fault on its channel. And a tick decides an incident exactly if it finds
    // one in what it then sees; with none, and no failure asked for, the child,
    // its generation and the service stay.
    method Tick() returns (checked: Option<nat>, incident: Option<Reason>, ghost seen: Option<Sight>,
                           ghost known: bool, ghost failed: bool, ghost log: seq<Event>)
      requires Quiet()
      modifies this
      ensures Quiet() && stopped == old(stopped)
      ensures generation <= old(generation) + 1 && old(attempts) <= attempts
      ensures Serving() && generation == old(generation) && !requestedStop ==>
                checked.Some? && old(clock) <= checked.value <= clock && InTime(checked.value)
      ensures Serving() && generation == old(generation) && !requestedStop
              && checked.Some? && checked.value - old(lastCheck) >= CHECK_INTERVAL ==>
                lastCheck == checked.value && !childGone && controlFault.None?
      ensures checked.Some? ==>
                && seen.Some? && seen.value.generation == old(generation)
                && Decides(seen.value, old(lastCheck), known, checked.value, log, incident)
      ensures incident.Some? ==> checked.Some? && (generation == old(generation) + 1 || state.Unavailable?)
      ensures failed ==> state.Unavailable?
      ensures !failed && incident.None? ==> generation == old(generation) && attempts == old(attempts)
                                            && child == old(child) && (old(Serving()) ==> Serving())
      ensures checked.Some? && incident.None? && seen.value.fault.None? ==>
                exists t :: old(clock) <= t <= checked.value && FreshAt(t)
    {
      PumpBetweenChecks();
      ghost var pumped := clock;
      failed := requestedFailure.Some?;
      checked, incident, seen, known, log := Attend();
      assert checked.Some? && incident.None? && seen.value.fault.None? ==> FreshAt(pumped);
    }

    // ----- the life of a supervisor -----

    // `start`. It starts any supervisor that never was started, also one that a
    // tick has already made UNAVAILABLE.
    method Start() returns (r: StartResult)
      requires Quiet() && (posix || generation == 0)
      modifies this
      ensures Quiet() && stopped == old(stopped) && attempts == old(attempts)
      ensures r.AlreadyStarted? <==> posix && old(generation) != 0
      ensures r.AlreadyStarted? ==> generation == old(generation) && state == old(state)
      ensures r == Started(true) ==> state.Ready? && generation == 1
      ensures r == Started(false) ==> state.Unavailable?
      ensures r == Started(false) && posix ==> old(setbacks) < setbacks
    {
      if !posix {
        r := Started(false);
        AnnounceUnavailable();
      } else if generation != 0 {
        r := AlreadyStarted;
      } else {
        var ok := StartFirst();
        r := Started(ok);
      }
    }

    method StartFirst() returns (ok: bool)
      requires Quiet() && generation == 0
      modifies this
      ensures Quiet() && stopped == old(stopped) && attempts == old(attempts)
      ensures if ok then state.Ready? && generation == 1 else state.Unavailable?
      ensures !ok ==> old(setbacks) < setbacks
    {
      ok := StartOrGiveIn();
    }

    method StartOrGiveIn() returns (ok: bool)
      requires Inv() && generation == 0
      modifies this
      ensures Inv() && attempts == old(attempts) && recovering == old(recovering) && stopped == old(stopped)
      ensures generation == 1
      ensures if ok then state.Ready? && core.wasReady && renew && !core.unavailable
                         && child.Some? && lastSnapshot.Some?
              else state.Unavailable?
      ensures !ok ==> old(setbacks) < setbacks
    {
      ok := StartUnheld();
      if !ok {
        GiveIn(true);
      }
    }

    // With no child held, the error of a startup cannot occur.
    method StartUnheld() returns (ok: bool)
      requires Inv() && child.None? && MayStart()
      modifies this
      ensures Inv() && attempts == old(attempts) && recovering == old(recovering) && stopped == old(stopped)
      ensures !core.unavailable && generation == old(generation) + 1
      ensures ok ==> state.Ready? && core.wasReady && renew && child.Some? && lastSnapshot.Some?
      ensures old(setbacks) <= setbacks && (!ok ==> old(setbacks) < setbacks)
    {
      var started := Startup();
      assert !started.ReapRequired?;
      ok := started == Finished(true);
    }

    method GiveInForGood()
      requires Quiet()
      modifies this`renew, this`controlClosed, this`hello, this`clockVerified, this`controlFault, this`lastHeartbeat,
               this`lastSnapshot, this`acks, this`probeResult, this`clock, this`history, this`core, this`ears,
               this`requestedStop, this`requestedFailure, this`asked, this`given, this`sentNumber, this`setbacks,
               this`lastRenewed, this`lastLeaseUntil, this`childGone, this`state, this`residual, this`child,
               this`workConfirmation, this`drains
      ensures Quiet() && state.Unavailable? && !renew && (residual <==> child.Some?)
    {
      RequestStop();
      GiveIn(true);
    }

    // `shutdown`: the child is retired whatever happened before. What is left
    // of it, if anything, is recorded as residual.
    method Shutdown()
      requires Quiet()
      modifies this
      ensures Quiet() && stopped
      ensures !old(stopped) ==> state.Unavailable? && !renew && (residual <==> child.Some?)
      ensures old(stopped) ==> residual == old(residual) && child == old(child)
      ensures attempts == old(attempts) && generation == old(generation)
    {
      if !stopped {
        GiveInForGood();
        MarkStopped();
      }
    }

    method MarkStopped()
      requires Quiet()
      modifies this`stopped
      ensures Quiet() && stopped
    {
      stopped := true;
    }

    // `run`, for at most `passes` passes of its loop. Unless it was shut down
    // before, it ends stopped and UNAVAILABLE; an exit code tells whether a
    // child is left, and the error of a second start comes after the cleanup.
    method Run(passes: nat) returns (code: Option<nat>)
      requires Quiet() && (posix || generation == 0)
      modifies this
      ensures Quiet() && stopped
      ensures code.None? <==> posix && old(generation) != 0
      ensures code.Some? ==> code.value == if residual then 2 else 0
      ensures !old(stopped) ==> state.Unavailable? && !renew && (residual <==> child.Some?)
    {
      var started := Start();
      if !started.AlreadyStarted? {
        Serve(passes);
      }
      Shutdown();
      return if started.AlreadyStarted? then None else Some(if residual then 2 else 0);
    }

    method Serve(passes: nat)
      requires Quiet()
      modifies this
      ensures Quiet() && stopped == old(stopped)
    {
      var pass := 0;
      while !requestedStop && pass < passes
        invariant Quiet() && stopped == old(stopped)
      {
        var checked, incident; ghost var seen, known, failed, log;
        checked, incident, seen, known, failed, log := Tick();
        Sleep();
        pass := pass + 1;
      }
    }
  }

  // The log tells the truth about the process table: the generations that the
  // log holds for unreaped are the one child this supervisor owns, or none.
  lemma OwnedIsUnreaped(s: Supervisor)
    requires s.Inv()
    ensures Unreaped(s.history.log) == if s.child.Some? then {s.generation} else {}
    ensures s.generation <= s.attempts + 1 <= MAX_RECOVERIES + 1
  {
    OneLiveChild(s.history.log, s.history.ms, |s.history.log|);
    assert s.history.log[..|s.history.log|] == s.history.log;
  }
}
