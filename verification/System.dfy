// The supervisor and its children together, over one shared clock.
//
// A step is an event of the supervisor, or anything that happens inside the
// child of any generation. Commands travel in order but arbitrarily late, and
// a child may pass over any of them: `close` in particular need never be
// obeyed. Heartbeats travel the same way. Nothing stops an old generation's
// child from going on, so no theorem here relies on a retirement succeeding.

module System {
  import opened Options
  import opened Timing
  import opened Protocol
  import Gate
  import Pool
  import Wire

  datatype Child = Child(
    pool: Pool.PoolState,
    taken: nat,                       // commands already read from the channel
    reports: seq<Pool.Snapshot>,      // heartbeats put on the channel
    sources: seq<Pool.PoolState>)     // the pool each of them shows

  // heard[i] is the report that the current generation's heartbeat i carried.
  datatype System = System(h: History, children: map<nat, Child>, heard: seq<nat>, now: int)

  datatype Step =
    | Supervise(e: Event, now: int)
    | Receive(report: nat, now: int)               // a heartbeat of the current child gets through
    | Work(generation: nat, work: Pool.Event)         // anything but a command
    | Obey(generation: nat, command: nat, call: Gate.Call)
    | Beat(generation: nat, heartbeat: int)

  const START := System(Trace([], [INITIAL]), map[], [], 0)

  function FreshChild(generation: nat): Child {
    Child(Pool.Fresh(generation), 0, [], [])
  }

  // The commands sent to a generation, in order.
  function Sent(log: seq<Event>, generation: nat): seq<Event> {
    if log == [] then []
    else
      var e := log[|log| - 1];
      var before := Sent(log[..|log| - 1], generation);
      if e.CommandSent? && e.generation == generation then before + [e] else before
  }

  // A lease or open command becomes this gate call, with its own number; a close
  // or a stop shuts the gate.
  predicate Asks(e: Event, call: Gate.Call) {
    e.CommandSent? &&
    match e.command
    case Lease(until) => call.op == Gate.Op.Renew(e.generation, e.number, until)
    case Open(until) => call.op.OpenDoor? && call.op == Gate.OpenDoor(e.generation, e.number, until, call.op.ready)
    case Close => call.op.Close?
    case Stop => call.op.Close?
    case _ => false
  }

  // A pool event that hands the gate no lease.
  predicate GrantsNothing(e: Pool.Event) {
    e.GateCommand? ==> e.call.op.Close?
  }

  function Stamp(e: Event): int {
    match e
    case CommandSent(_, _, _, at) => at
    case RequestRefused(_, _, at) => at
    case Incident(_, _, _, at, _) => at
    case _ => 0
  }

  ghost predicate Enabled(s: System, step: Step) {
    match step
    case Supervise(e, now) =>
      Allowed(Last(s.h), e) && !e.HeartbeatSeen? && s.now <= now && Stamp(e) <= now
    case Receive(report, now) =>
      var g := Last(s.h).core.generation;
      && s.now <= now && g in s.children && report < |s.children[g].reports|
      && (s.heard == [] || s.heard[|s.heard| - 1] < report)
      && Allowed(Last(s.h), HeartbeatSeen(g, s.children[g].reports[report]))
    case Work(g, e) =>
      g in s.children && s.now <= Pool.FirstReading(e) && GrantsNothing(e) && Pool.Enabled(s.children[g].pool, e)
    case Obey(g, command, call) =>
      && g in s.children && s.now <= call.now
      && s.children[g].taken <= command < |Sent(s.h.log, g)|
      && Asks(Sent(s.h.log, g)[command], call)
      && Pool.Enabled(s.children[g].pool, Pool.GateCommand(call))
    case Beat(g, heartbeat) =>
      g in s.children && heartbeat <= s.children[g].pool.clock
  }

  ghost function Next(s: System, step: Step): System
    requires Enabled(s, step)
  {
    match step
    case Supervise(e, now) =>
      System(Extend(s.h, e),
             if e.Spawned? then s.children[e.generation := FreshChild(e.generation)] else s.children,
             if e.StateSet? && e.state.Starting? then [] else s.heard,
             now)
    case Receive(report, now) =>
      var g := Last(s.h).core.generation;
      System(Extend(s.h, HeartbeatSeen(g, s.children[g].reports[report])), s.children, s.heard + [report], now)
    case Work(g, e) =>
      var c := s.children[g];
      s.(children := s.children[g := c.(pool := Pool.Next(c.pool, e))], now := Pool.LastReading(e))
    case Obey(g, command, call) =>
      s.(children := s.children[g := Obedient(s.children[g], command, call)], now := call.now)
    case Beat(g, heartbeat) =>
      var c := s.children[g];
      s.(children := s.children[g := c.(reports := c.reports + [Pool.Report(c.pool, heartbeat)],
                                        sources := c.sources + [c.pool])])
  }

  ghost predicate LinkedAt(states: seq<System>, steps: seq<Step>, i: nat)
    requires i < |steps| < |states|
  {
    Enabled(states[i], steps[i]) && states[i + 1] == Next(states[i], steps[i])
  }

  ghost predicate Run(states: seq<System>, steps: seq<Step>) {
    && |states| == |steps| + 1
    && states[0] == START
    && forall i: nat :: i < |steps| ==> LinkedAt(states, steps, i)
  }

  // ----- what every step keeps -----

  // The heartbeats on a channel come from one pool, which has since moved on.
  ghost predicate ReportsInv(c: Child) {
    && |c.sources| == |c.reports|
    && (forall i :: 0 <= i < |c.reports| ==> Shows(c.reports[i], c.sources[i], c.pool))
    && Pool.FromOnePool(c.reports)
  }

  ghost predicate Shows(r: Pool.Snapshot, source: Pool.PoolState, pool: Pool.PoolState) {
    && r == Pool.Report(source, r.heartbeat) && r.heartbeat <= source.clock
    && Pool.Inv(source) && Pool.Grown(source, pool)
  }

  // The gate holds no lease beyond the latest one sent, and was opened only if
  // an open command was sent.
  ghost predicate GateInv(g: Gate.GateState, generation: nat, log: seq<Event>) {
    && g.generation == generation
    && g.leaseUntil <= LatestLease(log, generation)
    && (g.door.Open? ==> g.openedOnce)
    && (g.openedOnce ==> OpenSent(log, generation))
  }

  ghost predicate OpenSent(log: seq<Event>, generation: nat) {
    exists i :: 0 <= i < |log| && IsOpen(log[i], generation)
  }

  predicate IsOpen(e: Event, generation: nat) {
    e.CommandSent? && e.generation == generation && e.command.Open?
  }

  ghost predicate ChildInv(generation: nat, c: Child, log: seq<Event>, now: int) {
    && Pool.Inv(c.pool)
    && c.pool.clock <= now
    && GateInv(c.pool.gate, generation, log)
    && ReportsInv(c)
  }

  lemma LatestLeaseGrows(h: History, e: Event, generation: nat)
    requires Allowed(Last(h), e)
    ensures LatestLease(h.log, generation) <= LatestLease(Extend(h, e).log, generation)
  {
    var r := Extend(h, e);
    var n := |h.log|;
    assert r.log[..n] == h.log && r.log[..n + 1] == r.log;
    LatestLeaseBound(r.log, r.ms, generation, n);
    ClockStep(r.log, r.ms, n);
    LatestLeaseStep(r.log, generation, n + 1);
  }

  lemma ChildInvLater(generation: nat, c: Child, h: History, e: Event, now: int, later: int)
    requires ChildInv(generation, c, h.log, now) && Allowed(Last(h), e) && now <= later
    ensures ChildInv(generation, c, Extend(h, e).log, later)
  {
    LatestLeaseGrows(h, e, generation);
    if OpenSent(h.log, generation) {
      var i :| 0 <= i < |h.log| && IsOpen(h.log[i], generation);
      assert IsOpen(Extend(h, e).log[i], generation);
    }
  }

  lemma FreshChildInv(generation: nat, log: seq<Event>, now: int)
    requires 0 <= now && 0 <= LatestLease(log, generation)
    ensures ChildInv(generation, FreshChild(generation), log, now)
  {
    Pool.FreshInv(generation);
  }

  // The pool moves on; what was reported stays true of it.
  lemma ReportsFollow(c: Child, pool: Pool.PoolState)
    requires ReportsInv(c) && Pool.Grown(c.pool, pool)
    ensures ReportsInv(c.(pool := pool))
  {
    forall i | 0 <= i < |c.reports|
      ensures Shows(c.reports[i], c.sources[i], pool)
    {
      assert Shows(c.reports[i], c.sources[i], c.pool);
      Pool.InvImpliesIdsBelow(c.sources[i]);
      Pool.GrownTransitive(c.sources[i], c.pool, pool);
    }
  }

  lemma GrantingNothingKeepsGate(p: Pool.PoolState, e: Pool.Event, generation: nat, log: seq<Event>)
    requires Pool.Inv(p) && Pool.Enabled(p, e) && GrantsNothing(e) && GateInv(p.gate, generation, log)
    ensures GateInv(Pool.Next(p, e).gate, generation, log)
  {
    Pool.GateCallsStep(p, e);
    assert Pool.GateCalls(p, e) != [] ==> var op := Pool.GateCalls(p, e)[0].op; op.Permits? || op.Close?;
  }

  lemma WorkKeepsChild(generation: nat, c: Child, log: seq<Event>, now: int, e: Pool.Event)
    requires ChildInv(generation, c, log, now) && Pool.Enabled(c.pool, e) && GrantsNothing(e)
    ensures ChildInv(generation, c.(pool := Pool.Next(c.pool, e)), log, Pool.LastReading(e))
  {
    Pool.StepKeepsInv(c.pool, e);
    Pool.GrownStep(c.pool, e);
    Pool.ClockFollows(c.pool, e);
    ReportsFollow(c, Pool.Next(c.pool, e));
    GrantingNothingKeepsGate(c.pool, e, generation, log);
  }

  lemma {:induction false} SentIsLogged(log: seq<Event>, generation: nat, k: nat) returns (i: nat)
    requires k < |Sent(log, generation)|
    ensures i < |log| && log[i] == Sent(log, generation)[k]
    ensures log[i].CommandSent? && log[i].generation == generation
  {
    var before := log[..|log| - 1];
    if k < |Sent(before, generation)| {
      i := SentIsLogged(before, generation, k);
    } else {
      i := |log| - 1;
    }
  }

  // A command that is obeyed grants no more than the latest lease sent.
  lemma ObeyingKeepsGate(g: Gate.GateState, generation: nat, h: History, k: nat, call: Gate.Call)
    requires GateInv(g, generation, h.log) && k < |Sent(h.log, generation)| && Asks(Sent(h.log, generation)[k], call)
    ensures GateInv(Gate.Apply(g, call).0, generation, h.log)
  {
    var i := SentIsLogged(h.log, generation, k);
    if GrantsLease(h.log[i]) {
      LatestIsFurthest(h.log, h.ms, generation, |h.log|, i);
      assert h.log[..|h.log|] == h.log;
    }
    if h.log[i].command.Open? {
      assert IsOpen(h.log[i], generation);
    }
  }

  lemma ObeyKeepsChild(generation: nat, c: Child, h: History, now: int, k: nat, call: Gate.Call)
    requires ChildInv(generation, c, h.log, now) && Pool.Enabled(c.pool, Pool.GateCommand(call))
    requires k < |Sent(h.log, generation)| && Asks(Sent(h.log, generation)[k], call)
    ensures ChildInv(generation, Obedient(c, k, call), h.log, call.now)
  {
    var e := Pool.GateCommand(call);
    Pool.StepKeepsInv(c.pool, e);
    Pool.GrownStep(c.pool, e);
    ReportsFollow(c, Pool.Next(c.pool, e));
    ObeyingKeepsGate(c.pool.gate, generation, h, k, call);
  }

  lemma BeatKeepsChild(generation: nat, c: Child, log: seq<Event>, now: int, heartbeat: int)
    requires ChildInv(generation, c, log, now) && heartbeat <= c.pool.clock
    ensures ChildInv(generation, c.(reports := c.reports + [Pool.Report(c.pool, heartbeat)],
                                    sources := c.sources + [c.pool]), log, now)
  {
    var r := Pool.Report(c.pool, heartbeat);
    var reports := c.reports + [r];
    Pool.GrownReflexive(c.pool);
    forall i, j | 0 <= i <= j < |reports|
      ensures Pool.MayFollow(reports[i], reports[j])
    {
      if j == |c.reports| && i < j {
        assert Shows(c.reports[i], c.sources[i], c.pool);
        Pool.GrownReportsFollow(c.sources[i], c.pool, c.reports[i].heartbeat, heartbeat);
      }
    }
  }

  ghost predicate ChildrenInv(s: System) {
    forall g :: g in s.children ==> ChildInv(g, s.children[g], s.h.log, s.now) && SpawnedBy(Last(s.h), g)
  }

  // What the supervisor heard from the current child are reports of that
  // child, in their order.
  ghost predicate HeardInv(s: System) {
    var m := Last(s.h);
    && |s.heard| == |m.ears.beats|
    && (s.heard != [] ==> m.core.generation in s.children)
    && (forall i :: 0 <= i < |s.heard| ==>
          && s.heard[i] < |s.children[m.core.generation].reports|
          && m.ears.beats[i] == s.children[m.core.generation].reports[s.heard[i]])
    && (forall i, j :: 0 <= i < j < |s.heard| ==> s.heard[i] < s.heard[j])
  }

  // Every heartbeat in the log is a report of its generation's child.
  ghost predicate BeatsReported(s: System) {
    forall i :: 0 <= i < |s.h.log| && s.h.log[i].HeartbeatSeen? ==>
      && s.h.log[i].generation in s.children
      && s.h.log[i].snapshot in s.children[s.h.log[i].generation].reports
  }

  ghost predicate ClockInv(s: System) {
    0 <= Last(s.h).core.clock <= s.now
  }

  ghost predicate Inv(s: System) {
    ChildrenInv(s) && HeardInv(s) && BeatsReported(s) && ClockInv(s)
  }

  lemma ClocksKept(s: System, step: Step)
    requires ClockInv(s) && ChildrenInv(s) && Enabled(s, step)
    ensures ClockInv(Next(s, step)) && s.now <= Next(s, step).now
  {
    if step.Supervise? {
      DecideKeepsClock(Last(s.h), step.e, step.now);
    }
    if step.Work? {
      assert ChildInv(step.generation, s.children[step.generation], s.h.log, s.now);
    }
  }

  lemma DecideKeepsClock(m: Monitor, e: Event, now: int)
    requires Allowed(m, e) && 0 <= m.core.clock <= now && Stamp(e) <= now
    ensures 0 <= Update(m, e).core.clock <= now
  {
    StampsGrow(m, e);
  }

  lemma StampsGrow(m: Monitor, e: Event)
    requires Allowed(m, e)
    ensures IsStamped(e) ==> m.core.clock <= Stamp(e)
  {
  }

  predicate IsStamped(e: Event) {
    e.CommandSent? || e.RequestRefused? || e.Incident?
  }

  // The supervisor's own events.
  lemma SuperviseKeepsChildren(s: System, e: Event, now: int)
    requires ChildrenInv(s) && ClockInv(s) && s.now <= now && Allowed(Last(s.h), e)
    ensures forall g :: g in s.children ==>
              ChildInv(g, s.children[g], Extend(s.h, e).log, now) && SpawnedBy(Last(Extend(s.h, e)), g)
    ensures e.Spawned? ==>
              && e.generation !in s.children
              && ChildInv(e.generation, FreshChild(e.generation), Extend(s.h, e).log, now)
              && SpawnedBy(Last(Extend(s.h, e)), e.generation)
  {
    var r := Extend(s.h, e);
    forall g | g in s.children
      ensures ChildInv(g, s.children[g], r.log, now) && SpawnedBy(Last(r), g)
    {
      ChildInvLater(g, s.children[g], s.h, e, s.now, now);
      SpawnStep(r.log, r.ms, |s.h.log|, g);
    }
    if e.Spawned? {
      SpawnStep(r.log, r.ms, |s.h.log|, e.generation);
      LatestLeaseIsNotNegative(r, e.generation);
      FreshChildInv(e.generation, r.log, now);
    }
  }

  lemma LatestLeaseIsNotNegative(h: History, generation: nat)
    ensures 0 <= LatestLease(h.log, generation)
  {
    NotNegativeUpTo(h, generation, |h.log|);
    assert h.log[..|h.log|] == h.log;
  }

  lemma {:induction false} NotNegativeUpTo(h: History, generation: nat, n: nat)
    requires n <= |h.log|
    ensures 0 <= LatestLease(h.log[..n], generation)
  {
    if n > 0 {
      NotNegativeUpTo(h, generation, n - 1);
      LatestLeaseBound(h.log, h.ms, generation, n - 1);
      ClockStep(h.log, h.ms, n - 1);
      LatestLeaseStep(h.log, generation, n);
    }
  }

  // One child moves on, and time with it.
  lemma OneChildMoves(s: System, g: nat, c: Child, later: int)
    requires ChildrenInv(s) && s.now <= later && g in s.children && ChildInv(g, c, s.h.log, later)
    ensures ChildrenInv(s.(children := s.children[g := c], now := later))
  {
    assert forall k :: k in s.children[g := c] ==> k in s.children;
  }

  lemma WorkKept(s: System, g: nat, e: Pool.Event)
    requires ChildrenInv(s) && Enabled(s, Work(g, e))
    ensures ChildrenInv(Next(s, Work(g, e)))
  {
    var c := s.children[g];
    WorkKeepsChild(g, c, s.h.log, s.now, e);
    OneChildMoves(s, g, c.(pool := Pool.Next(c.pool, e)), Pool.LastReading(e));
  }

  // A child that has obeyed a command.
  function Obedient(c: Child, command: nat, call: Gate.Call): Child
    requires Pool.Enabled(c.pool, Pool.GateCommand(call))
  {
    c.(pool := Pool.Next(c.pool, Pool.GateCommand(call)), taken := command + 1)
  }

  lemma ObeyKeepsOne(s: System, g: nat, command: nat, call: Gate.Call)
    requires ChildrenInv(s) && Enabled(s, Obey(g, command, call))
    ensures ChildInv(g, Obedient(s.children[g], command, call), s.h.log, call.now)
  {
    ObeyKeepsChild(g, s.children[g], s.h, s.now, command, call);
  }

  lemma ObeyKept(s: System, g: nat, command: nat, call: Gate.Call)
    requires ChildrenInv(s) && Enabled(s, Obey(g, command, call))
    ensures ChildrenInv(Next(s, Obey(g, command, call)))
  {
    ObeyKeepsOne(s, g, command, call);
    OneChildMoves(s, g, Obedient(s.children[g], command, call), call.now);
  }

  lemma BeatKept(s: System, g: nat, heartbeat: int)
    requires ChildrenInv(s) && Enabled(s, Beat(g, heartbeat))
    ensures ChildrenInv(Next(s, Beat(g, heartbeat)))
  {
    var c := s.children[g];
    BeatKeepsChild(g, c, s.h.log, s.now, heartbeat);
    OneChildMoves(s, g, c.(reports := c.reports + [Pool.Report(c.pool, heartbeat)], sources := c.sources + [c.pool]),
                  s.now);
  }

  lemma SuperviseKept(s: System, e: Event, now: int)
    requires ChildrenInv(s) && ClockInv(s) && Enabled(s, Supervise(e, now))
    ensures ChildrenInv(Next(s, Supervise(e, now)))
  {
    SuperviseKeepsChildren(s, e, now);
  }

  lemma ReceiveKept(s: System, report: nat, now: int)
    requires ChildrenInv(s) && ClockInv(s) && Enabled(s, Receive(report, now))
    ensures ChildrenInv(Next(s, Receive(report, now)))
  {
    var g := Last(s.h).core.generation;
    SuperviseKeepsChildren(s, HeartbeatSeen(g, s.children[g].reports[report]), now);
  }

  lemma ChildrenKept(s: System, step: Step)
    requires ChildrenInv(s) && ClockInv(s) && Enabled(s, step)
    ensures ChildrenInv(Next(s, step))
  {
    match step
    case Supervise(e, now) => SuperviseKept(s, e, now);
    case Receive(report, now) => ReceiveKept(s, report, now);
    case Work(g, e) => WorkKept(s, g, e);
    case Obey(g, command, call) => ObeyKept(s, g, command, call);
    case Beat(g, heartbeat) => BeatKept(s, g, heartbeat);
  }

  // Children stay, and what they reported stays reported.
  ghost predicate ReportsKept(before: map<nat, Child>, after: map<nat, Child>) {
    forall g :: g in before ==> g in after && before[g].reports <= after[g].reports
  }

  lemma OneChildsReportsGrow(children: map<nat, Child>, g: nat, c: Child)
    requires g in children && children[g].reports <= c.reports
    ensures ReportsKept(children, children[g := c])
  {
  }

  lemma ReportsGrow(s: System, step: Step)
    requires ChildrenInv(s) && ClockInv(s) && Enabled(s, step)
    ensures ReportsKept(s.children, Next(s, step).children)
  {
    match step
    case Supervise(e, now) => SuperviseKeepsChildren(s, e, now);
    case Receive(_, _) =>
    case _ =>
      var after := Next(s, step).children;
      OneChildsReportsGrow(s.children, step.generation, after[step.generation]);
  }

  lemma HeardInvLater(s: System, after: System)
    requires HeardInv(s) && ReportsKept(s.children, after.children) && after.h == s.h && after.heard == s.heard
    ensures HeardInv(after)
  {
  }

  lemma HeardKept(s: System, step: Step)
    requires ChildrenInv(s) && ClockInv(s) && HeardInv(s) && Enabled(s, step)
    ensures HeardInv(Next(s, step))
  {
    match step
    case Supervise(e, now) => HeardKeptBySupervising(s, e, now);
    case Receive(report, now) => HeardKeptByReceiving(s, report, now);
    case _ => HeardKeptByChild(s, step);
  }

  lemma HeardKeptByChild(s: System, step: Step)
    requires ChildrenInv(s) && ClockInv(s) && HeardInv(s) && Enabled(s, step)
    requires step.Work? || step.Obey? || step.Beat?
    ensures HeardInv(Next(s, step))
  {
    ReportsGrow(s, step);
    HeardInvLater(s, Next(s, step));
  }

  lemma HeardKeptByReceiving(s: System, report: nat, now: int)
    requires HeardInv(s) && Enabled(s, Receive(report, now))
    ensures HeardInv(Next(s, Receive(report, now)))
  {
    var m := Last(s.h);
    var snapshot := s.children[m.core.generation].reports[report];
    var e := HeartbeatSeen(m.core.generation, snapshot);
    assert Update(m, e).ears.beats == m.ears.beats + [snapshot] && Update(m, e).core == m.core;
  }

  lemma HeardKeptBySupervising(s: System, e: Event, now: int)
    requires ChildrenInv(s) && ClockInv(s) && HeardInv(s) && Enabled(s, Supervise(e, now))
    ensures HeardInv(Next(s, Supervise(e, now)))
  {
    SuperviseKeepsChildren(s, e, now);
    EarsUnlessHeard(Last(s.h), e);
  }

  lemma EarsUnlessHeard(m: Monitor, e: Event)
    requires Allowed(m, e) && !e.HeartbeatSeen?
    ensures e.StateSet? && e.state.Starting? ==> Update(m, e).ears.beats == []
    ensures !(e.StateSet? && e.state.Starting?) ==>
              Update(m, e).ears.beats == m.ears.beats && Update(m, e).core.generation == m.core.generation
  {
  }

  lemma BeatsReportedKept(s: System, step: Step)
    requires ChildrenInv(s) && ClockInv(s) && BeatsReported(s) && Enabled(s, step)
    ensures BeatsReported(Next(s, step))
  {
    var after := Next(s, step);
    ReportsGrow(s, step);
    forall i | 0 <= i < |after.h.log| && after.h.log[i].HeartbeatSeen?
      ensures after.h.log[i].generation in after.children
      ensures after.h.log[i].snapshot in after.children[after.h.log[i].generation].reports
    {
      if i < |s.h.log| {
        assert s.h.log[i] == after.h.log[i];
      }
    }
  }

  lemma {:induction false} AlwaysInv(states: seq<System>, steps: seq<Step>, n: nat)
    requires Run(states, steps) && n < |states|
    ensures Inv(states[n])
  {
    if n > 0 {
      AlwaysInv(states, steps, n - 1);
      assert LinkedAt(states, steps, n - 1);
      ClocksKept(states[n - 1], steps[n - 1]);
      ChildrenKept(states[n - 1], steps[n - 1]);
      HeardKept(states[n - 1], steps[n - 1]);
      BeatsReportedKept(states[n - 1], steps[n - 1]);
    }
  }

  // ----- lease fencing -----

  // Step i is a public request passing the gate of this generation's child.
  ghost predicate ServesPublic(states: seq<System>, steps: seq<Step>, i: nat)
    requires i < |steps| < |states|
  {
    && steps[i].Work?
    && Enabled(states[i], steps[i])
    && Pool.PassesAPublicCheck(states[i].children[steps[i].generation].pool, steps[i].work)
  }

  lemma ServedUnderLease(s: System, g: nat, e: Pool.Event)
    requires ChildrenInv(s) && Enabled(s, Work(g, e)) && Pool.PassesAPublicCheck(s.children[g].pool, e)
    ensures e.now < LatestLease(s.h.log, g) && OpenSent(s.h.log, g)
  {
    Pool.PublicChecksAreFenced(s.children[g].pool, e);
    assert ChildInv(g, s.children[g], s.h.log, s.now);
  }

  // However late commands arrive, whatever the child passes over, and whether
  // or not it ever answers: no public request passes a check of a generation's
  // gate at or after the end of the latest lease sent to that generation. So
  // if the supervisor dies, service ends with the last lease it sent.
  lemma LeaseFence(states: seq<System>, steps: seq<Step>, i: nat)
    requires Run(states, steps) && i < |steps| && ServesPublic(states, steps, i)
    ensures steps[i].work.now < LatestLease(states[i].h.log, steps[i].generation)
  {
    AlwaysInv(states, steps, i);
    ServedUnderLease(states[i], steps[i].generation, steps[i].work);
  }

  // Once an incident is decided, its generation serves the public for less
  // than one lease more.
  lemma IncidentFence(states: seq<System>, steps: seq<Step>, i: nat, k: nat)
    requires Run(states, steps) && i < |steps| && ServesPublic(states, steps, i)
    requires k < |states[i].h.log| && states[i].h.log[k].Incident?
    requires states[i].h.log[k].generation == steps[i].generation
    ensures steps[i].work.now < states[i].h.log[k].at + LEASE
  {
    var h := states[i].h;
    LeaseFence(states, steps, i);
    IncidentFreezesLease(h.log, h.ms, k, |h.log|);
    assert h.log[..|h.log|] == h.log;
  }

  // The same from UNAVAILABLE on, and from a stop or a request to fail closed on
  // outside STARTING, counted from the latest stamp the supervisor had made by
  // then.
  lemma EndFence(states: seq<System>, steps: seq<Step>, i: nat, k: nat)
    requires Run(states, steps) && i < |steps| && ServesPublic(states, steps, i)
    requires k < |states[i].h.log| && states[i].h.log[k].generation == steps[i].generation
    requires || (states[i].h.log[k].StateSet? && states[i].h.log[k].state.Unavailable?)
             || (Halts(states[i].h.log[k]) && !states[i].h.ms[k].core.state.Starting?)
    ensures steps[i].work.now < states[i].h.ms[k].core.clock + LEASE
  {
    var h := states[i].h;
    LeaseFence(states, steps, i);
    EndFreezesLease(h.log, h.ms, k, |h.log|);
    assert h.log[..|h.log|] == h.log;
  }

  // After any stop, also one during STARTING, every generation serves the
  // public for less than one lease more, counted from the latest stamp at the
  // stop or from the one open command sent since (see AtMostOneLeaseAfterStop).
  lemma StopFence(states: seq<System>, steps: seq<Step>, i: nat, k: nat)
    requires Run(states, steps) && i < |steps| && ServesPublic(states, steps, i)
    requires k < |states[i].h.log| && states[i].h.log[k].StopSeen?
    ensures || steps[i].work.now < states[i].h.ms[k].core.clock + LEASE
            || exists j :: k < j < |states[i].h.log| && OpenSentAt(states[i].h.log, j, steps[i].generation)
                         && steps[i].work.now < states[i].h.log[j].at + LEASE
  {
    var h, g := states[i].h, steps[i].generation;
    LeaseFence(states, steps, i);
    StopBoundsLease(h.log, h.ms, k, |h.log|, g);
    LatestLeaseBound(h.log, h.ms, g, k);
    assert h.log[..|h.log|] == h.log;
  }

  // The public is served only by a child that had shown itself fit: before the
  // open command its supervisor had a sound hello, a heartbeat and an ok probe
  // at occupancy 0, all of that generation.
  lemma PublicServiceIsEarned(states: seq<System>, steps: seq<Step>, i: nat) returns (k: nat)
    requires Run(states, steps) && i < |steps| && ServesPublic(states, steps, i)
    ensures k < |states[i].h.log| && IsOpen(states[i].h.log[k], steps[i].generation)
    ensures Happened(states[i].h.log, k, HelloSeen(steps[i].generation, true))
    ensures exists s :: Happened(states[i].h.log, k, HeartbeatSeen(steps[i].generation, s))
    ensures Happened(states[i].h.log, k, ProbeSeen(steps[i].generation, true, Some(0)))
  {
    var h := states[i].h;
    AlwaysInv(states, steps, i);
    ServedUnderLease(states[i], steps[i].generation, steps[i].work);
    k :| 0 <= k < |h.log| && IsOpen(h.log[k], steps[i].generation);
    AlwaysBacked(h.log, h.ms, k);
    OpenNeedsEvidence(h.log, h.ms, k);
    var ears := h.ms[k].ears;
    assert ears.beats[0] in ears.beats;
  }

  lemma OpenNeedsEvidence(log: seq<Event>, ms: seq<Monitor>, k: nat)
    requires Accepted(log, ms) && k < |log| && log[k].CommandSent? && log[k].command.Open?
    ensures ms[k].ears.sound && ms[k].ears.beats != [] && ms[k].ears.probed
    ensures ms[k].core.generation == log[k].generation
  {
    assert Protocol.LinkedAt(log, ms, k);
  }

  // ----- detection -----

  lemma HeardFromOnePool(s: System)
    requires ChildrenInv(s) && HeardInv(s)
    ensures Pool.FromOnePool(Last(s.h).ears.beats)
  {
    var m := Last(s.h);
    var beats := m.ears.beats;
    forall i, j | 0 <= i <= j < |beats|
      ensures Pool.MayFollow(beats[i], beats[j])
    {
      assert ChildInv(m.core.generation, s.children[m.core.generation], s.h.log, s.now);
      assert i == j || s.heard[i] < s.heard[j];
    }
  }

  // The heartbeats a supervisor holds always come from one pool, the provision
  // under which a tick that leaves it in service has met the work deadline.
  lemma BeatsFromOnePool(states: seq<System>, steps: seq<Step>, n: nat)
    requires Run(states, steps) && n < |states|
    ensures Pool.FromOnePool(Last(states[n].h).ears.beats)
  {
    AlwaysInv(states, steps, n);
    HeardFromOnePool(states[n]);
  }

  // A heartbeat in the log is a report that shows its child's pool.
  lemma BeatIsReported(s: System, e: Event) returns (r: nat)
    requires ChildrenInv(s) && BeatsReported(s) && e in s.h.log && e.HeartbeatSeen?
    ensures e.generation in s.children
    ensures var c := s.children[e.generation];
            r < |c.reports| == |c.sources| && c.reports[r] == e.snapshot && Shows(e.snapshot, c.sources[r], c.pool)
  {
    var i :| 0 <= i < |s.h.log| && s.h.log[i] == e;
    var c := s.children[e.generation];
    assert ChildInv(e.generation, c, s.h.log, s.now);
    r :| 0 <= r < |c.reports| && c.reports[r] == e.snapshot;
  }

  // No incident for work that was over in time: when one rests on work over
  // age, it shows a job that held its slot past the limit. If that slot is
  // ever given back, it is at least the limit after the job was admitted.
  lemma WorkOverAgeIsReal(states: seq<System>, steps: seq<Step>, n: nat, k: nat) returns (id: nat)
    requires Run(states, steps) && n < |states|
    requires k < |states[n].h.log| && states[n].h.log[k].Incident? && states[n].h.log[k].reason.WorkAgeExceeded?
    ensures states[n].h.log[k].shown.Some? && id in states[n].h.log[k].shown.value.jobs
    ensures states[n].h.log[k].generation in states[n].children
    ensures forall f :: f in states[n].children[states[n].h.log[k].generation].pool.log.finished && f.id == id ==>
              && f.job.admittedAt == states[n].h.log[k].shown.value.jobs[id].admittedAt
              && f.releasedAt >= f.job.admittedAt + WORK_LIMIT
  {
    var h := states[n].h;
    AlwaysInv(states, steps, n);
    id := IncidentJob(h.log, h.ms, k);
    var e := HeartbeatSeen(h.log[k].generation, h.log[k].shown.value);
    assert e in h.log;
    var r := BeatIsReported(states[n], e);
    var c := states[n].children[h.log[k].generation];
    forall f | f in c.pool.log.finished && f.id == id
      ensures f.job.admittedAt == h.log[k].shown.value.jobs[id].admittedAt
      ensures f.releasedAt >= f.job.admittedAt + WORK_LIMIT
    {
      var i :| 0 <= i < |c.pool.log.finished| && c.pool.log.finished[i] == f;
      Pool.ShownJobReleasedLater(c.sources[r], c.pool, c.reports[r].heartbeat, i);
    }
  }

  // The snapshot was heard, and shows an overdue job.
  lemma IncidentJob(log: seq<Event>, ms: seq<Monitor>, k: nat) returns (id: nat)
    requires Accepted(log, ms) && k < |log| && log[k].Incident? && log[k].reason.WorkAgeExceeded?
    ensures log[k].shown.Some? && id in log[k].shown.value.jobs
    ensures log[k].shown.value.heartbeat >= log[k].shown.value.jobs[id].admittedAt + WORK_LIMIT
    ensures Happened(log, k, HeartbeatSeen(log[k].generation, log[k].shown.value))
  {
    assert Protocol.LinkedAt(log, ms, k);
    AlwaysBacked(log, ms, k);
    assert log[k].shown.value in ms[k].ears.beats;
    assert Overdue(log[k].shown.value);
    id :| id in log[k].shown.value.jobs
       && log[k].shown.value.heartbeat >= log[k].shown.value.jobs[id].admittedAt + WORK_LIMIT;
  }

  // In one step a child's pool changes at most as work or a command changes it,
  // and a report shows the pool as it was.
  ghost predicate Moved(c: Child, d: Child, step: Step, g: nat) {
    && (forall id :: id in d.pool.jobs ==>
          if id in c.pool.jobs then d.pool.jobs[id].admittedAt == c.pool.jobs[id].admittedAt
          else AdmittedBy(step, g, d.pool.jobs[id].admittedAt))
    && (forall r :: 0 <= r < |d.sources| ==> d.sources[r] == if r < |c.sources| then c.sources[r] else c.pool)
  }

  predicate AdmittedBy(step: Step, g: nat, stamp: int) {
    step.Work? && step.generation == g && step.work.Admit? && step.work.stamp == stamp
  }

  lemma WorkMoves(c: Child, g: nat, e: Pool.Event)
    requires Pool.Inv(c.pool) && Pool.Enabled(c.pool, e)
    ensures Moved(c, c.(pool := Pool.Next(c.pool, e)), Work(g, e), g)
  {
    Pool.GrownStep(c.pool, e);
    Pool.OnlyAdmissionAdds(c.pool, e);
  }

  lemma ObeyMoves(c: Child, g: nat, command: nat, call: Gate.Call)
    requires Pool.Enabled(c.pool, Pool.GateCommand(call))
    ensures Moved(c, Obedient(c, command, call), Obey(g, command, call), g)
  {
  }

  lemma BeatMoves(c: Child, g: nat, heartbeat: int)
    requires |c.sources| == |c.reports|
    ensures Moved(c, c.(reports := c.reports + [Pool.Report(c.pool, heartbeat)], sources := c.sources + [c.pool]),
                  Beat(g, heartbeat), g)
  {
  }

  // A step that is not this child's own leaves it as it is.
  lemma OthersStay(s: System, step: Step, g: nat)
    requires Inv(s) && Enabled(s, step) && g in s.children
    requires step.Supervise? || step.Receive? || step.generation != g
    ensures g in Next(s, step).children && Next(s, step).children[g] == s.children[g]
  {
    if step.Supervise? {
      SuperviseKeepsChildren(s, step.e, step.now);
    }
  }

  lemma ChildMoves(s: System, step: Step, g: nat)
    requires Inv(s) && Enabled(s, step) && g in s.children
    ensures g in Next(s, step).children && Moved(s.children[g], Next(s, step).children[g], step, g)
  {
    var c := s.children[g];
    assert ChildInv(g, c, s.h.log, s.now);
    if step.Supervise? || step.Receive? || step.generation != g {
      OthersStay(s, step, g);
    } else {
      match step
      case Work(_, e) => WorkMoves(c, g, e);
      case Obey(_, command, call) => ObeyMoves(c, g, command, call);
      case Beat(_, heartbeat) => BeatMoves(c, g, heartbeat);
    }
  }

  lemma NewChildIsFresh(s: System, step: Step, g: nat)
    requires Enabled(s, step) && g !in s.children && g in Next(s, step).children
    ensures Next(s, step).children[g] == FreshChild(g)
  {
  }

  // Step m admits job `id` of this generation's pool, at this stamp.
  ghost predicate Admits(states: seq<System>, steps: seq<Step>, m: nat, g: nat, id: nat, stamp: int)
    requires m < |steps| < |states|
  {
    && steps[m].Work? && steps[m].generation == g && steps[m].work.Admit? && steps[m].work.stamp == stamp
    && g in states[m + 1].children && id in states[m + 1].children[g].pool.jobs
    && states[m + 1].children[g].pool.jobs[id].admittedAt == stamp
  }

  // Every live job was admitted by a step of the run, at the stamp it carries.
  lemma {:induction false} LiveJobWasAdmitted(states: seq<System>, steps: seq<Step>, n: nat, g: nat, id: nat)
    returns (m: nat)
    requires Run(states, steps) && n < |states| && g in states[n].children && id in states[n].children[g].pool.jobs
    ensures m < n && Admits(states, steps, m, g, id, states[n].children[g].pool.jobs[id].admittedAt)
  {
    assert 0 < n;
    AlwaysInv(states, steps, n - 1);
    assert LinkedAt(states, steps, n - 1);
    if g !in states[n - 1].children {
      NewChildIsFresh(states[n - 1], steps[n - 1], g);
    } else {
      ChildMoves(states[n - 1], steps[n - 1], g);
      if id in states[n - 1].children[g].pool.jobs {
        m := LiveJobWasAdmitted(states, steps, n - 1, g, id);
      } else {
        m := n - 1;
      }
    }
  }

  // The pool that a report shows is the child's pool at some moment of the run.
  lemma {:induction false} SourceWasThere(states: seq<System>, steps: seq<Step>, n: nat, g: nat, r: nat)
    returns (m: nat)
    requires Run(states, steps) && n < |states| && g in states[n].children && r < |states[n].children[g].sources|
    ensures m <= n && g in states[m].children && states[m].children[g].pool == states[n].children[g].sources[r]
  {
    assert 0 < n;
    AlwaysInv(states, steps, n - 1);
    assert LinkedAt(states, steps, n - 1);
    if g !in states[n - 1].children {
      NewChildIsFresh(states[n - 1], steps[n - 1], g);
    } else {
      ChildMoves(states[n - 1], steps[n - 1], g);
      if r < |states[n - 1].children[g].sources| {
        m := SourceWasThere(states, steps, n - 1, g, r);
      } else {
        m := n - 1;
      }
    }
  }

  // Nor is any held against a child for work that never was: when an incident
  // rests on an unconfirmed work age, a job was admitted to that child's pool
  // exactly one work limit before the deadline the incident names.
  lemma UnconfirmedWorkIsReal(states: seq<System>, steps: seq<Step>, n: nat, k: nat) returns (m: nat, id: nat)
    requires Run(states, steps) && n < |states|
    requires k < |states[n].h.log| && states[n].h.log[k].Incident? && states[n].h.log[k].reason.WorkAgeUnconfirmed?
    ensures m < n
    ensures Admits(states, steps, m, states[n].h.log[k].generation, id, states[n].h.log[k].reason.deadline - WORK_LIMIT)
  {
    var h := states[n].h;
    var g := h.log[k].generation;
    AlwaysInv(states, steps, n);
    var shown := UnconfirmedIsSound(h.log, h.ms, k);
    var e := h.log[shown];
    var r := BeatIsReported(states[n], e);
    id :| id in e.snapshot.jobs && e.snapshot.jobs[id].admittedAt == h.log[k].reason.deadline - WORK_LIMIT;
    var moment := SourceWasThere(states, steps, n, g, r);
    m := LiveJobWasAdmitted(states, steps, moment, g, id);
  }

  // ----- a run that serves -----

  lemma Go(states: seq<System>, steps: seq<Step>, step: Step) returns (more: seq<System>, next: seq<Step>, s: System)
    requires Run(states, steps) && Enabled(states[|steps|], step)
    ensures Run(more, next) && s == more[|next|] == Next(states[|steps|], step)
    ensures states <= more && steps <= next
    ensures |next| == |steps| + 1 && next[|steps|] == step && more[|steps|] == states[|steps|]
  {
    s := Next(states[|steps|], step);
    more, next := states + [s], steps + [step];
    forall i: nat | i < |next|
      ensures LinkedAt(more, next, i)
    {
      if i < |steps| {
        assert LinkedAt(states, steps, i);
      }
    }
  }

  lemma {:induction false} NothingSent(log: seq<Event>, generation: nat)
    requires forall i :: 0 <= i < |log| ==> !log[i].CommandSent?
    ensures Sent(log, generation) == []
  {
    if log != [] {
      NothingSent(log[..|log| - 1], generation);
    }
  }

  // The child says hello and shows itself alive.
  lemma Greets() returns (states: seq<System>, steps: seq<Step>, s: System)
    ensures Run(states, steps) && s == states[|steps|]
    ensures Last(s.h).core == INITIAL.core.(generation := 1, held := true, mayRenew := true)
    ensures Last(s.h).ears.sound && Last(s.h).ears.beats != []
    ensures s.now == 0 && s.children.Keys == {1} && s.children[1].pool == Pool.Fresh(1) && s.children[1].taken == 0
    ensures forall i :: 0 <= i < |s.h.log| ==> !s.h.log[i].CommandSent?
  {
    states, steps := [START], [];
    states, steps, s := Go(states, steps, Supervise(StateSet(1, Starting), 0));
    states, steps, s := Go(states, steps, Supervise(Spawned(1), 0));
    states, steps, s := Go(states, steps, Supervise(HelloSeen(1, true), 0));
    states, steps, s := Go(states, steps, Beat(1, 0));
    states, steps, s := Go(states, steps, Receive(0, 0));
  }

  function OpeningAt(at: nat): Event {
    CommandSent(1, Wire.Open(at + LEASE), 1, at)
  }

  // It passes its probe, and a stop is seen or not.
  lemma IsProbed(stopped: bool) returns (states: seq<System>, steps: seq<Step>, s: System, k: nat)
    ensures Run(states, steps) && s == states[|steps|]
    ensures Last(s.h).core == INITIAL.core.(generation := 1, held := true, mayRenew := true, stopping := stopped)
    ensures Checked(Last(s.h).ears)
    ensures s.now == 0 && s.children.Keys == {1} && s.children[1].pool == Pool.Fresh(1) && s.children[1].taken == 0
    ensures forall i :: 0 <= i < |s.h.log| ==> !s.h.log[i].CommandSent?
    ensures stopped ==> k < |s.h.log| && s.h.log[k] == StopSeen(1) && s.h.ms[k].core.clock == 0
  {
    states, steps, s := Greets();
    states, steps, s := Go(states, steps, Supervise(ProbeSeen(1, true, Some(0)), 0));
    k := |s.h.log|;
    if stopped {
      states, steps, s := Go(states, steps, Supervise(StopSeen(1), 0));
    }
  }

  // It is sent the open command at this time.
  lemma Opens(stopped: bool, at: nat) returns (states: seq<System>, steps: seq<Step>, s: System, k: nat)
    ensures Run(states, steps) && s == states[|steps|]
    ensures s.now == at && s.children.Keys == {1} && s.children[1].pool == Pool.Fresh(1) && s.children[1].taken == 0
    ensures Sent(s.h.log, 1) == [OpeningAt(at)]
    ensures Last(s.h).core == INITIAL.core.(generation := 1, held := true, mayRenew := true, stopping := stopped,
                                            openNumber := 1, clock := at)
    ensures stopped ==> k < |s.h.log| && s.h.log[k] == StopSeen(1) && s.h.ms[k].core.clock == 0
  {
    states, steps, s, k := IsProbed(stopped);
    var log := s.h.log;
    NothingSent(log, 1);
    states, steps, s := Go(states, steps, Supervise(OpeningAt(at), at));
    assert s.h.log == log + [OpeningAt(at)];
    assert s.h.log[..|s.h.log| - 1] == log;
  }

  // The public is served by generation 1 of this run right after its opening.
  lemma ServesOnce(states: seq<System>, steps: seq<Step>, at: nat) returns (more: seq<System>, next: seq<Step>)
    requires Run(states, steps) && states[|steps|].now == at
    requires 1 in states[|steps|].children && states[|steps|].children[1].pool == Pool.Fresh(1)
    requires states[|steps|].children[1].taken == 0 && Sent(states[|steps|].h.log, 1) == [OpeningAt(at)]
    ensures Run(more, next) && next != [] && more[|next| - 1].h == states[|steps|].h
    ensures ServesPublic(more, next, |next| - 1) && next[|next| - 1] == Work(1, Pool.CheckRequest(false, at))
  {
    var s;
    var call := Gate.Call(Gate.OpenDoor(1, 1, at + LEASE, true), at);
    more, next, s := Go(states, steps, Obey(1, 0, call));
    assert s.children[1].pool.gate == Gate.Apply(Gate.Fresh(1), call).0;
    more, next, s := Go(more, next, Work(1, Pool.CheckRequest(false, at)));
  }

  // The theorems above speak of something: there is a run, with all the steps
  // of a startup, in which a public request is served.
  lemma ServiceHappens() returns (states: seq<System>, steps: seq<Step>)
    ensures Run(states, steps) && steps != [] && ServesPublic(states, steps, |steps| - 1)
  {
    var s, k;
    states, steps, s, k := Opens(false, 0);
    states, steps := ServesOnce(states, steps, 0);
  }

  // EndFence cannot be extended to STARTING: this run serves the public two
  // seconds after a stop was seen there, a second after that fence would end.
  lemma ServesAfterStop() returns (states: seq<System>, steps: seq<Step>, k: nat)
    ensures Run(states, steps) && steps != [] && ServesPublic(states, steps, |steps| - 1)
    ensures var last := states[|steps| - 1];
            && k < |last.h.log| && last.h.log[k] == StopSeen(1) && last.h.ms[k].core.clock == 0
            && steps[|steps| - 1] == Work(1, Pool.CheckRequest(false, 2 * SECOND))
  {
    var s;
    states, steps, s, k := Opens(true, 2 * SECOND);
    states, steps := ServesOnce(states, steps, 2 * SECOND);
  }

  function LeaseAt(number: nat, at: nat): Event {
    CommandSent(1, Wire.Lease(at + LEASE), number, at)
  }

  const OPENED := Gate.Apply(Gate.Fresh(1), Gate.Call(Gate.OpenDoor(1, 1, LEASE, true), 0)).0
  const RENEWED := OPENED.(leaseUntil := 1250 * MILLISECOND, lastSequence := 2)

  // The gate is opened at 0, and a lease is sent a quarter of a second later.
  lemma SendsRenewal() returns (states: seq<System>, steps: seq<Step>, s: System)
    ensures Run(states, steps) && s == states[|steps|] && s.now == 250 * MILLISECOND && s.children.Keys == {1}
    ensures s.children[1].pool == Pool.Fresh(1).(gate := OPENED) && s.children[1].taken == 1
    ensures Sent(s.h.log, 1) == [OpeningAt(0), LeaseAt(2, 250 * MILLISECOND)]
  {
    var k;
    states, steps, s, k := Opens(false, 0);
    states, steps, s := Go(states, steps, Obey(1, 0, Gate.Call(Gate.OpenDoor(1, 1, LEASE, true), 0)));
    var log := s.h.log;
    states, steps, s := Go(states, steps, Supervise(LeaseAt(2, 250 * MILLISECOND), 250 * MILLISECOND));
    assert s.h.log == log + [LeaseAt(2, 250 * MILLISECOND)] && s.h.log[..|log|] == log;
  }

  // The gate takes it.
  lemma TakesRenewal() returns (states: seq<System>, steps: seq<Step>, s: System)
    ensures Run(states, steps) && s == states[|steps|] && s.now == 250 * MILLISECOND && s.children.Keys == {1}
    ensures s.children[1].pool == Pool.Fresh(1).(gate := RENEWED, clock := 250 * MILLISECOND)
    ensures Sent(s.h.log, 1) == [OpeningAt(0), LeaseAt(2, 250 * MILLISECOND)]
  {
    states, steps, s := SendsRenewal();
    var renewal := Gate.Call(Gate.Op.Renew(1, 2, 1250 * MILLISECOND), 250 * MILLISECOND);
    states, steps, s := Go(states, steps, Obey(1, 1, renewal));
  }

  // An open gate takes a renewal: this run serves the public a tenth of a
  // second after the lease of its opening has run out.
  lemma ServesAfterRenewal() returns (states: seq<System>, steps: seq<Step>)
    ensures Run(states, steps) && steps != [] && ServesPublic(states, steps, |steps| - 1)
    ensures steps[|steps| - 1] == Work(1, Pool.CheckRequest(false, LEASE + 100 * MILLISECOND))
    ensures Sent(states[|steps| - 1].h.log, 1) == [OpeningAt(0), LeaseAt(2, 250 * MILLISECOND)]
  {
    var s;
    states, steps, s := TakesRenewal();
    states, steps, s := Go(states, steps, Work(1, Pool.CheckRequest(false, LEASE + 100 * MILLISECOND)));
  }
}
