// The worker pool: four slots, each held from admission until the future that
// occupies it is done, whoever is still waiting for the answer.
//
// Every event below is one critical section of the program (they all hold the
// pool's lock) or one stamp written by a worker thread, so a sequence of
// events is an interleaving of requests, workers, awaiters and the control
// loop. `Next` gives the effect of one event; the class performs it on fields.

module Pool {
  import opened Options
  import opened Timing
  import Gate

  const WORKERS := 4
  const HISTORY := 16

  datatype Job = Job(
    isPrivate: bool,
    hasFuture: bool,
    admittedAt: int,
    startedAt: Option<int>,
    callableFinishedAt: Option<int>,
    contextResetAt: Option<int>,
    abandonedAt: Option<int>,
    refused: bool,      // the start check turned the job away
    futureDone: bool)   // concurrent.futures.Future.done()

  datatype Finished = Finished(id: nat, job: Job, futureDoneAt: int, releasedAt: int)

  // The counters kept beside the job table.
  datatype Books = Books(
    permits: int,
    slots: int,       // value of the bounded semaphore
    submitted: int,
    completed: int,
    maxActive: int,
    nextId: nat)

  datatype Log = Log(
    history: seq<Finished>,   // the last sixteen
    finished: seq<Finished>,  // every finished job of the run
    released: seq<nat>)       // every admission id whose slot was given back, in order

  datatype PoolState = PoolState(
    gate: Gate.GateState,
    closed: bool,
    books: Books,
    jobs: map<nat, Job>,
    log: Log,
    clock: int)               // the latest clock reading of the run

  function Fresh(generation: nat): PoolState {
    PoolState(Gate.Fresh(generation), false, Books(WORKERS, WORKERS, 0, 0, 0, 0), map[], Log([], [], []), 0)
  }

  // ----- events -----

  datatype Event =
    // `run`: `now` is the gate's reading, `stamp` the later one kept as admitted_at
    | Admit(isPrivate: bool, authentic: bool, submitOk: bool, now: int, stamp: int)
    // the first lines of `invoke`, in a worker thread
    | Start(id: nat, authentic: bool, now: int, stamp: int)
    | CallableFinished(id: nat, now: int)
    | ContextReset(id: nat, now: int)
    | FutureDone(id: nat, now: int)
    // `_finish`: readings for future_done_at, slot_released_at and the gate
    | Finish(id: nat, doneStamp: int, releaseStamp: int, now: int)
    // a timeout or a cancellation of the awaiter
    | Abandon(id: nat, now: int)
    | TakeSnapshot(now: int)
    // the gate check of one HTTP request
    | CheckRequest(isPrivate: bool, now: int)
    // renew, open or close by the control loop
    | GateCommand(call: Gate.Call)
    | Shutdown(now: int)

  function FirstReading(e: Event): int {
    match e
    case Finish(_, doneStamp, _, _) => doneStamp
    case GateCommand(call) => call.now
    case _ => e.now
  }

  function LastReading(e: Event): int {
    match e
    case Admit(_, _, _, _, stamp) => stamp
    case Start(_, _, _, stamp) => stamp
    case GateCommand(call) => call.now
    case _ => e.now
  }

  // What the executor, the futures and the clock guarantee about the next event.
  predicate Enabled(p: PoolState, e: Event) {
    && p.clock <= FirstReading(e) <= LastReading(e)
    && match e
       case Start(id, _, _, _) =>
         id in p.jobs && p.jobs[id].startedAt.None? && !p.jobs[id].refused
       case CallableFinished(id, _) =>
         id in p.jobs && p.jobs[id].startedAt.Some?
         && p.jobs[id].callableFinishedAt.None? && p.jobs[id].contextResetAt.None?
       case ContextReset(id, _) =>
         id in p.jobs && p.jobs[id].startedAt.Some? && p.jobs[id].contextResetAt.None?
       case FutureDone(id, _) =>
         id in p.jobs && !p.jobs[id].futureDone && (p.jobs[id].refused || p.jobs[id].contextResetAt.Some?)
       case Finish(id, doneStamp, releaseStamp, now) =>
         id in p.jobs && p.jobs[id].futureDone && doneStamp <= releaseStamp <= now
       case GateCommand(call) => !call.op.Permits?
       case _ => true
  }

  // `_reconciled`, for a job table of n entries.
  predicate Balanced(b: Books, n: nat) {
    && b.permits == b.slots
    && b.permits + n == WORKERS
    && b.submitted - b.completed == n
  }

  predicate Reconciled(p: PoolState) {
    Balanced(p.books, |p.jobs|) && forall id :: id in p.jobs ==> p.jobs[id].hasFuture
  }

  function Ask(g: Gate.GateState, isPrivate: bool, now: int): (Gate.GateState, bool) {
    Gate.Apply(g, Gate.Call(Gate.Permits(isPrivate), now))
  }

  function CloseGate(g: Gate.GateState, reason: string, now: int): Gate.GateState {
    Gate.Apply(g, Gate.Call(Gate.Close(reason), now)).0
  }

  function Bounded(h: seq<Finished>): seq<Finished> {
    if |h| > HISTORY then h[|h| - HISTORY..] else h
  }

  function Max(a: int, b: int): int {
    if a < b then b else a
  }

  // The counters after a slot is taken, with n jobs in the table before.
  function Taken(b: Books, n: nat): Books {
    Books(b.permits - 1, b.slots - 1, b.submitted + 1, b.completed, Max(b.maxActive, n + 1), b.nextId + 1)
  }

  function GivenBack(b: Books): Books {
    b.(permits := b.permits + 1, slots := b.slots + 1, completed := b.completed + 1)
  }

  function NewJob(isPrivate: bool, stamp: int): Job {
    Job(isPrivate, false, stamp, None, None, None, None, false, false)
  }

  // A slot taken by a job whose submission succeeded.
  function Reserved(p: PoolState, isPrivate: bool, stamp: int): PoolState {
    p.(books := Taken(p.books, |p.jobs|),
       jobs := p.jobs[p.books.nextId + 1 := NewJob(isPrivate, stamp).(hasFuture := true)],
       clock := stamp)
  }

  // A slot taken and given back at once, because the submission failed.
  function Withdrawn(p: PoolState, stamp: int): PoolState {
    p.(books := GivenBack(Taken(p.books, |p.jobs|)),
       jobs := p.jobs - {p.books.nextId + 1},
       log := p.log.(released := p.log.released + [p.books.nextId + 1]),
       clock := stamp)
  }

  // A finished job taken out of the table, its slot given back.
  function Freed(p: PoolState, id: nat, doneStamp: int, releaseStamp: int): PoolState
    requires id in p.jobs
  {
    var record := Finished(id, p.jobs[id], doneStamp, releaseStamp);
    p.(books := GivenBack(p.books),
       jobs := p.jobs - {id},
       log := Log(Bounded(p.log.history + [record]), p.log.finished + [record], p.log.released + [id]),
       clock := releaseStamp)
  }

  datatype Admission = Invalid | Busy | SubmitFailed(id: nat) | Admitted(id: nat)

  function AdmitStep(p: PoolState, isPrivate: bool, authentic: bool, submitOk: bool, now: int, stamp: int)
    : (PoolState, Admission)
  {
    if !authentic then (p.(clock := stamp), Invalid)
    else if p.closed then (p.(clock := stamp), Busy)
    else
      var (g, ok) := Ask(p.gate, isPrivate, now);
      if !ok || p.books.slots <= 0 then (p.(gate := g, clock := stamp), Busy)
      else if submitOk then (Reserved(p.(gate := g), isPrivate, stamp), Admitted(p.books.nextId + 1))
      else (Withdrawn(p.(gate := g), stamp), SubmitFailed(p.books.nextId + 1))
  }

  function StartStep(p: PoolState, id: nat, authentic: bool, now: int, stamp: int): (PoolState, bool)
    requires id in p.jobs
  {
    var (g, ok) := Ask(p.gate, p.jobs[id].isPrivate, now);
    var job := if ok && authentic then p.jobs[id].(startedAt := Some(stamp)) else p.jobs[id].(refused := true);
    (p.(gate := g, jobs := p.jobs[id := job], clock := stamp), ok && authentic)
  }

  function SnapshotStep(p: PoolState, now: int): PoolState {
    var g := Ask(p.gate, false, now).0;
    p.(gate := if Reconciled(p) then g else CloseGate(g, "accounting_mismatch", now), clock := now)
  }

  function FinishStep(p: PoolState, id: nat, doneStamp: int, releaseStamp: int, now: int): PoolState
    requires id in p.jobs
  {
    if p.jobs[id].futureDone then SnapshotStep(Freed(p, id, doneStamp, releaseStamp), now)
    else p.(gate := CloseGate(p.gate, "accounting_mismatch", doneStamp), clock := now)
  }

  function SetJob(p: PoolState, id: nat, job: Job, now: int): PoolState {
    p.(jobs := p.jobs[id := job], clock := now)
  }

  function Next(p: PoolState, e: Event): PoolState
    requires Enabled(p, e)
  {
    match e
    case Admit(isPrivate, authentic, submitOk, now, stamp) =>
      AdmitStep(p, isPrivate, authentic, submitOk, now, stamp).0
    case Start(id, authentic, now, stamp) => StartStep(p, id, authentic, now, stamp).0
    case CallableFinished(id, now) => SetJob(p, id, p.jobs[id].(callableFinishedAt := Some(now)), now)
    case ContextReset(id, now) => SetJob(p, id, p.jobs[id].(contextResetAt := Some(now)), now)
    case FutureDone(id, now) => SetJob(p, id, p.jobs[id].(futureDone := true), now)
    case Finish(id, doneStamp, releaseStamp, now) => FinishStep(p, id, doneStamp, releaseStamp, now)
    case Abandon(id, now) =>
      if id in p.jobs then SetJob(p, id, p.jobs[id].(abandonedAt := Some(now)), now) else p.(clock := now)
    case TakeSnapshot(now) => SnapshotStep(p, now)
    case CheckRequest(isPrivate, now) => p.(gate := Ask(p.gate, isPrivate, now).0, clock := now)
    case GateCommand(call) => p.(gate := Gate.Apply(p.gate, call).0, clock := call.now)
    case Shutdown(now) => p.(closed := true, gate := CloseGate(p.gate, "shutdown", now), clock := now)
  }

  // ----- what every step keeps -----

  // The stamps a live job carries, in the order its lifecycle writes them.
  predicate InOrder(j: Job, clock: int) {
    && j.admittedAt <= clock
    && (j.startedAt.Some? ==> !j.refused && j.admittedAt <= j.startedAt.value <= clock)
    && (j.callableFinishedAt.Some? ==> j.startedAt.Some? && j.startedAt.value <= j.callableFinishedAt.value <= clock)
    && (j.contextResetAt.Some? ==>
          && j.startedAt.Some?
          && (if j.callableFinishedAt.Some? then j.callableFinishedAt.value else j.startedAt.value)
             <= j.contextResetAt.value <= clock)
    && (j.futureDone ==> j.refused || j.contextResetAt.Some?)
  }

  predicate Concluded(f: Finished) {
    && f.job.futureDone
    && InOrder(f.job, f.futureDoneAt)
    && f.futureDoneAt <= f.releasedAt
  }

  ghost predicate Distinct(ids: seq<nat>) {
    forall i, j :: 0 <= i < j < |ids| ==> ids[i] != ids[j]
  }

  // Every admission id ever given out is either live or released, once.
  ghost predicate IdsConserved(live: set<nat>, released: seq<nat>, nextId: nat) {
    && Distinct(released)
    && (forall id :: id in live || id in released <==> 1 <= id <= nextId)
    && (forall id :: id in live ==> id !in released)
  }

  lemma NewIdGoesLive(live: set<nat>, released: seq<nat>, nextId: nat)
    requires IdsConserved(live, released, nextId)
    ensures IdsConserved(live + {nextId + 1}, released, nextId + 1)
  {
  }

  lemma IdIsReleased(live: set<nat>, released: seq<nat>, nextId: nat, id: nat)
    requires IdsConserved(live, released, nextId) && id in live
    ensures IdsConserved(live - {id}, released + [id], nextId)
  {
    var now := released + [id];
    assert forall x :: x in now <==> x in released || x == id;
    assert forall i, j :: 0 <= i < j < |now| ==> now[i] in released && now[i] != now[j];
  }

  lemma IdComesAndGoes(live: set<nat>, released: seq<nat>, nextId: nat)
    requires IdsConserved(live, released, nextId)
    ensures IdsConserved(live, released + [nextId + 1], nextId + 1) && nextId + 1 !in live
  {
    assert nextId + 1 !in live;
    NewIdGoesLive(live, released, nextId);
    IdIsReleased(live + {nextId + 1}, released, nextId + 1, nextId + 1);
    assert live + {nextId + 1} - {nextId + 1} == live;
  }

  ghost predicate JobsInOrder(jobs: map<nat, Job>, clock: int) {
    forall id :: id in jobs ==> jobs[id].hasFuture && InOrder(jobs[id], clock)
  }

  ghost predicate LogInOrder(log: Log, clock: int) {
    && log.history == Bounded(log.finished)
    && (forall i :: 0 <= i < |log.finished| ==>
          && Concluded(log.finished[i])
          && log.finished[i].releasedAt <= clock
          && log.finished[i].id in log.released)
  }

  ghost predicate Inv(p: PoolState) {
    && Balanced(p.books, |p.jobs|)
    && 0 <= p.books.permits
    && p.books.submitted == p.books.nextId
    && 0 <= p.books.maxActive <= WORKERS
    && |p.log.released| == p.books.completed
    && IdsConserved(p.jobs.Keys, p.log.released, p.books.nextId)
    && JobsInOrder(p.jobs, p.clock)
    && LogInOrder(p.log, p.clock)
  }

  lemma FreshInv(generation: nat)
    ensures Inv(Fresh(generation))
  {
  }

  lemma OneMore(jobs: map<nat, Job>, id: nat, job: Job)
    requires id !in jobs
    ensures jobs[id := job].Keys == jobs.Keys + {id}
    ensures |jobs[id := job]| == |jobs| + 1
    ensures jobs - {id} == jobs
  {
    assert |jobs[id := job].Keys| == |jobs.Keys + {id}|;
  }

  lemma OneLess(jobs: map<nat, Job>, id: nat)
    requires id in jobs
    ensures (jobs - {id}).Keys == jobs.Keys - {id}
    ensures |jobs - {id}| == |jobs| - 1
  {
    assert |(jobs - {id}).Keys| == |jobs.Keys - {id}|;
  }

  // Later stamps and more released ids do not disturb the order of stamps.
  lemma OrderStays(jobs: map<nat, Job>, log: Log, released: seq<nat>, clock: int, later: int)
    requires JobsInOrder(jobs, clock) && LogInOrder(log, clock) && clock <= later && log.released <= released
    ensures JobsInOrder(jobs, later) && LogInOrder(log.(released := released), later)
  {
  }

  lemma ReservedKeepsInv(p: PoolState, isPrivate: bool, stamp: int)
    requires Inv(p) && p.clock <= stamp && 0 < p.books.slots
    ensures Inv(Reserved(p, isPrivate, stamp))
  {
    var id := p.books.nextId + 1;
    assert id !in p.jobs.Keys;
    OneMore(p.jobs, id, NewJob(isPrivate, stamp).(hasFuture := true));
    NewIdGoesLive(p.jobs.Keys, p.log.released, p.books.nextId);
    OrderStays(p.jobs, p.log, p.log.released, p.clock, stamp);
  }

  lemma WithdrawnKeepsInv(p: PoolState, stamp: int)
    requires Inv(p) && p.clock <= stamp && 0 < p.books.slots
    ensures Inv(Withdrawn(p, stamp)) && Withdrawn(p, stamp).jobs == p.jobs
  {
    IdComesAndGoes(p.jobs.Keys, p.log.released, p.books.nextId);
    assert p.jobs - {p.books.nextId + 1} == p.jobs;
    OrderStays(p.jobs, p.log, p.log.released + [p.books.nextId + 1], p.clock, stamp);
  }

  lemma FreedKeepsInv(p: PoolState, id: nat, doneStamp: int, releaseStamp: int)
    requires Inv(p) && id in p.jobs && p.jobs[id].futureDone && p.clock <= doneStamp <= releaseStamp
    ensures Inv(Freed(p, id, doneStamp, releaseStamp))
  {
    OneLess(p.jobs, id);
    IdIsReleased(p.jobs.Keys, p.log.released, p.books.nextId, id);
    BoundedStep(p.log.finished, Finished(id, p.jobs[id], doneStamp, releaseStamp));
  }

  lemma InvImpliesReconciled(p: PoolState)
    requires Inv(p)
    ensures Reconciled(p)
  {
  }

  // The gate and a later clock do not matter to the books.
  lemma GateKeepsInv(p: PoolState, g: Gate.GateState, closed: bool, clock: int)
    requires Inv(p) && p.clock <= clock
    ensures Inv(p.(gate := g, closed := closed, clock := clock))
  {
  }

  lemma BoundedStep(h: seq<Finished>, f: Finished)
    ensures Bounded(Bounded(h) + [f]) == Bounded(h + [f])
  {
  }

  lemma SetJobKeepsInv(p: PoolState, id: nat, job: Job, now: int)
    requires Inv(p) && id in p.jobs && p.clock <= now
    requires job.hasFuture && InOrder(job, now)
    ensures Inv(SetJob(p, id, job, now))
  {
    assert p.jobs[id := job].Keys == p.jobs.Keys;
    assert |p.jobs[id := job].Keys| == |p.jobs.Keys|;
  }

  lemma AdmitKeepsInv(p: PoolState, isPrivate: bool, authentic: bool, submitOk: bool, now: int, stamp: int)
    requires Inv(p) && p.clock <= now <= stamp
    ensures Inv(AdmitStep(p, isPrivate, authentic, submitOk, now, stamp).0)
  {
    var g := Ask(p.gate, isPrivate, now).0;
    GateKeepsInv(p, p.gate, p.closed, stamp);
    GateKeepsInv(p, g, p.closed, stamp);
    if 0 < p.books.slots {
      GateKeepsInv(p, g, p.closed, p.clock);
      ReservedKeepsInv(p.(gate := g), isPrivate, stamp);
      WithdrawnKeepsInv(p.(gate := g), stamp);
    }
  }

  lemma StartKeepsInv(p: PoolState, id: nat, authentic: bool, now: int, stamp: int)
    requires Inv(p) && id in p.jobs && p.jobs[id].startedAt.None? && !p.jobs[id].refused && p.clock <= now <= stamp
    ensures Inv(StartStep(p, id, authentic, now, stamp).0)
  {
    var g := Ask(p.gate, p.jobs[id].isPrivate, now).0;
    GateKeepsInv(p, g, p.closed, p.clock);
    SetJobKeepsInv(p.(gate := g), id, StartStep(p, id, authentic, now, stamp).0.jobs[id], stamp);
  }

  lemma SnapshotKeepsInv(p: PoolState, now: int)
    requires Inv(p) && p.clock <= now
    ensures Inv(SnapshotStep(p, now))
    ensures SnapshotStep(p, now) == p.(gate := Ask(p.gate, false, now).0, clock := now)
  {
    InvImpliesReconciled(p);
    GateKeepsInv(p, Ask(p.gate, false, now).0, p.closed, now);
  }

  lemma FinishKeepsInv(p: PoolState, id: nat, doneStamp: int, releaseStamp: int, now: int)
    requires Inv(p) && id in p.jobs && p.jobs[id].futureDone
    requires p.clock <= doneStamp <= releaseStamp <= now
    ensures Inv(FinishStep(p, id, doneStamp, releaseStamp, now))
    ensures FinishStep(p, id, doneStamp, releaseStamp, now)
         == Freed(p, id, doneStamp, releaseStamp).(gate := Ask(p.gate, false, now).0, clock := now)
  {
    FreedKeepsInv(p, id, doneStamp, releaseStamp);
    SnapshotKeepsInv(Freed(p, id, doneStamp, releaseStamp), now);
  }

  lemma StepKeepsInv(p: PoolState, e: Event)
    requires Inv(p) && Enabled(p, e)
    ensures Inv(Next(p, e))
  {
    match e
    case Admit(isPrivate, authentic, submitOk, now, stamp) =>
      AdmitKeepsInv(p, isPrivate, authentic, submitOk, now, stamp);
    case Start(id, authentic, now, stamp) => StartKeepsInv(p, id, authentic, now, stamp);
    case CallableFinished(id, now) => SetJobKeepsInv(p, id, p.jobs[id].(callableFinishedAt := Some(now)), now);
    case ContextReset(id, now) => SetJobKeepsInv(p, id, p.jobs[id].(contextResetAt := Some(now)), now);
    case FutureDone(id, now) => SetJobKeepsInv(p, id, p.jobs[id].(futureDone := true), now);
    case Finish(id, doneStamp, releaseStamp, now) => FinishKeepsInv(p, id, doneStamp, releaseStamp, now);
    case Abandon(id, now) =>
      if id in p.jobs {
        SetJobKeepsInv(p, id, p.jobs[id].(abandonedAt := Some(now)), now);
      } else {
        GateKeepsInv(p, p.gate, p.closed, now);
      }
    case TakeSnapshot(now) => SnapshotKeepsInv(p, now);
    case CheckRequest(isPrivate, now) => GateKeepsInv(p, Ask(p.gate, isPrivate, now).0, p.closed, now);
    case GateCommand(call) => GateKeepsInv(p, Gate.Apply(p.gate, call).0, p.closed, call.now);
    case Shutdown(now) => GateKeepsInv(p, CloseGate(p.gate, "shutdown", now), true, now);
  }

  // ----- whole runs -----

  // Event number i was enabled, and led from one state to the next.
  predicate LinkedAt(states: seq<PoolState>, events: seq<Event>, i: nat)
    requires i < |events| < |states|
  {
    Enabled(states[i], events[i]) && states[i + 1] == Next(states[i], events[i])
  }

  // A run of one generation's pool: its states and the events between them.
  ghost predicate Run(generation: nat, states: seq<PoolState>, events: seq<Event>) {
    && |states| == |events| + 1
    && states[0] == Fresh(generation)
    && forall i: nat :: i < |events| ==> LinkedAt(states, events, i)
  }

  lemma {:induction false} AlwaysInv(generation: nat, states: seq<PoolState>, events: seq<Event>, n: nat)
    requires Run(generation, states, events) && n < |states|
    ensures Inv(states[n])
  {
    if n == 0 {
      FreshInv(generation);
    } else {
      AlwaysInv(generation, states, events, n - 1);
      assert LinkedAt(states, events, n - 1);
      StepKeepsInv(states[n - 1], events[n - 1]);
    }
  }

  // Slot conservation: in every interleaving the books balance whenever the
  // lock is free, at most four functions are queued or running, and every
  // admission id is either live or released.
  lemma AlwaysReconciled(generation: nat, states: seq<PoolState>, events: seq<Event>, n: nat)
    requires Run(generation, states, events) && n < |states|
    ensures Reconciled(states[n])
    ensures |states[n].jobs| <= WORKERS && states[n].books.maxActive <= WORKERS
    ensures |states[n].log.released| == states[n].books.completed
    ensures forall id :: 1 <= id <= states[n].books.nextId ==>
              (id in states[n].jobs.Keys <==> id !in states[n].log.released)
  {
    AlwaysInv(generation, states, events, n);
  }

  lemma NoMismatchStep(p: PoolState, e: Event)
    requires Inv(p) && Enabled(p, e) && (e.TakeSnapshot? || e.Finish?)
    ensures Next(p, e).gate == Ask(p.gate, false, e.now).0
  {
    match e
    case Finish(id, doneStamp, releaseStamp, now) => FinishKeepsInv(p, id, doneStamp, releaseStamp, now);
    case TakeSnapshot(now) => SnapshotKeepsInv(p, now);
  }

  // So neither a snapshot nor a finishing job ever closes the gate with
  // "accounting_mismatch": they change it at most as a lapsed lease does.
  lemma NeverAccountingMismatch(generation: nat, states: seq<PoolState>, events: seq<Event>, i: nat)
    requires Run(generation, states, events) && i < |events|
    requires events[i].TakeSnapshot? || events[i].Finish?
    ensures states[i + 1].gate == Ask(states[i].gate, false, events[i].now).0
  {
    AlwaysInv(generation, states, events, i);
    assert LinkedAt(states, events, i);
    NoMismatchStep(states[i], events[i]);
  }

  // A slot is given back only by the completion callback of a future that is
  // done, or by a submission that never produced a future. In particular a
  // timeout or a cancelled awaiter gives nothing back.
  lemma NoEarlyRelease(p: PoolState, e: Event)
    requires Inv(p) && Enabled(p, e)
    ensures Next(p, e).books.permits > p.books.permits ==> e.Finish? && p.jobs[e.id].futureDone
    ensures forall id :: id in p.jobs && id !in Next(p, e).jobs ==>
              e.Finish? && e.id == id && p.jobs[id].futureDone
    ensures forall id :: id in Next(p, e).log.released && id !in p.log.released ==>
              || (e.Finish? && e.id == id && p.jobs[id].futureDone)
              || (e.Admit? && !e.submitOk && id !in p.jobs)
    ensures e.Abandon? ==> Next(p, e).books == p.books && Next(p, e).jobs.Keys == p.jobs.Keys
  {
    match e
    case Finish(id, doneStamp, releaseStamp, now) => FinishKeepsInv(p, id, doneStamp, releaseStamp, now);
    case Admit(isPrivate, authentic, submitOk, now, stamp) =>
      assert p.books.nextId + 1 !in p.jobs.Keys;
    case _ =>
  }

  // Each admission id is released at most once in a whole run.
  lemma ReleasedOnce(generation: nat, states: seq<PoolState>, events: seq<Event>, n: nat, i: nat, j: nat)
    requires Run(generation, states, events) && n < |states|
    requires i < j < |states[n].log.released|
    ensures states[n].log.released[i] != states[n].log.released[j]
  {
    AlwaysInv(generation, states, events, n);
  }

  // The lifecycle of every finished job that ran: admitted, started, callable
  // finished, context reset, future done, slot released, in that order.
  lemma LifecycleOrder(generation: nat, states: seq<PoolState>, events: seq<Event>, n: nat, i: nat)
    requires Run(generation, states, events) && n < |states|
    requires i < |states[n].log.finished|
    ensures var f := states[n].log.finished[i];
            && (f.job.startedAt.Some? <==> !f.job.refused)
            && (f.job.startedAt.Some? ==>
                  && f.job.contextResetAt.Some?
                  && f.job.admittedAt <= f.job.startedAt.value <= f.job.contextResetAt.value
                  <= f.futureDoneAt <= f.releasedAt)
            && (f.job.callableFinishedAt.Some? ==>
                  && f.job.startedAt.Some?
                  && f.job.startedAt.value <= f.job.callableFinishedAt.value <= f.job.contextResetAt.value)
            && (f.job.refused ==>
                  f.job.callableFinishedAt.None? && f.job.admittedAt <= f.futureDoneAt <= f.releasedAt)
  {
    AlwaysInv(generation, states, events, n);
    assert Concluded(states[n].log.finished[i]);
  }

  // ----- exactly what each event does -----

  // The gate lets this caller in now.
  predicate Permitted(p: PoolState, isPrivate: bool, now: int) {
    Gate.Apply(p.gate, Gate.Call(Gate.Permits(isPrivate), now)).1
  }

  // A function gets a slot exactly if its scope is valid, the pool is not
  // closed, the gate permits it, fewer than four hold a slot and it can be
  // submitted. It then has the next id, and has done nothing yet. Nothing else
  // in the table changes, and without an admission no slot is kept.
  lemma AdmissionExactly(p: PoolState, e: Event)
    requires Inv(p) && Enabled(p, e) && e.Admit?
    ensures Next(p, e).jobs ==
              if e.authentic && !p.closed && Permitted(p, e.isPrivate, e.now) && |p.jobs| < 4 && e.submitOk
              then p.jobs[p.books.nextId + 1 := Job(e.isPrivate, true, e.stamp, None, None, None, None, false, false)]
              else p.jobs
    ensures Next(p, e).closed == p.closed && Next(p, e).log.finished == p.log.finished
  {
    assert p.books.nextId + 1 !in p.jobs.Keys;
    assert p.jobs - {p.books.nextId + 1} == p.jobs;
    assert 0 < p.books.slots <==> |p.jobs| < 4;
  }

  // What the caller is told: a bad scope is Invalid; Busy is said exactly if the
  // pool is closed, the gate refuses, or four hold a slot; and any other
  // answer names the next id, which only a failed submission gives up again.
  lemma AnswerExactly(p: PoolState, isPrivate: bool, authentic: bool, submitOk: bool, now: int, stamp: int)
    requires Inv(p)
    ensures var a := AdmitStep(p, isPrivate, authentic, submitOk, now, stamp).1;
            && (a.Invalid? <==> !authentic)
            && (authentic ==> (a.Busy? <==> p.closed || |p.jobs| == 4 || !Permitted(p, isPrivate, now)))
            && (a.Admitted? ==> submitOk && a.id == p.books.nextId + 1)
            && (a.SubmitFailed? ==> !submitOk && a.id == p.books.nextId + 1)
  {
    assert 0 < p.books.slots <==> |p.jobs| < 4;
  }

  // A queued job starts exactly if its scope is valid and the gate still
  // permits it; if not, it is refused. Nothing else in the table changes.
  lemma StartExactly(p: PoolState, e: Event)
    requires Inv(p) && Enabled(p, e) && e.Start?
    ensures var begins := e.authentic && Permitted(p, p.jobs[e.id].isPrivate, e.now);
            Next(p, e).jobs == p.jobs[e.id := if begins then p.jobs[e.id].(startedAt := Some(e.stamp))
                                              else p.jobs[e.id].(refused := true)]
    ensures Next(p, e).books == p.books && Next(p, e).log == p.log && Next(p, e).closed == p.closed
  {
    StartKeepsInv(p, e.id, e.authentic, e.now, e.stamp);
  }

  // A done future gives its slot back at once, leaves the table and is kept
  // among the finished, with its stamps.
  lemma FinishExactly(p: PoolState, e: Event)
    requires Inv(p) && Enabled(p, e) && e.Finish?
    ensures Next(p, e).jobs == p.jobs - {e.id}
    ensures Next(p, e).books.permits == p.books.permits + 1 && Next(p, e).books.completed == p.books.completed + 1
    ensures Next(p, e).log.finished
         == p.log.finished + [Finished(e.id, p.jobs[e.id], e.doneStamp, e.releaseStamp)]
    ensures Next(p, e).log.released == p.log.released + [e.id] && Next(p, e).closed == p.closed
  {
    FinishKeepsInv(p, e.id, e.doneStamp, e.releaseStamp, e.now);
  }

  // A stamp of a job's life is written to that job alone; nothing else moves
  // the table, and only a shutdown closes the pool.
  lemma OthersExactly(p: PoolState, e: Event)
    requires Inv(p) && Enabled(p, e) && !e.Admit? && !e.Start? && !e.Finish?
    ensures Next(p, e).books == p.books && Next(p, e).log == p.log
    ensures Next(p, e).closed == (p.closed || e.Shutdown?)
    ensures Next(p, e).jobs ==
              match e
              case CallableFinished(id, now) => p.jobs[id := p.jobs[id].(callableFinishedAt := Some(now))]
              case ContextReset(id, now) => p.jobs[id := p.jobs[id].(contextResetAt := Some(now))]
              case FutureDone(id, _) => p.jobs[id := p.jobs[id].(futureDone := true)]
              case Abandon(id, now) =>
                if id in p.jobs then p.jobs[id := p.jobs[id].(abandonedAt := Some(now))] else p.jobs
              case _ => p.jobs
  {
    if e.TakeSnapshot? {
      SnapshotKeepsInv(p, e.now);
    }
  }

  // After a shutdown the pool admits nothing any more.
  lemma {:induction false} ShutdownIsFinal(generation: nat, states: seq<PoolState>, events: seq<Event>, i: nat, j: nat)
    requires Run(generation, states, events) && i < j < |events| && events[i].Shutdown?
    ensures states[j].closed && states[j + 1].jobs.Keys <= states[j].jobs.Keys
  {
    AlwaysInv(generation, states, events, j);
    assert LinkedAt(states, events, j);
    ClosedStep(generation, states, events, j - 1);
    if i < j - 1 {
      ShutdownIsFinal(generation, states, events, i, j - 1);
    }
    OnlyAdmissionAdds(states[j], events[j]);
    if events[j].Admit? {
      AdmissionExactly(states[j], events[j]);
    }
  }

  lemma ClosedStep(generation: nat, states: seq<PoolState>, events: seq<Event>, i: nat)
    requires Run(generation, states, events) && i < |events|
    ensures states[i + 1].closed == (states[i].closed || events[i].Shutdown?)
  {
    AlwaysInv(generation, states, events, i);
    assert LinkedAt(states, events, i);
    match events[i]
    case Admit(_, _, _, _, _) => AdmissionExactly(states[i], events[i]);
    case Start(_, _, _, _) => StartExactly(states[i], events[i]);
    case Finish(_, _, _, _) => FinishExactly(states[i], events[i]);
    case _ => OthersExactly(states[i], events[i]);
  }

  // ----- leases at the checks -----

  predicate PassesAPublicCheck(p: PoolState, e: Event)
    requires Enabled(p, e)
  {
    match e
    case CheckRequest(isPrivate, now) => !isPrivate && Ask(p.gate, false, now).1
    case Admit(isPrivate, authentic, submitOk, now, stamp) =>
      var r := AdmitStep(p, isPrivate, authentic, submitOk, now, stamp).1;
      !isPrivate && (r.Admitted? || r.SubmitFailed?)
    case Start(id, authentic, now, stamp) => !p.jobs[id].isPrivate && StartStep(p, id, authentic, now, stamp).1
    case _ => false
  }

  // Admission and start are both fenced: a public job that was admitted under
  // a live lease still does not start once that lease has run out.
  lemma PublicChecksAreFenced(p: PoolState, e: Event)
    requires Enabled(p, e) && PassesAPublicCheck(p, e)
    ensures p.gate.door.Open? && e.now < p.gate.leaseUntil
  {
  }

  // ----- snapshots -----

  datatype JobReport = JobReport(admittedAt: int, abandonedAt: Option<int>)

  datatype Snapshot = Snapshot(
    heartbeat: int,      // read before the snapshot is taken
    gateOpen: bool,
    leaseUntil: int,
    jobs: map<nat, JobReport>)

  function Report(p: PoolState, heartbeat: int): Snapshot {
    Snapshot(heartbeat, p.gate.door.Open?, p.gate.leaseUntil,
             map id | id in p.jobs :: JobReport(p.jobs[id].admittedAt, p.jobs[id].abandonedAt))
  }

  // One snapshot may follow another of the same pool: a job in the later one
  // was already in the earlier one, or was admitted after all of its jobs.
  ghost predicate MayFollow(earlier: Snapshot, later: Snapshot) {
    forall id :: id in later.jobs ==>
      || (id in earlier.jobs && earlier.jobs[id].admittedAt == later.jobs[id].admittedAt)
      || (forall prior :: prior in earlier.jobs ==> earlier.jobs[prior].admittedAt <= later.jobs[id].admittedAt)
  }

  // The snapshots come from one pool: each may follow every earlier one.
  ghost predicate FromOnePool(beats: seq<Snapshot>) {
    forall i, j :: 0 <= i <= j < |beats| ==> MayFollow(beats[i], beats[j])
  }

  // Between any two moments of a run: admission times are never rewritten,
  // and a job that is new was admitted no earlier than the first moment.
  ghost predicate Grown(p: PoolState, q: PoolState) {
    && p.clock <= q.clock
    && p.books.nextId <= q.books.nextId
    && JobsGrown(p, q)
    && LogGrown(p, q)
  }

  ghost predicate JobsGrown(p: PoolState, q: PoolState) {
    forall id :: id in q.jobs ==>
      if id in p.jobs then q.jobs[id].admittedAt == p.jobs[id].admittedAt
      else p.clock <= q.jobs[id].admittedAt && p.books.nextId < id
  }

  ghost predicate LogGrown(p: PoolState, q: PoolState) {
    && |p.log.finished| <= |q.log.finished|
    && (forall i :: 0 <= i < |p.log.finished| ==> q.log.finished[i] == p.log.finished[i])
    && (forall i :: |p.log.finished| <= i < |q.log.finished| ==> FinishedLater(p, q.log.finished[i]))
  }

  ghost predicate FinishedLater(p: PoolState, f: Finished) {
    && p.clock <= f.releasedAt
    && (if f.id in p.jobs then f.job.admittedAt == p.jobs[f.id].admittedAt else p.books.nextId < f.id)
  }

  lemma GrownStep(p: PoolState, e: Event)
    requires Inv(p) && Enabled(p, e)
    ensures Grown(p, Next(p, e))
  {
    match e
    case Finish(id, doneStamp, releaseStamp, now) => GrownFinish(p, id, doneStamp, releaseStamp, now);
    case Admit(isPrivate, authentic, submitOk, now, stamp) =>
    case _ =>
  }

  // A job that was not there before has just been admitted.
  lemma OnlyAdmissionAdds(p: PoolState, e: Event)
    requires Inv(p) && Enabled(p, e)
    ensures forall id :: id in Next(p, e).jobs && id !in p.jobs ==>
              e == Admit(Next(p, e).jobs[id].isPrivate, true, true, e.now, Next(p, e).jobs[id].admittedAt)
  {
    match e
    case Finish(id, doneStamp, releaseStamp, now) => FinishKeepsInv(p, id, doneStamp, releaseStamp, now);
    case _ =>
  }

  lemma GrownFinish(p: PoolState, id: nat, doneStamp: int, releaseStamp: int, now: int)
    requires Inv(p) && id in p.jobs && p.jobs[id].futureDone
    requires p.clock <= doneStamp <= releaseStamp <= now
    ensures Grown(p, FinishStep(p, id, doneStamp, releaseStamp, now))
  {
    FinishKeepsInv(p, id, doneStamp, releaseStamp, now);
  }

  ghost predicate IdsBelow(p: PoolState) {
    forall id :: id in p.jobs ==> id <= p.books.nextId
  }

  lemma InvImpliesIdsBelow(p: PoolState)
    requires Inv(p)
    ensures IdsBelow(p)
  {
    assert forall id :: id in p.jobs.Keys ==> id <= p.books.nextId;
  }

  lemma GrownTransitive(p: PoolState, q: PoolState, r: PoolState)
    requires IdsBelow(p) && Grown(p, q) && Grown(q, r)
    ensures Grown(p, r)
  {
    forall i | |p.log.finished| <= i < |r.log.finished|
      ensures FinishedLater(p, r.log.finished[i])
    {
      if i < |q.log.finished| {
        assert FinishedLater(p, q.log.finished[i]);
      } else {
        assert FinishedLater(q, r.log.finished[i]);
      }
    }
  }

  lemma GrownReflexive(p: PoolState)
    ensures Grown(p, p)
  {
  }

  lemma ClockFollows(p: PoolState, e: Event)
    requires Inv(p) && Enabled(p, e)
    ensures Next(p, e).clock == LastReading(e)
  {
    match e
    case Finish(id, doneStamp, releaseStamp, now) => FinishKeepsInv(p, id, doneStamp, releaseStamp, now);
    case TakeSnapshot(now) => SnapshotKeepsInv(p, now);
    case _ =>
  }

  lemma GrownInOneStep(generation: nat, states: seq<PoolState>, events: seq<Event>, i: nat)
    requires Run(generation, states, events) && i < |events|
    ensures Grown(states[i], states[i + 1])
  {
    AlwaysInv(generation, states, events, i);
    assert LinkedAt(states, events, i);
    GrownStep(states[i], events[i]);
  }

  lemma {:induction false} GrownOverRun(generation: nat, states: seq<PoolState>, events: seq<Event>, i: nat, j: nat)
    requires Run(generation, states, events) && i <= j < |states|
    ensures Grown(states[i], states[j])
  {
    if i == j {
      GrownReflexive(states[i]);
    } else {
      GrownOverRun(generation, states, events, i, j - 1);
      GrownInOneStep(generation, states, events, j - 1);
      AlwaysIdsBelow(generation, states, events, i);
      GrownTransitive(states[i], states[j - 1], states[j]);
    }
  }

  lemma AlwaysIdsBelow(generation: nat, states: seq<PoolState>, events: seq<Event>, i: nat)
    requires Run(generation, states, events) && i < |states|
    ensures IdsBelow(states[i])
  {
    AlwaysInv(generation, states, events, i);
    InvImpliesIdsBelow(states[i]);
  }

  lemma GrownReportsFollow(p: PoolState, q: PoolState, h: int, k: int)
    requires JobsInOrder(p.jobs, p.clock) && Grown(p, q)
    ensures MayFollow(Report(p, h), Report(q, k))
  {
    assert forall id :: id in p.jobs ==> InOrder(p.jobs[id], p.clock);
  }

  // What makes detection by age sound: across any two snapshots of one pool
  // the oldest admission time never goes back.
  lemma SnapshotsFollow(generation: nat, states: seq<PoolState>, events: seq<Event>, i: nat, j: nat, h: int, k: int)
    requires Run(generation, states, events) && i <= j < |states|
    ensures MayFollow(Report(states[i], h), Report(states[j], k))
  {
    GrownOverRun(generation, states, events, i, j);
    AlwaysInv(generation, states, events, i);
    GrownReportsFollow(states[i], states[j], h, k);
  }

  // A job that a snapshot shows keeps its slot until after that snapshot: its
  // release, if it ever comes, is stamped no earlier.
  lemma ShownJobReleasedLater(p: PoolState, q: PoolState, heartbeat: int, i: nat)
    requires Inv(p) && Grown(p, q) && heartbeat <= p.clock
    requires i < |q.log.finished| && q.log.finished[i].id in Report(p, heartbeat).jobs
    ensures heartbeat <= q.log.finished[i].releasedAt
    ensures q.log.finished[i].job.admittedAt == Report(p, heartbeat).jobs[q.log.finished[i].id].admittedAt
  {
    assert forall k :: 0 <= k < |p.log.finished| ==>
        p.log.finished[k].id in p.log.released && p.log.finished[k].id !in p.jobs.Keys;
    assert FinishedLater(p, q.log.finished[i]);
  }

  // ----- the gate inside the pool -----

  // The gate calls an event makes.
  function GateCalls(p: PoolState, e: Event): seq<Gate.Call> {
    match e
    case Admit(isPrivate, authentic, _, now, _) =>
      if authentic && !p.closed then [Gate.Call(Gate.Permits(isPrivate), now)] else []
    case Start(id, _, now, _) => [Gate.Call(Gate.Permits(id in p.jobs && p.jobs[id].isPrivate), now)]
    case Finish(_, _, _, now) => [Gate.Call(Gate.Permits(false), now)]
    case TakeSnapshot(now) => [Gate.Call(Gate.Permits(false), now)]
    case CheckRequest(isPrivate, now) => [Gate.Call(Gate.Permits(isPrivate), now)]
    case GateCommand(call) => [call]
    case Shutdown(now) => [Gate.Call(Gate.Close("shutdown"), now)]
    case _ => []
  }

  function GateBatches(states: seq<PoolState>, events: seq<Event>): seq<seq<Gate.Call>>
    requires |events| < |states|
  {
    seq(|events|, i requires 0 <= i < |events| => GateCalls(states[i], events[i]))
  }

  // All the gate calls of the first n events, in order.
  function GateTrace(states: seq<PoolState>, events: seq<Event>, n: nat): seq<Gate.Call>
    requires n <= |events| < |states|
  {
    Gate.Joined(GateBatches(states, events)[..n])
  }

  lemma GateCallsStep(p: PoolState, e: Event)
    requires Inv(p) && Enabled(p, e)
    ensures GateCalls(p, e) == [] ==> Next(p, e).gate == p.gate
    ensures GateCalls(p, e) != [] ==>
              |GateCalls(p, e)| == 1 && Next(p, e).gate == Gate.Apply(p.gate, GateCalls(p, e)[0]).0
  {
    if e.TakeSnapshot? || e.Finish? {
      NoMismatchStep(p, e);
    }
  }

  lemma GateCallsInRun(generation: nat, states: seq<PoolState>, events: seq<Event>, i: nat)
    requires Run(generation, states, events) && i < |events|
    ensures states[i + 1].gate == Gate.After(states[i].gate, GateCalls(states[i], events[i]))
  {
    AlwaysInv(generation, states, events, i);
    assert LinkedAt(states, events, i);
    GateCallsStep(states[i], events[i]);
    var calls := GateCalls(states[i], events[i]);
    assert calls == [] || calls[..|calls| - 1] == [];
  }

  // A pool run drives its gate through an ordinary run of gate calls, so every
  // theorem about gate runs holds of the gate inside any interleaving.
  lemma GateRefinement(generation: nat, states: seq<PoolState>, events: seq<Event>, n: nat)
    requires Run(generation, states, events) && n < |states|
    ensures states[n].gate == Gate.After(Gate.Fresh(generation), GateTrace(states, events, n))
  {
    var gates := seq(|states|, i requires 0 <= i < |states| => states[i].gate);
    var batches := GateBatches(states, events);
    forall i: nat | i < |batches|
      ensures gates[i + 1] == Gate.After(gates[i], batches[i])
    {
      GateCallsInRun(generation, states, events, i);
    }
    Gate.BatchesRun(gates, batches, n);
  }

  // A public check passes only inside a lease that this generation's own
  // control loop was handed earlier in the run.
  lemma PublicCheckNeedsALease(generation: nat, states: seq<PoolState>, events: seq<Event>, i: nat)
    returns (granted: nat)
    requires Run(generation, states, events) && i < |events|
    requires LinkedAt(states, events, i) && PassesAPublicCheck(states[i], events[i])
    ensures granted < |GateTrace(states, events, i)|
    ensures Gate.TookLease(Gate.Fresh(generation), GateTrace(states, events, i), granted)
    ensures var grant := GateTrace(states, events, i)[granted];
            events[i].now < grant.op.leaseUntil <= grant.now + LEASE_SLACK
  {
    var calls := GateTrace(states, events, i);
    GateRefinement(generation, states, events, i);
    PublicChecksAreFenced(states[i], events[i]);
    Gate.OpenedOnceIfOpen(generation, calls);
    granted := Gate.LeaseProvenance(generation, calls);
  }

  // Only an accepted command of the control loop moves the lease.
  lemma LeaseOnlyByCommand(p: PoolState, e: Event)
    requires Enabled(p, e)
    ensures Next(p, e).gate.leaseUntil != p.gate.leaseUntil ==>
              && e.GateCommand? && (e.call.op.Renew? || e.call.op.OpenDoor?)
              && e.call.op.leaseUntil == Next(p, e).gate.leaseUntil
  {
    match e
    case Admit(_, _, _, _, _) =>
    case Finish(_, _, _, _) =>
    case _ =>
  }

  // ----- the pool as the program has it -----

  datatype Reservation = TimedOut | Answer(a: Admission)

  class BoundedPool {
    const gate: Gate.AdmissionGate
    var permits: int
    var slots: int
    var jobs: map<nat, Job>
    var history: seq<Finished>
    var submitted: int
    var completed: int
    var maxActive: int
    var nextId: nat
    var closed: bool
    ghost var finished: seq<Finished>
    ghost var released: seq<nat>
    ghost var clock: int

    ghost function Counters(): Books
      reads this
    {
      Books(permits, slots, submitted, completed, maxActive, nextId)
    }

    ghost function Value(): PoolState
      reads this, gate
    {
      PoolState(gate.Value(), closed, Counters(), jobs, Log(history, finished, released), clock)
    }

    ghost predicate Valid()
      reads this, gate
    {
      Inv(Value())
    }

    constructor (generation: nat)
      ensures fresh(gate)
      ensures Value() == Fresh(generation) && Valid()
    {
      gate := new Gate.AdmissionGate(generation);
      permits, slots, jobs, history := WORKERS, WORKERS, map[], [];
      submitted, completed, maxActive, nextId, closed := 0, 0, 0, 0, false;
      finished, released, clock := [], [], 0;
      new;
      FreshInv(generation);
    }

    method TakeSlot()
      modifies this`slots, this`permits, this`submitted, this`nextId, this`maxActive
      ensures Counters() == Taken(old(Counters()), |jobs|)
    {
      slots := slots - 1;
      permits := permits - 1;
      submitted := submitted + 1;
      nextId := nextId + 1;
      maxActive := Max(maxActive, |jobs| + 1);
    }

    method ReturnSlot()
      modifies this`slots, this`permits, this`completed
      ensures Counters() == GivenBack(old(Counters()))
    {
      completed := completed + 1;
      permits := permits + 1;
      slots := slots + 1;
    }

    // Take a slot and submit. A submission that fails takes the job out again
    // and gives its slot back.
    method Submit(isPrivate: bool, submitOk: bool, stamp: int) returns (r: Admission)
      requires clock == stamp
      modifies this
      ensures submitOk ==> r == Admitted(nextId) && Value() == Reserved(old(Value()), isPrivate, stamp)
      ensures !submitOk ==> r == SubmitFailed(nextId) && Value() == Withdrawn(old(Value()), stamp)
    {
      TakeSlot();
      var job := NewJob(isPrivate, stamp);
      jobs := jobs[nextId := job];
      if submitOk {
        jobs := jobs[nextId := job.(hasFuture := true)];
        assert jobs == old(jobs)[nextId := job.(hasFuture := true)];
        return Admitted(nextId);
      } else {
        TakeBack(nextId);
        assert jobs == old(jobs) - {nextId};
        return SubmitFailed(nextId);
      }
    }

    // The job is gone, and its slot is free again.
    method TakeBack(id: nat)
      modifies this`slots, this`permits, this`completed, this`jobs, this`released
      ensures Counters() == GivenBack(old(Counters()))
      ensures jobs == old(jobs) - {id} && released == old(released) + [id]
    {
      jobs := jobs - {id};
      ReturnSlot();
      released := released + [id];
    }

    // The locked part of `run`, for a positive timeout.
    method Reserve(isPrivate: bool, authentic: bool, submitOk: bool, now: int, stamp: int) returns (r: Admission)
      modifies this, gate
      ensures (Value(), r) == AdmitStep(old(Value()), isPrivate, authentic, submitOk, now, stamp)
    {
      clock := stamp;
      if !authentic {
        return Invalid;
      }
      if closed {
        return Busy;
      }
      var permitted := gate.CheckPermits(isPrivate, now);
      assert (gate.Value(), permitted) == Ask(old(gate.Value()), isPrivate, now);
      if !permitted || slots <= 0 {
        return Busy;
      }
      r := Submit(isPrivate, submitOk, stamp);
    }

    // `run` up to the await: a timeout that is not positive takes nothing.
    method Run(isPrivate: bool, timeout: int, authentic: bool, submitOk: bool, now: int, stamp: int)
      returns (r: Reservation)
      requires Valid() && clock <= now <= stamp
      modifies this, gate
      ensures Valid()
      ensures timeout <= 0 ==> r == TimedOut && Value() == old(Value())
      ensures timeout > 0 ==>
                && Value() == AdmitStep(old(Value()), isPrivate, authentic, submitOk, now, stamp).0
                && r == Answer(AdmitStep(old(Value()), isPrivate, authentic, submitOk, now, stamp).1)
      ensures timeout > 0 ==> r.Answer?
      ensures r.Answer? ==>
                && (r.a.Invalid? <==> !authentic)
                && (authentic ==> (r.a.Busy? <==> || old(closed) || |old(jobs)| == 4
                                                  || !old(Permitted(Value(), isPrivate, now))))
                && (r.a.Admitted? ==> submitOk && r.a.id == old(nextId) + 1)
                && (r.a.SubmitFailed? ==> !submitOk && r.a.id == old(nextId) + 1)
    {
      if timeout <= 0 {
        return TimedOut;
      }
      AdmitKeepsInv(Value(), isPrivate, authentic, submitOk, now, stamp);
      AnswerExactly(Value(), isPrivate, authentic, submitOk, now, stamp);
      var a := Reserve(isPrivate, authentic, submitOk, now, stamp);
      return Answer(a);
    }

    // The locked part of `invoke`; false is the BusyError or the invalid scope.
    method Begin(id: nat, authentic: bool, now: int, stamp: int) returns (ok: bool)
      requires Valid() && clock <= now <= stamp
      requires id in jobs && jobs[id].startedAt.None? && !jobs[id].refused
      modifies this, gate
      ensures Valid() && (Value(), ok) == StartStep(old(Value()), id, authentic, now, stamp)
    {
      StartKeepsInv(Value(), id, authentic, now, stamp);
      clock := stamp;
      var job := jobs[id];
      var permitted := gate.CheckPermits(job.isPrivate, now);
      ok := permitted && authentic;
      jobs := jobs[id := if ok then job.(startedAt := Some(stamp)) else job.(refused := true)];
    }

    method StampCallable(id: nat, now: int)
      requires Valid() && Enabled(Value(), CallableFinished(id, now))
      modifies this
      ensures Valid() && Value() == Next(old(Value()), CallableFinished(id, now))
    {
      StepKeepsInv(Value(), CallableFinished(id, now));
      clock := now;
      jobs := jobs[id := jobs[id].(callableFinishedAt := Some(now))];
    }

    method StampContext(id: nat, now: int)
      requires Valid() && Enabled(Value(), ContextReset(id, now))
      modifies this
      ensures Valid() && Value() == Next(old(Value()), ContextReset(id, now))
    {
      StepKeepsInv(Value(), ContextReset(id, now));
      clock := now;
      jobs := jobs[id := jobs[id].(contextResetAt := Some(now))];
    }

    // The timeout and cancellation handlers of `run`.
    method MarkAbandoned(id: nat, now: int)
      requires Valid() && Enabled(Value(), Abandon(id, now))
      modifies this
      ensures Valid() && Value() == Next(old(Value()), Abandon(id, now))
    {
      StepKeepsInv(Value(), Abandon(id, now));
      clock := now;
      if id in jobs {
        jobs := jobs[id := jobs[id].(abandonedAt := Some(now))];
      }
    }

    method IsReconciled() returns (ok: bool)
      ensures ok == Reconciled(Value())
    {
      return permits == slots && permits + |jobs| == WORKERS && submitted - completed == |jobs|
             && forall id :: id in jobs ==> jobs[id].hasFuture;
    }

    // `snapshot`: look at the lease, check the books, report the live jobs.
    method CurrentSnapshot(now: int) returns (s: Snapshot)
      modifies this`clock, gate
      ensures Value() == SnapshotStep(old(Value()), now)
      ensures s == Report(Value(), now)
      ensures s.heartbeat == now && s.gateOpen == gate.door.Open? && s.leaseUntil == gate.leaseUntil
      ensures s.jobs.Keys == jobs.Keys
      ensures forall id :: id in jobs ==>
                s.jobs[id].admittedAt == jobs[id].admittedAt && s.jobs[id].abandonedAt == jobs[id].abandonedAt
    {
      clock := now;
      var open := gate.CheckPermits(false, now);
      var reconciled := IsReconciled();
      if !reconciled {
        gate.CloseDoor("accounting_mismatch", now);
      }
      s := Snapshot(now, gate.door.Open?, gate.leaseUntil,
             map id | id in jobs :: JobReport(jobs[id].admittedAt, jobs[id].abandonedAt));
    }

    // `_finish`: the completion callback of the job's future.
    method Release(id: nat, doneStamp: int, releaseStamp: int, now: int)
      requires Valid() && id in jobs && jobs[id].futureDone
      requires clock <= doneStamp <= releaseStamp <= now
      modifies this, gate
      ensures Valid() && Value() == FinishStep(old(Value()), id, doneStamp, releaseStamp, now)
      ensures slots <= WORKERS  // the bounded semaphore is never over-released
    {
      FinishKeepsInv(Value(), id, doneStamp, releaseStamp, now);
      Conclude(id, doneStamp, releaseStamp, now);
    }

    method Conclude(id: nat, doneStamp: int, releaseStamp: int, now: int)
      requires id in jobs
      modifies this, gate
      ensures Value() == FinishStep(old(Value()), id, doneStamp, releaseStamp, now)
    {
      var job := jobs[id];
      if !job.futureDone {
        gate.CloseDoor("accounting_mismatch", doneStamp);
        clock := now;
        return;
      }
      TakeBack(id);
      var record := Finished(id, job, doneStamp, releaseStamp);
      history := Bounded(history + [record]);
      finished := finished + [record];
      clock := releaseStamp;
      var view := CurrentSnapshot(now);
    }

    method Stop(now: int)
      requires Valid() && clock <= now
      modifies this, gate
      ensures Valid() && Value() == Next(old(Value()), Shutdown(now))
    {
      StepKeepsInv(Value(), Shutdown(now));
      clock := now;
      closed := true;
      gate.CloseDoor("shutdown", now);
    }
  }
}
