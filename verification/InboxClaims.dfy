// Claiming an event exactly once, by any number of workers that share one
// inbox, each following the notification handler.
//
// The handler claims the event and then works inside a `try`: it completes the
// event, or fails it if its audience is too large. Any exception in there,
// also one from those two writes, leads to its `except`, which fails the event
// once more and gives up. A write may take effect although its answer is lost;
// reads may be stale; a worker may die at any moment.

module Claims {
  import opened Inbox

  // Where a worker stands with one event.
  datatype Worker =
    | Idle
    | Refused(e: Event)               // the put was refused; read next
    | Hopeful(e: Event)               // the record read as FAILED; reclaim next
    | Holding(e: Event)               // inside the `try`
    | Failing(e: Event, ended: bool)  // in the `except`; did a write of its own end the claim before?
    | Lost(e: Event)                  // the claim was made, but its worker is gone

  datatype Deed = Claimed(key: Key) | MarkedFailed(key: Key) | MarkedCompleted(key: Key)

  // `versions` are all states the table ever had; a stale read sees one of them.
  datatype World = World(table: Table, versions: seq<Table>, workers: map<nat, Worker>, log: seq<Deed>)

  // `lands`: the write takes effect. `learns`: its answer arrives.
  datatype Step =
    | TryPut(worker: nat, e: Event, now: string, learns: bool)
    | Look(worker: nat, version: nat)
    | TryReclaim(worker: nat, now: string, learns: bool)
    | Complete(worker: nat, now: string, campaign: string, lands: bool, learns: bool)
    | FailEarly(worker: nat, now: string, error: string, campaign: string, lands: bool, learns: bool)
    | FailFinally(worker: nat, now: string, error: string, campaign: string, lands: bool)
    | Trouble(worker: nat)            // an exception inside the `try`, not from an ending write
    | Die(worker: nat)

  const EMPTY := World(map[], [map[]], map[], [])

  function At(s: World, worker: nat): Worker {
    if worker in s.workers then s.workers[worker] else Idle
  }

  predicate Enabled(s: World, step: Step) {
    match step
    case TryPut(w, _, _, _) => At(s, w).Idle?
    case Look(w, version) => At(s, w).Refused? && version < |s.versions|
    case TryReclaim(w, _, _) => At(s, w).Hopeful?
    case Complete(w, _, _, lands, learns) => At(s, w).Holding? && (learns ==> lands)
    case FailEarly(w, _, _, _, lands, learns) => At(s, w).Holding? && (learns ==> lands)
    case FailFinally(w, _, _, _, _) => At(s, w).Failing?
    case Trouble(w) => At(s, w).Holding?
    case Die(_) => true
  }

  function Move(s: World, worker: nat, next: Worker): World {
    s.(workers := s.workers[worker := next])
  }

  // A write took effect.
  function Written(s: World, table: Table, deed: Deed): World {
    s.(table := table, versions := s.versions + [table], log := s.log + [deed])
  }

  function AfterClaim(e: Event, learns: bool): Worker {
    if learns then Holding(e) else Lost(e)
  }

  // After a write inside the `try` that was to end the claim.
  function AfterEnd(e: Event, lands: bool, learns: bool): Worker {
    if learns then Idle else Failing(e, lands)
  }

  // A worker that is gone: a claim that has not ended stays with the record.
  function Gone(w: Worker): Worker {
    if w.Holding? || (w.Failing? && !w.ended) then Lost(w.e) else if w.Lost? then w else Idle
  }

  function Ended(s: World, fields: Item, deed: Deed, lands: bool): World {
    if lands then Written(s, Amend(s.table, deed.key, fields), deed) else s
  }

  function Next(s: World, step: Step): World
    requires Enabled(s, step)
  {
    var w := step.worker;
    match step
    case TryPut(_, e, now, learns) =>
      var (t, ok) := Put(s.table, e, now);
      if ok then Move(Written(s, t, Claimed(KeyOf(e))), w, AfterClaim(e, learns))
      else Move(s, w, if learns then Refused(e) else Idle)
    case Look(_, version) =>
      var e := At(s, w).e;
      Move(s, w, if Upper(Status(s.versions[version], KeyOf(e))) == FAILED then Hopeful(e) else Idle)
    case TryReclaim(_, now, learns) =>
      var e := At(s, w).e;
      var (t, ok) := Reclaim(s.table, e, now);
      if ok then Move(Written(s, t, Claimed(KeyOf(e))), w, AfterClaim(e, learns)) else Move(s, w, Idle)
    case Complete(_, now, campaign, lands, learns) =>
      var e := At(s, w).e;
      Move(Ended(s, CompletedFields(now, campaign), MarkedCompleted(KeyOf(e)), lands), w, AfterEnd(e, lands, learns))
    case FailEarly(_, now, error, campaign, lands, learns) =>
      var e := At(s, w).e;
      Move(Ended(s, FailedFields(now, error, campaign), MarkedFailed(KeyOf(e)), lands), w, AfterEnd(e, lands, learns))
    case FailFinally(_, now, error, campaign, lands) =>
      var e := At(s, w).e;
      Move(Ended(s, FailedFields(now, error, campaign), MarkedFailed(KeyOf(e)), lands), w,
           if lands then Idle else Gone(At(s, w)))
    case Trouble(_) => Move(s, w, Failing(At(s, w).e, false))
    case Die(_) => Move(s, w, Gone(At(s, w)))
  }

  // A write inside the `try` ends the claim, and its worker never learns it.
  predicate LosesAnswer(step: Step) {
    (step.Complete? || step.FailEarly?) && step.lands && !step.learns
  }

  predicate LosesFailure(step: Step) {
    step.FailEarly? && LosesAnswer(step)
  }

  predicate LinkedAt(states: seq<World>, steps: seq<Step>, i: nat)
    requires i < |steps| < |states|
  {
    Enabled(states[i], steps[i]) && states[i + 1] == Next(states[i], steps[i])
  }

  // Steps that lead on from a state.
  ghost predicate Leads(from: World, states: seq<World>, steps: seq<Step>) {
    && |states| == |steps| + 1
    && states[0] == from
    && forall i: nat :: i < |steps| ==> LinkedAt(states, steps, i)
  }

  ghost predicate Run(states: seq<World>, steps: seq<Step>) {
    Leads(EMPTY, states, steps)
  }

  ghost predicate Lossless(steps: seq<Step>) {
    forall i :: 0 <= i < |steps| ==> !LosesAnswer(steps[i])
  }

  ghost predicate FailuresLearned(steps: seq<Step>) {
    forall i :: 0 <= i < |steps| ==> !LosesFailure(steps[i])
  }

  // ----- what every step keeps -----

  // This worker made a claim of the record that no write of its own has ended.
  predicate Claimant(s: World, worker: nat, key: Key) {
    var w := At(s, worker);
    (w.Holding? || w.Lost? || (w.Failing? && !w.ended)) && KeyOf(w.e) == key
  }

  // Its claim has ended, but it is about to fail the record all the same.
  predicate Stray(s: World, worker: nat, key: Key) {
    var w := At(s, worker);
    w.Failing? && w.ended && KeyOf(w.e) == key
  }

  predicate Active(s: World, worker: nat, key: Key) {
    Claimant(s, worker, key) || Stray(s, worker, key)
  }

  function Count(log: seq<Deed>, deed: Deed): nat {
    if log == [] then 0 else Count(log[..|log| - 1], deed) + if log[|log| - 1] == deed then 1 else 0
  }

  lemma CountMore(log: seq<Deed>, next: Deed, deed: Deed)
    ensures Count(log + [next], deed) == Count(log, deed) + if next == deed then 1 else 0
  {
    assert (log + [next])[..|log|] == log;
  }

  function One(b: bool): nat {
    if b then 1 else 0
  }

  predicate Balanced(s: World, key: Key) {
    Count(s.log, Claimed(key)) == Count(s.log, MarkedFailed(key)) + One(Status(s.table, key) in {PROCESSING, COMPLETED})
  }

  predicate CompletedOnce(s: World, key: Key) {
    Count(s.log, MarkedCompleted(key)) == One(Status(s.table, key) == COMPLETED)
  }

  ghost predicate OneActive(s: World, key: Key) {
    forall v, w :: Active(s, v, key) && Active(s, w, key) ==> v == w
  }

  ghost predicate ClaimedNow(s: World, key: Key) {
    exists w :: Claimant(s, w, key)
  }

  ghost predicate NoStray(s: World, key: Key) {
    forall w :: !Stray(s, w, key)
  }

  // As long as no early failure loses its answer.
  ghost predicate RecordInv(s: World, key: Key) {
    && Status(s.table, key) in {"", PROCESSING, COMPLETED, FAILED}
    && (key in s.table ==> Status(s.table, key) != "")
    && Balanced(s, key) && OneActive(s, key)
    && (ClaimedNow(s, key) <==> Status(s.table, key) == PROCESSING)
    && (NoStray(s, key) || Status(s.table, key) == COMPLETED)
  }

  // If no ending write loses its answer, more holds.
  ghost predicate KeyInv(s: World, key: Key, clean: bool) {
    RecordInv(s, key) && (clean ==> NoStray(s, key) && CompletedOnce(s, key))
  }

  ghost predicate LatestSeen(s: World) {
    s.versions != [] && s.versions[|s.versions| - 1] == s.table
  }

  ghost predicate Inv(s: World, clean: bool) {
    LatestSeen(s) && forall key :: KeyInv(s, key, clean)
  }

  // Nothing about this record, its history or its workers has changed.
  ghost predicate Untouched(before: World, after: World, key: Key) {
    && (key in after.table <==> key in before.table)
    && Status(after.table, key) == Status(before.table, key)
    && SameCounts(before.log, after.log, key)
    && (forall w :: Claimant(after, w, key) <==> Claimant(before, w, key))
    && (forall w :: Stray(after, w, key) <==> Stray(before, w, key))
  }

  ghost predicate SameCounts(before: seq<Deed>, after: seq<Deed>, key: Key) {
    && Count(after, Claimed(key)) == Count(before, Claimed(key))
    && Count(after, MarkedFailed(key)) == Count(before, MarkedFailed(key))
    && Count(after, MarkedCompleted(key)) == Count(before, MarkedCompleted(key))
  }

  lemma UntouchedKept(before: World, after: World, key: Key, clean: bool)
    requires KeyInv(before, key, clean) && Untouched(before, after, key)
    ensures KeyInv(after, key, clean)
  {
    assert forall w :: Active(after, w, key) <==> Active(before, w, key);
    if w :| Claimant(before, w, key) {
      assert Claimant(after, w, key);
    }
    if w :| Claimant(after, w, key) {
      assert Claimant(before, w, key);
    }
  }

  lemma OtherDeedsDoNotCount(log: seq<Deed>, deed: Deed, key: Key)
    requires deed.key != key
    ensures SameCounts(log, log + [deed], key)
  {
    CountMore(log, deed, Claimed(key));
    CountMore(log, deed, MarkedFailed(key));
    CountMore(log, deed, MarkedCompleted(key));
  }

  // A worker moves on, with the same relation to the record as before.
  lemma MoveKept(s: World, w: nat, next: Worker, key: Key, clean: bool)
    requires KeyInv(s, key, clean)
    requires Claimant(s, w, key) <==> Claimant(Move(s, w, next), w, key)
    requires Stray(s, w, key) <==> Stray(Move(s, w, next), w, key)
    ensures KeyInv(Move(s, w, next), key, clean)
  {
    UntouchedKept(s, Move(s, w, next), key, clean);
  }

  // A stray worker gives up without another write.
  lemma StrayLeaves(s: World, w: nat, key: Key, clean: bool)
    requires KeyInv(s, key, clean) && Stray(s, w, key)
    ensures KeyInv(Move(s, w, Idle), key, clean)
  {
    var after := Move(s, w, Idle);
    assert !NoStray(s, key);
    assert forall v :: Active(after, v, key) ==> Active(s, v, key);
    assert forall v :: Claimant(after, v, key) ==> Claimant(s, v, key);
  }

  // A write to another record.
  lemma OtherWriteKept(s: World, table: Table, deed: Deed, w: nat, next: Worker, key: Key, clean: bool)
    requires KeyInv(s, key, clean) && deed.key != key
    requires key in table <==> key in s.table
    requires Status(table, key) == Status(s.table, key)
    requires !Active(s, w, key) && !Active(Move(s, w, next), w, key)
    ensures KeyInv(Move(Written(s, table, deed), w, next), key, clean)
  {
    OtherDeedsDoNotCount(s.log, deed, key);
    UntouchedKept(s, Move(Written(s, table, deed), w, next), key, clean);
  }

  // An idle worker takes the record.
  lemma ClaimKept(s: World, table: Table, w: nat, next: Worker, key: Key, clean: bool)
    requires KeyInv(s, key, clean) && Status(s.table, key) in {"", FAILED}
    requires key in table && Status(table, key) == PROCESSING
    requires (next.Holding? || next.Lost?) && KeyOf(next.e) == key
    ensures KeyInv(Move(Written(s, table, Claimed(key)), w, next), key, clean)
  {
    var after := Move(Written(s, table, Claimed(key)), w, next);
    CountMore(s.log, Claimed(key), Claimed(key));
    CountMore(s.log, Claimed(key), MarkedFailed(key));
    CountMore(s.log, Claimed(key), MarkedCompleted(key));
    assert Claimant(after, w, key);
    assert !ClaimedNow(s, key) && NoStray(s, key);
    assert forall v :: v != w ==> (Claimant(after, v, key) <==> Claimant(s, v, key));
    assert forall v :: v != w ==> (Stray(after, v, key) <==> Stray(s, v, key));
    assert forall v :: Active(after, v, key) ==> v == w;
  }

  // The one active worker's write ends the claim, or, if it had ended by
  // completion, fails the record after all.
  lemma EndKept(s: World, table: Table, deed: Deed, w: nat, next: Worker, key: Key, clean: bool)
    requires KeyInv(s, key, clean) && Active(s, w, key) && key in table
    requires if deed == MarkedCompleted(key) then Claimant(s, w, key) && Status(table, key) == COMPLETED
             else deed == MarkedFailed(key) && Status(table, key) == FAILED && next.Idle?
    requires next.Idle? || (next.Failing? && next.ended && KeyOf(next.e) == key && !clean)
    ensures KeyInv(Move(Written(s, table, deed), w, next), key, clean)
  {
    var after := Move(Written(s, table, deed), w, next);
    CountMore(s.log, deed, Claimed(key));
    CountMore(s.log, deed, MarkedFailed(key));
    CountMore(s.log, deed, MarkedCompleted(key));
    assert Stray(s, w, key) ==> !NoStray(s, key);
    assert Claimant(s, w, key) ==> ClaimedNow(s, key);
    assert forall v :: v != w ==> !Active(s, v, key);
    assert forall v :: v != w ==> (Claimant(after, v, key) <==> Claimant(s, v, key));
    assert forall v :: v != w ==> (Stray(after, v, key) <==> Stray(s, v, key));
    assert forall v :: v != w ==> (Active(after, v, key) <==> Active(s, v, key));
    assert forall v :: v != w ==> !Active(after, v, key);
    assert forall v :: Claimant(after, v, key) ==> Active(after, v, key);
    assert forall v :: Stray(after, v, key) ==> Active(after, v, key);
    assert !Claimant(after, w, key);
  }

  lemma PutStepKept(s: World, w: nat, e: Event, now: string, learns: bool, key: Key, clean: bool)
    requires KeyInv(s, key, clean) && Enabled(s, TryPut(w, e, now, learns))
    ensures KeyInv(Next(s, TryPut(w, e, now, learns)), key, clean)
  {
    var (t, ok) := Put(s.table, e, now);
    if !ok {
      MoveKept(s, w, if learns then Refused(e) else Idle, key, clean);
    } else if KeyOf(e) == key {
      ClaimKept(s, t, w, AfterClaim(e, learns), key, clean);
    } else {
      OtherWriteKept(s, t, Claimed(KeyOf(e)), w, AfterClaim(e, learns), key, clean);
    }
  }

  lemma ReclaimStepKept(s: World, w: nat, now: string, learns: bool, key: Key, clean: bool)
    requires KeyInv(s, key, clean) && Enabled(s, TryReclaim(w, now, learns))
    ensures KeyInv(Next(s, TryReclaim(w, now, learns)), key, clean)
  {
    var e := At(s, w).e;
    var (t, ok) := Reclaim(s.table, e, now);
    if !ok {
      MoveKept(s, w, Idle, key, clean);
    } else if KeyOf(e) == key {
      ClaimKept(s, t, w, AfterClaim(e, learns), key, clean);
    } else {
      OtherWriteKept(s, t, Claimed(KeyOf(e)), w, AfterClaim(e, learns), key, clean);
    }
  }

  // A completing or failing write, whether it lands or not.
  lemma EndStepKept(s: World, w: nat, fields: Item, deed: Deed, lands: bool, next: Worker, key: Key, clean: bool)
    requires KeyInv(s, key, clean) && (At(s, w).Holding? || At(s, w).Failing?) && deed.key == KeyOf(At(s, w).e)
    requires "status" in fields
    requires if deed.MarkedCompleted? then At(s, w).Holding? && fields["status"] == COMPLETED
             else deed.MarkedFailed? && fields["status"] == FAILED
    requires if lands then next == Idle || (deed.MarkedCompleted? && next == Failing(At(s, w).e, true) && !clean)
             else (next == Failing(At(s, w).e, false) && At(s, w).Holding?) || next == Gone(At(s, w))
    ensures KeyInv(Move(Ended(s, fields, deed, lands), w, next), key, clean)
  {
    if !lands {
      if Stray(s, w, key) {
        StrayLeaves(s, w, key, clean);
      } else {
        MoveKept(s, w, next, key, clean);
      }
    } else if deed.key == key {
      EndKept(s, Amend(s.table, key, fields), deed, w, next, key, clean);
    } else {
      OtherWriteKept(s, Amend(s.table, deed.key, fields), deed, w, next, key, clean);
    }
  }

  lemma DeathKept(s: World, w: nat, key: Key, clean: bool)
    requires KeyInv(s, key, clean)
    ensures KeyInv(Move(s, w, Gone(At(s, w))), key, clean)
  {
    if Stray(s, w, key) {
      StrayLeaves(s, w, key, clean);
    } else {
      MoveKept(s, w, Gone(At(s, w)), key, clean);
    }
  }

  lemma KeyKept(s: World, step: Step, key: Key, clean: bool)
    requires KeyInv(s, key, clean) && Enabled(s, step)
    requires if clean then !LosesAnswer(step) else !LosesFailure(step)
    ensures KeyInv(Next(s, step), key, clean)
  {
    var w := step.worker;
    match step
    case TryPut(_, e, now, learns) => PutStepKept(s, w, e, now, learns, key, clean);
    case Look(_, _) => MoveKept(s, w, Next(s, step).workers[w], key, clean);
    case TryReclaim(_, now, learns) => ReclaimStepKept(s, w, now, learns, key, clean);
    case Complete(_, now, campaign, lands, learns) =>
      var e := At(s, w).e;
      EndStepKept(s, w, CompletedFields(now, campaign), MarkedCompleted(KeyOf(e)), lands, AfterEnd(e, lands, learns),
                  key, clean);
    case FailEarly(_, now, error, campaign, lands, learns) =>
      var e := At(s, w).e;
      EndStepKept(s, w, FailedFields(now, error, campaign), MarkedFailed(KeyOf(e)), lands, AfterEnd(e, lands, learns),
                  key, clean);
    case FailFinally(_, now, error, campaign, lands) =>
      var e := At(s, w).e;
      EndStepKept(s, w, FailedFields(now, error, campaign), MarkedFailed(KeyOf(e)), lands,
                  if lands then Idle else Gone(At(s, w)), key, clean);
    case Trouble(_) => MoveKept(s, w, Failing(At(s, w).e, false), key, clean);
    case Die(_) => DeathKept(s, w, key, clean);
  }

  lemma StepKept(s: World, step: Step, clean: bool)
    requires Inv(s, clean) && Enabled(s, step) && if clean then !LosesAnswer(step) else !LosesFailure(step)
    ensures Inv(Next(s, step), clean)
  {
    forall key
      ensures KeyInv(Next(s, step), key, clean)
    {
      assert KeyInv(s, key, clean);
      KeyKept(s, step, key, clean);
    }
  }

  lemma {:induction false} AlwaysInv(from: World, states: seq<World>, steps: seq<Step>, n: nat, clean: bool)
    requires Inv(from, clean) && Leads(from, states, steps) && n < |states|
    requires forall i :: 0 <= i < n ==> if clean then !LosesAnswer(steps[i]) else !LosesFailure(steps[i])
    ensures Inv(states[n], clean)
  {
    if n > 0 {
      AlwaysInv(from, states, steps, n - 1, clean);
      assert LinkedAt(states, steps, n - 1);
      StepKept(states[n - 1], steps[n - 1], clean);
    }
  }

  // ----- runs in which no ending write loses its answer -----

  lemma EmptyInv()
    ensures Inv(EMPTY, true)
  {
    forall key
      ensures KeyInv(EMPTY, key, true)
    {
      assert forall w :: !Active(EMPTY, w, key) && !Claimant(EMPTY, w, key) && !Stray(EMPTY, w, key);
    }
  }

  // Someone may write the record as its claimant exactly while it is
  // PROCESSING, and then only one worker may.
  ghost predicate OneWriter(s: World, key: Key) {
    OneActive(s, key) && ((exists w :: Active(s, w, key)) <==> Status(s.table, key) == PROCESSING)
  }

  lemma CleanMeansOneWriter(s: World, key: Key)
    requires KeyInv(s, key, true)
    ensures OneWriter(s, key)
  {
    if w :| Active(s, w, key) {
      assert Claimant(s, w, key);
    }
    if w :| Claimant(s, w, key) {
      assert Active(s, w, key);
    }
  }

  lemma LossMakesStray(s: World, step: Step)
    requires Enabled(s, step) && LosesAnswer(step)
    ensures var key := KeyOf(At(s, step.worker).e);
            && Stray(Next(s, step), step.worker, key) && At(Next(s, step), step.worker).e == At(s, step.worker).e
            && LatestSeen(Next(s, step))
            && key in Next(s, step).table
            && Status(Next(s, step).table, key) == (if step.Complete? then COMPLETED else FAILED)
  {
  }

  // Exactly once, exactly: a run gives every record one writer at most, and
  // one exactly while it is PROCESSING, if and only if no completing or failing
  // write inside the `try` took effect without its worker learning of it.
  lemma OneWriterExactly(states: seq<World>, steps: seq<Step>)
    requires Run(states, steps)
    ensures Lossless(steps) <==> forall n: nat, key :: n < |states| ==> OneWriter(states[n], key)
  {
    if Lossless(steps) {
      forall n: nat, key | n < |states|
        ensures OneWriter(states[n], key)
      {
        EmptyInv();
        AlwaysInv(EMPTY, states, steps, n, true);
        assert KeyInv(states[n], key, true);
        CleanMeansOneWriter(states[n], key);
      }
    } else {
      var i: nat :| i < |steps| && LosesAnswer(steps[i]);
      assert LinkedAt(states, steps, i);
      LossMakesStray(states[i], steps[i]);
      var key := KeyOf(At(states[i], steps[i].worker).e);
      assert Active(states[i + 1], steps[i].worker, key);
      assert !OneWriter(states[i + 1], key);
    }
  }

  // In such a run an event completes at most once.
  lemma CompletesOnce(states: seq<World>, steps: seq<Step>, n: nat, key: Key)
    requires Run(states, steps) && Lossless(steps) && n < |states|
    ensures Count(states[n].log, MarkedCompleted(key)) == One(Status(states[n].table, key) == COMPLETED)
  {
    EmptyInv();
    AlwaysInv(EMPTY, states, steps, n, true);
    assert KeyInv(states[n], key, true);
  }

  lemma CompletedStep(s: World, step: Step, key: Key)
    requires Inv(s, true) && Enabled(s, step) && Status(s.table, key) == COMPLETED
    ensures key in Next(s, step).table && Next(s, step).table[key] == s.table[key]
  {
    assert KeyInv(s, key, true);
    assert !ClaimedNow(s, key);
    assert !Claimant(s, step.worker, key) && !Stray(s, step.worker, key);
  }

  // COMPLETED is never left, nor is such a record touched again, from any state
  // that such a run can reach.
  lemma {:induction false} CompletedStays(from: World, states: seq<World>, steps: seq<Step>, m: nat, n: nat, key: Key)
    requires Inv(from, true) && Leads(from, states, steps) && Lossless(steps)
    requires m <= n < |states| && Status(states[m].table, key) == COMPLETED
    ensures key in states[n].table && states[n].table[key] == states[m].table[key]
  {
    if m < n {
      CompletedStays(from, states, steps, m, n - 1, key);
      AlwaysInv(from, states, steps, n - 1, true);
      assert LinkedAt(states, steps, n - 1);
      CompletedStep(states[n - 1], steps[n - 1], key);
    }
  }

  // Even if completing writes lose their answers: as long as early failures do
  // not, a record has one active worker at most, and every claim is accounted
  // for: it failed, or it is being processed or was completed.
  lemma ClaimsBalance(states: seq<World>, steps: seq<Step>, n: nat, key: Key)
    requires Run(states, steps) && FailuresLearned(steps) && n < |states|
    ensures Count(states[n].log, Claimed(key))
         == Count(states[n].log, MarkedFailed(key)) + One(Status(states[n].table, key) in {PROCESSING, COMPLETED})
    ensures forall v, w :: Active(states[n], v, key) && Active(states[n], w, key) ==> v == w
  {
    EmptyInv();
    StrongerInv(EMPTY);
    AlwaysInv(EMPTY, states, steps, n, false);
    assert KeyInv(states[n], key, false);
  }

  lemma StrongerInv(s: World)
    requires Inv(s, true)
    ensures Inv(s, false)
  {
    forall key
      ensures KeyInv(s, key, false)
    {
      assert KeyInv(s, key, true);
    }
  }

  // ----- what one lost answer can lead to -----

  // From here, with no further answer lost, a record can leave COMPLETED.
  ghost predicate CanLeaveCompleted(from: World) {
    exists states, steps :: Leads(from, states, steps) && Lossless(steps) && LeavesCompleted(states)
  }

  ghost predicate LeavesCompleted(states: seq<World>) {
    exists m: nat, n: nat, key :: LeftBetween(states, m, n, key)
  }

  predicate LeftBetween(states: seq<World>, m: nat, n: nat, key: Key) {
    m < n < |states| && Status(states[m].table, key) == COMPLETED && Status(states[n].table, key) != COMPLETED
  }

  // Two workers can be active on one record.
  ghost predicate CanCrowd(from: World) {
    exists states, steps :: Leads(from, states, steps) && Lossless(steps) && Crowds(states)
  }

  ghost predicate Crowds(states: seq<World>) {
    exists n: nat, key :: n < |states| && !OneActive(states[n], key)
  }

  // Claims can go missing from the balance.
  ghost predicate CanUnbalance(from: World) {
    exists states, steps :: Leads(from, states, steps) && Lossless(steps) && Unbalances(states)
  }

  ghost predicate Unbalances(states: seq<World>) {
    exists n: nat, key :: n < |states| && !Balanced(states[n], key)
  }

  lemma Go(from: World, states: seq<World>, steps: seq<Step>, step: Step)
    returns (more: seq<World>, next: seq<Step>, s: World)
    requires Leads(from, states, steps) && Lossless(steps) && Enabled(states[|steps|], step) && !LosesAnswer(step)
    ensures Leads(from, more, next) && Lossless(next) && s == more[|next|] == Next(states[|steps|], step)
    ensures |next| == |steps| + 1 && states < more
  {
    s := Next(states[|steps|], step);
    more, next := states + [s], steps + [step];
    forall i: nat | i < |next|
      ensures LinkedAt(more, next, i)
    {
      if i < |steps| {
        assert LinkedAt(states, steps, i);
      }
    }
  }

  lemma {:induction false} FreshNumber(used: set<nat>) returns (n: nat)
    ensures forall m :: m in used ==> m < n
    decreases used
  {
    if used == {} {
      n := 0;
    } else {
      var m :| m in used;
      n := FreshNumber(used - {m});
      assert forall k :: k in used ==> k == m || k in used - {m};
      n := if m < n then n else m + 1;
    }
  }

  lemma UpperFailed()
    ensures Upper(FAILED) == FAILED
  {
  }

  // A fresh worker claims a FAILED record.
  lemma Retake(from: World, e: Event) returns (v: nat, states: seq<World>, steps: seq<Step>, s: World)
    requires LatestSeen(from) && KeyOf(e) in from.table && Status(from.table, KeyOf(e)) == FAILED
    ensures Leads(from, states, steps) && Lossless(steps) && s == states[|steps|] && steps != []
    ensures v !in from.workers && At(s, v) == Holding(e) && forall u :: u != v ==> At(s, u) == At(from, u)
    ensures LatestSeen(s)
  {
    UpperFailed();
    v := FreshNumber(from.workers.Keys);
    states, steps := [from], [];
    states, steps, s := Go(from, states, steps, TryPut(v, e, "", true));
    states, steps, s := Go(from, states, steps, Look(v, |s.versions| - 1));
    states, steps, s := Go(from, states, steps, TryReclaim(v, "", true));
  }

  // A completion whose answer is lost is undone by its own worker.
  lemma LostCompletionIsUndone(from: World, w: nat, e: Event)
    requires At(from, w) == Failing(e, true) && Status(from.table, KeyOf(e)) == COMPLETED
    ensures CanLeaveCompleted(from)
  {
    var states, steps, s := Go(from, [from], [], FailFinally(w, "", "", "", true));
    assert LeftBetween(states, 0, 1, KeyOf(e));
    assert LeavesCompleted(states);
  }

  // A failure whose answer is lost lets a second worker in.
  lemma LostFailureCrowds(from: World, w: nat, e: Event)
    requires LatestSeen(from) && At(from, w) == Failing(e, true)
    requires KeyOf(e) in from.table && Status(from.table, KeyOf(e)) == FAILED
    ensures CanCrowd(from)
  {
    var v, states, steps, s := Retake(from, e);
    assert w in from.workers;
    assert Active(s, v, KeyOf(e)) && Active(s, w, KeyOf(e)) && v != w;
    assert !OneActive(states[|steps|], KeyOf(e));
    assert Crowds(states);
  }

  // That worker completes the event, and the first one fails it.
  lemma LostFailureLeaves(from: World, w: nat, e: Event)
    requires LatestSeen(from) && At(from, w) == Failing(e, true)
    requires KeyOf(e) in from.table && Status(from.table, KeyOf(e)) == FAILED
    ensures CanLeaveCompleted(from)
  {
    var v, states, steps, s := Retake(from, e);
    assert w in from.workers;
    states, steps, s := Go(from, states, steps, Complete(v, "", "", true, true));
    var n := |steps|;
    assert Status(s.table, KeyOf(e)) == COMPLETED && At(s, w) == Failing(e, true);
    states, steps, s := Go(from, states, steps, FailFinally(w, "", "", "", true));
    assert Status(s.table, KeyOf(e)) == FAILED;
    assert LeftBetween(states, n, n + 1, KeyOf(e));
    assert LeavesCompleted(states);
  }

  // And it is recorded twice.
  lemma LostFailureUnbalances(from: World, w: nat, e: Event)
    requires At(from, w) == Failing(e, true) && Status(from.table, KeyOf(e)) == FAILED && Balanced(from, KeyOf(e))
    ensures CanUnbalance(from)
  {
    var states, steps, s := Go(from, [from], [], FailFinally(w, "", "", "", true));
    CountMore(from.log, MarkedFailed(KeyOf(e)), MarkedFailed(KeyOf(e)));
    CountMore(from.log, MarkedFailed(KeyOf(e)), Claimed(KeyOf(e)));
    assert !Balanced(states[1], KeyOf(e));
    assert Unbalances(states);
  }

  // COMPLETED, exactly: after a run in which nothing was lost, one more step
  // makes it possible that a record leaves COMPLETED if and only if that step
  // is an ending write that loses its answer.
  lemma CompletedCanBeLeftExactly(states: seq<World>, steps: seq<Step>, step: Step)
    requires Run(states, steps) && Lossless(steps) && Enabled(states[|steps|], step)
    ensures CanLeaveCompleted(Next(states[|steps|], step)) <==> LosesAnswer(step)
  {
    var s, after := states[|steps|], Next(states[|steps|], step);
    EmptyInv();
    AlwaysInv(EMPTY, states, steps, |steps|, true);
    if LosesAnswer(step) {
      LossMakesStray(s, step);
      if step.Complete? {
        LostCompletionIsUndone(after, step.worker, At(s, step.worker).e);
      } else {
        LostFailureLeaves(after, step.worker, At(s, step.worker).e);
      }
    } else {
      StepKept(s, step, true);
      if CanLeaveCompleted(after) {
        var more, next :| Leads(after, more, next) && Lossless(next) && LeavesCompleted(more);
        var m: nat, n: nat, key :| LeftBetween(more, m, n, key);
        CompletedStays(after, more, next, m, n, key);
      }
    }
  }

  // One active worker and the balance, exactly: they can be lost if and only if
  // that step is an early failure that loses its answer.
  lemma CrowdsAndUnbalancesExactly(states: seq<World>, steps: seq<Step>, step: Step)
    requires Run(states, steps) && Lossless(steps) && Enabled(states[|steps|], step)
    ensures CanCrowd(Next(states[|steps|], step)) <==> LosesFailure(step)
    ensures CanUnbalance(Next(states[|steps|], step)) <==> LosesFailure(step)
  {
    var s, after := states[|steps|], Next(states[|steps|], step);
    EmptyInv();
    AlwaysInv(EMPTY, states, steps, |steps|, true);
    if LosesFailure(step) {
      var key := KeyOf(At(s, step.worker).e);
      LossMakesStray(s, step);
      LostFailureCrowds(after, step.worker, At(s, step.worker).e);
      FailureKeepsBalance(s, step);
      LostFailureUnbalances(after, step.worker, At(s, step.worker).e);
    } else {
      StrongerInv(s);
      StepKept(s, step, false);
      StaysFine(after);
    }
  }

  lemma FailureKeepsBalance(s: World, step: Step)
    requires Inv(s, true) && Enabled(s, step) && LosesFailure(step)
    ensures Balanced(Next(s, step), KeyOf(At(s, step.worker).e))
  {
    var key := KeyOf(At(s, step.worker).e);
    assert KeyInv(s, key, true);
    assert Claimant(s, step.worker, key);
    assert ClaimedNow(s, key);
    CountMore(s.log, MarkedFailed(key), MarkedFailed(key));
    CountMore(s.log, MarkedFailed(key), Claimed(key));
  }

  lemma StaysFine(from: World)
    requires Inv(from, false)
    ensures !CanCrowd(from) && !CanUnbalance(from)
  {
    forall states, steps, n: nat, key | Leads(from, states, steps) && Lossless(steps) && n < |states|
      ensures OneActive(states[n], key) && Balanced(states[n], key)
    {
      AlwaysInv(from, states, steps, n, false);
      assert KeyInv(states[n], key, false);
    }
  }

  lemma Joined(states: seq<World>, steps: seq<Step>, step: Step, more: seq<World>, next: seq<Step>)
    requires Run(states, steps) && Enabled(states[|steps|], step)
    requires Leads(Next(states[|steps|], step), more, next)
    ensures Run(states + more, steps + [step] + next)
  {
    var all, done := states + more, steps + [step] + next;
    forall i: nat | i < |done|
      ensures LinkedAt(all, done, i)
    {
      if i < |steps| {
        assert LinkedAt(states, steps, i);
      } else if i > |steps| {
        assert LinkedAt(more, next, i - |steps| - 1);
      }
    }
  }

  lemma ClaimedAtOnce(e: Event) returns (states: seq<World>, steps: seq<Step>, s: World)
    ensures Run(states, steps) && Lossless(steps) && s == states[|steps|] && At(s, 0) == Holding(e)
  {
    states, steps, s := Go(EMPTY, [EMPTY], [], TryPut(0, e, "", true));
  }

  // The handler's own doing, from an empty inbox: a completed event that is
  // FAILED again, because the answer to the completion was lost.
  lemma HandlerCanLeaveCompleted(e: Event) returns (states: seq<World>, steps: seq<Step>)
    ensures Run(states, steps) && LeavesCompleted(states)
  {
    var s;
    states, steps, s := ClaimedAtOnce(e);
    var step := Complete(0, "", "", true, false);
    CompletedCanBeLeftExactly(states, steps, step);
    var more, next :| Leads(Next(s, step), more, next) && Lossless(next) && LeavesCompleted(more);
    Joined(states, steps, step, more, next);
    var m: nat, n: nat, key :| LeftBetween(more, m, n, key);
    assert LeftBetween(states + more, |states| + m, |states| + n, key);
    states, steps := states + more, steps + [step] + next;
  }

  // And two workers on one event, because the answer to a failure was lost.
  lemma HandlerCanCrowd(e: Event) returns (states: seq<World>, steps: seq<Step>)
    ensures Run(states, steps) && Crowds(states)
  {
    var s;
    states, steps, s := ClaimedAtOnce(e);
    var step := FailEarly(0, "", "", "", true, false);
    CrowdsAndUnbalancesExactly(states, steps, step);
    var more, next :| Leads(Next(s, step), more, next) && Lossless(next) && Crowds(more);
    Joined(states, steps, step, more, next);
    var n: nat, key :| n < |more| && !OneActive(more[n], key);
    assert (states + more)[|states| + n] == more[n];
    states, steps := states + more, steps + [step] + next;
  }
}
