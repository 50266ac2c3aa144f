// Compensating plans: an explicit undo for every change a remediation made, or
// no plan at all.
//
// The risk of a step is whatever the risk configuration says; it is a
// parameter here. The plan's fingerprint and the approval it needs are not
// part of this model.

module Rollback {
  import opened Options
  import Decimal

  datatype StepId = NoId | Text(text: string) | Number(number: int)

  datatype Compensation = Compensation(
    supported: bool,
    command: Option<string>,        // None if it is not a string
    verification: Option<string>,
    risk: string)                   // empty if none is declared

  datatype Step = Step(id: StepId, action: string, description: string, rollback: Option<Compensation>)

  // `ok`: status "ok" and success exactly True.
  datatype StepResult = StepResult(id: StepId, ok: bool)

  datatype UndoStep = UndoStep(id: string, order: nat, command: string, risk: string, description: string)

  datatype Error =
    | PlanRequired
    | IdsNotUnique
    | ResultsMismatch
    | MutationUncertain
    | ResultsMissing
    | NoCompensation
    | CommandsRequired
    | NothingToUndo

  type Risk = Step -> string

  predicate Mutating(s: Step, risk: Risk) {
    risk(s) != "basic"
  }

  // An id that counts as present.
  predicate Usable(id: StepId) {
    id != NoId && id != Text("") && id != Number(0)
  }

  // White space, as the program's `strip` knows it.
  predicate IsSpace(c: char) {
    var n := c as int;
    || 9 <= n <= 13 || 28 <= n <= 32 || n == 0x85 || n == 0xA0 || n == 0x1680 || 0x2000 <= n <= 0x200A
    || n == 0x2028 || n == 0x2029 || n == 0x202F || n == 0x205F || n == 0x3000
  }

  ghost predicate IsCommand(text: Option<string>) {
    text.Some? && exists i :: 0 <= i < |text.value| && !IsSpace(text.value[i])
  }

  // Without the white space at both ends.
  function Stripped(text: string): string {
    if text == "" then ""
    else if IsSpace(text[0]) then Stripped(text[1..])
    else if IsSpace(text[|text| - 1]) then Stripped(text[..|text| - 1])
    else text
  }

  // Nothing is left exactly of a text that has nothing else.
  lemma {:induction false} StrippedExactly(text: string)
    ensures Stripped(text) != "" <==> IsCommand(Some(text))
  {
    if text != "" {
      if IsSpace(text[0]) {
        StrippedExactly(text[1..]);
        assert text == [text[0]] + text[1..];
      } else if IsSpace(text[|text| - 1]) {
        StrippedExactly(text[..|text| - 1]);
        assert text[..|text| - 1][0] == text[0];
      }
    }
  }

  lemma BlankExactly(text: Option<string>)
    ensures text.None? || Stripped(text.value) == "" <==> !IsCommand(text)
  {
    if text.Some? {
      StrippedExactly(text.value);
    }
  }

  predicate Declares(s: Step) {
    s.rollback.Some? && s.rollback.value.supported
  }

  ghost predicate Reversible(s: Step) {
    Declares(s) && IsCommand(s.rollback.value.command) && IsCommand(s.rollback.value.verification)
  }

  // ----- the steps by their id -----

  ghost predicate IdsUsable(steps: seq<Step>) {
    && (forall i :: 0 <= i < |steps| ==> Usable(steps[i].id))
    && (forall i, j :: 0 <= i < j < |steps| ==> steps[i].id != steps[j].id)
  }

  ghost predicate Indexes(byId: map<StepId, Step>, steps: seq<Step>) {
    && (forall i :: 0 <= i < |steps| ==> steps[i].id in byId && byId[steps[i].id] == steps[i])
    && (forall id :: id in byId ==> byId[id] in steps && byId[id].id == id)
  }

  method IndexSteps(steps: seq<Step>) returns (byId: Option<map<StepId, Step>>)
    ensures byId.Some? <==> IdsUsable(steps)
    ensures byId.Some? ==> Indexes(byId.value, steps)
  {
    var index := map[];
    for i := 0 to |steps|
      invariant IdsUsable(steps[..i]) && Indexes(index, steps[..i])
    {
      if !Usable(steps[i].id) || steps[i].id in index {
        assert steps[i].id in index ==> index[steps[i].id] in steps[..i];
        return None;
      }
      index := index[steps[i].id := steps[i]];
      assert steps[..i + 1] == steps[..i] + [steps[i]];
    }
    assert steps[..|steps|] == steps;
    return Some(index);
  }

  // ----- the results -----

  ghost predicate Mismatched(byId: map<StepId, Step>, results: seq<StepResult>, k: nat)
    requires k < |results|
  {
    results[k].id !in byId || exists j :: 0 <= j < k && results[j].id == results[k].id
  }

  ghost predicate Uncertain(byId: map<StepId, Step>, results: seq<StepResult>, k: nat, risk: Risk)
    requires k < |results|
  {
    results[k].id in byId && !results[k].ok && Mutating(byId[results[k].id], risk)
  }

  ghost predicate Sound(byId: map<StepId, Step>, results: seq<StepResult>, risk: Risk) {
    forall k: nat :: k < |results| ==> !Mismatched(byId, results, k) && !Uncertain(byId, results, k, risk)
  }

  // The steps that succeeded, in the order of their results.
  function Completed(byId: map<StepId, Step>, results: seq<StepResult>): seq<Step> {
    if results == [] then []
    else
      var last := results[|results| - 1];
      var before := Completed(byId, results[..|results| - 1]);
      if last.id in byId && last.ok then before + [byId[last.id]] else before
  }

  function Seen(results: seq<StepResult>): set<StepId> {
    set i | 0 <= i < |results| :: results[i].id
  }

  // Read the results in order; the first one that does not fit is the error.
  method ReadResults(byId: map<StepId, Step>, results: seq<StepResult>, risk: Risk)
    returns (r: Result<seq<Step>, Error>)
    ensures r.Success? <==> Sound(byId, results, risk)
    ensures r.Success? ==> r.value == Completed(byId, results)
    ensures r.Failure? ==>
              exists k: nat :: k < |results| && Sound(byId, results[..k], risk)
                && (if Mismatched(byId, results, k) then r.error == ResultsMismatch
                    else Uncertain(byId, results, k, risk) && r.error == MutationUncertain)
  {
    var completed: seq<Step> := [];
    var seen: set<StepId> := {};
    for i := 0 to |results|
      invariant Sound(byId, results[..i], risk)
      invariant completed == Completed(byId, results[..i]) && seen == Seen(results[..i])
    {
      var id := results[i].id;
      assert id in seen <==> exists j :: 0 <= j < i && results[j].id == id;
      if id !in byId || id in seen {
        assert Mismatched(byId, results, i);
        return Failure(ResultsMismatch);
      }
      seen := seen + {id};
      if results[i].ok {
        completed := completed + [byId[id]];
      } else if risk(byId[id]) != "basic" {
        assert Uncertain(byId, results, i, risk) && !Mismatched(byId, results, i);
        return Failure(MutationUncertain);
      }
      SoundStep(byId, results, i, risk);
      assert results[..i + 1][..i] == results[..i];
    }
    assert results[..|results|] == results;
    return Success(completed);
  }

  lemma SoundStep(byId: map<StepId, Step>, results: seq<StepResult>, i: nat, risk: Risk)
    requires i < |results| && Sound(byId, results[..i], risk)
    requires !Mismatched(byId, results, i) && !Uncertain(byId, results, i, risk)
    ensures Sound(byId, results[..i + 1], risk)
  {
    var more := results[..i + 1];
    forall k: nat | k < |more|
      ensures !Mismatched(byId, more, k) && !Uncertain(byId, more, k, risk)
    {
      if k < i {
        assert !Mismatched(byId, results[..i], k) && !Uncertain(byId, results[..i], k, risk);
      }
    }
  }

  // ----- the undo steps -----

  // Decimal text of an id, as it appears in the new step ids.
  function Shown(id: StepId): string {
    match id
    case NoId => "None"
    case Text(text) => text
    case Number(n) => if n < 0 then "-" + Decimal.Figures(-n) else Decimal.Figures(n)
  }

  function OrElse(text: string, other: string): string {
    if text == "" then other else text
  }

  function UndoId(s: Step): string {
    "rollback-" + Shown(s.id) + "-undo"
  }

  function VerifyId(s: Step): string {
    "rollback-" + Shown(s.id) + "-verify"
  }

  // The two steps that take one change back, numbered after `done` others.
  function Pair(s: Step, done: nat): seq<UndoStep>
    requires Reversible(s)
  {
    var c := s.rollback.value;
    var about := OrElse(s.description, Shown(s.id));
    [UndoStep(UndoId(s), done + 1, c.command.value, OrElse(c.risk, "risky"), "Rollback undo: " + about),
     UndoStep(VerifyId(s), done + 2, c.verification.value, OrElse(c.risk, "risky"), "Rollback verify: " + about)]
  }

  ghost predicate AllReversible(completed: seq<Step>, k: nat, risk: Risk) {
    forall i :: k <= i < |completed| && Mutating(completed[i], risk) ==> Reversible(completed[i])
  }

  // The undo steps of completed[k..]: the last change first.
  ghost function Undo(completed: seq<Step>, k: nat, risk: Risk): seq<UndoStep>
    requires k <= |completed| && AllReversible(completed, k, risk)
    decreases |completed| - k
  {
    if k == |completed| then []
    else
      var later := Undo(completed, k + 1, risk);
      if Mutating(completed[k], risk) then later + Pair(completed[k], |later|) else later
  }

  method BuildUndo(completed: seq<Step>, risk: Risk) returns (r: Result<seq<UndoStep>, Error>)
    ensures r.Success? <==> AllReversible(completed, 0, risk)
    ensures r.Success? ==> r.value == Undo(completed, 0, risk)
    ensures r.Failure? ==>
              exists k: nat :: k < |completed| && Mutating(completed[k], risk) && AllReversible(completed, k + 1, risk)
                && r.error == if Declares(completed[k]) then CommandsRequired else NoCompensation
  {
    var undo: seq<UndoStep> := [];
    var k := |completed|;
    while k > 0
      invariant 0 <= k <= |completed| && AllReversible(completed, k, risk)
      invariant undo == Undo(completed, k, risk)
    {
      k := k - 1;
      var s := completed[k];
      if risk(s) != "basic" {
        if s.rollback.None? || !s.rollback.value.supported {
          return Failure(NoCompensation);
        }
        var command, verification := s.rollback.value.command, s.rollback.value.verification;
        BlankExactly(command);
        BlankExactly(verification);
        if command.None? || Stripped(command.value) == "" || verification.None? || Stripped(verification.value) == "" {
          return Failure(CommandsRequired);
        }
        undo := undo + Pair(s, |undo|);
      }
    }
    return Success(undo);
  }

  // ----- the whole plan -----

  ghost predicate Names(steps: seq<Step>, id: StepId) {
    exists i :: 0 <= i < |steps| && steps[i].id == id
  }

  ghost predicate ResultsFit(steps: seq<Step>, results: seq<StepResult>) {
    && (forall k :: 0 <= k < |results| ==> Names(steps, results[k].id))
    && (forall j, k :: 0 <= j < k < |results| ==> results[j].id != results[k].id)
  }

  ghost predicate Succeeded(s: Step, results: seq<StepResult>) {
    exists k :: 0 <= k < |results| && results[k].id == s.id && results[k].ok
  }

  // What a caller must bring: usable ids, one result at most for each step and
  // none for any other, every mutating step succeeded and declaring how to
  // take it back, and at least one mutating step.
  ghost predicate Acceptable(steps: seq<Step>, results: seq<StepResult>, risk: Risk) {
    && IdsUsable(steps) && ResultsFit(steps, results)
    && (forall i :: 0 <= i < |steps| && risk(steps[i]) != "basic" ==>
          Succeeded(steps[i], results) && Reversible(steps[i]))
    && (exists i :: 0 <= i < |steps| && risk(steps[i]) != "basic")
  }

  // The completed steps of a plan, in the order they completed.
  ghost predicate CompletedOf(completed: seq<Step>, steps: seq<Step>, results: seq<StepResult>) {
    && (forall s :: s in completed <==> s in steps && Succeeded(s, results))
    && (forall i, j :: 0 <= i < j < |completed| ==>
          exists k, l :: 0 <= k < l < |results| && results[k].id == completed[i].id && results[l].id == completed[j].id)
  }

  // Where in the results each completed step stands.
  ghost predicate StandsAt(completed: seq<Step>, byId: map<StepId, Step>, results: seq<StepResult>, at: seq<nat>) {
    && |at| == |completed|
    && (forall i :: 0 <= i < |at| ==>
          && at[i] < |results| && results[at[i]].ok && results[at[i]].id in byId
          && completed[i] == byId[results[at[i]].id])
    && (forall i, j :: 0 <= i < j < |at| ==> at[i] < at[j])
    && (forall k: nat :: k < |results| && results[k].ok && results[k].id in byId ==> k in at)
  }

  lemma {:induction false} CompletedStands(byId: map<StepId, Step>, results: seq<StepResult>) returns (at: seq<nat>)
    ensures StandsAt(Completed(byId, results), byId, results, at)
  {
    at := [];
    if results != [] {
      var n := |results| - 1;
      var before := CompletedStands(byId, results[..n]);
      at := if results[n].id in byId && results[n].ok then before + [n] else before;
      OneMoreStands(byId, results, before);
    }
  }

  lemma OneMoreStands(byId: map<StepId, Step>, results: seq<StepResult>, before: seq<nat>)
    requires results != []
    requires StandsAt(Completed(byId, results[..|results| - 1]), byId, results[..|results| - 1], before)
    ensures var n := |results| - 1;
            StandsAt(Completed(byId, results), byId, results,
                     if results[n].id in byId && results[n].ok then before + [n] else before)
  {
    var n := |results| - 1;
    StandsInLonger(Completed(byId, results[..n]), byId, results, before);
    if results[n].id in byId && results[n].ok {
      StandsLast(Completed(byId, results[..n]), byId, results, before);
    }
  }

  // All but possibly the last result are accounted for.
  ghost predicate StandsBefore(completed: seq<Step>, byId: map<StepId, Step>, results: seq<StepResult>, at: seq<nat>,
                               n: nat)
    requires n <= |results|
  {
    && |at| == |completed|
    && (forall i :: 0 <= i < |at| ==>
          at[i] < n && results[at[i]].ok && results[at[i]].id in byId && completed[i] == byId[results[at[i]].id])
    && (forall i, j :: 0 <= i < j < |at| ==> at[i] < at[j])
    && (forall k: nat :: k < n && results[k].ok && results[k].id in byId ==> k in at)
  }

  lemma StandsInLonger(completed: seq<Step>, byId: map<StepId, Step>, results: seq<StepResult>, at: seq<nat>)
    requires results != [] && StandsAt(completed, byId, results[..|results| - 1], at)
    ensures StandsBefore(completed, byId, results, at, |results| - 1)
  {
    var init := results[..|results| - 1];
    assert forall k: nat :: k < |init| ==> init[k] == results[k];
  }

  lemma StandsLast(completed: seq<Step>, byId: map<StepId, Step>, results: seq<StepResult>, at: seq<nat>)
    requires results != [] && StandsBefore(completed, byId, results, at, |results| - 1)
    requires results[|results| - 1].ok && results[|results| - 1].id in byId
    ensures StandsAt(completed + [byId[results[|results| - 1].id]], byId, results, at + [|results| - 1])
  {
    var n := |results| - 1;
    var more := at + [n];
    assert forall k :: k in at ==> k in more;
    assert more[|at|] == n;
  }

  lemma CompletedIsOf(byId: map<StepId, Step>, steps: seq<Step>, results: seq<StepResult>)
    requires Indexes(byId, steps)
    ensures CompletedOf(Completed(byId, results), steps, results)
  {
    var completed := Completed(byId, results);
    var at := CompletedStands(byId, results);
    forall s
      ensures s in completed <==> s in steps && Succeeded(s, results)
    {
      if s in completed {
        var i :| 0 <= i < |completed| && completed[i] == s;
        assert results[at[i]].id == s.id;
      }
      if s in steps && Succeeded(s, results) {
        var k :| 0 <= k < |results| && results[k].id == s.id && results[k].ok;
        assert byId[s.id] == s;
        assert k in at;
        var i :| 0 <= i < |at| && at[i] == k;
        assert completed[i] == s;
      }
    }
    forall i, j | 0 <= i < j < |completed|
      ensures exists k, l :: 0 <= k < l < |results|
                && results[k].id == completed[i].id && results[l].id == completed[j].id
    {
      assert at[i] < at[j] && results[at[i]].id == completed[i].id && results[at[j]].id == completed[j].id;
    }
  }

  lemma IndexedExactly(byId: map<StepId, Step>, steps: seq<Step>, id: StepId)
    requires Indexes(byId, steps)
    ensures id in byId <==> Names(steps, id)
  {
    if id in byId {
      var i :| 0 <= i < |steps| && steps[i] == byId[id];
    }
  }

  lemma SoundMeansFit(byId: map<StepId, Step>, steps: seq<Step>, results: seq<StepResult>, risk: Risk)
    requires Indexes(byId, steps) && Sound(byId, results, risk)
    ensures ResultsFit(steps, results)
    ensures forall k :: 0 <= k < |results| ==>
              results[k].id in byId && (results[k].ok || !Mutating(byId[results[k].id], risk))
  {
    forall k | 0 <= k < |results|
      ensures results[k].id in byId && (results[k].ok || !Mutating(byId[results[k].id], risk))
      ensures Names(steps, results[k].id)
    {
      assert !Mismatched(byId, results, k) && !Uncertain(byId, results, k, risk);
      IndexedExactly(byId, steps, results[k].id);
    }
    forall j, k | 0 <= j < k < |results|
      ensures results[j].id != results[k].id
    {
      assert !Mismatched(byId, results, k);
    }
  }

  lemma AcceptableMeansSound(byId: map<StepId, Step>, steps: seq<Step>, results: seq<StepResult>, risk: Risk)
    requires Indexes(byId, steps) && Acceptable(steps, results, risk)
    ensures Sound(byId, results, risk) && NoneMissing(byId, results, risk)
  {
    forall k: nat | k < |results|
      ensures !Mismatched(byId, results, k) && !Uncertain(byId, results, k, risk)
    {
      var i :| 0 <= i < |steps| && steps[i].id == results[k].id;
      if Mutating(steps[i], risk) {
        var l :| 0 <= l < |results| && results[l].id == steps[i].id && results[l].ok;
        assert l == k;
      }
    }
    forall id | id in byId && Mutating(byId[id], risk)
      ensures id in Seen(results)
    {
      var l :| 0 <= l < |results| && results[l].id == id && results[l].ok;
    }
  }

  predicate NoneMissing(byId: map<StepId, Step>, results: seq<StepResult>, risk: Risk) {
    forall id :: id in byId && Mutating(byId[id], risk) ==> id in Seen(results)
  }

  // With the results read and none missing, every mutating step succeeded.
  lemma AllMutationsSucceeded(byId: map<StepId, Step>, steps: seq<Step>, results: seq<StepResult>, risk: Risk, i: nat)
    requires Indexes(byId, steps) && Sound(byId, results, risk) && NoneMissing(byId, results, risk)
    requires i < |steps| && Mutating(steps[i], risk)
    ensures Succeeded(steps[i], results) && steps[i] in Completed(byId, results)
  {
    SoundMeansFit(byId, steps, results, risk);
    CompletedIsOf(byId, steps, results);
    assert steps[i].id in Seen(results);
    var k :| 0 <= k < |results| && results[k].id == steps[i].id;
    assert byId[results[k].id] == steps[i];
  }

  lemma {:induction false} UndoIsEmpty(completed: seq<Step>, k: nat, risk: Risk)
    requires k <= |completed| && AllReversible(completed, k, risk)
    ensures Undo(completed, k, risk) == [] <==> forall i :: k <= i < |completed| ==> !Mutating(completed[i], risk)
    decreases |completed| - k
  {
    if k < |completed| {
      UndoIsEmpty(completed, k + 1, risk);
    }
  }

  // What the last checks decide.
  lemma AcceptableExactly(byId: map<StepId, Step>, steps: seq<Step>, results: seq<StepResult>, risk: Risk)
    requires IdsUsable(steps) && Indexes(byId, steps)
    requires Sound(byId, results, risk) && NoneMissing(byId, results, risk)
    ensures Acceptable(steps, results, risk) <==>
              var completed := Completed(byId, results);
              AllReversible(completed, 0, risk) && Undo(completed, 0, risk) != []
  {
    var completed := Completed(byId, results);
    SoundMeansFit(byId, steps, results, risk);
    CompletedIsOf(byId, steps, results);
    forall i | 0 <= i < |steps| && Mutating(steps[i], risk)
      ensures Succeeded(steps[i], results) && steps[i] in completed
    {
      AllMutationsSucceeded(byId, steps, results, risk, i);
    }
    assert forall i :: 0 <= i < |completed| ==> completed[i] in completed && completed[i] in steps;
    if AllReversible(completed, 0, risk) {
      UndoIsEmpty(completed, 0, risk);
    }
  }

  // `build_rollback_plan`: a plan comes back for exactly the acceptable inputs,
  // and then it takes back the completed steps and nothing else.
  method BuildRollbackPlan(steps: Option<seq<Step>>, results: Option<seq<StepResult>>, risk: Risk)
    returns (r: Result<seq<UndoStep>, Error>, ghost completed: seq<Step>)
    ensures r.Success? <==> steps.Some? && results.Some? && Acceptable(steps.value, results.value, risk)
    ensures r.Success? ==>
              && CompletedOf(completed, steps.value, results.value)
              && AllReversible(completed, 0, risk)
              && r.value == Undo(completed, 0, risk)
    ensures r == Failure(PlanRequired) <==> steps.None? || steps.value == [] || results.None?
    ensures r == Failure(IdsNotUnique) <==>
              steps.Some? && steps.value != [] && results.Some? && !IdsUsable(steps.value)
  {
    completed := [];
    if steps.None? || steps.value == [] || results.None? {
      return Failure(PlanRequired), completed;
    }
    var index := IndexSteps(steps.value);
    if index.None? {
      return Failure(IdsNotUnique), completed;
    }
    var byId := index.value;
    if Acceptable(steps.value, results.value, risk) {
      AcceptableMeansSound(byId, steps.value, results.value, risk);
    }
    var read := ReadResults(byId, results.value, risk);
    if read.Failure? {
      return Failure(read.error), completed;
    }
    completed := read.value;
    CompletedIsOf(byId, steps.value, results.value);
    if !NoneMissing(byId, results.value, risk) {
      return Failure(ResultsMissing), completed;
    }
    AcceptableExactly(byId, steps.value, results.value, risk);
    var undo := BuildUndo(read.value, risk);
    if undo.Failure? {
      return Failure(undo.error), completed;
    }
    if undo.value == [] {
      return Failure(NothingToUndo), completed;
    }
    return undo, completed;
  }

  // ----- what the plan does -----

  // What the steps of the plan and the new commands do to the system's state.
  datatype Effects<!S> = Effects(run: (Step, S) -> S, command: (string, S) -> S)

  // Every declared compensation inverts its own step; basic steps and
  // verification commands change nothing.
  ghost predicate Faithful<S(!new)>(e: Effects<S>, completed: seq<Step>, risk: Risk)
    requires AllReversible(completed, 0, risk)
  {
    && (forall i, st: S :: 0 <= i < |completed| && Mutating(completed[i], risk) ==>
          && Reversible(completed[i])
          && e.command(completed[i].rollback.value.command.value, e.run(completed[i], st)) == st)
    && (forall i, st: S :: 0 <= i < |completed| && Mutating(completed[i], risk) ==>
          && Reversible(completed[i])
          && e.command(completed[i].rollback.value.verification.value, st) == st)
    && (forall i, st: S :: 0 <= i < |completed| && !Mutating(completed[i], risk) ==> e.run(completed[i], st) == st)
  }

  function RunSteps<S>(e: Effects<S>, steps: seq<Step>, st: S): S {
    if steps == [] then st else RunSteps(e, steps[1..], e.run(steps[0], st))
  }

  function RunUndo<S>(e: Effects<S>, undo: seq<UndoStep>, st: S): S {
    if undo == [] then st else RunUndo(e, undo[1..], e.command(undo[0].command, st))
  }

  lemma {:induction false} RunUndoAppend<S>(e: Effects<S>, first: seq<UndoStep>, second: seq<UndoStep>, st: S)
    ensures RunUndo(e, first + second, st) == RunUndo(e, second, RunUndo(e, first, st))
  {
    if first == [] {
      assert first + second == second;
    } else {
      RunUndoAppend(e, first[1..], second, e.command(first[0].command, st));
      assert (first + second)[1..] == first[1..] + second;
    }
  }

  lemma RunPair<S>(e: Effects<S>, s: Step, done: nat, st: S)
    requires Reversible(s)
    ensures RunUndo(e, Pair(s, done), st)
         == e.command(s.rollback.value.verification.value, e.command(s.rollback.value.command.value, st))
  {
    var pair := Pair(s, done);
    var middle := e.command(pair[0].command, st);
    assert pair[1..] == [pair[1]];
    assert RunUndo(e, pair, st) == RunUndo(e, [pair[1]], middle);
    assert RunUndo(e, [pair[1]], middle) == RunUndo(e, [], e.command(pair[1].command, middle));
  }

  lemma {:induction false} UndoFromRestores<S(!new)>(e: Effects<S>, completed: seq<Step>, k: nat, risk: Risk, st: S)
    requires k <= |completed| && AllReversible(completed, 0, risk) && Faithful(e, completed, risk)
    ensures RunUndo(e, Undo(completed, k, risk), RunSteps(e, completed[k..], st)) == st
    decreases |completed| - k
  {
    if k < |completed| {
      var s := completed[k];
      var after := e.run(s, st);
      assert completed[k..][1..] == completed[k + 1..];
      UndoFromRestores(e, completed, k + 1, risk, after);
      if Mutating(s, risk) {
        var later := Undo(completed, k + 1, risk);
        RunUndoAppend(e, later, Pair(s, |later|), RunSteps(e, completed[k + 1..], after));
        RunPair(e, s, |later|, after);
      }
    }
  }

  // A saga's promise: running the returned steps after the completed ones
  // gives back the state from before them, whatever the state is.
  lemma UndoRestores<S(!new)>(e: Effects<S>, completed: seq<Step>, risk: Risk, st: S)
    requires AllReversible(completed, 0, risk) && Faithful(e, completed, risk)
    ensures RunUndo(e, Undo(completed, 0, risk), RunSteps(e, completed, st)) == st
  {
    UndoFromRestores(e, completed, 0, risk, st);
    assert completed[0..] == completed;
  }

  // ----- the shape of the plan -----

  // The completed changes from k on, the last one first.
  function Changes(completed: seq<Step>, k: nat, risk: Risk): seq<Step>
    requires k <= |completed|
    decreases |completed| - k
  {
    if k == |completed| then []
    else Changes(completed, k + 1, risk) + if Mutating(completed[k], risk) then [completed[k]] else []
  }

  lemma {:induction false} ChangesAreReversible(completed: seq<Step>, k: nat, risk: Risk)
    requires k <= |completed| && AllReversible(completed, k, risk)
    ensures forall s :: s in Changes(completed, k, risk) <==> Mutating(s, risk) && s in completed[k..]
    ensures forall s :: s in Changes(completed, k, risk) ==> Reversible(s)
    decreases |completed| - k
  {
    if k < |completed| {
      ChangesAreReversible(completed, k + 1, risk);
      assert completed[k..] == [completed[k]] + completed[k + 1..];
    }
  }

  // The declared risk, or "risky" if none is.
  predicate IsRisk(risk: string, c: Compensation) {
    if c.risk != "" then risk == c.risk else risk == "risky"
  }

  // This prefix, and then the step's own description, or its id without one.
  predicate Describes(description: string, prefix: string, s: Step) {
    prefix <= description
    && description[|prefix|..] == if s.description != "" then s.description else Shown(s.id)
  }

  // Steps 2i and 2i + 1 of the plan take change i back and check that.
  ghost predicate Undoes(undo: seq<UndoStep>, i: nat, change: Step)
    requires 2 * i + 1 < |undo|
  {
    && Reversible(change)
    && undo[2 * i].id == "rollback-" + Shown(change.id) + "-undo"
    && undo[2 * i + 1].id == "rollback-" + Shown(change.id) + "-verify"
    && IsRisk(undo[2 * i].risk, change.rollback.value) && IsRisk(undo[2 * i + 1].risk, change.rollback.value)
    && Describes(undo[2 * i].description, "Rollback undo: ", change)
    && Describes(undo[2 * i + 1].description, "Rollback verify: ", change)
    && undo[2 * i].command == change.rollback.value.command.value
    && undo[2 * i + 1].command == change.rollback.value.verification.value
    && undo[2 * i].order == 2 * i + 1 && undo[2 * i + 1].order == 2 * i + 2
  }

  ghost predicate Paired(undo: seq<UndoStep>, changes: seq<Step>) {
    |undo| == 2 * |changes| && forall i: nat :: i < |changes| ==> Undoes(undo, i, changes[i])
  }

  lemma OneMorePair(undo: seq<UndoStep>, changes: seq<Step>, s: Step)
    requires Paired(undo, changes) && Reversible(s)
    ensures Paired(undo + Pair(s, |undo|), changes + [s])
  {
    var more := undo + Pair(s, |undo|);
    forall i: nat | i < |changes| + 1
      ensures Undoes(more, i, (changes + [s])[i])
    {
      if i < |changes| {
        assert Undoes(undo, i, changes[i]);
      }
    }
  }

  // One adjacent undo and verify for every completed change, in reverse order
  // of completion, numbered from 1 without a gap.
  lemma {:induction false} OnePairEach(completed: seq<Step>, k: nat, risk: Risk)
    requires k <= |completed| && AllReversible(completed, k, risk)
    ensures Paired(Undo(completed, k, risk), Changes(completed, k, risk))
    decreases |completed| - k
  {
    if k < |completed| {
      OnePairEach(completed, k + 1, risk);
      if Mutating(completed[k], risk) {
        OneMorePair(Undo(completed, k + 1, risk), Changes(completed, k + 1, risk), completed[k]);
      }
    }
  }

  lemma SuffixesDiffer(a: string, b: string)
    ensures "rollback-" + a + "-undo" != "rollback-" + b + "-verify"
  {
    var u, v := "rollback-" + a + "-undo", "rollback-" + b + "-verify";
    assert u[|u| - 1] == 'o' && v[|v| - 1] == 'y';
  }

  lemma SameShown(a: string, b: string, suffix: string)
    ensures "rollback-" + a + suffix == "rollback-" + b + suffix <==> a == b
  {
    var u, v := "rollback-" + a + suffix, "rollback-" + b + suffix;
    assert u[9..|u| - |suffix|] == a && v[9..|v| - |suffix|] == b;
  }

  ghost predicate DistinctIds(undo: seq<UndoStep>) {
    forall i, j :: 0 <= i < j < |undo| ==> undo[i].id != undo[j].id
  }

  ghost predicate DistinctTexts(changes: seq<Step>) {
    forall i, j :: 0 <= i < j < |changes| ==> Shown(changes[i].id) != Shown(changes[j].id)
  }

  lemma IdOfUndo(undo: seq<UndoStep>, changes: seq<Step>, i: nat)
    requires Paired(undo, changes) && i < |undo|
    ensures i / 2 < |changes|
    ensures undo[i].id == if i % 2 == 0 then UndoId(changes[i / 2]) else VerifyId(changes[i / 2])
  {
    assert Undoes(undo, i / 2, changes[i / 2]);
  }

  lemma CollidingIds(undo: seq<UndoStep>, changes: seq<Step>, i: nat, j: nat)
    requires Paired(undo, changes) && i < j < |undo| && undo[i].id == undo[j].id
    ensures i / 2 < j / 2 < |changes| && Shown(changes[i / 2].id) == Shown(changes[j / 2].id)
  {
    IdOfUndo(undo, changes, i);
    IdOfUndo(undo, changes, j);
    EqualIdsMeanEqualText(changes[i / 2], changes[j / 2], i % 2 == 0, j % 2 == 0);
  }

  lemma CollidingTexts(undo: seq<UndoStep>, changes: seq<Step>, i: nat, j: nat)
    requires Paired(undo, changes) && i < j < |changes| && Shown(changes[i].id) == Shown(changes[j].id)
    ensures 2 * i < 2 * j < |undo| && undo[2 * i].id == undo[2 * j].id
  {
    assert Undoes(undo, i, changes[i]) && Undoes(undo, j, changes[j]);
  }

  // The new step ids are distinct exactly if the original ids of the completed
  // changes read differently as text.
  lemma UndoIdsDistinctExactly(completed: seq<Step>, risk: Risk)
    requires AllReversible(completed, 0, risk)
    ensures DistinctIds(Undo(completed, 0, risk)) <==> DistinctTexts(Changes(completed, 0, risk))
  {
    var undo, changes := Undo(completed, 0, risk), Changes(completed, 0, risk);
    OnePairEach(completed, 0, risk);
    if i, j :| 0 <= i < j < |undo| && undo[i].id == undo[j].id {
      CollidingIds(undo, changes, i, j);
    }
    if i, j :| 0 <= i < j < |changes| && Shown(changes[i].id) == Shown(changes[j].id) {
      CollidingTexts(undo, changes, i, j);
    }
  }

  lemma EqualIdsMeanEqualText(s: Step, t: Step, undoS: bool, undoT: bool)
    requires (if undoS then UndoId(s) else VerifyId(s)) == (if undoT then UndoId(t) else VerifyId(t))
    ensures undoS == undoT && Shown(s.id) == Shown(t.id)
  {
    SuffixesDiffer(Shown(s.id), Shown(t.id));
    SuffixesDiffer(Shown(t.id), Shown(s.id));
    SameShown(Shown(s.id), Shown(t.id), "-undo");
    SameShown(Shown(s.id), Shown(t.id), "-verify");
  }

  // The number 1 and the text "1" are two ids that read the same. A plan
  // holding both is accepted, and its undo steps share their ids.
  lemma NumberAndTextCollide(c: Compensation)
    requires c.supported && IsCommand(c.command) && IsCommand(c.verification)
    ensures var steps := [Step(Number(1), "a", "", Some(c)), Step(Text("1"), "b", "", Some(c))];
            var results := [StepResult(Number(1), true), StepResult(Text("1"), true)];
            && Acceptable(steps, results, _ => "risky")
            && UndoId(steps[0]) == UndoId(steps[1])
  {
    var steps := [Step(Number(1), "a", "", Some(c)), Step(Text("1"), "b", "", Some(c))];
    var results := [StepResult(Number(1), true), StepResult(Text("1"), true)];
    assert steps[0].id == results[0].id && steps[1].id == results[1].id;
    assert Names(steps, results[0].id) && Names(steps, results[1].id);
    assert Mutating(steps[0], _ => "risky");
    assert Decimal.Digits(1) == [1];
    assert Decimal.Figures(1) == "1";
  }
}
