// What decides each branch of the ticket workflow: not the table, but what its
// tasks came back with.

module Decisions {
  import opened Options
  import opened Workflow

  // A choice went by this answer: none stops the run with an error, the wanted
  // one leads to `yes`, and any other to `no`.
  predicate Decided(c: Config, answer: Option<Json>, wanted: Json, yes: Name, no: Name) {
    if answer.None? then c == Aborted else c.At? && c.name == if answer.value == wanted then yes else no
  }

  function Answer(o: Outcome, key: Key): Option<Json>
    requires o.Returned?
  {
    Find(o.json, [Field(key)])
  }

  // ----- one step -----

  lemma OneChoice(c: Config, o: Outcome, test: Test, yes: Name, no: Name)
    requires c.At? && Table(c.name, None) == Choice([(test, yes)], no)
    ensures Next(c, o, None) == match Holds(test, c.doc)
                                case None => Aborted
                                case Some(holds) => At(if holds then yes else no, c.doc)
  {
    var choices := [(test, yes)];
    assert choices[1..] == [];
    assert Choose(choices[1..], no, c.doc) == Some(no);
  }

  lemma FindPut(doc: Json, key: Key, value: Json, rest: Path)
    requires doc.Object?
    ensures Find(Object(doc.fields[key := value]), [Field(key)] + rest) == Find(value, rest)
    ensures forall other :: other != key ==>
              Find(Object(doc.fields[key := value]), [Field(other)] + rest) == Find(doc, [Field(other)] + rest)
  {
    assert ([Field(key)] + rest)[1..] == rest;
    forall other | other != key
      ensures Find(Object(doc.fields[key := value]), [Field(other)] + rest) == Find(doc, [Field(other)] + rest)
    {
      assert ([Field(other)] + rest)[1..] == rest;
    }
  }

  // A task whose parameters are there and that returns goes on, its result in
  // its place; a run that is where the task leads got there so.
  lemma NodeReturns(node: Node, c: Config, o: Outcome, rest: Path)
    requires c.At? && node.Task? && (node.catch.Some? ==> node.catch.value.next != node.next)
    ensures var next := Step(node, c, o);
            && (next.At? && next.name == node.next ==>
                  && o.Returned? && c.doc.Object? && Build(node.parameters, c.doc).Some?
                  && next.doc == Object(c.doc.fields[node.result := o.json])
                  && Find(next.doc, [Field(node.result)] + rest) == Find(o.json, rest))
            && (o.Returned? && c.doc.Object? && Build(node.parameters, c.doc).Some? ==>
                  next.At? && next.name == node.next)
  {
    if c.doc.Object? && o.Returned? {
      FindPut(c.doc, node.result, o.json, rest);
    }
  }

  lemma TaskReturns(c: Config, o: Outcome, result: Key, rest: Path)
    requires c.At? && Table(c.name, None).Task? && Table(c.name, None).result == result
    requires Table(c.name, None).catch.Some? ==> Table(c.name, None).catch.value.next != Table(c.name, None).next
    ensures var next, node := Next(c, o, None), Table(c.name, None);
            && (next.At? && next.name == node.next ==>
                  && o.Returned? && c.doc.Object? && Build(node.parameters, c.doc).Some?
                  && next.doc == Object(c.doc.fields[result := o.json])
                  && Find(next.doc, [Field(result)] + rest) == Find(o.json, rest))
            && (o.Returned? && c.doc.Object? && Build(node.parameters, c.doc).Some? ==>
                  next.At? && next.name == node.next)
  {
    NodeReturns(Table(c.name, None), c, o, rest);
  }

  lemma Linked(configs: seq<Config>, outcomes: seq<Outcome>, n: nat)
    requires Run(configs, outcomes) && n < |outcomes|
    ensures configs[n + 1] == Next(configs[n], outcomes[n], None)
    ensures Inv(configs[n]) && Inv(configs[n + 1]) && StepsTo(configs[n], configs[n + 1])
  {
    EveryStep(configs, outcomes, n);
    assert LinkedAt(configs, outcomes, n);
  }

  // ----- resolution -----

  lemma StatusIsAsked(c: Config, o: Outcome)
    requires c.At? && c.name.CheckTicketStatus? && Inv(c)
    ensures Next(c, o, None).At? <==> o.Returned?
    ensures o.Returned? ==>
              && Next(c, o, None).name.IsTicketResolved?
              && Find(Next(c, o, None).doc, Dot(StatusCheck, ResolutionStatus)) == Answer(o, ResolutionStatus)
    ensures o.Failed? ==> Next(c, o, None) == Aborted
  {
    NamedFromState(c.doc, Attempt(c), [TicketId, TenantId]);
    BuildExactly(Table(CheckTicketStatus, None).parameters, c.doc);
    TaskReturns(c, o, StatusCheck, [Field(ResolutionStatus)]);
    assert Dot(StatusCheck, ResolutionStatus) == [Field(StatusCheck)] + [Field(ResolutionStatus)];
  }

  lemma StatusIsChecked(c: Config, o: Outcome)
    requires c.At? && c.name.IsTicketResolved?
    ensures Decided(Next(c, o, None), Find(c.doc, Dot(StatusCheck, ResolutionStatus)), Text("resolved"),
                    RegisterSuccessfulCase, IncrementAttempt)
  {
    OneChoice(c, o, TextIs(Dot(StatusCheck, ResolutionStatus), "resolved"), RegisterSuccessfulCase, IncrementAttempt);
  }

  // A ticket whose status check comes back "resolved" is registered as a
  // success; with any other status another attempt is counted, and without one
  // the run stops with an error.
  lemma ResolutionDecides(configs: seq<Config>, outcomes: seq<Outcome>, n: nat)
    requires Run(configs, outcomes) && n + 1 < |outcomes| && configs[n].At? && configs[n].name.CheckTicketStatus?
    ensures outcomes[n].Failed? ==> configs[n + 1] == Aborted
    ensures outcomes[n].Returned? ==>
              Decided(configs[n + 2], Answer(outcomes[n], ResolutionStatus), Text("resolved"),
                      RegisterSuccessfulCase, IncrementAttempt)
  {
    Linked(configs, outcomes, n);
    Linked(configs, outcomes, n + 1);
    StatusIsAsked(configs[n], outcomes[n]);
    if outcomes[n].Returned? {
      StatusIsChecked(configs[n + 1], outcomes[n + 1]);
    }
  }

  lemma ResolutionPredecessors(name: Name, next: Name)
    requires next in Successors(name)
    ensures next.RegisterSuccessfulCase? || next.IncrementAttempt? ==> name.IsTicketResolved?
    ensures next.IsTicketResolved? ==> name.CheckTicketStatus?
    ensures next.RegisterRejectedCase? ==> name.CheckApproval?
    ensures next.CheckApproval? ==> name.WaitForApproval?
    ensures next.RegisterFailedCase? ==> name.MarkExecutionFailed? || name.CheckAttemptsRemaining?
    ensures next.MarkExecutionFailed? ==> name.ExecuteTicketPlan?
    ensures !next.AssessTicketAutomation?
  {
  }

  lemma CameFromName(configs: seq<Config>, outcomes: seq<Outcome>, n: nat)
    requires Run(configs, outcomes) && n < |configs| && configs[n].At? && !configs[n].name.AssessTicketAutomation?
    ensures 0 < n && configs[n - 1].At? && configs[n].name in Successors(configs[n - 1].name)
  {
    Linked(configs, outcomes, n - 1);
  }

  // A success is registered only right after a status check that came back
  // "resolved", and an attempt is counted only after another status.
  lemma SuccessWasResolved(configs: seq<Config>, outcomes: seq<Outcome>, n: nat)
    requires Run(configs, outcomes) && n < |configs| && configs[n].At?
    requires configs[n].name.RegisterSuccessfulCase? || configs[n].name.IncrementAttempt?
    ensures 2 <= n && configs[n - 2].At? && configs[n - 2].name.CheckTicketStatus? && outcomes[n - 2].Returned?
    ensures Answer(outcomes[n - 2], ResolutionStatus).Some?
    ensures configs[n].name.RegisterSuccessfulCase?
            <==> Answer(outcomes[n - 2], ResolutionStatus) == Some(Text("resolved"))
  {
    CameFromName(configs, outcomes, n);
    ResolutionPredecessors(configs[n - 1].name, configs[n].name);
    CameFromName(configs, outcomes, n - 1);
    ResolutionPredecessors(configs[n - 2].name, configs[n - 1].name);
    ResolutionDecides(configs, outcomes, n - 2);
  }

  // ----- approval -----

  lemma ApprovalIsAsked(c: Config, o: Outcome)
    requires c.At? && c.name.WaitForApproval? && Inv(c)
    ensures o.Returned? ==>
              && Next(c, o, None).At? && Next(c, o, None).name.CheckApproval?
              && Find(Next(c, o, None).doc, Dot(Approval, Approved)) == Answer(o, Approved)
    ensures o.Failed? && o.error.Timeout? ==> Next(c, o, None).At? && Next(c, o, None).name.RegisterTimeoutCase?
    ensures o.Failed? && !o.error.Timeout? ==> Next(c, o, None) == Aborted
  {
    WaitingParametersResolve(c, None);
    TaskReturns(c, o, Approval, [Field(Approved)]);
    assert Dot(Approval, Approved) == [Field(Approval)] + [Field(Approved)];
  }

  // A plan is executed if its approval comes back true; any other answer is a
  // rejection, and none, like an error, stops the run.
  lemma ApprovalDecides(configs: seq<Config>, outcomes: seq<Outcome>, n: nat)
    requires Run(configs, outcomes) && n + 1 < |outcomes| && configs[n].At? && configs[n].name.WaitForApproval?
    ensures outcomes[n].Returned? ==>
              Decided(configs[n + 2], Answer(outcomes[n], Approved), Bool(true),
                      ExecuteTicketPlan, RegisterRejectedCase)
    ensures outcomes[n].Failed? ==>
              if outcomes[n].error.Timeout? then configs[n + 1].At? && configs[n + 1].name.RegisterTimeoutCase?
              else configs[n + 1] == Aborted
  {
    Linked(configs, outcomes, n);
    Linked(configs, outcomes, n + 1);
    ApprovalIsAsked(configs[n], outcomes[n]);
    if outcomes[n].Returned? {
      OneChoice(configs[n + 1], outcomes[n + 1], BooleanIs(Dot(Approval, Approved), true),
                ExecuteTicketPlan, RegisterRejectedCase);
    }
  }

  // A rejection is registered only right after an approval that came back with
  // something other than true.
  lemma RejectionWasNotApproved(configs: seq<Config>, outcomes: seq<Outcome>, n: nat)
    requires Run(configs, outcomes) && n < |configs| && configs[n].At? && configs[n].name.RegisterRejectedCase?
    ensures 2 <= n && configs[n - 2].At? && configs[n - 2].name.WaitForApproval? && outcomes[n - 2].Returned?
    ensures Answer(outcomes[n - 2], Approved).Some? && Answer(outcomes[n - 2], Approved) != Some(Bool(true))
  {
    CameFromName(configs, outcomes, n);
    ResolutionPredecessors(configs[n - 1].name, configs[n].name);
    CameFromName(configs, outcomes, n - 1);
    ResolutionPredecessors(configs[n - 2].name, configs[n - 1].name);
    Linked(configs, outcomes, n - 2);
    ApprovalIsAsked(configs[n - 2], outcomes[n - 2]);
    ApprovalDecides(configs, outcomes, n - 2);
  }

  // ----- before the loop -----

  // The ticket can be worked on if the assessment, of an input that is
  // complete, comes back with `canResolve` true.
  lemma AssessmentDecides(configs: seq<Config>, outcomes: seq<Outcome>)
    requires Run(configs, outcomes) && 1 < |outcomes|
    ensures configs[1].At? <==>
              && outcomes[0].Returned? && configs[0].doc.Object?
              && forall key :: key in {TicketId, TenantId, Subject, Description} ==>
                   Find(configs[0].doc, Dot(Input, key)).Some?
    ensures configs[1].At? ==>
              Decided(configs[2], Answer(outcomes[0], CanResolve), Bool(true), SearchSimilarCases, EndCannotResolve)
  {
    var c, o := configs[0], outcomes[0];
    Linked(configs, outcomes, 0);
    Linked(configs, outcomes, 1);
    var keys := [TicketId, TenantId, Subject, Description];
    NamedResolve(c.doc, keys, [(Phase, Value(Text("assessment")))]);
    assert forall key :: key in {TicketId, TenantId, Subject, Description} <==> key in keys;
    AssessmentIsAsked(c, o);
    if configs[1].At? {
      OneChoice(configs[1], outcomes[1], BooleanIs(Dot(Assessment, CanResolve), true),
                SearchSimilarCases, EndCannotResolve);
    }
  }

  lemma AssessmentIsAsked(c: Config, o: Outcome)
    requires c.At? && c.name.AssessTicketAutomation?
    ensures Next(c, o, None).At? <==>
              o.Returned? && c.doc.Object? && Build(Table(AssessTicketAutomation, None).parameters, c.doc).Some?
    ensures Next(c, o, None).At? ==>
              && Next(c, o, None).name.CheckCanResolve?
              && Find(Next(c, o, None).doc, Dot(Assessment, CanResolve)) == Answer(o, CanResolve)
  {
    TaskReturns(c, o, Assessment, [Field(CanResolve)]);
    assert Dot(Assessment, CanResolve) == [Field(Assessment)] + [Field(CanResolve)];
  }

  lemma NamedResolve(doc: Json, keys: seq<Key>, fixed: seq<(Key, Source)>)
    requires forall i :: 0 <= i < |fixed| ==> fixed[i].1.Value?
    ensures Build(Named(keys, Input) + fixed, doc).Some? <==>
              forall key :: key in keys ==> Find(doc, Dot(Input, key)).Some?
  {
    var parameters := Named(keys, Input) + fixed;
    BuildExactly(parameters, doc);
    if Build(parameters, doc).Some? {
      forall key | key in keys
        ensures Find(doc, Dot(Input, key)).Some?
      {
        var i :| 0 <= i < |keys| && keys[i] == key;
        assert Fetch(parameters[i].1, doc).Some?;
      }
    } else {
      var i :| 0 <= i < |parameters| && Fetch(parameters[i].1, doc).None?;
      assert i < |keys| && keys[i] in keys;
    }
  }

  // The plan draws on a similar case if the search comes back with one.
  lemma SearchDecides(configs: seq<Config>, outcomes: seq<Outcome>, n: nat)
    requires Run(configs, outcomes) && n + 1 < |outcomes| && configs[n].At? && configs[n].name.SearchSimilarCases?
    requires configs[n + 1].At?
    ensures outcomes[n].Returned?
    ensures Decided(configs[n + 2], Answer(outcomes[n], SimilarCaseFound), Bool(true),
                    AssessTicketPlanWithSimilar, AssessTicketPlan)
    ensures configs[n + 1].doc.Object? && Find(configs[n + 1].doc, Dot(SimilarCases, SimilarCaseFound))
                                       == Answer(outcomes[n], SimilarCaseFound)
    ensures configs[n + 2].At? ==> configs[n + 2].doc == configs[n + 1].doc
  {
    Linked(configs, outcomes, n);
    Linked(configs, outcomes, n + 1);
    TaskReturns(configs[n], outcomes[n], SimilarCases, [Field(SimilarCaseFound)]);
    assert Dot(SimilarCases, SimilarCaseFound) == [Field(SimilarCases)] + [Field(SimilarCaseFound)];
    OneChoice(configs[n + 1], outcomes[n + 1], BooleanIs(Dot(SimilarCases, SimilarCaseFound), true),
              AssessTicketPlanWithSimilar, AssessTicketPlan);
  }

  const FIRST_PLAN := [Field(Plans), Index(0), Field(Plan), Index(0)]

  predicate AsksForPlan(name: Name) {
    name.AssessTicketPlan? || name.AssessTicketPlanWithSimilar?
  }

  lemma PlanIsAsked(c: Config, o: Outcome)
    requires c.At? && AsksForPlan(c.name)
    ensures c.doc.Object? ==> Next(c, o, None).At?
    ensures o.Failed? && c.doc.Object? ==> Next(c, o, None).name.MarkPlanUnavailable?
    ensures Next(c, o, None).At? && Next(c, o, None).name.CheckPlansAvailable? ==>
              && o.Returned? && c.doc.Object? && Next(c, o, None).doc == Object(c.doc.fields[Plan := o.json])
              && Find(Next(c, o, None).doc, [Field(Plan)] + FIRST_PLAN) == Find(o.json, FIRST_PLAN)
  {
    TaskReturns(c, o, Plan, FIRST_PLAN);
  }

  lemma PlanIsChecked(c: Config, o: Outcome)
    requires c.At? && c.name.CheckPlansAvailable?
    ensures Next(c, o, None) == At(if Find(c.doc, [Field(Plan)] + FIRST_PLAN).Some? then CheckSimilarCaseForInit
                                   else Name.MarkPlanUnavailable, c.doc)
  {
    var path := Dot(Plan, Plans) + [Index(0), Field(Plan), Index(0)];
    assert path == [Field(Plan)] + FIRST_PLAN;
    OneChoice(c, o, IsPresent(path), CheckSimilarCaseForInit, Name.MarkPlanUnavailable);
  }

  // The work goes on if the planner returns a first plan with a first step;
  // otherwise, and if it fails, the ticket is marked as having none.
  lemma PlanDecides(configs: seq<Config>, outcomes: seq<Outcome>, n: nat)
    requires Run(configs, outcomes) && n + 1 < |outcomes| && configs[n].At? && AsksForPlan(configs[n].name)
    ensures configs[n].doc.Object? ==> configs[n + 1].At?
    ensures outcomes[n].Failed? && configs[n].doc.Object? ==> configs[n + 1].name.MarkPlanUnavailable?
    ensures configs[n + 1].At? && configs[n + 1].name.CheckPlansAvailable? ==>
              && outcomes[n].Returned? && configs[n + 2].At?
              && configs[n + 2].name == (if Find(outcomes[n].json, FIRST_PLAN).Some? then CheckSimilarCaseForInit
                                         else Name.MarkPlanUnavailable)
              && configs[n].doc.Object? && configs[n + 2].doc == Object(configs[n].doc.fields[Plan := outcomes[n].json])
  {
    Linked(configs, outcomes, n);
    Linked(configs, outcomes, n + 1);
    PlanIsAsked(configs[n], outcomes[n]);
    if configs[n + 1].At? && configs[n + 1].name.CheckPlansAvailable? {
      PlanIsChecked(configs[n + 1], outcomes[n + 1]);
    }
  }

  lemma PlanningPredecessors(name: Name, next: Name)
    requires next in Successors(name)
    ensures next.CheckSimilarCaseForInit? ==> name.CheckPlansAvailable?
    ensures next.CheckPlansAvailable? ==> AsksForPlan(name)
    ensures AsksForPlan(next) ==> name.CheckSimilarCase?
    ensures !next.AssessTicketAutomation?
  {
  }

  lemma PlanningPath(configs: seq<Config>, outcomes: seq<Outcome>, n: nat)
    requires Run(configs, outcomes) && 3 <= n < |configs|
    requires configs[n].At? && configs[n].name.CheckSimilarCaseForInit?
    ensures configs[n - 1].At? && configs[n - 1].name.CheckPlansAvailable?
    ensures configs[n - 2].At? && AsksForPlan(configs[n - 2].name)
    ensures configs[n - 3].At? && configs[n - 3].name.CheckSimilarCase?
  {
    CameFromName(configs, outcomes, n);
    PlanningPredecessors(configs[n - 1].name, configs[n].name);
    CameFromName(configs, outcomes, n - 1);
    PlanningPredecessors(configs[n - 2].name, configs[n - 1].name);
    CameFromName(configs, outcomes, n - 2);
    PlanningPredecessors(configs[n - 3].name, configs[n - 2].name);
  }

  lemma SimilarCaseStays(configs: seq<Config>, outcomes: seq<Outcome>, n: nat)
    requires Run(configs, outcomes) && n + 4 < |outcomes| && configs[n].At? && configs[n].name.SearchSimilarCases?
    requires configs[n + 4].At? && configs[n + 4].name.CheckSimilarCaseForInit?
    ensures outcomes[n].Returned?
    ensures Find(configs[n + 4].doc, Dot(SimilarCases, SimilarCaseFound)) == Answer(outcomes[n], SimilarCaseFound)
  {
    PlanningPath(configs, outcomes, n + 4);
    SearchDecides(configs, outcomes, n);
    PlanDecides(configs, outcomes, n + 2);
    FindPut(configs[n + 2].doc, Plan, outcomes[n + 2].json, [Field(SimilarCaseFound)]);
    assert Dot(SimilarCases, SimilarCaseFound) == [Field(SimilarCases)] + [Field(SimilarCaseFound)];
  }

  // The case the search found is still there when the attempts are set up.
  lemma SimilarCaseIsKept(configs: seq<Config>, outcomes: seq<Outcome>, n: nat)
    requires Run(configs, outcomes) && n + 4 < |outcomes| && configs[n].At? && configs[n].name.SearchSimilarCases?
    requires configs[n + 4].At? && configs[n + 4].name.CheckSimilarCaseForInit?
    ensures outcomes[n].Returned?
    ensures Decided(configs[n + 5], Answer(outcomes[n], SimilarCaseFound), Bool(true),
                    InitializeAttemptCounterWithSimilar, InitializeAttemptCounterNoSimilar)
  {
    SimilarCaseStays(configs, outcomes, n);
    Linked(configs, outcomes, n + 4);
    OneChoice(configs[n + 4], outcomes[n + 4], BooleanIs(Dot(SimilarCases, SimilarCaseFound), true),
              InitializeAttemptCounterWithSimilar, InitializeAttemptCounterNoSimilar);
  }

  // ----- attempts -----

  function Executions(configs: seq<Config>, n: nat): nat
    requires n <= |configs|
  {
    Visits(configs, {ExecuteTicketPlan}, n)
  }

  // Another approval is asked for exactly until the plan was executed twice.
  lemma AttemptsDecide(configs: seq<Config>, outcomes: seq<Outcome>, n: nat)
    requires Run(configs, outcomes) && n < |outcomes| && configs[n].At? && configs[n].name.CheckAttemptsRemaining?
    ensures configs[n + 1].At?
    ensures configs[n + 1].name == if Executions(configs, n) < 2 then WaitForApproval else RegisterFailedCase
  {
    Linked(configs, outcomes, n);
    ExecutionsCounted(configs, outcomes, n);
    KeptByChecking(configs[n], outcomes[n]);
  }

  // An execution counts as done if it returns, of a plan that the approval
  // selected; otherwise it is marked as failed.
  lemma ExecutionDecides(configs: seq<Config>, outcomes: seq<Outcome>, n: nat)
    requires Run(configs, outcomes) && n < |outcomes| && configs[n].At? && configs[n].name.ExecuteTicketPlan?
    ensures configs[n + 1].At?
    ensures configs[n + 1].name ==
              if && outcomes[n].Returned?
                 && Find(configs[n].doc, Dot(Approval, SelectedPlan)).Some?
                 && Find(configs[n].doc, Dot(Plan, Plan)).Some?
              then CheckTicketStatus else MarkExecutionFailed
  {
    var c := configs[n];
    Linked(configs, outcomes, n);
    var keys := [TicketId, TenantId, Subject, Description];
    var parameters := Table(ExecuteTicketPlan, None).parameters;
    NamedFromState(c.doc, Attempt(c), keys);
    BuildExactly(parameters, c.doc);
    assert parameters[4] == (Plan, From(Dot(Approval, SelectedPlan)));
    assert parameters[5] == (Other("recommendedPlan"), From(Dot(Plan, Plan)));
  }

  // A failure is registered only after two executions that resolved nothing,
  // or right after one that was marked as failed.
  lemma FailureWasEarned(configs: seq<Config>, outcomes: seq<Outcome>, n: nat)
    requires Run(configs, outcomes) && n < |configs| && configs[n].At? && configs[n].name.RegisterFailedCase?
    ensures 0 < n && configs[n - 1].At?
    ensures || configs[n - 1].name.MarkExecutionFailed?
            || (configs[n - 1].name.CheckAttemptsRemaining? && Executions(configs, n) == 2)
  {
    CameFromName(configs, outcomes, n);
    ResolutionPredecessors(configs[n - 1].name, configs[n].name);
    if configs[n - 1].name.CheckAttemptsRemaining? {
      AttemptsDecide(configs, outcomes, n - 1);
      AtMostTwoExecutions(configs, outcomes);
      ExecutionsCounted(configs, outcomes, n);
    }
  }

  // ----- what is registered -----

  // The payload of the task at a configuration.
  function Payload(c: Config): Option<map<Key, Json>>
    requires c.At?
  {
    if Table(c.name, None).Task? then Build(Table(c.name, None).parameters, c.doc) else None
  }

  ghost predicate Says(payload: map<Key, Json>, key: Key, value: Json) {
    key in payload && payload[key] == value
  }

  function ActionOf(name: Name): string {
    if name.RegisterSuccessfulCase? then "success"
    else if name.RegisterFailedCase? then "failed_after_attempts" else "rejected"
  }

  ghost predicate LastOf(parameters: seq<(Key, Source)>, i: nat, key: Key, source: Source) {
    && i < |parameters| && parameters[i] == (key, source)
    && forall j :: i < j < |parameters| ==> parameters[j].0 != key
  }

  ghost predicate Lists(parameters: seq<(Key, Source)>, action: string, k: nat) {
    && LastOf(parameters, 0, TicketId, From(Dot(State, TicketId)))
    && LastOf(parameters, k, Action, Value(Text(action)))
    && LastOf(parameters, k + 1, TotalAttempts, From(Dot(State, AttemptCount)))
  }

  lemma ListsInTail(keys: seq<Key>, action: string, tail: seq<(Key, Source)>)
    requires keys != [] && keys[0] == TicketId && forall j :: 0 < j < |keys| ==> keys[j] != TicketId
    requires forall j :: 0 <= j < |tail| ==> tail[j].0 !in {TicketId, Action, TotalAttempts}
    ensures Lists(Named(keys, State) + [(Action, Value(Text(action))), (TotalAttempts, From(Dot(State, AttemptCount)))]
                  + tail, action, |keys|)
  {
    var parameters := Named(keys, State)
      + [(Action, Value(Text(action))), (TotalAttempts, From(Dot(State, AttemptCount)))] + tail;
    forall j | 0 <= j < |parameters|
      ensures parameters[j].0 == if j < |keys| then keys[j] else if j == |keys| then Action
                                 else if j == |keys| + 1 then TotalAttempts else tail[j - |keys| - 2].0
    {
    }
  }

  lemma SuccessLists()
    ensures Lists(Table(RegisterSuccessfulCase, None).parameters, "success", 4)
  {
    var keys := [TicketId, TenantId, Subject, SimilarCaseId];
    var solution := (SolutionApplied, From(Dot(StatusCheck, SolutionApplied)));
    var plan := (PlanUsed, From(Dot(Approval, SelectedPlan)));
    ListsInTail(keys, "success", [solution, plan]);
    assert Table(RegisterSuccessfulCase, None).parameters == Named(keys, State)
      + [(Action, Value(Text("success"))), (TotalAttempts, From(Dot(State, AttemptCount)))] + [solution, plan];
  }

  lemma FailureLists()
    ensures Lists(Table(RegisterFailedCase, None).parameters, "failed_after_attempts", 4)
  {
    var keys := [TicketId, TenantId, Subject, SolutionApplied];
    ListsInTail(keys, "failed_after_attempts", []);
    assert Table(RegisterFailedCase, None).parameters == Named(keys, State)
      + [(Action, Value(Text("failed_after_attempts"))), (TotalAttempts, From(Dot(State, AttemptCount)))] + [];
  }

  lemma RejectionLists()
    ensures Lists(Table(RegisterRejectedCase, None).parameters, "rejected", 3)
  {
    var keys := [TicketId, TenantId, Subject];
    ListsInTail(keys, "rejected", []);
    assert Table(RegisterRejectedCase, None).parameters == Named(keys, State)
      + [(Action, Value(Text("rejected"))), (TotalAttempts, From(Dot(State, AttemptCount)))] + [];
  }

  lemma PayloadSays(parameters: seq<(Key, Source)>, doc: Json, action: string, k: nat, attempts: int)
    requires Lists(parameters, action, k) && Build(parameters, doc).Some?
    requires Find(doc, Dot(State, AttemptCount)) == Some(Number(attempts))
    ensures var payload := Build(parameters, doc).value;
            && Says(payload, Action, Text(action)) && Says(payload, TotalAttempts, Number(attempts))
            && TicketId in payload && Some(payload[TicketId]) == Find(doc, Dot(State, TicketId))
  {
    BuiltField(parameters, doc, k);
    BuiltField(parameters, doc, k + 1);
    BuiltField(parameters, doc, 0);
  }

  // A registration names its ticket and its action, and the attempt counter.
  lemma PayloadOfRegistration(c: Config)
    requires c.At? && Inv(c) && c.name in REGISTRATIONS && Payload(c).Some?
    ensures Says(Payload(c).value, Action, Text(ActionOf(c.name)))
    ensures Says(Payload(c).value, TotalAttempts, Number(Attempt(c)))
    ensures TicketId in Payload(c).value
    ensures Some(Payload(c).value[TicketId]) == Find(c.doc, Dot(State, TicketId))
  {
    FindInState(c.doc, AttemptCount);
    if c.name == RegisterSuccessfulCase {
      SuccessLists();
      PayloadSays(Table(RegisterSuccessfulCase, None).parameters, c.doc, "success", 4, Attempt(c));
    } else if c.name == RegisterFailedCase {
      FailureLists();
      PayloadSays(Table(RegisterFailedCase, None).parameters, c.doc, "failed_after_attempts", 4, Attempt(c));
    } else {
      RejectionLists();
      PayloadSays(Table(RegisterRejectedCase, None).parameters, c.doc, "rejected", 3, Attempt(c));
    }
  }

  // The attempts that a registration reports are the executions of its run,
  // and one more for a rejected one and for one given up after two executions.
  lemma ReportedAttempts(configs: seq<Config>, outcomes: seq<Outcome>, n: nat)
    requires Run(configs, outcomes) && n < |configs| && configs[n].At? && configs[n].name in REGISTRATIONS
    requires Payload(configs[n]).Some?
    ensures 0 < n && configs[n - 1].At?
    ensures Says(Payload(configs[n]).value, TotalAttempts,
                 Number(Executions(configs, n) + if configs[n].name.RegisterRejectedCase?
                                                    || configs[n - 1].name.CheckAttemptsRemaining? then 1 else 0))
  {
    CameFromName(configs, outcomes, n);
    PayloadOfRegistrationInRun(configs, outcomes, n);
    ResolutionPredecessors(configs[n - 1].name, configs[n].name);
    if configs[n - 1].name.MarkExecutionFailed? {
      MarkedAfterExecution(configs, outcomes, n - 1);
    } else {
      ExecutionsCounted(configs, outcomes, n - 1);
    }
    Linked(configs, outcomes, n - 1);
  }

  lemma PayloadOfRegistrationInRun(configs: seq<Config>, outcomes: seq<Outcome>, n: nat)
    requires Run(configs, outcomes) && n < |configs| && configs[n].At? && configs[n].name in REGISTRATIONS
    requires Payload(configs[n]).Some?
    ensures Says(Payload(configs[n]).value, TotalAttempts, Number(Attempt(configs[n])))
  {
    AlwaysInv(configs, outcomes, n);
    PayloadOfRegistration(configs[n]);
  }

  lemma MarkedAfterExecution(configs: seq<Config>, outcomes: seq<Outcome>, n: nat)
    requires Run(configs, outcomes) && n < |configs| && configs[n].At? && configs[n].name.MarkExecutionFailed?
    ensures Executions(configs, n) == Attempt(configs[n])
  {
    CameFromName(configs, outcomes, n);
    ResolutionPredecessors(configs[n - 1].name, configs[n].name);
    ExecutionsCounted(configs, outcomes, n - 1);
    assert StepsTo(configs[n - 1], configs[n]) by {
      Linked(configs, outcomes, n - 1);
    }
  }

  // ----- which ticket, which plan -----

  const TICKET := {TicketId, TenantId, Subject, Description}

  // What the run was started for is still in its input.
  predicate KeepsInput(doc: Json, origin: Json, key: Key) {
    Find(doc, Dot(Input, key)) == Find(origin, Dot(Input, key))
  }

  // And the state of the loop says the same.
  predicate CarriesTicket(doc: Json, origin: Json, key: Key) {
    Find(doc, Dot(State, key)) == Find(origin, Dot(Input, key))
  }

  predicate SameTicket(c: Config, origin: Json, key: Key) {
    c.At? && !c.name.RegisterTimeoutCase? && !c.name.EndTimeoutRegistered? ==>
      KeepsInput(c.doc, origin, key) && (HasState(c.name) ==> CarriesTicket(c.doc, origin, key))
  }

  lemma PutKeepsTicket(doc: Json, at: Key, value: Json, origin: Json, key: Key)
    requires doc.Object? && at != Input
    ensures KeepsInput(doc, origin, key) ==> KeepsInput(Object(doc.fields[at := value]), origin, key)
    ensures at != State && CarriesTicket(doc, origin, key) ==>
              CarriesTicket(Object(doc.fields[at := value]), origin, key)
  {
    FindPut(doc, at, value, [Field(key)]);
    assert Dot(Input, key) == [Field(Input)] + [Field(key)];
    assert Dot(State, key) == [Field(State)] + [Field(key)];
  }

  // A node that writes neither the input nor the state.
  predicate WritesElsewhere(node: Node) {
    match node
    case Task(_, result, _, catch) =>
      result !in {Input, State} && (catch.Some? && catch.value.at.Some? ==> catch.value.at.value !in {Input, State})
    case Choice(_, _) => true
    case _ => false
  }

  // A document that still says the same of this ticket.
  predicate NoLess(after: Json, doc: Json, origin: Json, key: Key) {
    && (KeepsInput(doc, origin, key) ==> KeepsInput(after, origin, key))
    && (CarriesTicket(doc, origin, key) ==> CarriesTicket(after, origin, key))
  }

  lemma CatchKeepsTicket(catch: Option<Catcher>, error: Error, cause: string, doc: Json, origin: Json, key: Key)
    requires catch.Some? && catch.value.at.Some? ==> catch.value.at.value !in {Input, State}
    ensures var next := Caught(catch, error, cause, doc);
            next.At? && !(catch.Some? && catch.value.at.None?) ==> NoLess(next.doc, doc, origin, key)
    ensures Caught(catch, error, cause, doc).At? ==>
              catch.Some? && Caught(catch, error, cause, doc).name == catch.value.next
  {
    if doc.Object? && catch.Some? && catch.value.at.Some? {
      PutKeepsTicket(doc, catch.value.at.value, ErrorOutput(error, cause), origin, key);
    }
  }

  // The Catch of this node leads there and leaves nothing but the error.
  predicate ReplacedAll(node: Node, next: Name) {
    node.Task? && node.catch.Some? && node.catch.value.at.None? && next == node.catch.value.next
  }

  lemma ElsewhereKeepsTicket(node: Node, c: Config, o: Outcome, origin: Json, key: Key)
    requires c.At? && WritesElsewhere(node)
    ensures var next := Step(node, c, o);
            next.At? && !ReplacedAll(node, next.name) ==> NoLess(next.doc, c.doc, origin, key)
  {
    if node.Task? {
      CatchKeepsTicket(node.catch, OtherError("States.ParameterPathFailure"), "", c.doc, origin, key);
      match o
      case Failed(error, cause) => CatchKeepsTicket(node.catch, error, cause, c.doc, origin, key);
      case Returned(json) =>
        if c.doc.Object? {
          PutKeepsTicket(c.doc, node.result, json, origin, key);
        }
    }
  }

  lemma MostWriteElsewhere(name: Name)
    requires !name.IncrementAttempt? && !Initializes(name) && Successors(name) != {}
    ensures WritesElsewhere(Table(name, None))
  {
  }

  // A state that is written anew takes this field from there.
  lemma WrittenField(doc: Json, parameters: seq<(Key, Source)>, i: nat, key: Key, from: Key)
    requires doc.Object? && LastOf(parameters, i, key, From(Dot(from, key))) && Build(parameters, doc).Some?
    ensures Find(Object(doc.fields[State := Object(Build(parameters, doc).value)]), Dot(State, key))
         == Find(doc, Dot(from, key))
  {
    var built := Build(parameters, doc).value;
    FindPut(doc, State, Object(built), [Field(key)]);
    assert Dot(State, key) == [Field(State)] + [Field(key)];
    BuiltField(parameters, doc, i);
    assert [Field(key)][1..] == [];
  }

  lemma WrittenStateCarriesTicket(c: Config, o: Outcome, parameters: seq<(Key, Source)>, i: nat, from: Key,
                                  origin: Json, key: Key)
    requires c.At? && LastOf(parameters, i, key, From(Dot(from, key))) && KeepsInput(c.doc, origin, key)
    requires if from == State then CarriesTicket(c.doc, origin, key) else from == Input
    ensures SameTicket(Step(Pass(parameters, State, CheckAttemptsRemaining), c, o), origin, key)
  {
    var built := Build(parameters, c.doc);
    if c.doc.Object? && built.Some? {
      PutKeepsTicket(c.doc, State, Object(built.value), origin, key);
      WrittenField(c.doc, parameters, i, key, from);
    }
  }

  lemma TicketIsOneOf(parameters: seq<(Key, Source)>, i: nat, key: Key, source: Source)
    requires Complete(parameters) && i < 4 && parameters[i] == (key, source)
    ensures LastOf(parameters, i, key, source)
  {
  }

  lemma IncrementedTicket(key: Key) returns (i: nat)
    requires key in TICKET
    ensures LastOf(Incremented(), i, key, From(Dot(State, key)))
  {
    var parameters := Incremented();
    assert parameters[0] == Carried(TicketId) && parameters[1] == Carried(TenantId);
    assert parameters[2] == Carried(Subject) && parameters[3] == Carried(Description);
    i := if key == TicketId then 0 else if key == TenantId then 1 else if key == Subject then 2 else 3;
    TicketIsOneOf(parameters, i, key, From(Dot(State, key)));
  }

  lemma InitialTicket(similar: Source, key: Key) returns (i: nat)
    requires key in TICKET
    ensures LastOf(Initial(similar), i, key, From(Dot(Input, key)))
  {
    var parameters := Initial(similar);
    assert parameters[0] == (TicketId, From(Dot(Input, TicketId)));
    assert parameters[1] == (TenantId, From(Dot(Input, TenantId)));
    assert parameters[2] == (Subject, From(Dot(Input, Subject)));
    assert parameters[3] == (Description, From(Dot(Input, Description)));
    i := if key == TicketId then 0 else if key == TenantId then 1 else if key == Subject then 2 else 3;
    TicketIsOneOf(parameters, i, key, From(Dot(Input, key)));
  }

  lemma IncrementKeepsTicket(c: Config, o: Outcome, origin: Json, key: Key)
    requires c.At? && c.name.IncrementAttempt? && key in TICKET
    requires KeepsInput(c.doc, origin, key) && CarriesTicket(c.doc, origin, key)
    ensures SameTicket(Next(c, o, None), origin, key)
  {
    var i := IncrementedTicket(key);
    assert Next(c, o, None) == Step(Pass(Incremented(), State, CheckAttemptsRemaining), c, o) by {
      assert Table(IncrementAttempt, None) == Pass(Incremented(), State, CheckAttemptsRemaining);
    }
    WrittenStateCarriesTicket(c, o, Incremented(), i, State, origin, key);
  }

  lemma InitializingKeepsTicket(c: Config, o: Outcome, origin: Json, key: Key)
    requires c.At? && Initializes(c.name) && KeepsInput(c.doc, origin, key) && key in TICKET
    ensures SameTicket(Next(c, o, None), origin, key)
  {
    var similar := if c.name.InitializeAttemptCounterNoSimilar? then Value(Null)
                   else From(Dot(SimilarCases, SimilarCase) + [Field(CaseId)]);
    var i := InitialTicket(similar, key);
    assert Next(c, o, None) == Step(Pass(Initial(similar), State, CheckAttemptsRemaining), c, o) by {
      assert Table(c.name, None) == Pass(Initial(similar), State, CheckAttemptsRemaining);
    }
    WrittenStateCarriesTicket(c, o, Initial(similar), i, Input, origin, key);
  }

  // Only the timeout's Catch puts its error in place of everything.
  lemma OnlyTimeoutReplaces(name: Name)
    ensures var node := Table(name, None);
            node.Task? && node.catch.Some? && node.catch.value.at.None? ==> node.catch.value.next.RegisterTimeoutCase?
  {
  }

  lemma OtherStepKeepsTicket(c: Config, o: Outcome, origin: Json, key: Key)
    requires c.At? && SameTicket(c, origin, key) && !c.name.RegisterTimeoutCase? && !c.name.EndTimeoutRegistered?
    requires !c.name.IncrementAttempt? && !Initializes(c.name) && Successors(c.name) != {}
    requires Next(c, o, None).At? ==> Next(c, o, None).name in Successors(c.name)
    ensures SameTicket(Next(c, o, None), origin, key)
  {
    MostWriteElsewhere(c.name);
    OnlyTimeoutReplaces(c.name);
    ElsewhereKeepsTicket(Table(c.name, None), c, o, origin, key);
    if Next(c, o, None).At? && !HasState(c.name) {
      BeforeLoopStays(c.name, Next(c, o, None).name);
    }
  }

  lemma SameTicketStep(c: Config, o: Outcome, origin: Json, key: Key)
    requires c.At? && Inv(c) && SameTicket(c, origin, key) && key in TICKET
    ensures SameTicket(Next(c, o, None), origin, key)
  {
    StepGoesToSuccessor(c, o, None);
    if c.name.RegisterTimeoutCase? {
      TimeoutCaseAborts(c, o);
    } else if c.name.IncrementAttempt? {
      IncrementKeepsTicket(c, o, origin, key);
    } else if Initializes(c.name) {
      InitializingKeepsTicket(c, o, origin, key);
    } else if Successors(c.name) != {} {
      OtherStepKeepsTicket(c, o, origin, key);
    }
  }

  lemma {:induction false} AlwaysSameTicket(configs: seq<Config>, outcomes: seq<Outcome>, n: nat, key: Key)
    requires Run(configs, outcomes) && n < |configs| && key in TICKET
    ensures SameTicket(configs[n], configs[0].doc, key)
  {
    if n > 0 {
      AlwaysSameTicket(configs, outcomes, n - 1, key);
      Linked(configs, outcomes, n - 1);
      if configs[n - 1].At? {
        SameTicketStep(configs[n - 1], outcomes[n - 1], configs[0].doc, key);
      }
    }
  }

  // Whatever is registered is about the ticket the run was started for.
  lemma RegisteredTicketIsOwn(configs: seq<Config>, outcomes: seq<Outcome>, n: nat)
    requires Run(configs, outcomes) && n < |configs| && configs[n].At? && configs[n].name in REGISTRATIONS
    requires Payload(configs[n]).Some?
    ensures TicketId in Payload(configs[n]).value
    ensures Some(Payload(configs[n]).value[TicketId]) == Find(configs[0].doc, Dot(Input, TicketId))
    ensures Says(Payload(configs[n]).value, Action, Text(ActionOf(configs[n].name)))
  {
    AlwaysInv(configs, outcomes, n);
    AlwaysSameTicket(configs, outcomes, n, TicketId);
    PayloadOfRegistration(configs[n]);
  }

  lemma ExecutionPayload(c: Config)
    requires c.At? && c.name.ExecuteTicketPlan? && Payload(c).Some?
    ensures Plan in Payload(c).value && Some(Payload(c).value[Plan]) == Find(c.doc, Dot(Approval, SelectedPlan))
  {
    var parameters := Table(ExecuteTicketPlan, None).parameters;
    assert parameters[4] == (Plan, From(Dot(Approval, SelectedPlan)));
    assert parameters[5].0 == Other("recommendedPlan") && parameters[6].0 == Phase && |parameters| == 7;
    BuiltField(parameters, c.doc, 4);
  }

  // The answer to the approval, as the choice leaves it.
  lemma ApprovalStays(c: Config, o: Outcome, later: Outcome)
    requires c.At? && c.name.WaitForApproval? && Inv(c) && o.Returned?
    ensures var next := Next(Next(c, o, None), later, None);
            next.At? ==> Find(next.doc, Dot(Approval, SelectedPlan)) == Answer(o, SelectedPlan)
  {
    ApprovalIsAsked(c, o);
    TaskReturns(c, o, Approval, [Field(SelectedPlan)]);
    assert Dot(Approval, SelectedPlan) == [Field(Approval)] + [Field(SelectedPlan)];
    OneChoice(Next(c, o, None), later, BooleanIs(Dot(Approval, Approved), true), ExecuteTicketPlan,
              RegisterRejectedCase);
  }

  // And the plan that is executed is the one its approval selected.
  lemma ExecutedPlanWasSelected(configs: seq<Config>, outcomes: seq<Outcome>, n: nat)
    requires Run(configs, outcomes) && n < |configs| && configs[n].At? && configs[n].name.ExecuteTicketPlan?
    requires Payload(configs[n]).Some?
    ensures 2 <= n && outcomes[n - 2].Returned? && Plan in Payload(configs[n]).value
    ensures Some(Payload(configs[n]).value[Plan]) == Answer(outcomes[n - 2], SelectedPlan)
  {
    ExecutionWasApproved(configs, outcomes, n);
    Linked(configs, outcomes, n - 2);
    Linked(configs, outcomes, n - 1);
    ApprovalStays(configs[n - 2], outcomes[n - 2], outcomes[n - 1]);
    ExecutionPayload(configs[n]);
  }
}
