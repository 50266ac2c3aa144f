// The ticket automation workflow: a transition table in the Amazon States
// Language and what a run of it can do, whatever its tasks return.
//
// Retries repeat a task in place and are not shown; a task's outcome is the
// one that remains after them.

module Workflow {
  import opened Options

  // The field names the table mentions, and all others.
  datatype Key =
    | Input | Assessment | SimilarCases | Plan | PlanErrorInfo | PlanUnavailable | State | Approval | Execution
    | ExecutionErrorInfo | ExecutionFailure | StatusCheck | CaseResult | TimeoutResult
    | TicketId | TenantId | Subject | Description | Phase | Action | TotalAttempts | Reason | Token
    | CanResolve | SimilarCaseFound | SimilarCase | CaseId | PlanUsed | SolutionApplied | Plans | MaxRiskLevel
    | AttemptCount | AttemptsLog | SimilarCaseId | Approved | SelectedPlan | ResolutionStatus | ErrorName | Cause
    | Other(name: string)

  datatype Json =
    | Null
    | Bool(yes: bool)
    | Number(number: int)
    | Text(text: string)
    | List(items: seq<Json>)
    | Object(fields: map<Key, Json>)

  datatype Part = Field(key: Key) | Index(index: nat)

  type Path = seq<Part>

  function Find(doc: Json, path: Path): Option<Json> {
    if path == [] then Some(doc)
    else match path[0]
      case Field(key) =>
        if doc.Object? && key in doc.fields then Find(doc.fields[key], path[1..]) else None
      case Index(index) =>
        if doc.List? && index < |doc.items| then Find(doc.items[index], path[1..]) else None
  }

  function Dot(a: Key, b: Key): Path {
    [Field(a), Field(b)]
  }

  // ----- the language -----

  datatype Source = From(path: Path) | Value(json: Json) | Plus(path: Path, amount: int)

  datatype Test =
    | BooleanIs(path: Path, yes: bool)
    | NumberBelow(path: Path, bound: int)
    | NumberAtLeast(path: Path, bound: int)
    | TextIs(path: Path, text: string)
    | IsPresent(path: Path)

  datatype Error = Timeout | OtherError(name: string)

  // The errors a Catch takes, where it puts the error (None: in place of the
  // whole document, the language's default) and where it goes.
  datatype Catcher = Catcher(timeoutOnly: bool, at: Option<Key>, next: Name)

  datatype Node =
    | Task(parameters: seq<(Key, Source)>, result: Key, next: Name, catch: Option<Catcher>)
    | Pass(parameters: seq<(Key, Source)>, result: Key, next: Name)
    | Choice(choices: seq<(Test, Name)>, default: Name)
    | End

  datatype Name =
    | AssessTicketAutomation | CheckCanResolve | SearchSimilarCases | CheckSimilarCase | AssessTicketPlan
    | AssessTicketPlanWithSimilar | CheckPlansAvailable | MarkPlanUnavailable | CheckSimilarCaseForInit
    | InitializeAttemptCounterWithSimilar | InitializeAttemptCounterNoSimilar | CheckAttemptsRemaining
    | WaitForApproval | CheckApproval | ExecuteTicketPlan | MarkExecutionFailed | CheckTicketStatus
    | IsTicketResolved | IncrementAttempt | RegisterSuccessfulCase | RegisterFailedCase | RegisterRejectedCase
    | RegisterTimeoutCase | EndCannotResolve | EndPlanUnavailable | EndTimeoutRegistered | EndCaseRegistered

  // What a task comes back with.
  datatype Outcome = Returned(json: Json) | Failed(error: Error, cause: string)

  datatype Config = At(name: Name, doc: Json) | Done(last: Name) | Aborted

  // A value of another type never meets a comparison.
  predicate Meets(test: Test, value: Json) {
    match test
    case BooleanIs(_, yes) => value == Bool(yes)
    case NumberBelow(_, bound) => value.Number? && value.number < bound
    case NumberAtLeast(_, bound) => value.Number? && value.number >= bound
    case TextIs(_, text) => value == Text(text)
    case IsPresent(_) => true
  }

  function Holds(test: Test, doc: Json): Option<bool> {
    var found := Find(doc, test.path);
    if test.IsPresent? then Some(found.Some?)
    else if found.None? then None
    else Some(Meets(test, found.value))
  }

  // The first choice that holds; a missing variable is a runtime error.
  function Choose(choices: seq<(Test, Name)>, default: Name, doc: Json): Option<Name> {
    if choices == [] then Some(default)
    else match Holds(choices[0].0, doc)
      case None => None
      case Some(holds) => if holds then Some(choices[0].1) else Choose(choices[1..], default, doc)
  }

  function Fetch(source: Source, doc: Json): Option<Json> {
    match source
    case From(path) => Find(doc, path)
    case Value(json) => Some(json)
    case Plus(path, amount) =>
      var found := Find(doc, path);
      if found.Some? && found.value.Number? then Some(Number(found.value.number + amount)) else None
  }

  function Build(parameters: seq<(Key, Source)>, doc: Json): Option<map<Key, Json>> {
    if parameters == [] then Some(map[])
    else
      var n := |parameters| - 1;
      var before := Build(parameters[..n], doc);
      var last := Fetch(parameters[n].1, doc);
      if before.None? || last.None? then None else Some(before.value[parameters[n].0 := last.value])
  }

  function Put(doc: Json, key: Key, value: Json): Option<Json> {
    if doc.Object? then Some(Object(doc.fields[key := value])) else None
  }

  function Go(doc: Option<Json>, next: Name): Config {
    if doc.None? then Aborted else At(next, doc.value)
  }

  function ErrorOutput(error: Error, cause: string): Json {
    Object(map[ErrorName := Text(if error.Timeout? then "States.Timeout" else error.name), Cause := Text(cause)])
  }

  function Caught(catch: Option<Catcher>, error: Error, cause: string, doc: Json): Config {
    if catch.None? || (catch.value.timeoutOnly && !error.Timeout?) then Aborted
    else if catch.value.at.None? then At(catch.value.next, ErrorOutput(error, cause))
    else Go(Put(doc, catch.value.at.value, ErrorOutput(error, cause)), catch.value.next)
  }

  // One step of the machine; the outcome matters to tasks only.
  function Step(node: Node, c: Config, o: Outcome): Config
    requires c.At?
  {
    match node
    case End => Done(c.name)
    case Choice(choices, default) =>
      var next := Choose(choices, default, c.doc);
      if next.None? then Aborted else At(next.value, c.doc)
    case Pass(parameters, result, next) =>
      var built := Build(parameters, c.doc);
      if built.None? then Aborted else Go(Put(c.doc, result, Object(built.value)), next)
    case Task(parameters, result, next, catch) =>
      if Build(parameters, c.doc).None? then Caught(catch, OtherError("States.ParameterPathFailure"), "", c.doc)
      else match o
        case Returned(json) => Go(Put(c.doc, result, json), next)
        case Failed(error, cause) => Caught(catch, error, cause, c.doc)
  }

  // ----- the table -----

  function Named(keys: seq<Key>, from: Key): seq<(Key, Source)> {
    seq(|keys|, i requires 0 <= i < |keys| => (keys[i], From(Dot(from, keys[i]))))
  }

  function Carried(key: Key): (Key, Source) {
    (key, From(Dot(State, key)))
  }

  function Initial(similar: Source): seq<(Key, Source)> {
    [(TicketId, From(Dot(Input, TicketId))), (TenantId, From(Dot(Input, TenantId))),
     (Subject, From(Dot(Input, Subject))), (Description, From(Dot(Input, Description))),
     (AttemptCount, Value(Number(1))), (SolutionApplied, Value(Null)), (AttemptsLog, Value(List([]))),
     (MaxRiskLevel, From(Dot(Plan, MaxRiskLevel))), (Plans, From(Dot(Plan, Plans))), (SimilarCaseId, similar)]
  }

  function Incremented(): seq<(Key, Source)> {
    [Carried(TicketId), Carried(TenantId), Carried(Subject), Carried(Description),
     (AttemptCount, Plus(Dot(State, AttemptCount), 1)), (SolutionApplied, From(Dot(StatusCheck, SolutionApplied))),
     Carried(AttemptsLog), Carried(MaxRiskLevel), Carried(Plans), Carried(SimilarCaseId)]
  }

  const ALL_TO_PLAN_UNAVAILABLE := Some(Catcher(false, Some(PlanErrorInfo), Name.MarkPlanUnavailable))
  const ALL_TO_EXECUTION_FAILED := Some(Catcher(false, Some(ExecutionErrorInfo), MarkExecutionFailed))

  // `timeoutAt` is the ResultPath of the timeout Catch; the program gives none.
  function Table(name: Name, timeoutAt: Option<Key>): Node {
    match name
    case AssessTicketAutomation =>
      Task(Named([TicketId, TenantId, Subject, Description], Input) + [(Phase, Value(Text("assessment")))],
           Assessment, CheckCanResolve, None)
    case CheckCanResolve =>
      Choice([(BooleanIs(Dot(Assessment, CanResolve), true), SearchSimilarCases)], EndCannotResolve)
    case SearchSimilarCases =>
      Task(Named([TicketId, TenantId, Subject], Input), SimilarCases, CheckSimilarCase, None)
    case CheckSimilarCase =>
      Choice([(BooleanIs(Dot(SimilarCases, SimilarCaseFound), true), AssessTicketPlanWithSimilar)], AssessTicketPlan)
    case AssessTicketPlan =>
      Task(Named([TicketId, TenantId, Subject, Description], Input) + [(Phase, Value(Text("plan")))],
           Plan, CheckPlansAvailable, ALL_TO_PLAN_UNAVAILABLE)
    case AssessTicketPlanWithSimilar =>
      Task(Named([TicketId, TenantId, Subject, Description], Input)
           + [(Other("similarCasePlan"), From(Dot(SimilarCases, SimilarCase) + [Field(PlanUsed)])),
              (Other("similarCaseSolution"), From(Dot(SimilarCases, SimilarCase) + [Field(SolutionApplied)])),
              (Phase, Value(Text("plan")))],
           Plan, CheckPlansAvailable, ALL_TO_PLAN_UNAVAILABLE)
    case CheckPlansAvailable =>
      Choice([(IsPresent(Dot(Plan, Plans) + [Index(0), Field(Plan), Index(0)]), CheckSimilarCaseForInit)],
             Name.MarkPlanUnavailable)
    case MarkPlanUnavailable =>
      Task(Named([TicketId, TenantId], Input)
           + [(Phase, Value(Text("mark_derived"))), (Reason, Value(Text("NO_EXECUTABLE_PLAN")))],
           PlanUnavailable, EndPlanUnavailable, None)
    case CheckSimilarCaseForInit =>
      Choice([(BooleanIs(Dot(SimilarCases, SimilarCaseFound), true), InitializeAttemptCounterWithSimilar)],
             InitializeAttemptCounterNoSimilar)
    case InitializeAttemptCounterWithSimilar =>
      Pass(Initial(From(Dot(SimilarCases, SimilarCase) + [Field(CaseId)])), State, CheckAttemptsRemaining)
    case InitializeAttemptCounterNoSimilar =>
      Pass(Initial(Value(Null)), State, CheckAttemptsRemaining)
    case CheckAttemptsRemaining =>
      Choice([(NumberBelow(Dot(State, AttemptCount), 3), WaitForApproval),
              (NumberAtLeast(Dot(State, AttemptCount), 3), RegisterFailedCase)], RegisterFailedCase)
    case WaitForApproval =>
      Task(Named([TicketId, TenantId, MaxRiskLevel, AttemptCount, Plans], State) + [(Token, Value(Null))],
           Approval, CheckApproval, Some(Catcher(true, timeoutAt, RegisterTimeoutCase)))
    case CheckApproval =>
      Choice([(BooleanIs(Dot(Approval, Approved), true), ExecuteTicketPlan)], RegisterRejectedCase)
    case ExecuteTicketPlan =>
      Task(Named([TicketId, TenantId, Subject, Description], State)
           + [(Plan, From(Dot(Approval, SelectedPlan))), (Other("recommendedPlan"), From(Dot(Plan, Plan))),
              (Phase, Value(Text("execute")))],
           Execution, CheckTicketStatus, ALL_TO_EXECUTION_FAILED)
    case MarkExecutionFailed =>
      Task(Named([TicketId, TenantId], State)
           + [(Reason, From(Dot(ExecutionErrorInfo, ErrorName))), (Phase, Value(Text("mark_failed")))],
           ExecutionFailure, RegisterFailedCase, None)
    case CheckTicketStatus =>
      Task(Named([TicketId, TenantId], State), StatusCheck, IsTicketResolved, None)
    case IsTicketResolved =>
      Choice([(TextIs(Dot(StatusCheck, ResolutionStatus), "resolved"), RegisterSuccessfulCase)], IncrementAttempt)
    case IncrementAttempt =>
      Pass(Incremented(), State, CheckAttemptsRemaining)
    case RegisterSuccessfulCase =>
      Task(Named([TicketId, TenantId, Subject, SimilarCaseId], State)
           + [(Action, Value(Text("success"))), (TotalAttempts, From(Dot(State, AttemptCount))),
              (SolutionApplied, From(Dot(StatusCheck, SolutionApplied))),
              (PlanUsed, From(Dot(Approval, SelectedPlan)))],
           CaseResult, EndCaseRegistered, None)
    case RegisterFailedCase =>
      Task(Named([TicketId, TenantId, Subject, SolutionApplied], State)
           + [(Action, Value(Text("failed_after_attempts"))), (TotalAttempts, From(Dot(State, AttemptCount)))],
           CaseResult, EndCaseRegistered, None)
    case RegisterRejectedCase =>
      Task(Named([TicketId, TenantId, Subject], State)
           + [(Action, Value(Text("rejected"))), (TotalAttempts, From(Dot(State, AttemptCount)))],
           CaseResult, EndCaseRegistered, None)
    case RegisterTimeoutCase =>
      Task(Named([TicketId, TenantId, Subject], State), TimeoutResult, EndTimeoutRegistered, None)
    case EndCannotResolve => End
    case EndPlanUnavailable => End
    case EndTimeoutRegistered => End
    case EndCaseRegistered => End
  }

  // ----- runs -----

  function Next(c: Config, o: Outcome, timeoutAt: Option<Key>): Config {
    if c.At? then Step(Table(c.name, timeoutAt), c, o) else c
  }

  predicate LinkedAt(configs: seq<Config>, outcomes: seq<Outcome>, i: nat)
    requires i < |outcomes| < |configs|
  {
    configs[i + 1] == Next(configs[i], outcomes[i], None)
  }

  // A run on some input, with outcome i for the Task state at step i, if any.
  // A run that has ended stays as it is.
  ghost predicate Run(configs: seq<Config>, outcomes: seq<Outcome>) {
    && |configs| == |outcomes| + 1
    && configs[0].At? && configs[0].name.AssessTicketAutomation?
    && forall i: nat :: i < |outcomes| ==> LinkedAt(configs, outcomes, i)
  }

  // ----- parameters -----

  lemma {:induction false} BuildExactly(parameters: seq<(Key, Source)>, doc: Json)
    ensures Build(parameters, doc).Some? <==> forall i :: 0 <= i < |parameters| ==> Fetch(parameters[i].1, doc).Some?
  {
    if parameters != [] {
      var n := |parameters| - 1;
      BuildExactly(parameters[..n], doc);
      assert forall i :: 0 <= i < n ==> parameters[..n][i] == parameters[i];
    }
  }

  lemma {:induction false} BuiltField(parameters: seq<(Key, Source)>, doc: Json, i: nat)
    requires i < |parameters| && Build(parameters, doc).Some?
    requires forall j :: i < j < |parameters| ==> parameters[j].0 != parameters[i].0
    ensures parameters[i].0 in Build(parameters, doc).value
    ensures Some(Build(parameters, doc).value[parameters[i].0]) == Fetch(parameters[i].1, doc)
  {
    var n := |parameters| - 1;
    if i < n {
      BuiltField(parameters[..n], doc, i);
    }
  }

  // ----- the data of the loop -----

  const STATE_KEYS := {TicketId, TenantId, Subject, Description, AttemptCount, SolutionApplied, AttemptsLog,
                       MaxRiskLevel, Plans, SimilarCaseId}

  // `$.state` is complete, and its attempt counter is n.
  ghost predicate Ready(doc: Json, n: int) {
    && doc.Object? && State in doc.fields && doc.fields[State].Object?
    && STATE_KEYS <= doc.fields[State].fields.Keys
    && doc.fields[State].fields[AttemptCount] == Number(n)
  }

  lemma FindInState(doc: Json, key: Key)
    requires doc.Object? && State in doc.fields && doc.fields[State].Object?
    ensures Find(doc, Dot(State, key))
         == if key in doc.fields[State].fields then Some(doc.fields[State].fields[key]) else None
  {
    var path := Dot(State, key);
    var inner := doc.fields[State];
    assert path[1..] == [Field(key)] && path[1..][1..] == [];
    assert Find(inner, [Field(key)]) == if key in inner.fields then Find(inner.fields[key], []) else None;
  }

  lemma NamedFromState(doc: Json, n: int, keys: seq<Key>)
    requires Ready(doc, n) && forall key :: key in keys ==> key in STATE_KEYS
    ensures forall i :: 0 <= i < |Named(keys, State)| ==> Fetch(Named(keys, State)[i].1, doc).Some?
  {
    forall i | 0 <= i < |keys|
      ensures Fetch(Named(keys, State)[i].1, doc).Some?
    {
      assert keys[i] in keys;
      FindInState(doc, keys[i]);
    }
  }

  // Putting something elsewhere leaves `$.state` alone.
  lemma PutKeepsReady(doc: Json, n: int, key: Key, value: Json)
    requires Ready(doc, n) && key != State
    ensures Put(doc, key, value).Some? && Ready(Put(doc, key, value).value, n)
  {
  }

  // ----- writing `$.state` -----

  // The keys of a parameter list.
  function KeysOf(parameters: seq<(Key, Source)>): set<Key> {
    if parameters == [] then {} else KeysOf(parameters[..|parameters| - 1]) + {parameters[|parameters| - 1].0}
  }

  lemma {:induction false} BuiltKeys(parameters: seq<(Key, Source)>, doc: Json)
    requires Build(parameters, doc).Some?
    ensures Build(parameters, doc).value.Keys == KeysOf(parameters)
  {
    if parameters != [] {
      BuiltKeys(parameters[..|parameters| - 1], doc);
    }
  }

  lemma {:induction false} KeyIsOf(parameters: seq<(Key, Source)>, i: nat)
    requires i < |parameters|
    ensures parameters[i].0 in KeysOf(parameters)
  {
    if i < |parameters| - 1 {
      KeyIsOf(parameters[..|parameters| - 1], i);
    }
  }

  // The parameters of the three states that write `$.state`.
  predicate Complete(parameters: seq<(Key, Source)>) {
    && |parameters| == 10
    && parameters[0].0 == TicketId && parameters[1].0 == TenantId && parameters[2].0 == Subject
    && parameters[3].0 == Description && parameters[4].0 == AttemptCount && parameters[5].0 == SolutionApplied
    && parameters[6].0 == AttemptsLog && parameters[7].0 == MaxRiskLevel && parameters[8].0 == Plans
    && parameters[9].0 == SimilarCaseId
  }

  lemma CompleteKeys(parameters: seq<(Key, Source)>)
    requires Complete(parameters)
    ensures STATE_KEYS <= KeysOf(parameters)
  {
    forall i: nat | i < 10
      ensures parameters[i].0 in KeysOf(parameters)
    {
      KeyIsOf(parameters, i);
    }
  }

  lemma CompleteStateIsReady(parameters: seq<(Key, Source)>, doc: Json, n: int)
    requires Complete(parameters) && Fetch(parameters[4].1, doc) == Some(Number(n))
    requires doc.Object? && Build(parameters, doc).Some?
    ensures Ready(Put(doc, State, Object(Build(parameters, doc).value)).value, n)
  {
    CompleteKeys(parameters);
    BuiltKeys(parameters, doc);
    BuiltField(parameters, doc, 4);
  }

  // ----- the shape of the table -----

  function Successors(name: Name): set<Name> {
    match name
    case AssessTicketAutomation => {CheckCanResolve}
    case CheckCanResolve => {SearchSimilarCases, EndCannotResolve}
    case SearchSimilarCases => {CheckSimilarCase}
    case CheckSimilarCase => {AssessTicketPlanWithSimilar, AssessTicketPlan}
    case AssessTicketPlan => {CheckPlansAvailable, Name.MarkPlanUnavailable}
    case AssessTicketPlanWithSimilar => {CheckPlansAvailable, Name.MarkPlanUnavailable}
    case CheckPlansAvailable => {CheckSimilarCaseForInit, Name.MarkPlanUnavailable}
    case MarkPlanUnavailable => {EndPlanUnavailable}
    case CheckSimilarCaseForInit => {InitializeAttemptCounterWithSimilar, InitializeAttemptCounterNoSimilar}
    case InitializeAttemptCounterWithSimilar => {CheckAttemptsRemaining}
    case InitializeAttemptCounterNoSimilar => {CheckAttemptsRemaining}
    case CheckAttemptsRemaining => {WaitForApproval, RegisterFailedCase}
    case WaitForApproval => {CheckApproval, RegisterTimeoutCase}
    case CheckApproval => {ExecuteTicketPlan, RegisterRejectedCase}
    case ExecuteTicketPlan => {CheckTicketStatus, MarkExecutionFailed}
    case MarkExecutionFailed => {RegisterFailedCase}
    case CheckTicketStatus => {IsTicketResolved}
    case IsTicketResolved => {RegisterSuccessfulCase, IncrementAttempt}
    case IncrementAttempt => {CheckAttemptsRemaining}
    case RegisterSuccessfulCase => {EndCaseRegistered}
    case RegisterFailedCase => {EndCaseRegistered}
    case RegisterRejectedCase => {EndCaseRegistered}
    case RegisterTimeoutCase => {EndTimeoutRegistered}
    case _ => {}
  }

  function Targets(node: Node): set<Name> {
    match node
    case Task(_, _, next, catch) => {next} + if catch.Some? then {catch.value.next} else {}
    case Pass(_, _, next) => {next}
    case Choice(choices, default) => (set choice | choice in choices :: choice.1) + {default}
    case End => {}
  }

  lemma {:induction false} ChooseWithin(choices: seq<(Test, Name)>, default: Name, doc: Json)
    ensures Choose(choices, default, doc).Some? ==>
              Choose(choices, default, doc).value in (set choice | choice in choices :: choice.1) + {default}
  {
    if choices != [] {
      assert choices[0] in choices;
      ChooseWithin(choices[1..], default, doc);
    }
  }

  lemma StepWithinTargets(node: Node, c: Config, o: Outcome)
    requires c.At?
    ensures Step(node, c, o).At? ==> Step(node, c, o).name in Targets(node)
    ensures Step(node, c, o).Done? ==> node.End? && Step(node, c, o) == Done(c.name)
  {
    if node.Choice? {
      ChooseWithin(node.choices, node.default, c.doc);
    }
  }

  lemma TargetsAreSuccessors(name: Name, timeoutAt: Option<Key>)
    ensures Targets(Table(name, timeoutAt)) <= Successors(name)
    ensures Table(name, timeoutAt).End? <==> Successors(name) == {}
  {
  }

  lemma StepGoesToSuccessor(c: Config, o: Outcome, timeoutAt: Option<Key>)
    requires c.At?
    ensures Next(c, o, timeoutAt).At? ==> Next(c, o, timeoutAt).name in Successors(c.name)
    ensures Next(c, o, timeoutAt).Done? ==> Successors(c.name) == {} && Next(c, o, timeoutAt) == Done(c.name)
  {
    StepWithinTargets(Table(c.name, timeoutAt), c, o);
    TargetsAreSuccessors(c.name, timeoutAt);
  }

  // ----- what holds at each state of the table -----

  predicate InLoop(name: Name) {
    || name.WaitForApproval? || name.CheckApproval? || name.ExecuteTicketPlan? || name.CheckTicketStatus?
    || name.IsTicketResolved? || name.IncrementAttempt?
  }

  predicate AfterLoop(name: Name) {
    name.MarkExecutionFailed? || name.RegisterSuccessfulCase? || name.RegisterFailedCase? || name.RegisterRejectedCase?
  }

  predicate HasState(name: Name) {
    InLoop(name) || AfterLoop(name) || name.CheckAttemptsRemaining?
  }

  // The attempt counter, 0 before it is set.
  function Attempt(c: Config): int {
    if c.At? && HasState(c.name) && Find(c.doc, Dot(State, AttemptCount)).Some?
       && Find(c.doc, Dot(State, AttemptCount)).value.Number?
    then Find(c.doc, Dot(State, AttemptCount)).value.number else 0
  }

  lemma ReadyAttempt(c: Config, n: int)
    requires c.At? && HasState(c.name) && Ready(c.doc, n)
    ensures Attempt(c) == n
  {
    FindInState(c.doc, AttemptCount);
  }

  // The counter is 1 or 2 inside the loop, at most 3 when it is tested; a case
  // that timed out has lost `$.state`.
  ghost predicate Inv(c: Config) {
    c != Done(EndTimeoutRegistered) && (c.At? ==>
      && (HasState(c.name) ==> Ready(c.doc, Attempt(c)) && 1 <= Attempt(c) <= 3)
      && (InLoop(c.name) ==> Attempt(c) <= 2)
      && (c.name.RegisterTimeoutCase? ==> Find(c.doc, Dot(State, TicketId)).None?)
      && !c.name.EndTimeoutRegistered?)
  }

  // How the counter moves with a step.
  ghost predicate Counts(c: Config, next: Config)
    requires c.At?
  {
    next.At? && HasState(next.name) ==>
      Attempt(next) == if c.name.IncrementAttempt? then Attempt(c) + 1
                       else if HasState(c.name) then Attempt(c) else 1
  }

  predicate Preserves(node: Node) {
    match node
    case Task(_, result, _, catch) =>
      result != State && (catch.Some? ==> catch.value.at.Some? && catch.value.at.value != State)
    case Choice(_, _) => true
    case _ => false
  }

  lemma PreservingStep(node: Node, c: Config, o: Outcome, n: int)
    requires c.At? && Ready(c.doc, n) && Preserves(node)
    ensures Step(node, c, o).At? ==> Ready(Step(node, c, o).doc, n)
  {
  }

  lemma LoopPreserves(name: Name)
    requires HasState(name) && !name.IncrementAttempt? && !name.WaitForApproval?
    ensures Preserves(Table(name, None))
  {
  }

  // The approval is asked for only while attempts remain.
  lemma KeptByChecking(c: Config, o: Outcome)
    requires c.At? && Inv(c) && c.name.CheckAttemptsRemaining?
    ensures Next(c, o, None) == At(if Attempt(c) < 3 then WaitForApproval else RegisterFailedCase, c.doc)
    ensures Inv(Next(c, o, None)) && Counts(c, Next(c, o, None))
  {
    var choices := Table(CheckAttemptsRemaining, None).choices;
    FindInState(c.doc, AttemptCount);
    assert choices[1..] == [choices[1]];
    assert Holds(choices[0].0, c.doc) == Some(Attempt(c) < 3);
    assert Holds(choices[1].0, c.doc) == Some(Attempt(c) >= 3);
    assert Choose([choices[1]], RegisterFailedCase, c.doc) == Some(RegisterFailedCase);
    ReadyAttempt(At(WaitForApproval, c.doc), Attempt(c));
    ReadyAttempt(At(RegisterFailedCase, c.doc), Attempt(c));
  }

  lemma ReadyIsKept(c: Config, o: Outcome)
    requires c.At? && Inv(c) && HasState(c.name) && !c.name.IncrementAttempt? && !c.name.WaitForApproval?
    ensures Next(c, o, None).At? ==> Ready(Next(c, o, None).doc, Attempt(c))
    ensures Next(c, o, None).At? && HasState(Next(c, o, None).name) ==> Attempt(Next(c, o, None)) == Attempt(c)
  {
    LoopPreserves(c.name);
    PreservingStep(Table(c.name, None), c, o, Attempt(c));
    if Next(c, o, None).At? && HasState(Next(c, o, None).name) {
      ReadyAttempt(Next(c, o, None), Attempt(c));
    }
  }

  lemma LoopLeadsOn(c: Config, next: Config)
    requires c.At? && Inv(c) && (InLoop(c.name) || AfterLoop(c.name))
    requires !c.name.IncrementAttempt? && !c.name.WaitForApproval?
    requires next.At? ==> next.name in Successors(c.name) && Ready(next.doc, Attempt(c))
    requires next.At? && HasState(next.name) ==> Attempt(next) == Attempt(c)
    requires !next.Done?
    ensures Inv(next) && Counts(c, next)
  {
  }

  lemma KeptByStep(c: Config, o: Outcome)
    requires c.At? && Inv(c) && (InLoop(c.name) || AfterLoop(c.name))
    requires !c.name.IncrementAttempt? && !c.name.WaitForApproval?
    ensures Inv(Next(c, o, None)) && Counts(c, Next(c, o, None))
  {
    StepGoesToSuccessor(c, o, None);
    ReadyIsKept(c, o);
    LoopLeadsOn(c, Next(c, o, None));
  }

  lemma ErrorOutputHasNoState(error: Error, cause: string)
    ensures Find(ErrorOutput(error, cause), Dot(State, TicketId)).None?
  {
  }

  lemma KeptByWaiting(c: Config, o: Outcome)
    requires c.At? && Inv(c) && c.name.WaitForApproval?
    ensures Inv(Next(c, o, None)) && Counts(c, Next(c, o, None))
    ensures Next(c, o, None).At? && Next(c, o, None).name.CheckApproval? ==>
              o.Returned? && Next(c, o, None).doc == c.doc.(fields := c.doc.fields[Approval := o.json])
  {
    var next := Next(c, o, None);
    if o.Failed? {
      ErrorOutputHasNoState(o.error, o.cause);
    } else if next.At? {
      PutKeepsReady(c.doc, Attempt(c), Approval, o.json);
      ReadyAttempt(next, Attempt(c));
    }
  }

  predicate Initializes(name: Name) {
    name.InitializeAttemptCounterWithSimilar? || name.InitializeAttemptCounterNoSimilar?
  }

  // `$.state` is written anew, with this counter.
  lemma WritesState(c: Config, o: Outcome, parameters: seq<(Key, Source)>, n: int)
    requires c.At? && Complete(parameters) && Fetch(parameters[4].1, c.doc) == Some(Number(n))
    ensures var next := Step(Pass(parameters, State, CheckAttemptsRemaining), c, o);
            next.At? ==> next.name.CheckAttemptsRemaining? && Ready(next.doc, n) && Attempt(next) == n
  {
    var next := Step(Pass(parameters, State, CheckAttemptsRemaining), c, o);
    if next.At? {
      CompleteStateIsReady(parameters, c.doc, n);
      ReadyAttempt(next, n);
    }
  }

  lemma KeptByIncrementing(c: Config, o: Outcome)
    requires c.At? && Inv(c) && c.name.IncrementAttempt?
    ensures Inv(Next(c, o, None)) && Counts(c, Next(c, o, None))
  {
    FindInState(c.doc, AttemptCount);
    WritesState(c, o, Incremented(), Attempt(c) + 1);
  }

  lemma KeptByInitializing(c: Config, o: Outcome)
    requires c.At? && Initializes(c.name)
    ensures Inv(Next(c, o, None)) && Counts(c, Next(c, o, None))
  {
    var similar := if c.name.InitializeAttemptCounterNoSimilar? then Value(Null)
                   else From(Dot(SimilarCases, SimilarCase) + [Field(CaseId)]);
    assert Table(c.name, None) == Pass(Initial(similar), State, CheckAttemptsRemaining);
    InitialWritesState(c, o, similar);
  }

  lemma InitialWritesState(c: Config, o: Outcome, similar: Source)
    requires c.At? && !HasState(c.name)
    ensures var next := Step(Pass(Initial(similar), State, CheckAttemptsRemaining), c, o);
            Inv(next) && Counts(c, next)
  {
    WritesState(c, o, Initial(similar), 1);
  }

  lemma TimeoutCaseAborts(c: Config, o: Outcome)
    requires c.At? && c.name.RegisterTimeoutCase? && Find(c.doc, Dot(State, TicketId)).None?
    ensures Next(c, o, None) == Aborted
  {
    var parameters := Table(RegisterTimeoutCase, None).parameters;
    BuildExactly(parameters, c.doc);
    assert Fetch(parameters[0].1, c.doc) == Find(c.doc, Dot(State, TicketId));
  }

  lemma BeforeLoopStays(name: Name, next: Name)
    requires !HasState(name) && !Initializes(name) && !name.RegisterTimeoutCase? && next in Successors(name)
    ensures !HasState(next) && !next.RegisterTimeoutCase? && !next.EndTimeoutRegistered?
  {
  }

  lemma KeptOutsideLoop(c: Config, next: Config)
    requires c.At? && !c.name.EndTimeoutRegistered? && (next.Done? ==> next == Done(c.name))
    requires !HasState(c.name) && !Initializes(c.name) && !c.name.RegisterTimeoutCase?
    requires next.At? ==> next.name in Successors(c.name)
    ensures Inv(next) && Counts(c, next)
  {
    if next.At? {
      BeforeLoopStays(c.name, next.name);
    }
  }

  lemma StepKept(c: Config, o: Outcome)
    requires c.At? && Inv(c)
    ensures Inv(Next(c, o, None)) && Counts(c, Next(c, o, None))
  {
    if c.name.CheckAttemptsRemaining? {
      KeptByChecking(c, o);
    } else if c.name.WaitForApproval? {
      KeptByWaiting(c, o);
    } else if c.name.IncrementAttempt? {
      KeptByIncrementing(c, o);
    } else if HasState(c.name) {
      KeptByStep(c, o);
    } else if Initializes(c.name) {
      KeptByInitializing(c, o);
    } else if c.name.RegisterTimeoutCase? {
      TimeoutCaseAborts(c, o);
    } else {
      StepGoesToSuccessor(c, o, None);
      KeptOutsideLoop(c, Next(c, o, None));
    }
  }

  // One step of a run, as the theorems below need it.
  ghost predicate StepsTo(c: Config, next: Config) {
    && Inv(c) && Inv(next)
    && (if c.At? then
          && Counts(c, next)
          && (next.At? ==> next.name in Successors(c.name))
          && (next.Done? ==> Successors(c.name) == {} && next == Done(c.name))
        else next == c)
  }

  lemma {:induction false} AlwaysInv(configs: seq<Config>, outcomes: seq<Outcome>, n: nat)
    requires Run(configs, outcomes) && n < |configs|
    ensures Inv(configs[n])
  {
    if n > 0 {
      AlwaysInv(configs, outcomes, n - 1);
      assert LinkedAt(configs, outcomes, n - 1);
      if configs[n - 1].At? {
        StepKept(configs[n - 1], outcomes[n - 1]);
      }
    }
  }

  lemma EveryStep(configs: seq<Config>, outcomes: seq<Outcome>, i: nat)
    requires Run(configs, outcomes) && i < |outcomes|
    ensures StepsTo(configs[i], configs[i + 1])
  {
    AlwaysInv(configs, outcomes, i);
    AlwaysInv(configs, outcomes, i + 1);
    assert LinkedAt(configs, outcomes, i);
    if configs[i].At? {
      StepKept(configs[i], outcomes[i]);
      StepGoesToSuccessor(configs[i], outcomes[i], None);
    }
  }

  // ----- every run ends -----

  function Position(name: Name): nat {
    match name
    case AssessTicketAutomation => 60
    case CheckCanResolve => 59
    case SearchSimilarCases => 58
    case CheckSimilarCase => 57
    case AssessTicketPlan => 56
    case AssessTicketPlanWithSimilar => 56
    case CheckPlansAvailable => 55
    case CheckSimilarCaseForInit => 54
    case InitializeAttemptCounterWithSimilar => 53
    case InitializeAttemptCounterNoSimilar => 53
    case CheckAttemptsRemaining => 17
    case WaitForApproval => 16
    case CheckApproval => 15
    case ExecuteTicketPlan => 14
    case CheckTicketStatus => 13
    case IsTicketResolved => 12
    case IncrementAttempt => 11
    case MarkExecutionFailed => 5
    case MarkPlanUnavailable => 5
    case RegisterSuccessfulCase => 4
    case RegisterFailedCase => 4
    case RegisterRejectedCase => 4
    case RegisterTimeoutCase => 4
    case _ => 2
  }

  // Attempts left first, then the position in the table.
  function Rank(c: Config): int {
    if !c.At? then 0
    else Position(c.name) + if InLoop(c.name) || c.name.CheckAttemptsRemaining? then 10 * (3 - Attempt(c)) else 0
  }

  lemma RankIsNatural(c: Config)
    requires Inv(c)
    ensures 0 <= Rank(c) && (c.At? ==> 0 < Rank(c))
  {
  }

  lemma RankFalls(c: Config, next: Config)
    requires c.At? && StepsTo(c, next)
    ensures Rank(next) < Rank(c)
  {
    RankIsNatural(c);
  }

  lemma {:induction false} RankBoundsRun(configs: seq<Config>, outcomes: seq<Outcome>, n: nat)
    requires Run(configs, outcomes) && n < |configs|
    ensures configs[n].At? ==> Rank(configs[n]) + n <= 60
  {
    if n > 0 {
      RankBoundsRun(configs, outcomes, n - 1);
      EveryStep(configs, outcomes, n - 1);
      if configs[n - 1].At? {
        RankFalls(configs[n - 1], configs[n]);
      }
    }
  }

  // Whatever its Task states return, sixty steps are enough: the run has ended in an
  // End state or aborted.
  lemma EveryRunEnds(configs: seq<Config>, outcomes: seq<Outcome>, n: nat)
    requires Run(configs, outcomes) && 60 <= n < |configs|
    ensures !configs[n].At?
  {
    RankBoundsRun(configs, outcomes, n);
    AlwaysInv(configs, outcomes, n);
    RankIsNatural(configs[n]);
  }

  // ----- counting visits -----

  // How many of the first n configurations are at one of these states.
  function Visits(configs: seq<Config>, names: set<Name>, n: nat): nat
    requires n <= |configs|
  {
    if n == 0 then 0
    else Visits(configs, names, n - 1) + if configs[n - 1].At? && configs[n - 1].name in names then 1 else 0
  }

  // How often the plan was executed before a configuration.
  predicate ExecutionsFit(c: Config, executions: nat) {
    if !c.At? then executions <= 2
    else if c.name.CheckTicketStatus? || c.name.IsTicketResolved? || c.name.IncrementAttempt?
    then executions == Attempt(c)
    else if c.name.CheckAttemptsRemaining? || InLoop(c.name) then executions == Attempt(c) - 1
    else if Position(c.name) > 17 then executions == 0
    else executions <= 2
  }

  lemma ExecutionsStep(c: Config, next: Config, executions: nat)
    requires StepsTo(c, next) && ExecutionsFit(c, executions)
    ensures ExecutionsFit(next, executions + if c.At? && c.name.ExecuteTicketPlan? then 1 else 0)
  {
  }

  lemma {:induction false} ExecutionsCounted(configs: seq<Config>, outcomes: seq<Outcome>, n: nat)
    requires Run(configs, outcomes) && n < |configs|
    ensures ExecutionsFit(configs[n], Visits(configs, {ExecuteTicketPlan}, n))
  {
    if n > 0 {
      ExecutionsCounted(configs, outcomes, n - 1);
      EveryStep(configs, outcomes, n - 1);
      ExecutionsStep(configs[n - 1], configs[n], Visits(configs, {ExecuteTicketPlan}, n - 1));
    }
  }

  lemma FitMeansAtMostTwo(c: Config, executions: nat)
    requires Inv(c) && ExecutionsFit(c, executions)
    ensures executions + (if c.At? && c.name.ExecuteTicketPlan? then 1 else 0) <= 2
  {
  }

  // No run executes a plan more than twice.
  lemma AtMostTwoExecutions(configs: seq<Config>, outcomes: seq<Outcome>)
    requires Run(configs, outcomes)
    ensures Visits(configs, {ExecuteTicketPlan}, |configs|) <= 2
  {
    var n := |outcomes|;
    ExecutionsCounted(configs, outcomes, n);
    AlwaysInv(configs, outcomes, n);
    FitMeansAtMostTwo(configs[n], Visits(configs, {ExecuteTicketPlan}, n));
  }

  // ----- approval -----

  lemma OnlyPredecessors(name: Name, next: Name)
    requires next in Successors(name)
    ensures next.ExecuteTicketPlan? ==> name.CheckApproval?
    ensures next.CheckApproval? ==> name.WaitForApproval?
    ensures !next.AssessTicketAutomation?
  {
  }

  lemma ApprovalPasses(c: Config, o: Outcome)
    requires c.At? && c.name.CheckApproval? && Next(c, o, None).At? && Next(c, o, None).name.ExecuteTicketPlan?
    ensures Find(c.doc, Dot(Approval, Approved)) == Some(Bool(true))
  {
    var choices := Table(CheckApproval, None).choices;
    assert choices == [(BooleanIs(Dot(Approval, Approved), true), ExecuteTicketPlan)] && choices[1..] == [];
    assert Choose(choices[1..], RegisterRejectedCase, c.doc) == Some(RegisterRejectedCase);
    assert Choose(choices, RegisterRejectedCase, c.doc) == Some(ExecuteTicketPlan);
  }

  lemma FindAfterPut(doc: Json, value: Json)
    requires doc.Object?
    ensures Find(Object(doc.fields[Approval := value]), Dot(Approval, Approved)) == Find(value, [Field(Approved)])
  {
    var path := Dot(Approval, Approved);
    assert path[1..] == [Field(Approved)];
  }

  lemma CameFrom(configs: seq<Config>, outcomes: seq<Outcome>, n: nat)
    requires Run(configs, outcomes) && n < |configs| && configs[n].At?
    requires configs[n].name.ExecuteTicketPlan? || configs[n].name.CheckApproval?
    ensures n > 0 && configs[n - 1].At? && LinkedAt(configs, outcomes, n - 1) && Inv(configs[n - 1])
    ensures configs[n - 1].name == if configs[n].name.ExecuteTicketPlan? then CheckApproval else WaitForApproval
  {
    EveryStep(configs, outcomes, n - 1);
    OnlyPredecessors(configs[n - 1].name, configs[n].name);
    assert LinkedAt(configs, outcomes, n - 1);
  }

  // A plan is executed only right after an approval of its own: two steps
  // earlier the approval was asked for, and it came back approved.
  lemma ExecutionWasApproved(configs: seq<Config>, outcomes: seq<Outcome>, n: nat)
    requires Run(configs, outcomes) && n < |configs| && configs[n].At? && configs[n].name.ExecuteTicketPlan?
    ensures n >= 2 && configs[n - 2].At? && configs[n - 2].name.WaitForApproval?
    ensures outcomes[n - 2].Returned? && Find(outcomes[n - 2].json, [Field(Approved)]) == Some(Bool(true))
  {
    CameFrom(configs, outcomes, n);
    CameFrom(configs, outcomes, n - 1);
    var wait, o := configs[n - 2], outcomes[n - 2];
    KeptByWaiting(wait, o);
    ApprovalPasses(configs[n - 1], outcomes[n - 1]);
    FindAfterPut(wait.doc, o.json);
  }

  // ----- registration -----

  const REGISTRATIONS := {RegisterSuccessfulCase, RegisterFailedCase, RegisterRejectedCase}

  predicate RegistrationsFit(c: Config, registrations: nat) {
    match c
    case Aborted => registrations <= 1
    case Done(last) => registrations == if last.EndCaseRegistered? then 1 else 0
    case At(name, _) => registrations == if name.EndCaseRegistered? then 1 else 0
  }

  lemma RegistrationsStep(c: Config, next: Config, registrations: nat)
    requires StepsTo(c, next) && RegistrationsFit(c, registrations)
    ensures RegistrationsFit(next, registrations + if c.At? && c.name in REGISTRATIONS then 1 else 0)
  {
  }

  lemma {:induction false} RegistrationsCounted(configs: seq<Config>, outcomes: seq<Outcome>, n: nat)
    requires Run(configs, outcomes) && n < |configs|
    ensures RegistrationsFit(configs[n], Visits(configs, REGISTRATIONS, n))
  {
    if n > 0 {
      RegistrationsCounted(configs, outcomes, n - 1);
      EveryStep(configs, outcomes, n - 1);
      RegistrationsStep(configs[n - 1], configs[n], Visits(configs, REGISTRATIONS, n - 1));
    }
  }

  // A run that ends with its case registered registered it exactly once, and
  // no other run that ends registered any.
  lemma RegisteredExactlyOnce(configs: seq<Config>, outcomes: seq<Outcome>, n: nat)
    requires Run(configs, outcomes) && n < |configs| && configs[n].Done?
    ensures Visits(configs, REGISTRATIONS, n) == if configs[n] == Done(EndCaseRegistered) then 1 else 0
  {
    RegistrationsCounted(configs, outcomes, n);
  }

  // ----- the timeout -----

  // As written, the timeout's Catch replaces the whole document, so the case
  // that timed out is never registered: its task aborts, and its End state is
  // not reached by any run.
  lemma TimeoutIsNeverRegistered(configs: seq<Config>, outcomes: seq<Outcome>, n: nat)
    requires Run(configs, outcomes) && n < |configs|
    ensures configs[n] != Done(EndTimeoutRegistered)
    ensures configs[n].At? && configs[n].name.RegisterTimeoutCase? && n < |outcomes| ==> configs[n + 1] == Aborted
  {
    AlwaysInv(configs, outcomes, n);
    if configs[n].At? && configs[n].name.RegisterTimeoutCase? && n < |outcomes| {
      assert LinkedAt(configs, outcomes, n);
      TimeoutCaseAborts(configs[n], outcomes[n]);
    }
  }

  // It would be registered exactly if the Catch put the error somewhere, and
  // not over `$.state`.
  lemma TimeoutRegistersExactly(c: Config, cause: string, result: Json, timeoutAt: Option<Key>)
    requires c.At? && c.name.WaitForApproval? && Inv(c)
    ensures var caught := Next(c, Failed(Timeout, cause), timeoutAt);
            && caught.At? && caught.name.RegisterTimeoutCase?
            && (Next(caught, Returned(result), timeoutAt).At? <==> timeoutAt.Some? && timeoutAt.value != State)
  {
    WaitingParametersResolve(c, timeoutAt);
    var caught := Next(c, Failed(Timeout, cause), timeoutAt);
    var parameters := Table(RegisterTimeoutCase, timeoutAt).parameters;
    BuildExactly(parameters, caught.doc);
    if timeoutAt.Some? && timeoutAt.value != State {
      PutKeepsReady(c.doc, Attempt(c), timeoutAt.value, ErrorOutput(Timeout, cause));
      NamedFromState(caught.doc, Attempt(c), [TicketId, TenantId, Subject]);
    } else {
      assert Fetch(parameters[0].1, caught.doc) == Find(caught.doc, Dot(State, TicketId));
      ErrorOutputHasNoState(Timeout, cause);
      if timeoutAt.Some? {
        FindInState(caught.doc, TicketId);
      }
    }
  }

  lemma WaitingParametersResolve(c: Config, timeoutAt: Option<Key>)
    requires c.At? && c.name.WaitForApproval? && Inv(c)
    ensures Build(Table(WaitForApproval, timeoutAt).parameters, c.doc).Some?
  {
    var keys := [TicketId, TenantId, MaxRiskLevel, AttemptCount, Plans];
    NamedFromState(c.doc, Attempt(c), keys);
    BuildExactly(Table(WaitForApproval, timeoutAt).parameters, c.doc);
  }

  // A rejected or failed case is never lost for want of data.
  lemma FailuresCanBeRegistered(c: Config, result: Json)
    requires c.At? && Inv(c) && (c.name.RegisterFailedCase? || c.name.RegisterRejectedCase?)
    ensures Next(c, Returned(result), None).At? && Next(c, Returned(result), None).name.EndCaseRegistered?
  {
    var parameters := Table(c.name, None).parameters;
    NamedFromState(c.doc, Attempt(c), [TicketId, TenantId, Subject, SolutionApplied]);
    NamedFromState(c.doc, Attempt(c), [TicketId, TenantId, Subject]);
    FindInState(c.doc, AttemptCount);
    BuildExactly(parameters, c.doc);
  }
}
