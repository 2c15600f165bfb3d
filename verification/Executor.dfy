/** Executing an action: bounded retries against a connector that may answer anything. */
module Executor {
  import opened Domain
  import opened Sequences
  import opened CaseState
  import opened NbaEngine

  const MAX_ATTEMPTS: nat := 3

  /** What one attempt comes to. */
  datatype Attempt =
    | TimedOut
    | Raised
    | Answered(success: bool, needsReview: bool, evidence: seq<Delivery>)

  /** A connector's behaviour: what it would answer on each attempt, nothing meaning a timeout. */
  datatype Connector = Connector(answers: seq<Attempt>)

  function On(c: Connector, attempt: nat): Attempt {
    if 1 <= attempt <= |c.answers| then c.answers[attempt - 1] else TimedOut
  }

  predicate Succeeds(c: Connector, attempt: nat) {
    On(c, attempt).Answered? && On(c, attempt).success
  }

  function StatusOf(c: Connector, attempt: nat): ExecutionStatus {
    match On(c, attempt)
    case TimedOut => ToolTimeout
    case Raised => ToolFailed
    case Answered(success, _, _) => if success then ToolSuccess else ToolFailed
  }

  function SuccessOf(action: nat): Execution -> bool {
    (x: Execution) => x.action == action && x.status == ToolSuccess
  }

  function StageOnSuccess(kind: ActionKind): Option<Stage> {
    match kind
    case EscalateItsm => Some(ActionsCoordinated)
    case ExecuteRecovery => Some(ActionsCoordinated)
    case NotifyCustomer => Some(CustomerUpdated)
    case _ => None
  }

  function Try(s: State, a: nat, c: Connector, attempt: nat): State {
    Record(s.(executions := s.executions + [Execution(a, attempt, StatusOf(c, attempt))]),
           AttemptLogged(a, attempt, StatusOf(c, attempt)))
  }

  /** Attempts `attempt`, `attempt` + 1, ... until one succeeds or the bound is reached. */
  function Attempts(s: State, a: nat, c: Connector, attempt: nat): (r: State)
    requires 1 <= attempt <= MAX_ATTEMPTS
    ensures r == s.(executions := r.executions, log := r.log, snapshots := r.snapshots)
    decreases MAX_ATTEMPTS - attempt
  {
    var s1 := Try(s, a, c, attempt);
    if Succeeds(c, attempt) || attempt == MAX_ATTEMPTS then s1 else Attempts(s1, a, c, attempt + 1)
  }

  /** The number of attempts made. */
  function Made(c: Connector, attempt: nat): (n: nat)
    requires 1 <= attempt <= MAX_ATTEMPTS
    ensures attempt <= n <= MAX_ATTEMPTS
    ensures Succeeds(c, n) || n == MAX_ATTEMPTS
    ensures forall i | attempt <= i < n :: !Succeeds(c, i)
    decreases MAX_ATTEMPTS - attempt
  {
    if Succeeds(c, attempt) || attempt == MAX_ATTEMPTS then attempt else Made(c, attempt + 1)
  }

  /** Evidence a connector surfaces is always filed under the case's own customer. */
  function Filed(customer: nat, ds: seq<Delivery>): seq<Delivery> {
    if ds == [] then [] else Filed(customer, ds[..|ds| - 1]) + [ds[|ds| - 1].(customer := customer)]
  }

  function AbsorbEvidence(s: State, evidence: seq<Delivery>, raised: seq<Flag>): (r: State)
    ensures r == s.(evidence := r.evidence, flags := r.flags, stage := r.stage,
                    requests := r.requests, log := r.log, snapshots := r.snapshots)
    ensures s.flags <= r.flags
  {
    if evidence == [] then s else Reconciled(IngestAll(s, Filed(s.customer, evidence)), raised)
  }

  function FinalStatus(c: Connector): ActionStatus {
    var last := On(c, Made(c, 1));
    if last.Answered? && last.success then
      if last.needsReview then NeedsManualReview else Succeeded
    else Failed
  }

  function Started(s: State, a: nat): State
    requires a < |s.actions|
  {
    Record(SetStatus(s, a, Executing), ActionLogged(a, WasExecuting))
  }

  /** After the attempts: absorb evidence, set the final status, advance the stage. */
  function Settled(s: State, a: nat, c: Connector, raised: seq<Flag>): (r: State)
    requires a < |s.actions|
    ensures r == s.(actions := s.actions[a := s.actions[a].(status := FinalStatus(c))], evidence := r.evidence,
                    flags := r.flags, stage := r.stage, requests := r.requests, log := r.log, snapshots := r.snapshots)
    ensures s.flags <= r.flags
  {
    var last := On(c, Made(c, 1));
    if last.Answered? && last.success then
      var s1 := SetStatus(AbsorbEvidence(s, last.evidence, raised), a, FinalStatus(c));
      var stage := StageOnSuccess(s.actions[a].kind);
      if stage.Some? then AdvanceStage(s1, stage.value) else s1
    else SetStatus(s, a, Failed)
  }

  /** The whole execution; `raised` are the flags a reconciliation inside it raises. */
  function Execute(s: State, a: nat, c: Connector, raised: seq<Flag>): State
    requires a < |s.actions|
  {
    if First(s.executions, SuccessOf(a)).Some? then s
    else
      var s1 := Attempts(Started(s, a), a, c, 1);
      Record(Settled(s1, a, c, raised), ActionLogged(a, HasFinished(FinalStatus(c))))
  }
}
