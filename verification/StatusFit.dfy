/** While an action is in flight, the case's status says which. */
module StatusFit {
  import opened Domain
  import opened Sequences
  import opened CaseState
  import opened HypothesisEngine
  import opened NbaEngine
  import opened Executor
  import opened Approvals
  import opened Orchestrator
  import opened ActionTable
  import opened ActionSafety
  import opened Runs
  import opened CaseCycle
  import opened Finality
  import Catalog = RecoveryCatalog

  /** What a case with this action in flight is waiting for. */
  function StatusFor(a: Action): CaseStatus {
    match a.kind
    case RequestEvidence => PendingEvidence
    case RunAnalysis => Investigating
    case EscalateItsm => Investigating
    case ExecuteRecovery => if a.requiresApproval then CaseStatus.PendingApproval else ActionInProgress
    case NotifyCustomer => PendingCustomerUpdate
    case CloseCase => Closed
  }

  ghost predicate Fits(s: State) {
    forall a | 0 <= a < |s.actions|
        && s.actions[a].status in {Proposed, ActionStatus.PendingApproval, Approved, Executing} ::
      s.status == StatusFor(s.actions[a])
  }

  lemma OfferSetsStatus(s: State, scan: nat, p: Proposal)
    requires Choose(s, scan) == Offer(p)
    ensures p.status == Some(StatusFor(NewAction(p)))
  {
    hide Catalog.BestOption, Catalog.Rank, RejectedCodes;
  }

  lemma ProposedFits(s: State, scan: nat, p: Proposal)
    requires First(s.actions, IsLive).None? && Choose(s, scan) == Offer(p)
    ensures Fits(Propose(s, p).0)
  {
    hide Choose, AdvanceStage, NewAction;
    OfferSetsStatus(s, scan, p);
  }

  lemma InlineFits(s: State, after: State)
    requires First(s.actions, IsLive).None?
    requires |after.actions| == |s.actions| + 1 && s.actions <= after.actions
             && after.actions[|s.actions|].status == Succeeded
    ensures Fits(after)
  {}

  lemma DecideFits(s: State, scan: nat, exposure: nat)
    requires Safe(s) && Fits(s)
    ensures Fits(Decide(s, scan, exposure).0)
  {
    hide Safe, Decide, Choose, Propose, Analysed, ClosedOut;
    if First(s.actions, IsLive).Some? {
      DecideLive(s, scan, exposure);
    } else {
      var calm := s.(reevaluate := false);
      DecideFresh(s, scan, exposure);
      CalmIsSafe(s, calm);
      ChoiceWarranted(calm, scan);
      match Choose(calm, scan) {
        case Offer(p) => ProposedFits(calm, scan, p);
        case Analyse(h) =>
          AnalysisIsFresh(calm, h, exposure);
          InlineFits(calm, Analysed(calm, h, exposure).0);
        case Close(h) => ClosureFits(calm, h);
        case _ =>
      }
    }
  }

  lemma ClosureFits(s: State, h: nat)
    requires Safe(s) && First(s.actions, IsLive).None? && First(s.actions, OfKind(CloseCase)).None?
    ensures Fits(ClosedOut(s, h).0)
  {
    hide ClosedOut, ApprovalsOk, ExecutionsOk, ImpactsOk, Fits;
    ClosureIsFresh(s, h);
    InlineFits(s, ClosedOut(s, h).0);
  }

  lemma RunFits(s: State, a: nat, c: Connector, raised: seq<Flag>)
    requires Safe(s) && Fits(s)
    ensures Fits(ExecuteIfReady(s, a, c, raised))
  {
    hide Safe, Execute;
    if a < |s.actions| && (s.actions[a].status == Proposed || s.actions[a].status == Approved) {
      ReadyRunsNow(s, a);
      ExecuteEffect(s, a, c, raised);
    }
  }

  lemma ApproveFits(s: State, p: nat, decision: ApprovalStatus, user: User)
    requires Safe(s) && Fits(s) && p < |s.approvals| && Decided(s, p, decision, user).Success?
    ensures Fits(Decided(s, p, decision, user).value)
  {
    hide TableOk, ExecutionsOk, ImpactsOk, HasApproval;
    assert ApprovalOk(s.actions, s.approvals[p]);
    PendingIsLive(s, s.approvals[p].action);
  }

  lemma ApplyFits(s: State, op: Op)
    requires Inv(s) && Fits(s)
    ensures Fits(Apply(s, op))
  {
    hide Safe, Decide, ExecuteIfReady, Generated, Reconciled, Decided;
    match op
    case DecideNext(scan, exposure) => DecideFits(s, scan, exposure);
    case Regenerate(specs) => GeneratedFrame(s, specs);
    case Run(a, c, raised) => RunFits(s, a, c, raised);
    case Approve(p, decision, user) =>
      if p < |s.approvals| && Decided(s, p, decision, user).Success? {
        ApproveFits(s, p, decision, user);
      }
    case _ =>
  }

  /** In every reachable case with an action in flight, the status is the one for that action. */
  lemma {:induction false} StatusSaysWhatIsInFlight(caseId: nat, customer: nat, prior: seq<Delivery>, ops: seq<Op>)
    ensures Fits(Case(caseId, customer, prior, ops))
  {
    hide Apply, Fits;
    if ops == [] {
      OpenedFits(caseId, customer, prior);
    } else {
      var rest := ops[..|ops| - 1];
      StatusSaysWhatIsInFlight(caseId, customer, prior, rest);
      CaseHolds(caseId, customer, prior, rest);
      ApplyFits(Case(caseId, customer, prior, rest), ops[|ops| - 1]);
    }
  }

  lemma OpenedFits(caseId: nat, customer: nat, prior: seq<Delivery>)
    ensures Fits(Opened(caseId, customer, prior))
  {}
}
