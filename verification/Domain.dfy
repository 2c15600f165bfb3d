/**
 The rows of the case database and the enumerations the engines branch on.

 A row's id is its position in its table. External identifiers (customers, orders, source
 references, users) are opaque numbers; money is in cents, link weights in tenths, confidence
 in ten-thousandths and time in seconds.
 */
module Domain {

  datatype Option<+T> = None | Some(value: T)

  datatype Result<+T, +E> = Success(value: T) | Failure(error: E)

  // ----- Evidence -----

  datatype Source =
    | WebAppEvent
    | StoreTransaction
    | Order
    | FulfillmentUpdate
    | Payment
    | ContactCenterRecord
    | Return
    | ItsmIncident

  /** The payload field "status", as far as reconciliation distinguishes its values. */
  datatype FactStatus =
    | Captured
    | Delivered
    | LostInTransit
    | ReturnedToSender
    | DeliveryFailed
    | OtherStatus(code: nat)
    | NoStatus

  datatype Disposition =
    | ItemNotReceived
    | WrongItem
    | DisputesDelivery
    | UnauthorizedCharge
    | OtherDisposition(code: nat)
    | NoDisposition

  datatype Payload = Payload(status: FactStatus, disposition: Disposition, rest: nat)

  /** What identifies one fact at its source: the triple the ingestion query matches on. */
  datatype EvidenceKey = EvidenceKey(source: Source, externalRef: nat, provenance: nat)

  datatype Evidence = Evidence(
    customer: nat,
    order: Option<nat>,
    key: EvidenceKey,
    occurredAt: int,
    payload: Payload,
    supersedes: Option<nat>,
    superseded: bool,
    duplicateOf: Option<nat>)

  /**
   One call of the ingestion service. `scan` is the storage order at that moment: it decides
   which of several matching rows a query without ORDER BY returns.
   */
  datatype Delivery = Delivery(
    customer: nat,
    order: Option<nat>,
    key: EvidenceKey,
    occurredAt: int,
    payload: Payload,
    scan: nat)

  /** Current for a customer: what timeline, flags and hypotheses are built from. */
  predicate IsCurrentFor(e: Evidence, customer: nat) {
    e.customer == customer && !e.superseded && e.duplicateOf.None?
  }

  // ----- Uncertainty flags -----

  datatype FlagType = Missing | Stale | Duplicate | Contradictory

  /** The sentence a flag carries, which is also what flags are deduplicated by. */
  datatype Description =
    | CapturedTwice(captures: nat, order: Option<nat>)
    | ConflictingOutcomes(order: Option<nat>, outcomes: set<FactStatus>)
    | DisputedDelivery(order: Option<nat>)
    | MissingFollowup(expected: Source, after: Source, externalRef: nat)
    | NoActivitySince(mostRecent: int)

  datatype Flag = Flag(flagType: FlagType, related: seq<nat>, description: Description)

  // ----- Hypotheses -----

  /** Free text in the source; the eight seeded categories are the ones engines compare with. */
  datatype Category =
    | PaymentCapturedOrderNotCreated
    | FulfillmentNeverStarted
    | DeliveredButDisputed
    | WrongAddressOrFailedDelivery
    | DuplicateCharge
    | RefundNotIssued
    | PromotionNotHonored
    | InStoreOnlineConflict
    | OtherCategory(name: nat)

  datatype HypothesisStatus = Active | Superseded

  datatype Hypothesis = Hypothesis(category: Category, confidence: nat, status: HypothesisStatus)

  datatype Relation = Supports | Weakens

  datatype Link = Link(hypothesis: nat, evidence: nat, relation: Relation, weight: nat)

  /** One proposed interpretation, from the language model or from the templates. */
  datatype Spec = Spec(category: Category, supports: seq<nat>, weakens: seq<nat>, fromModel: bool)

  datatype Impact = Impact(hypothesis: nat, exposure: nat)

  // ----- Actions -----

  datatype ActionKind =
    | RequestEvidence
    | RunAnalysis
    | ExecuteRecovery
    | EscalateItsm
    | NotifyCustomer
    | CloseCase

  datatype ActionStatus =
    | Proposed
    | PendingApproval
    | Approved
    | Rejected
    | Executing
    | Succeeded
    | Failed
    | NeedsManualReview

  datatype OptionCode =
    | ReverseDuplicateCharge
    | ExpeditedReshipment
    | FullRefund
    | ReplacementOrder
    | GoodwillCredit
    | IssueOutstandingRefund
    | PriceAdjustment
    | RerouteOrReattempt
    | ManualReconciliationCredit
    | ExceptionalRemedy
    | ApologyStatusUpdate

  datatype Target =
    | NoActiveHypothesis
    | MissingEvidence(flag: nat)
    | ImpactOf(hypothesis: nat)
    | SystemicCheck(hypothesis: nat)
    | Remedy(code: OptionCode, cost: nat, hypothesis: nat)
    | RecoveryNotice(recovery: nat)
    | Closure(hypothesis: nat)

  /** The part of an idempotency key that is not the case: hashing is taken to be injective. */
  datatype Key = Key(kind: ActionKind, discriminator: Discriminator)

  datatype Discriminator =
    | Generic
    | OfFlag(flag: nat)
    | OfHypothesis(hypothesis: nat)
    | OfOption(hypothesis: nat, code: OptionCode)
    | OfRecovery(recovery: nat)

  datatype Action = Action(
    kind: ActionKind,
    target: Target,
    status: ActionStatus,
    requiresApproval: bool,
    key: Key)

  datatype Role = Agent | Supervisor | FinanceApprover | Admin

  datatype User = User(id: nat, role: Role)

  datatype ApprovalStatus = Pending | Granted | Denied

  datatype Approval = Approval(
    action: nat,
    requiredRole: Role,
    status: ApprovalStatus,
    decidedBy: Option<nat>)

  datatype ExecutionStatus = ToolSuccess | ToolFailed | ToolTimeout

  datatype Execution = Execution(action: nat, attempt: nat, status: ExecutionStatus)

  // ----- Case -----

  datatype CaseStatus =
    | Open
    | Investigating
    | PendingEvidence
    | PendingApproval
    | ActionInProgress
    | PendingCustomerUpdate
    | Closed
    | Reopened

  datatype Stage =
    | IssueReported
    | JourneyAssembled
    | FailureLocated
    | EvidenceChecked
    | ImpactAssessed
    | RecoveryOptionsRanked
    | ActionsCoordinated
    | CustomerUpdated
    | OutcomeRetained

  // ----- Audit log -----

  /** A proposal's entry carries the kind of action and whether it needs approval. */
  datatype ActionEvent = WasProposed(kind: ActionKind, gated: bool) | WasExecuting | HasFinished(status: ActionStatus)

  datatype Event =
    | CaseOpened
    | StageAdvanced(from: Stage, to: Stage)
    | ReevaluationTriggered(previousTop: nat, newTop: nat)
    | ReevaluationDeferred(live: nat)
    | OptionsExhausted(hypothesis: nat)
    | CaseClosed
    | HypothesisCreated(hypothesis: nat, category: Category, confidence: nat)
    | ActionLogged(action: nat, event: ActionEvent)
    | ApprovalDecided(approval: nat, granted: bool, user: nat, role: Role)
    | AttemptLogged(action: nat, attempt: nat, status: ExecutionStatus)
    | ImpactComputed(impact: nat)
    | FlagRaised(flag: nat)
    | EvidenceLogged(row: nat)

  /** One audit row; `owner` is its case, absent for evidence. */
  datatype Entry = Entry(owner: Option<nat>, event: Event)
}
