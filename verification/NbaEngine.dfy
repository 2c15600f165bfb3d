/** The next-best-action engine: a seven-branch decision over the case, then its enactment. */
module NbaEngine {
  import opened Domain
  import opened Sequences
  import opened CaseState
  import opened Confidence
  import Catalog = RecoveryCatalog

  // ----- Queries -----

  predicate IsLive(a: Action) {
    a.status == Proposed || a.status == ActionStatus.PendingApproval || a.status == Approved || a.status == Executing
  }

  function OfKind(kind: ActionKind): Action -> bool {
    (a: Action) => a.kind == kind
  }

  function HasKey(key: Key): Action -> bool {
    (a: Action) => a.key == key
  }

  function Done(kind: ActionKind): Action -> bool {
    (a: Action) => a.kind == kind && a.status == Succeeded
  }

  predicate LiveOrDoneRecovery(a: Action) {
    a.kind == ExecuteRecovery && (IsLive(a) || a.status == Succeeded)
  }

  predicate IsMissing(f: Flag) {
    f.flagType == Missing
  }

  function ImpactFor(hypothesis: nat): Impact -> bool {
    (i: Impact) => i.hypothesis == hypothesis
  }

  function ItsmEvidenceFor(customer: nat): Evidence -> bool {
    (e: Evidence) => e.customer == customer && e.key.source == ItsmIncident && !e.superseded
  }

  predicate SystemicProne(category: Category) {
    category == FulfillmentNeverStarted || category == WrongAddressOrFailedDelivery
    || category == DeliveredButDisputed || category == PaymentCapturedOrderNotCreated
  }

  /** Codes of recoveries rejected or failed, under any hypothesis. */
  function RejectedCodes(actions: seq<Action>): set<OptionCode> {
    set a | a in actions && a.kind == ExecuteRecovery && a.target.Remedy?
            && (a.status == Rejected || a.status == Failed) :: a.target.code
  }

  // ----- Proposals -----

  datatype Proposal = Proposal(
    target: Target,
    requiresApproval: bool,
    role: Role,
    status: Option<CaseStatus>,
    stage: Option<Stage>)

  /** Each sort of target belongs to one kind of action. */
  function KindOf(t: Target): ActionKind {
    match t
    case NoActiveHypothesis => RequestEvidence
    case MissingEvidence(_) => RequestEvidence
    case ImpactOf(_) => RunAnalysis
    case SystemicCheck(_) => EscalateItsm
    case Remedy(_, _, _) => ExecuteRecovery
    case RecoveryNotice(_) => NotifyCustomer
    case Closure(_) => CloseCase
  }

  function KeyOf(t: Target): Key {
    match t
    case NoActiveHypothesis => Key(RequestEvidence, Generic)
    case MissingEvidence(f) => Key(RequestEvidence, OfFlag(f))
    case ImpactOf(h) => Key(RunAnalysis, OfHypothesis(h))
    case SystemicCheck(h) => Key(EscalateItsm, OfHypothesis(h))
    case Remedy(code, _, h) => Key(ExecuteRecovery, OfOption(h, code))
    case RecoveryNotice(a) => Key(NotifyCustomer, OfRecovery(a))
    case Closure(h) => Key(CloseCase, OfHypothesis(h))
  }

  function NewAction(p: Proposal): Action {
    Action(KindOf(p.target), p.target,
           if p.requiresApproval then ActionStatus.PendingApproval else Proposed,
           p.requiresApproval, KeyOf(p.target))
  }

  function Insert(s: State, p: Proposal): State {
    var id := |s.actions|;
    Record(s.(actions := s.actions + [NewAction(p)],
              approvals := s.approvals + if p.requiresApproval then [Approval(id, p.role, Pending, None)] else []),
           ActionLogged(id, WasProposed(KindOf(p.target), p.requiresApproval)))
  }

  /** Status and stage first; then the identical earlier decision if there is one, else a new row. */
  function Prepared(s: State, p: Proposal): (r: State)
    ensures r == s.(status := r.status, stage := r.stage, requests := r.requests, log := r.log,
            snapshots := r.snapshots)
  {
    var s1 := if p.status.Some? then s.(status := p.status.value) else s;
    if p.stage.Some? then AdvanceStage(s1, p.stage.value) else s1
  }

  function Propose(s: State, p: Proposal): (State, nat) {
    var s1 := Prepared(s, p);
    match First(s1.actions, HasKey(KeyOf(p.target)))
    case Some(existing) => (s1, existing)
    case None => (Insert(s1, p), |s1.actions|)
  }

  // ----- The decision -----

  datatype Choice =
    | Offer(proposal: Proposal)
    | Analyse(hypothesis: nat)
    | Close(hypothesis: nat)
    | Exhausted(hypothesis: nat)
    | Nothing

  function PlainOffer(t: Target, status: CaseStatus): Choice {
    Offer(Proposal(t, false, Supervisor, Some(status), None))
  }

  /** The hypothesis the engine works from: the primary one, if it is ACTIVE. */
  function Grounds(s: State): (r: Option<nat>)
    ensures r.Some? ==> r.value < |s.hypotheses| && s.hypotheses[r.value].status == Active
  {
    if s.primary.Some? && s.primary.value < |s.hypotheses| && s.hypotheses[s.primary.value].status == Active
    then s.primary else None
  }

  /** Branches 1 to 7, in order; `scan` decides which open MISSING flag the query lists first. */
  function Choose(s: State, scan: nat): Choice {
    var grounds := Grounds(s);
    if grounds.None? then
      PlainOffer(NoActiveHypothesis, PendingEvidence)
    else
      var h := grounds.value;
      var missing := Where(s.flags, IsMissing);
      var impact := First(s.impacts, ImpactFor(h));
      if s.hypotheses[h].confidence < ACTION_THRESHOLD && missing != [] then
        Offer(Proposal(MissingEvidence(AnyOf(missing, scan)), false, Supervisor, Some(PendingEvidence),
          Some(EvidenceChecked)))
      else if impact.None? then
        Analyse(h)
      else if NeedsItsmCheck(s, h) then
        PlainOffer(SystemicCheck(h), Investigating)
      else
        ChooseRemedy(s, h, s.impacts[impact.value].exposure)
  }

  predicate NeedsItsmCheck(s: State, h: nat)
    requires h < |s.hypotheses|
  {
    && SystemicProne(s.hypotheses[h].category)
    && First(s.actions, OfKind(EscalateItsm)).None?
    && First(s.evidence, ItsmEvidenceFor(s.customer)).None?
  }

  function RemedyProposal(h: nat, o: Catalog.RecoveryOption): Proposal {
    Proposal(Remedy(o.code, o.cost, h), o.requiresApproval,
             if o.approvalRole.Some? then o.approvalRole.value else Supervisor,
             Some(if o.requiresApproval then CaseStatus.PendingApproval else ActionInProgress),
             Some(RecoveryOptionsRanked))
  }

  /** Branches 5 to 7: recover, then notify, then close. */
  function ChooseRemedy(s: State, h: nat, exposure: nat): Choice
    requires h < |s.hypotheses|
  {
    if First(s.actions, LiveOrDoneRecovery).None? then
      var chosen := Catalog.BestOption(Catalog.Rank(s.hypotheses[h].category, exposure), RejectedCodes(s.actions));
      if chosen.None? then Exhausted(h) else Offer(RemedyProposal(h, chosen.value))
    else
      var recovered := First(s.actions, Done(ExecuteRecovery));
      if recovered.Some? && First(s.actions, OfKind(NotifyCustomer)).None? then
        PlainOffer(RecoveryNotice(recovered.value), PendingCustomerUpdate)
      else if First(s.actions, Done(NotifyCustomer)).Some? && First(s.actions, OfKind(CloseCase)).None? then
        Close(h)
      else
        Nothing
  }

  // ----- Enactment -----

  function SetStatus(s: State, a: nat, status: ActionStatus): State
    requires a < |s.actions|
  {
    s.(actions := s.actions[a := s.actions[a].(status := status)])
  }

  /** Analysis runs inline: one impact assessment, whatever exposure it computes. */
  function Analysed(s: State, h: nat, exposure: nat): (State, nat) {
    var (s1, a) := Propose(s, Proposal(ImpactOf(h), false, Supervisor, Some(Investigating), None));
    var s2 := Record(s1.(impacts := s1.impacts + [Impact(h, exposure)]), ImpactComputed(|s1.impacts|));
    var s3 := AdvanceStage(s2, ImpactAssessed);
    (SetStatus(s3, a, Succeeded), a)
  }

  /** Closing runs inline too, and only once. */
  function ClosedOut(s: State, h: nat): (State, nat) {
    var (s1, a) := Propose(s, Proposal(Closure(h), false, Supervisor, None, None));
    if s1.actions[a].status == Succeeded then (s1, a)
    else
      var s2 := AdvanceStage(s1.(status := Closed), OutcomeRetained);
      (Record(SetStatus(s2, a, Succeeded), CaseClosed), a)
  }

  function Enact(s: State, choice: Choice, exposure: nat): (State, Option<nat>) {
    match choice
    case Offer(p) => var (s1, a) := Propose(s, p); (s1, Some(a))
    case Analyse(h) => var (s1, a) := Analysed(s, h, exposure); (s1, Some(a))
    case Close(h) => var (s1, a) := ClosedOut(s, h); (s1, Some(a))
    case Exhausted(h) => (Record(s, OptionsExhausted(h)), None)
    case Nothing => (s, None)
  }

  /** What is answered is a row of the table. */
  lemma EnactAnswersRow(s: State, choice: Choice, exposure: nat)
    ensures var (s1, a) := Enact(s, choice, exposure); a.Some? ==> a.value < |s1.actions|
  {
    hide AdvanceStage;
  }

  /** One decision: the live action if there is one, else a fresh choice. */
  function Decide(s: State, scan: nat, exposure: nat): (State, Option<nat>) {
    var live := First(s.actions, IsLive);
    if live.Some? then
      if s.reevaluate then (Record(s, ReevaluationDeferred(live.value)), live) else (s, live)
    else
      var s1 := s.(reevaluate := false);
      Enact(s1, Choose(s1, scan), exposure)
  }
}
