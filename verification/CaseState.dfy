/**
 One investigation case as a value: its tables, its fields, and the two primitive effects every
 engine shares, writing an audit entry and advancing the stage.

 Two history variables ride along. `snapshots` holds, for each audit entry, the live tables
 right after it was written; `requests` holds every stage ever asked for and every reset.
 */
module CaseState {
  import opened Domain
  import opened Sequences
  import opened AuditReplay
  import opened EvidenceStore

  datatype StageRequest = Ask(stage: Stage) | Reset

  datatype State = State(
    caseId: nat,
    customer: nat,
    evidence: seq<Evidence>,
    flags: seq<Flag>,
    hypotheses: seq<Hypothesis>,
    links: seq<Link>,
    impacts: seq<Impact>,
    actions: seq<Action>,
    approvals: seq<Approval>,
    executions: seq<Execution>,
    log: seq<Entry>,
    status: CaseStatus,
    stage: Stage,
    reevaluate: bool,
    primary: Option<nat>,
    snapshots: seq<Picture>,
    requests: seq<StageRequest>)

  // ----- The live tables, as replay would describe them -----

  /** Analysis and closure are carried out inline and only ever logged as proposed. */
  predicate IsInline(kind: ActionKind) {
    kind == RunAnalysis || kind == CloseCase
  }

  /** The events logged for an action by the time its row looks like this. */
  function HistoryOf(a: Action): seq<ActionEvent> {
    var proposed := WasProposed(a.kind, a.requiresApproval);
    match a.status
    case Executing => [proposed, WasExecuting]
    case Succeeded => if IsInline(a.kind) then [proposed] else [proposed, WasExecuting, HasFinished(Succeeded)]
    case Failed => [proposed, WasExecuting, HasFinished(Failed)]
    case NeedsManualReview => [proposed, WasExecuting, HasFinished(NeedsManualReview)]
    case _ => [proposed]
  }

  function LiveHypotheses(hypotheses: seq<Hypothesis>): map<nat, (Category, nat)> {
    map h: nat | h < |hypotheses| :: (hypotheses[h].category, hypotheses[h].confidence)
  }

  function LiveActions(actions: seq<Action>): map<nat, seq<ActionEvent>> {
    map a: nat | a < |actions| :: HistoryOf(actions[a])
  }

  function LiveApprovals(approvals: seq<Approval>): map<nat, Decision> {
    map p: nat | p < |approvals| && approvals[p].status != Pending && approvals[p].decidedBy.Some? ::
      Decision(approvals[p].status == Granted, approvals[p].decidedBy.value)
  }

  /** The live tables at one moment: what the log is about, rows as they are, and the evidence on record. */
  datatype Picture = Picture(
    stage: Stage,
    hypotheses: seq<Hypothesis>,
    actions: seq<Action>,
    approvals: seq<Approval>,
    evidence: seq<Evidence>)

  function PictureOf(s: State): Picture {
    Picture(s.stage, s.hypotheses, s.actions, s.approvals, s.evidence)
  }

  /** What a log that is up to date tells of such tables. */
  function Shown(p: Picture): Snapshot {
    Snapshot(p.stage, LiveHypotheses(p.hypotheses), LiveActions(p.actions), LiveApprovals(p.approvals))
  }

  function Told(s: State): Snapshot {
    Shown(PictureOf(s))
  }

  // ----- Writing the audit log -----

  function Write(s: State, owner: Option<nat>, event: Event): State {
    s.(log := s.log + [Entry(owner, event)], snapshots := s.snapshots + [PictureOf(s)])
  }

  function Record(s: State, event: Event): State {
    Write(s, Some(s.caseId), event)
  }

  // ----- Stage -----

  function Index(stage: Stage): nat {
    match stage
    case IssueReported => 0
    case JourneyAssembled => 1
    case FailureLocated => 2
    case EvidenceChecked => 3
    case ImpactAssessed => 4
    case RecoveryOptionsRanked => 5
    case ActionsCoordinated => 6
    case CustomerUpdated => 7
    case OutcomeRetained => 8
  }

  /** The stages of a case, first to last. */
  const JOURNEY: seq<Stage> :=
    [IssueReported, JourneyAssembled, FailureLocated, EvidenceChecked, ImpactAssessed, RecoveryOptionsRanked,
     ActionsCoordinated, CustomerUpdated, OutcomeRetained]

  /** One stage comes before another on the journey. */
  predicate Earlier(a: Stage, b: Stage) {
    exists i, j :: 0 <= i < j < |JOURNEY| && JOURNEY[i] == a && JOURNEY[j] == b
  }

  lemma PlaceIs(stage: Stage)
    ensures Index(stage) < |JOURNEY| && JOURNEY[Index(stage)] == stage
    ensures forall i | 0 <= i < |JOURNEY| && JOURNEY[i] == stage :: i == Index(stage)
  {}

  lemma EarlierIs(a: Stage, b: Stage)
    ensures Earlier(a, b) <==> Index(a) < Index(b)
  {
    PlaceIs(a);
    PlaceIs(b);
  }

  /** Forward only, and every move is audited. */
  function AdvanceStage(s: State, stage: Stage): (r: State)
    ensures r == s.(stage := r.stage, requests := r.requests, log := r.log, snapshots := r.snapshots)
  {
    var asked := s.(requests := s.requests + [Ask(stage)]);
    if Index(stage) <= Index(s.stage) then asked
    else Record(asked.(stage := stage), StageAdvanced(s.stage, stage))
  }

  // ----- Evidence and reconciliation, as the case sees them -----

  function IngestInto(s: State, d: Delivery): State {
    Write(s.(evidence := Ingested(s.evidence, d)), None, EvidenceLogged(|s.evidence|))
  }

  function IngestAll(s: State, ds: seq<Delivery>): (r: State)
    ensures r == s.(evidence := r.evidence, log := r.log, snapshots := r.snapshots)
  {
    if ds == [] then s else IngestInto(IngestAll(s, ds[..|ds| - 1]), ds[|ds| - 1])
  }

  /** One audit entry for each of the first n flags from `from` on. */
  function RecordFlags(s: State, from: nat, n: nat): (r: State)
    ensures r == s.(log := r.log, snapshots := r.snapshots)
  {
    if n == 0 then s else Record(RecordFlags(s, from, n - 1), FlagRaised(from + n - 1))
  }

  function IsCurrent(customer: nat): Evidence -> bool {
    (e: Evidence) => IsCurrentFor(e, customer)
  }

  predicate HasEvidence(s: State) {
    First(s.evidence, IsCurrent(s.customer)).Some?
  }

  /** The timeline is assembled, the given flags are raised, the stage follows if there is a timeline. */
  function Reconciled(s: State, raised: seq<Flag>): (r: State)
    ensures r == s.(flags := s.flags + raised, stage := r.stage, requests := r.requests, log := r.log,
            snapshots := r.snapshots)
  {
    var s1 := RecordFlags(s.(flags := s.flags + raised), |s.flags|, |raised|);
    if HasEvidence(s) then AdvanceStage(s1, JourneyAssembled) else s1
  }

  // ----- A new case -----

  function Blank(caseId: nat, customer: nat): State {
    State(caseId, customer, [], [], [], [], [], [], [], [], [],
          CaseStatus.Open, IssueReported, false, None, [], [])
  }

  /** Opened on whatever evidence, of this customer or others, had been delivered before. */
  function Opened(caseId: nat, customer: nat, prior: seq<Delivery>): State {
    Record(IngestAll(Blank(caseId, customer), prior), CaseOpened)
  }
}
