/** What a case's rows show to have happened is what its stage was asked to show. */
module Milestones {
  import opened Domain
  import opened Sequences
  import opened CaseState
  import opened EvidenceStore
  import opened HypothesisMerge
  import opened HypothesisEngine
  import opened HypothesisInvariants
  import opened NbaEngine
  import opened Executor
  import opened Approvals
  import opened ActionTable
  import opened ActionSafety
  import opened Tracing
  import opened Runs
  import opened AppendOnly
  import opened CaseCycle
  import Catalog = RecoveryCatalog

  /** The stages an action's row shows to have been reached. */
  predicate Shows(a: Action, stage: Stage) {
    match a.kind
    case RequestEvidence => stage == EvidenceChecked && a.target.MissingEvidence?
    case RunAnalysis => stage == ImpactAssessed
    case ExecuteRecovery => stage == RecoveryOptionsRanked || (stage == ActionsCoordinated && WasCarriedOut(a))
    case EscalateItsm => stage == ActionsCoordinated && WasCarriedOut(a)
    case NotifyCustomer => stage == CustomerUpdated && WasCarriedOut(a)
    case CloseCase => stage == OutcomeRetained
  }

  predicate WasCarriedOut(a: Action) {
    a.status == Succeeded || a.status == NeedsManualReview
  }

  ghost predicate RowAsked(s: State, i: nat)
    requires i < |s.actions|
  {
    forall stage | Shows(s.actions[i], stage) :: Ask(stage) in s.requests
  }

  /** Every such stage has been asked for, and so has the one hypotheses stand for. */
  ghost predicate Marked(s: State) {
    && (forall i: nat | i < |s.actions| :: RowAsked(s, i))
    && (s.hypotheses != [] ==> Ask(FailureLocated) in s.requests)
  }

  lemma StillAsked(s: State, after: State, stage: Stage)
    requires s.requests <= after.requests && Ask(stage) in s.requests
    ensures Ask(stage) in after.requests
  {
    var k :| 0 <= k < |s.requests| && s.requests[k] == Ask(stage);
    assert after.requests[k] == Ask(stage);
  }

  /** A row whose status did not move to carried out shows nothing new. */
  lemma RowStaysAsked(s: State, after: State, i: nat)
    requires Extends(s, after) && i < |s.actions| && RowAsked(s, i)
    requires WasCarriedOut(after.actions[i]) ==> WasCarriedOut(s.actions[i])
    ensures RowAsked(after, i)
  {
    forall stage | Shows(after.actions[i], stage) ensures Ask(stage) in after.requests {
      assert Shows(s.actions[i], stage);
      StillAsked(s, after, stage);
    }
  }

  lemma SameRowsStayMarked(s: State, after: State)
    requires Marked(s) && Extends(s, after) && after.actions == s.actions && after.hypotheses == s.hypotheses
    ensures Marked(after)
  {
    hide Extends, RowAsked;
    forall i: nat | i < |after.actions| ensures RowAsked(after, i) {
      RowStaysAsked(s, after, i);
    }
    if s.hypotheses != [] {
      ExtendsRequests(s, after);
      StillAsked(s, after, FailureLocated);
    }
  }

  lemma ExtendsRequests(s: State, after: State)
    requires Extends(s, after)
    ensures s.requests <= after.requests
  {}

  /** A new row must come with the stages it shows. */
  lemma NewRowStaysMarked(s: State, after: State)
    requires Marked(s) && Extends(s, after) && |after.actions| == |s.actions| + 1
             && after.actions[..|s.actions|] == s.actions
    requires after.hypotheses == s.hypotheses && RowAsked(after, |s.actions|)
    ensures Marked(after)
  {
    hide Extends, RowAsked;
    forall i: nat | i < |after.actions| ensures RowAsked(after, i) {
      if i < |s.actions| {
        assert after.actions[i] == after.actions[..|s.actions|][i];
        RowStaysAsked(s, after, i);
      }
    }
    if s.hypotheses != [] {
      ExtendsRequests(s, after);
      StillAsked(s, after, FailureLocated);
    }
  }

  // ----- Stages are asked for -----

  lemma AskIsKept(s: State, stage: Stage)
    ensures AdvanceStage(s, stage).requests == s.requests + [Ask(stage)]
  {}

  lemma PreparedAsks(s: State, p: Proposal)
    ensures p.stage.Some? ==> Ask(p.stage.value) in Prepared(s, p).requests
  {
    hide AdvanceStage;
    if p.stage.Some? {
      AskIsKept(if p.status.Some? then s.(status := p.status.value) else s, p.stage.value);
    }
  }

  lemma ProposedRowAsked(s: State, scan: nat, p: Proposal, after: State)
    requires Choose(s, scan) == Offer(p) && after == Propose(s, p).0
    requires First(s.actions, HasKey(KeyOf(p.target))).None?
    ensures after.actions == s.actions + [NewAction(p)] && after.hypotheses == s.hypotheses
    ensures RowAsked(after, |s.actions|)
  {
    hide Choose, AdvanceStage;
    PreparedAsks(s, p);
    OfferAsks(s, scan, p);
  }

  lemma OfferAsks(s: State, scan: nat, p: Proposal)
    requires Choose(s, scan) == Offer(p)
    ensures p.target.Remedy? ==> p.stage == Some(RecoveryOptionsRanked)
    ensures p.target.MissingEvidence? ==> p.stage == Some(EvidenceChecked)
    ensures KindOf(p.target) != RunAnalysis && KindOf(p.target) != CloseCase
  {
    hide Catalog.BestOption, Catalog.Rank, RejectedCodes;
  }

  lemma AnalysedRowAsked(s: State, h: nat, exposure: nat)
    requires Safe(s) && First(s.impacts, ImpactFor(h)).None?
    ensures RowAsked(Analysed(s, h, exposure).0, |s.actions|)
  {
    hide AdvanceStage, Propose, TableOk;
    AnalysisIsFresh(s, h, exposure);
    var (s1, a) := Propose(s, Proposal(ImpactOf(h), false, Supervisor, Some(Investigating), None));
    AskIsKept(Record(s1.(impacts := s1.impacts + [Impact(h, exposure)]), ImpactComputed(|s1.impacts|)), ImpactAssessed);
  }

  lemma ClosedRowAsked(s: State, h: nat)
    requires Safe(s) && First(s.actions, OfKind(CloseCase)).None?
    ensures var after := ClosedOut(s, h).0; |after.actions| == |s.actions| + 1 && RowAsked(after, |s.actions|)
  {
    hide AdvanceStage, ApprovalsOk, ExecutionsOk, ImpactsOk, PairOk, CausesOk;
    ClosureIsFresh(s, h);
    var s1 := Propose(s, Proposal(Closure(h), false, Supervisor, None, None)).0;
    AskIsKept(s1.(status := Closed), OutcomeRetained);
    FirstOfKind(s.actions, Closure(h));
  }

  lemma FirstOfKind(actions: seq<Action>, t: Target)
    requires First(actions, OfKind(KindOf(t))).None? && forall i | 0 <= i < |actions| :: RowOk(actions[i])
    ensures First(actions, HasKey(KeyOf(t))).None?
  {
    forall i | 0 <= i < |actions| ensures actions[i].key != KeyOf(t) {
      assert RowOk(actions[i]);
    }
  }

  // ----- Every operation -----

  lemma EnactKeepsMarked(s: State, scan: nat, exposure: nat, after: State)
    requires Safe(s) && Marked(s) && Extends(s, after) && after == Enact(s, Choose(s, scan), exposure).0
    ensures Marked(after)
  {
    hide Safe, Marked, RowAsked, Choose, Analysed, ClosedOut, Warranted, Extends, Propose;
    ChoiceWarranted(s, scan);
    match Choose(s, scan)
    case Offer(p) => OfferKeepsMarked(s, scan, p, after);
    case Analyse(h) => AnalysisKeepsMarked(s, h, exposure, after);
    case Close(h) => ClosureKeepsMarked(s, h, after);
    case _ => SameRowsStayMarked(s, after);
  }

  lemma OfferKeepsMarked(s: State, scan: nat, p: Proposal, after: State)
    requires Marked(s) && Extends(s, after) && Choose(s, scan) == Offer(p) && after == Propose(s, p).0
    ensures Marked(after)
  {
    hide Marked, RowAsked, Choose, Extends;
    if First(s.actions, HasKey(KeyOf(p.target))).Some? {
      SameRowsStayMarked(s, after);
    } else {
      ProposedRowAsked(s, scan, p, after);
      NewRowStaysMarked(s, after);
    }
  }

  lemma AnalysisKeepsMarked(s: State, h: nat, exposure: nat, after: State)
    requires Safe(s) && Marked(s) && Extends(s, after) && Warranted(s, Analyse(h))
             && after == Analysed(s, h, exposure).0
    ensures Marked(after)
  {
    hide Safe, Marked, RowAsked, Analysed, Extends;
    AnalysisIsFresh(s, h, exposure);
    AnalysedRowAsked(s, h, exposure);
    NewRowStaysMarked(s, after);
  }

  lemma ClosureKeepsMarked(s: State, h: nat, after: State)
    requires Safe(s) && Marked(s) && Extends(s, after) && Warranted(s, Close(h)) && after == ClosedOut(s, h).0
    ensures Marked(after)
  {
    hide Marked, RowAsked, ClosedOut, Extends, ApprovalsOk, ExecutionsOk, ImpactsOk;
    ClosureIsFresh(s, h);
    ClosedRowAsked(s, h);
    NewRowStaysMarked(s, after);
  }

  lemma DecideKeepsMarked(s: State, scan: nat, exposure: nat, after: State)
    requires Safe(s) && Marked(s) && after == Decide(s, scan, exposure).0
    ensures Marked(after)
  {
    hide Safe, Marked, Decide, Enact, Choose, Extends;
    DecideExtends(s, scan, exposure);
    if First(s.actions, IsLive).Some? {
      DecideLive(s, scan, exposure);
      SameRowsStayMarked(s, after);
    } else {
      DecideFresh(s, scan, exposure);
      CalmIsMarked(s, scan, exposure, after);
    }
  }

  lemma CalmIsMarked(s: State, scan: nat, exposure: nat, after: State)
    requires Safe(s) && Marked(s) && Extends(s, after)
    requires after == Enact(s.(reevaluate := false), Choose(s.(reevaluate := false), scan), exposure).0
    ensures Marked(after)
  {
    hide Enact, Choose, RowOk, PairOk, CausesOk, TraceOk;
    var calm := s.(reevaluate := false);
    assert forall i: nat | i < |s.actions| :: RowAsked(s, i) ==> RowAsked(calm, i);
    EnactKeepsMarked(calm, scan, exposure, after);
  }

  lemma GeneratedKeepsMarked(s: State, specs: seq<Spec>, after: State)
    requires Marked(s) && after == Generated(s, specs)
    ensures Marked(after)
  {
    hide Extends, RowAsked, Create, CreateAll, AdvanceStage, HasEvidence;
    GeneratedExtends(s, specs);
    GeneratedFrame(s, specs);
    forall i: nat | i < |after.actions| ensures RowAsked(after, i) {
      RowStaysAsked(s, after, i);
    }
    if |after.hypotheses| == |s.hypotheses| {
      ExtendsRequests(s, after);
      if s.hypotheses != [] {
        StillAsked(s, after, FailureLocated);
      }
    } else {
      TakeOverAsks(s, specs);
    }
  }

  lemma TakeOverAsks(s: State, specs: seq<Spec>)
    requires |Generated(s, specs).hypotheses| != |s.hypotheses|
    ensures Ask(FailureLocated) in Generated(s, specs).requests
  {
    hide CreateAll, Merge, HasEvidence, Retire, Best, TopActive;
    var s1 := CreateAll(s, Merge(specs));
    var from := |s.hypotheses|;
    AskIsKept(s1.(hypotheses := Retire(s1.hypotheses, from), primary := Some(Best(s1.hypotheses, from))),
      FailureLocated);
  }

  lemma SettledAsks(s: State, a: nat, c: Connector, raised: seq<Flag>)
    requires a < |s.actions|
    ensures var stage := StageOnSuccess(s.actions[a].kind);
            WasCarriedOut(Settled(s, a, c, raised).actions[a]) && stage.Some? ==>
              Ask(stage.value) in Settled(s, a, c, raised).requests
  {
    hide AbsorbEvidence, AdvanceStage, Made;
    var last, stage := On(c, Made(c, 1)), StageOnSuccess(s.actions[a].kind);
    if last.Answered? && last.success && stage.Some? {
      AskIsKept(SetStatus(AbsorbEvidence(s, last.evidence, raised), a, FinalStatus(c)), stage.value);
    }
  }

  lemma RunKeepsMarked(s: State, a: nat, c: Connector, raised: seq<Flag>, after: State)
    requires Safe(s) && Marked(s) && a < |s.actions| && after == Execute(s, a, c, raised)
    requires s.actions[a].status == Proposed || s.actions[a].status == Approved
    ensures Marked(after)
  {
    hide Extends, RowAsked, Safe;
    ReadyRunsNow(s, a);
    ExecuteExtends(s, a, c, raised);
    ExecutedRowAsked(s, a, c, raised, after);
    forall i: nat | i < |after.actions| ensures RowAsked(after, i) {
      if i != a {
        RowStaysAsked(s, after, i);
      }
    }
    if s.hypotheses != [] {
      ExtendsRequests(s, after);
      StillAsked(s, after, FailureLocated);
    }
  }

  lemma ExecutedRowAsked(s: State, a: nat, c: Connector, raised: seq<Flag>, after: State)
    requires Marked(s) && a < |s.actions| && after == Execute(s, a, c, raised) && Extends(s, after)
    requires First(s.executions, SuccessOf(a)).None?
    ensures RowAsked(after, a) && after.hypotheses == s.hypotheses
    ensures |after.actions| == |s.actions| && forall i | 0 <= i < |s.actions| && i != a ::
            after.actions[i] == s.actions[i]
  {
    hide Settled, Attempts;
    var s1 := Attempts(Started(s, a), a, c, 1);
    SettledAsks(s1, a, c, raised);
    forall stage | Shows(after.actions[a], stage) ensures Ask(stage) in after.requests {
      if !Shows(s.actions[a], stage) {
        assert StageOnSuccess(s1.actions[a].kind) == Some(stage);
      } else {
        assert RowAsked(s, a);
        StillAsked(s, after, stage);
      }
    }
  }

  lemma ApproveKeepsMarked(s: State, p: nat, decision: ApprovalStatus, user: User, after: State)
    requires Marked(s) && p < |s.approvals| && Decided(s, p, decision, user) == Domain.Success(after)
    ensures Marked(after)
  {
    hide Extends, RowAsked;
    DecidedExtends(s, p, decision, user);
    forall i: nat | i < |after.actions| ensures RowAsked(after, i) {
      RowStaysAsked(s, after, i);
    }
    if s.hypotheses != [] {
      ExtendsRequests(s, after);
      StillAsked(s, after, FailureLocated);
    }
  }

  lemma ApplyKeepsMarked(s: State, op: Op)
    requires Inv(s) && Marked(s)
    ensures Marked(Apply(s, op))
  {
    hide Safe, Traced, Led, StoreOk, Marked, Extends, Decide, Execute, Generated, Reconciled, Ingested, Decided;
    ApplyExtends(s, op);
    match op
    case DecideNext(scan, exposure) => DecideKeepsMarked(s, scan, exposure, Apply(s, op));
    case Regenerate(specs) => GeneratedKeepsMarked(s, specs, Apply(s, op));
    case Run(a, c, raised) =>
      if a < |s.actions| && (s.actions[a].status == Proposed || s.actions[a].status == Approved) {
        RunKeepsMarked(s, a, c, raised, Apply(s, op));
      }
    case Approve(p, decision, user) =>
      if p < |s.approvals| && Decided(s, p, decision, user).Success? {
        ApproveKeepsMarked(s, p, decision, user, Apply(s, op));
      }
    case _ => SameRowsStayMarked(s, Apply(s, op));
  }

  lemma {:induction false} CaseIsMarked(caseId: nat, customer: nat, prior: seq<Delivery>, ops: seq<Op>)
    ensures Marked(Case(caseId, customer, prior, ops))
  {
    hide Apply, RowAsked;
    if ops != [] {
      var rest := ops[..|ops| - 1];
      CaseIsMarked(caseId, customer, prior, rest);
      CaseHolds(caseId, customer, prior, rest);
      ApplyKeepsMarked(Case(caseId, customer, prior, rest), ops[|ops| - 1]);
    }
  }

  // ----- What the stage therefore shows -----

  lemma {:induction false} NeverReset(requests: seq<StageRequest>, stage: Stage)
    requires Reset !in requests && Ask(stage) in requests
    ensures stage in SinceReset(requests)
  {
    var n := |requests| - 1;
    assert requests == requests[..n] + [requests[n]];
    if requests[n] != Ask(stage) {
      NeverReset(requests[..n], stage);
    }
  }

  /**
   As long as no re-evaluation has reset it, the stage is at least as far as everything the rows
   show: remedies ranked, actions coordinated, the customer updated, and the outcome once closed.
   */
  lemma StageKeepsUp(caseId: nat, customer: nat, prior: seq<Delivery>, ops: seq<Op>, i: nat, stage: Stage)
    requires i < |Case(caseId, customer, prior, ops).actions| && Reset !in Case(caseId, customer, prior, ops).requests
    requires Shows(Case(caseId, customer, prior, ops).actions[i], stage)
    ensures !Earlier(Case(caseId, customer, prior, ops).stage, stage)
    ensures stage == OutcomeRetained ==> Case(caseId, customer, prior, ops).stage == OutcomeRetained
  {
    hide Play;
    CaseIsMarked(caseId, customer, prior, ops);
    CaseHolds(caseId, customer, prior, ops);
    assert RowAsked(Case(caseId, customer, prior, ops), i);
    EarlierIs(Case(caseId, customer, prior, ops).stage, stage);
    NeverReset(Case(caseId, customer, prior, ops).requests, stage);
  }

  /** Once there are hypotheses, the stage is never before the one they stand for. */
  lemma HypothesesLocateTheFailure(caseId: nat, customer: nat, prior: seq<Delivery>, ops: seq<Op>)
    ensures var s := Case(caseId, customer, prior, ops);
            s.hypotheses != [] ==> !Earlier(s.stage, FailureLocated)
  {
    hide Play, RowAsked;
    CaseIsMarked(caseId, customer, prior, ops);
    CaseHolds(caseId, customer, prior, ops);
    var s := Case(caseId, customer, prior, ops);
    EarlierIs(s.stage, FailureLocated);
    if s.hypotheses != [] && Reset !in s.requests {
      NeverReset(s.requests, FailureLocated);
    }
  }

  /** Whether the last thing that happened to the stage was a reset. */
  predicate EndsInReset(requests: seq<StageRequest>) {
    requests != [] && requests[|requests| - 1] == Reset
  }

  /**
   In every reachable case, a generation that resets the stage never moves it forward, and one that
   does not reset never moves it back.
   */
  lemma ResetNeverMovesForward(caseId: nat, customer: nat, prior: seq<Delivery>, ops: seq<Op>, specs: seq<Spec>)
    ensures var s := Case(caseId, customer, prior, ops);
            var after := Generated(s, specs);
            if after.requests != s.requests && EndsInReset(after.requests)
            then after.stage == FailureLocated && !Earlier(s.stage, after.stage)
            else !Earlier(after.stage, s.stage)
  {
    hide Play;
    EarlierIs(Case(caseId, customer, prior, ops).stage, FailureLocated);
    EarlierIs(Generated(Case(caseId, customer, prior, ops), specs).stage, Case(caseId, customer, prior, ops).stage);
    HypothesesLocateTheFailure(caseId, customer, prior, ops);
    GenerationMovesStage(Case(caseId, customer, prior, ops), specs);
  }

  lemma GenerationMovesStage(s: State, specs: seq<Spec>)
    requires s.hypotheses != [] ==> Index(s.stage) >= Index(FailureLocated)
    ensures var after := Generated(s, specs);
            if after.requests != s.requests && EndsInReset(after.requests)
            then after.stage == FailureLocated && Index(after.stage) <= Index(s.stage)
            else Index(after.stage) >= Index(s.stage)
  {
    hide CreateAll, Merge, HasEvidence, Retire, Best, TopActive;
    var s1 := CreateAll(s, Merge(specs));
    assert First(s1.hypotheses[..|s.hypotheses|], IsActive).Some? ==> s.hypotheses != [];
  }
}
