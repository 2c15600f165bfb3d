/** A stage is asked for exactly when the rows show that it was reached; a case is never ahead of its rows. */
module EarnedStages {
  import opened Domain
  import opened CaseState
  import opened EvidenceStore
  import opened HypothesisMerge
  import opened HypothesisEngine
  import opened HypothesisInvariants
  import opened HypothesisTheorems
  import opened NbaEngine
  import opened Executor
  import opened ExecutorTheorems
  import opened ActionTable
  import opened ActionSafety
  import opened Tracing
  import opened Runs
  import opened AppendOnly
  import opened Finality
  import opened Milestones
  import opened DecisionEffects
  import Rules = DecisionRules
  import opened FlagRules

  ghost predicate SomeRow(s: State, kind: ActionKind) {
    exists a :: 0 <= a < |s.actions| && s.actions[a].kind == kind
  }

  ghost predicate SomeFlagAskedAbout(s: State) {
    exists a :: 0 <= a < |s.actions| && s.actions[a].target.MissingEvidence?
  }

  /** Carried out, whether or not a person is to look at it again. */
  ghost predicate SomeCarriedOut(s: State, kind: ActionKind) {
    exists a :: 0 <= a < |s.actions| && s.actions[a].kind == kind
      && (s.actions[a].status == Succeeded || s.actions[a].status == NeedsManualReview)
  }

  /** The case has, or had, a fact of its own on record. */
  ghost predicate SomeFact(s: State) {
    exists r :: 0 <= r < |s.evidence| && s.evidence[r].customer == s.customer && s.evidence[r].duplicateOf == None
  }

  /** What the rows of a case that earned a stage look like. */
  ghost predicate Earned(s: State, stage: Stage) {
    match stage
    case IssueReported => false
    case JourneyAssembled => SomeFact(s)
    case FailureLocated => s.hypotheses != []
    case EvidenceChecked => SomeFlagAskedAbout(s)
    case ImpactAssessed => SomeRow(s, RunAnalysis)
    case RecoveryOptionsRanked => SomeRow(s, ExecuteRecovery)
    case ActionsCoordinated => SomeCarriedOut(s, EscalateItsm) || SomeCarriedOut(s, ExecuteRecovery)
    case CustomerUpdated => SomeCarriedOut(s, NotifyCustomer)
    case OutcomeRetained => SomeRow(s, CloseCase)
  }

  /** Nothing was asked for that is not earned, and no case without hypotheses was reset. */
  ghost predicate OnlyEarned(s: State) {
    && (forall stage | Ask(stage) in s.requests :: Earned(s, stage))
    && (Reset in s.requests ==> s.hypotheses != [])
  }

  // ----- What is earned stays earned -----

  lemma StaysEarned(s: State, after: State, stage: Stage)
    requires Extends(s, after) && Keeps(s, after) && Earned(s, stage)
    ensures Earned(after, stage)
  {
    RowsStay(s, after);
    match stage
    case JourneyAssembled => FactStays(s, after);
    case _ =>
  }

  lemma RowsStay(s: State, after: State)
    requires Extends(s, after) && Keeps(s, after)
    ensures forall kind :: SomeRow(s, kind) ==> SomeRow(after, kind)
    ensures forall kind :: SomeCarriedOut(s, kind) ==> SomeCarriedOut(after, kind)
    ensures SomeFlagAskedAbout(s) ==> SomeFlagAskedAbout(after)
  {
    forall kind | SomeRow(s, kind) ensures SomeRow(after, kind) {
      var a :| 0 <= a < |s.actions| && s.actions[a].kind == kind;
      assert after.actions[a].kind == kind;
    }
    forall kind | SomeCarriedOut(s, kind) ensures SomeCarriedOut(after, kind) {
      var a :| 0 <= a < |s.actions| && s.actions[a].kind == kind
        && (s.actions[a].status == Succeeded || s.actions[a].status == NeedsManualReview);
      assert after.actions[a] == s.actions[a];
    }
    if SomeFlagAskedAbout(s) {
      var a :| 0 <= a < |s.actions| && s.actions[a].target.MissingEvidence?;
      assert after.actions[a].target == s.actions[a].target;
    }
  }

  lemma FactStays(s: State, after: State)
    requires Extends(s, after) && SomeFact(s)
    ensures SomeFact(after)
  {
    var r :| 0 <= r < |s.evidence| && s.evidence[r].customer == s.customer && s.evidence[r].duplicateOf == None;
    assert after.evidence[r].customer == s.customer && after.evidence[r].duplicateOf == None;
  }

  /** What was asked for since is earned by now. */
  ghost predicate Earns(s: State, after: State) {
    && s.requests <= after.requests
    && forall k | |s.requests| <= k < |after.requests| :: IsDue(after, after.requests[k])
  }

  ghost predicate IsDue(s: State, r: StageRequest) {
    match r
    case Ask(stage) => Earned(s, stage)
    case Reset => s.hypotheses != []
  }

  lemma EarningKeepsEarned(s: State, after: State)
    requires OnlyEarned(s) && Extends(s, after) && Keeps(s, after) && Earns(s, after)
    ensures OnlyEarned(after)
  {
    hide Earned, Extends, Keeps;
    forall k | 0 <= k < |after.requests| ensures IsDue(after, after.requests[k]) {
      if k < |s.requests| {
        assert after.requests[k] == s.requests[k] && s.requests[k] in s.requests;
        if s.requests[k].Ask? {
          StaysEarned(s, after, s.requests[k].stage);
        } else {
          HypothesesStay(s, after);
        }
      }
    }
  }

  lemma HypothesesStay(s: State, after: State)
    requires Extends(s, after)
    ensures s.hypotheses != [] ==> after.hypotheses != []
  {}

  // ----- Every operation -----

  lemma ReconcilingEarns(s: State, raised: seq<Flag>)
    ensures Earns(s, Reconciled(s, raised))
  {
    hide PictureOf;
    HasEvidenceIs(s);
    var after := Reconciled(s, raised);
    if HasEvidence(s) {
      var r: nat :| Usable(s.evidence, s.customer, r);
      assert after.evidence[r].customer == after.customer;
      assert SomeFact(after);
    }
  }

  /** A reconciliation asks for the timeline's stage exactly if the case has current evidence, and for no other. */
  lemma ReconcilingAsks(s: State, raised: seq<Flag>)
    ensures Reconciled(s, raised).requests ==
              s.requests + if exists r: nat :: Usable(s.evidence, s.customer, r) then [Ask(JourneyAssembled)] else []
  {
    hide PictureOf;
    HasEvidenceIs(s);
  }

  lemma GeneratingEarns(s: State, specs: seq<Spec>)
    ensures Earns(s, Generated(s, specs))
  {
    hide CreateAll, Merge, Best, TopActive, Gap, PictureOf, HasEvidence;
    var after := Generated(s, specs);
    assert after.hypotheses != [] ==> Earned(after, FailureLocated);
  }

  lemma DecidingEarns(s: State, scan: nat, exposure: nat)
    requires Safe(s)
    ensures Earns(s, Decide(s, scan, exposure).0)
  {
    hide Safe, Decide, TakesEffect, Rules.MayChoose, Earned;
    DecisionTakesEffect(s, scan, exposure);
    var (after, answer) := Decide(s, scan, exposure);
    if !exists a: nat :: a < |s.actions| && InFlight(s.actions[a]) {
      var c :| Rules.MayChoose(s, c) && TakesEffect(s.(reevaluate := false), c, exposure, after, answer);
      EffectEarns(s, c, exposure, after, answer);
    }
  }

  lemma EffectEarns(s: State, c: Choice, exposure: nat, after: State, answer: Option<nat>)
    requires Safe(s) && Rules.MayChoose(s, c) && TakesEffect(s.(reevaluate := false), c, exposure, after, answer)
    ensures Earns(s, after)
  {
    hide Rules.MayChoose, Earns, TakesEffect, ApprovalsOk, ExecutionsOk, ImpactsOk, RequestsOk;
    match c
    case Offer(p) =>
      OfferedStage(s, p);
      KindsAreCalledFor(s.actions);
      OfferEarns(s, p, exposure, after, answer);
    case Analyse(h) => InlineEarns(s, c, exposure, after, answer);
    case Close(h) => InlineEarns(s, c, exposure, after, answer);
    case _ => NothingAsked(s, c, exposure, after, answer);
  }

  lemma KindsAreCalledFor(actions: seq<Action>)
    requires TableOk(actions)
    ensures forall a | 0 <= a < |actions| :: CallsFor(actions[a].target, actions[a].kind)
  {
    hide KeyOf, KindOf, PairOk, CausesOk;
    forall a | 0 <= a < |actions| ensures CallsFor(actions[a].target, actions[a].kind) {
      assert RowOk(actions[a]);
      KindIsCalledFor(actions[a].target, actions[a].kind);
    }
  }

  lemma NothingAsked(s: State, c: Choice, exposure: nat, after: State, answer: Option<nat>)
    requires (c.Exhausted? || c.Nothing?) && TakesEffect(s.(reevaluate := false), c, exposure, after, answer)
    ensures Earns(s, after)
  {}

  lemma InlineEarns(s: State, c: Choice, exposure: nat, after: State, answer: Option<nat>)
    requires (c.Analyse? || c.Close?) && TakesEffect(s.(reevaluate := false), c, exposure, after, answer)
    ensures Earns(s, after)
  {
    var stage := if c.Analyse? then ImpactAssessed else OutcomeRetained;
    var id := |s.actions|;
    assert after.actions[id].kind == if c.Analyse? then RunAnalysis else CloseCase;
    assert after.requests == s.requests + [Ask(stage)];
    assert Earned(after, stage);
  }

  /** Only a request about a flag and a remedy bring a stage with them. */
  lemma OfferedStage(s: State, p: Proposal)
    requires Rules.MayChoose(s, Offer(p))
    ensures p.stage.Some? ==>
              || (p.stage.value == EvidenceChecked && p.target.MissingEvidence?)
              || (p.stage.value == RecoveryOptionsRanked && p.target.Remedy?)
  {
    hide Rules.Costs, Rules.NeedsApproval, Rules.RemediesFor, Rules.SomeMissing, Rules.IsAssessed, Rules.MayBeSystemic,
      Rules.SomeUnderway, Rules.WasTurnedDown, Rules.IsNextRemedy, Rules.AssessedAt, Rules.HasSucceeded;
  }

  lemma OfferEarns(s: State, p: Proposal, exposure: nat, after: State, answer: Option<nat>)
    requires TakesEffect(s.(reevaluate := false), Offer(p), exposure, after, answer)
    requires p.stage.Some? ==>
               || (p.stage.value == EvidenceChecked && p.target.MissingEvidence?)
               || (p.stage.value == RecoveryOptionsRanked && p.target.Remedy?)
    requires forall a | 0 <= a < |s.actions| :: CallsFor(s.actions[a].target, s.actions[a].kind)
    ensures Earns(s, after)
  {
    var row := after.actions[answer.value];
    assert SameDecision(row.target, p.target);
    if p.stage.Some? {
      assert after.requests == s.requests + [Ask(p.stage.value)];
      assert row.target.MissingEvidence? || row.kind == ExecuteRecovery;
      assert Earned(after, p.stage.value);
    }
  }

  lemma ExecutingEarns(s: State, a: nat, c: Connector, raised: seq<Flag>)
    requires a < |s.actions| && !SucceededBefore(s.executions, a)
    ensures Earns(s, Execute(s, a, c, raised))
  {
    hide Execute, Assembled, Coordinated, Made;
    StopsAfterMade(c);
    var n, after := Made(c, 1), Execute(s, a, c, raised);
    ExecutionFollowsAnswers(s, a, c, raised, n);
    if Worked(AnswerTo(c, n)) {
      AssemblyIsEarned(AnswerTo(c, n).evidence, after);
      CoordinationIsEarned(s.actions[a].kind, a, after);
    }
  }

  lemma AssemblyIsEarned(surfaced: seq<Delivery>, after: State)
    ensures forall k | 0 <= k < |Assembled(surfaced, after)| :: IsDue(after, Assembled(surfaced, after)[k])
  {
    if r: nat :| Usable(after.evidence, after.customer, r) {
      assert SomeFact(after);
    }
  }

  lemma CoordinationIsEarned(kind: ActionKind, a: nat, after: State)
    requires a < |after.actions| && after.actions[a].kind == kind
    requires after.actions[a].status == Succeeded || after.actions[a].status == NeedsManualReview
    ensures forall k | 0 <= k < |Coordinated(kind)| :: IsDue(after, Coordinated(kind)[k])
  {
    assert SomeCarriedOut(after, kind);
  }

  lemma OperatingEarns(s: State, op: Op)
    requires Inv(s)
    ensures Earns(s, Apply(s, op))
  {
    hide Traced, Led, StoreOk, TableOk, ApprovalsOk, ImpactsOk, RequestsOk, Decide, Execute, Generated, Reconciled,
      Ingested, Earned;
    match op
    case Reconcile(raised) => ReconcilingEarns(s, raised);
    case Regenerate(specs) => GeneratingEarns(s, specs);
    case DecideNext(scan, exposure) => DecidingEarns(s, scan, exposure);
    case Run(a, c, raised) =>
      if a < |s.actions| && (s.actions[a].status == Proposed || s.actions[a].status == Approved) {
        ReadyRunsNow(s, a);
        ExecutingEarns(s, a, c, raised);
      }
    case _ =>
  }

  lemma {:induction false} StagesAreEarned(caseId: nat, customer: nat, prior: seq<Delivery>, ops: seq<Op>)
    ensures OnlyEarned(Case(caseId, customer, prior, ops))
  {
    hide Apply, Inv, OnlyEarned, Extends, Keeps, Earns;
    if ops == [] {
      NothingAskedYet(caseId, customer, prior);
    } else {
      var rest, op := ops[..|ops| - 1], ops[|ops| - 1];
      var s := Case(caseId, customer, prior, rest);
      StagesAreEarned(caseId, customer, prior, rest);
      CaseHolds(caseId, customer, prior, rest);
      ApplyExtends(s, op);
      ApplyKeepsFinal(s, op);
      OperatingEarns(s, op);
      EarningKeepsEarned(s, Apply(s, op));
    }
  }

  lemma NothingAskedYet(caseId: nat, customer: nat, prior: seq<Delivery>)
    ensures OnlyEarned(Opened(caseId, customer, prior))
  {
    assert Opened(caseId, customer, prior).requests == [];
  }

  /**
   Over every run, each stage but the timeline's has been asked for exactly if the rows show it was reached;
   the timeline's only if the case has had a fact on record. So the stage a case is at is one its rows earned.
   */
  lemma AskedIffEarned(caseId: nat, customer: nat, prior: seq<Delivery>, ops: seq<Op>)
    ensures var s := Case(caseId, customer, prior, ops);
            && (forall stage | stage != JourneyAssembled :: Ask(stage) in s.requests <==> Earned(s, stage))
            && (Ask(JourneyAssembled) in s.requests ==> Earned(s, JourneyAssembled))
            && (s.stage == IssueReported || Earned(s, s.stage))
  {
    hide Play, Shows, Earned;
    StagesAreEarned(caseId, customer, prior, ops);
    CaseIsMarked(caseId, customer, prior, ops);
    CaseKinds(caseId, customer, prior, ops);
    StageClosedForm(caseId, customer, prior, ops);
    var s := Case(caseId, customer, prior, ops);
    forall stage | stage != JourneyAssembled && Earned(s, stage) ensures Ask(stage) in s.requests {
      EarnedIsMarked(s, stage);
    }
    SinceResetWasAsked(s.requests);
    ResetIsEarned(s);
  }

  lemma CaseKinds(caseId: nat, customer: nat, prior: seq<Delivery>, ops: seq<Op>)
    ensures var s := Case(caseId, customer, prior, ops);
            forall a | 0 <= a < |s.actions| :: CallsFor(s.actions[a].target, s.actions[a].kind)
  {
    hide Case, TableOk;
    CaseHolds(caseId, customer, prior, ops);
    KindsAreCalledFor(Case(caseId, customer, prior, ops).actions);
  }

  lemma ResetIsEarned(s: State)
    requires OnlyEarned(s)
    ensures Reset in s.requests ==> Earned(s, FailureLocated)
  {}

  lemma {:induction false} SinceResetWasAsked(requests: seq<StageRequest>)
    ensures forall stage | stage in SinceReset(requests) :: Ask(stage) in requests
  {
    if requests != [] {
      var n := |requests| - 1;
      SinceResetWasAsked(requests[..n]);
      assert requests == requests[..n] + [requests[n]];
    }
  }

  lemma EarnedIsMarked(s: State, stage: Stage)
    requires Marked(s) && stage != JourneyAssembled && Earned(s, stage)
    requires forall a | 0 <= a < |s.actions| :: CallsFor(s.actions[a].target, s.actions[a].kind)
    ensures Ask(stage) in s.requests
  {
    if stage != FailureLocated {
      assert stage == EvidenceChecked ==> exists a: nat ::
          a < |s.actions| && s.actions[a].target.MissingEvidence? && Shows(s.actions[a], EvidenceChecked);
      var a: nat :| a < |s.actions| && Shows(s.actions[a], stage);
      assert RowAsked(s, a);
    }
  }
}
