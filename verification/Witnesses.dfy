/** Concrete runs that show which hypotheses of the theorems cannot be dropped. */
module Witnesses {
  import opened Domain
  import opened Sequences
  import opened AuditReplay
  import opened CaseState
  import opened Confidence
  import opened Corroboration
  import opened Uncertainty
  import opened EvidenceStore
  import opened HypothesisMerge
  import opened HypothesisEngine
  import opened HypothesisInvariants
  import opened NbaEngine
  import opened Executor
  import opened Orchestrator
  import opened ActionSafety
  import opened Tracing
  import opened Runs
  import opened CaseCycle
  import opened ReplayTheorems
  import opened WholeAdvances
  import Catalog = RecoveryCatalog

  // ----- A case with one weak hypothesis -----

  const CLICK := Delivery(0, None, EvidenceKey(WebAppEvent, 0, 0), 0, Payload(NoStatus, NoDisposition, 0), 0)

  /** A proposal that cites the first row. */
  function Suspicion(c: Category): seq<Spec> {
    [Spec(c, [0], [], true)]
  }

  /** A hypothesis that rests on the first row alone. */
  function Suspected(rows: seq<Evidence>, c: Category): Hypothesis
    requires rows != []
  {
    Hypothesis(c, Ratio(SourceWeight(rows[0].key.source), 0), Active)
  }

  lemma {:induction false} OneRowScores(rows: seq<Evidence>, c: Category)
    requires rows != [] && IsCurrentFor(rows[0], 0)
    ensures NewHypotheses(rows, 0, Merge(Suspicion(c))) == [Suspected(rows, c)]
  {
    hide NewHypotheses, Merge, Score, ValidIds, Ratio;
    MergeOfUnique(Suspicion(c));
    FirstRowCounts(rows, Suspicion(c)[0]);
    OnlyOneIsNew(rows, Suspicion(c)[0]);
  }

  lemma {:induction false} FirstRowCounts(rows: seq<Evidence>, spec: Spec)
    requires rows != [] && IsCurrentFor(rows[0], 0) && spec.supports == [0] && spec.weakens == []
    ensures ValidIds(rows, 0, spec.supports) != []
    ensures Score(rows, 0, spec) == Ratio(SourceWeight(rows[0].key.source), 0)
  {
    hide Ratio;
    FilterAll(spec.supports, Citable(rows, 0));
    TotalOfOne(spec.supports, 0, WeightOf(rows));
  }

  lemma {:induction false} OnlyOneIsNew(rows: seq<Evidence>, spec: Spec)
    requires ValidIds(rows, 0, spec.supports) != []
    ensures NewHypotheses(rows, 0, [spec]) == [Hypothesis(spec.category, Score(rows, 0, spec), Active)]
  {
    hide Score, ValidIds;
    var specs := [spec];
    assert specs[..|specs| - 1] == [] && NewHypotheses(rows, 0, []) == [];
  }

  /** Generating from the first row adds one weak hypothesis, which becomes primary. */
  lemma SuspicionArises(s: State, c: Category)
    requires Led(s) && s.evidence != [] && IsCurrentFor(s.evidence[0], 0) && s.customer == 0
    ensures var after, n := Generated(s, Suspicion(c)), |s.hypotheses|;
            && |after.hypotheses| == n + 1
            && after.hypotheses[n] == Suspected(s.evidence, c)
            && after.primary == Some(n)
  {
    hide Scored, Merge, CreateAll, NewHypotheses, TakeOver, Suspected;
    var n := |s.hypotheses|;
    assert IsCurrent(0)(s.evidence[0]);
    var s1 := CreateAll(s, Merge(Suspicion(c)));
    CreateAllKeepsScored(s, Merge(Suspicion(c)));
    OneRowScores(s.evidence, c);
    assert s1.hypotheses == s.hypotheses + [Suspected(s.evidence, c)];
    assert Suspicion(c) != [] && HasEvidence(s);
  }

  // ----- One record reaches the action threshold -----

  const PAID := Delivery(0, None, EvidenceKey(Payment, 0, 0), 0, Payload(NoStatus, NoDisposition, 0), 0)

  /** A proposal that cites the first row twice. */
  function Echo(): seq<Spec> {
    [Spec(DuplicateCharge, [0, 0], [], true)]
  }

  lemma EchoScores(rows: seq<Evidence>)
    requires rows == [NewRow(PAID)]
    ensures NewHypotheses(rows, 0, Merge(Echo())) == [Hypothesis(DuplicateCharge, 6_667, Active)]
  {
    var spec := Echo()[0];
    MergeOfUnique(Echo());
    assert Echo()[..0] == [] && NewHypotheses(rows, 0, []) == [];
    FilterAll(spec.supports, Citable(rows, 0));
    assert ValidIds(rows, 0, spec.weakens) == [];
    TotalOfOne(spec.supports, 0, WeightOf(rows));
  }

  lemma EchoArises(s: State)
    requires Led(s) && s.hypotheses == [] && s.evidence == [NewRow(PAID)] && s.customer == 0
    ensures var after := Generated(s, Echo());
            after.hypotheses == [Hypothesis(DuplicateCharge, 6_667, Active)] && after.primary == Some(0)
            && after.evidence == s.evidence
  {
    hide Scored, Merge, CreateAll, NewHypotheses, TakeOver;
    assert IsCurrent(0)(s.evidence[0]);
    CreateAllKeepsScored(s, Merge(Echo()));
    EchoScores(s.evidence);
    assert Echo() != [] && HasEvidence(s);
  }

  /** The case has one record of evidence, and its primary is above the threshold for acting. */
  lemma OneRecordCanReachTheThreshold()
    ensures var s := Case(0, 0, [], [Deliver(PAID), Regenerate(Echo())]);
            && s.evidence == [NewRow(PAID)] && s.primary == Some(0) && s.hypotheses != []
            && s.hypotheses[0].confidence == 6_667 > ACTION_THRESHOLD
  {
    hide Safe, Traced, Scored, Generated;
    var s := Opened(0, 0, []);
    OpenedHolds(0, 0, []);
    DeliverKeeps(s, PAID);
    PlayOne(s, Deliver(PAID));
    PlayTwo(s, Deliver(PAID), Regenerate(Echo()), IngestInto(s, PAID));
    EchoArises(IngestInto(s, PAID));
    assert [Deliver(PAID), Regenerate(Echo())] == [Deliver(PAID)] + [Regenerate(Echo())];
  }

  // ----- An option parked in manual review is offered again -----

  /** A fresh hypothesis for which nothing has been analysed or tried. */
  ghost predicate Untried(s: State, h: nat) {
    && Inv(s) && First(s.actions, IsLive).None?
    && Grounds(s) == Some(h) && s.hypotheses[h].category == DuplicateCharge
    && s.flags == []
    && First(s.impacts, ImpactFor(h)).None?
    && (forall a | a in s.actions && a.kind == ExecuteRecovery :: a.status == NeedsManualReview)
    && First(s.actions, HasKey(KeyOf(Remedy(ReverseDuplicateCharge, 0, h)))).None?
  }

  function Reversal(h: nat): Action {
    Action(ExecuteRecovery, Remedy(ReverseDuplicateCharge, 0, h), Proposed, false,
      KeyOf(Remedy(ReverseDuplicateCharge, 0, h)))
  }

  function Analysis(h: nat): Action {
    Action(RunAnalysis, ImpactOf(h), Succeeded, false, KeyOf(ImpactOf(h)))
  }

  lemma FirstRemedyIsReversal()
    ensures Catalog.BestOption(Catalog.Rank(DuplicateCharge, 0), {}) ==
            Some(Catalog.RecoveryOption(ReverseDuplicateCharge, 0, false, Some(FinanceApprover)))
  {
    Catalog.CategoriesAreAuthored(DuplicateCharge, 0);
    Catalog.FirstOffer(Catalog.CategoryOptions(DuplicateCharge, 0));
  }

  /** Its next two decisions analyse it and propose the reversal. */
  lemma UntriedIsAnalysed(s: State, h: nat)
    requires Untried(s, h)
    ensures var after := Decide(s, 0, 0).0;
            && after.actions == s.actions + [Analysis(h)]
            && after.impacts == s.impacts + [Impact(h, 0)]
            && SameHypotheses(s, after) && after.flags == s.flags && Inv(after)
            && (BeforeActions(s) ==> BeforeActions(after))
  {
    hide Analysed, Propose, Led, StoreOk;
    assert Where(s.flags, IsMissing) == [];
    var s1 := s.(reevaluate := false);
    assert Choose(s1, 0) == Analyse(h);
    AnalysisIsFresh(s1, h, 0);
    AnalysisStage(s1, h);
    DecideKeeps(s, 0, 0);
  }

  /** No action has been coordinated yet, as far as the stage tells. */
  predicate BeforeActions(s: State) {
    Index(s.stage) < Index(ActionsCoordinated)
  }

  lemma AnalysisStage(s: State, h: nat)
    ensures BeforeActions(s) ==> BeforeActions(Analysed(s, h, 0).0)
  {
    hide Told;
  }

  const REVERSAL := Catalog.RecoveryOption(ReverseDuplicateCharge, 0, false, Some(FinanceApprover))

  lemma ReversalIsChosen(s: State, h: nat)
    requires Grounds(s) == Some(h) && s.hypotheses[h].category == DuplicateCharge && s.flags == []
    requires First(s.impacts, ImpactFor(h)).Some? && s.impacts[First(s.impacts, ImpactFor(h)).value].exposure == 0
    requires First(s.actions, LiveOrDoneRecovery).None? && RejectedCodes(s.actions) == {}
    ensures Choose(s, 0) == Offer(RemedyProposal(h, REVERSAL))
  {
    hide Catalog.BestOption, Catalog.Rank, First, NeedsItsmCheck;
    assert Where(s.flags, IsMissing) == [];
    NoItsmCheckNeeded(s, h);
    FirstRemedyIsReversal();
  }

  lemma NoItsmCheckNeeded(s: State, h: nat)
    requires h < |s.hypotheses| && s.hypotheses[h].category == DuplicateCharge
    ensures !NeedsItsmCheck(s, h)
  {}

  lemma OfferIsInserted(s: State, scan: nat, exposure: nat, p: Proposal)
    requires First(s.actions, IsLive).None? && Choose(s.(reevaluate := false), scan) == Offer(p)
    requires First(s.actions, HasKey(KeyOf(p.target))).None?
    ensures Decide(s, scan, exposure).0.actions == s.actions + [NewAction(p)]
    ensures Decide(s, scan, exposure).0.impacts == s.impacts
    ensures Decide(s, scan, exposure).1 == Some(|s.actions|)
    ensures BeforeActions(s) && (p.stage.Some? ==> Index(p.stage.value) < Index(ActionsCoordinated)) ==>
              BeforeActions(Decide(s, scan, exposure).0)
  {
    var s1 := s.(reevaluate := false);
    DecideFresh(s, scan, exposure);
    assert First(Prepared(s1, p).actions, HasKey(KeyOf(p.target))).None?;
  }

  lemma DecisionKeeps(s: State, scan: nat, exposure: nat, after: State)
    requires Inv(s) && after == Decide(s, scan, exposure).0
    ensures SameHypotheses(s, after) && after.flags == s.flags && Inv(after)
  {
    DecideKeeps(s, scan, exposure);
    DecideFrame(s, scan, exposure);
  }

  /** The hypothesis has just been analysed, finding no exposure. */
  ghost predicate AnalysedOnce(s: State, h: nat, rest: seq<Action>) {
    && Inv(s) && Grounds(s) == Some(h) && s.hypotheses[h].category == DuplicateCharge && s.flags == []
    && First(s.impacts, ImpactFor(h)).Some? && s.impacts[First(s.impacts, ImpactFor(h)).value].exposure == 0
    && s.actions == rest + [Analysis(h)] && First(rest, IsLive).None?
    && (forall a | a in rest && a.kind == ExecuteRecovery :: a.status == NeedsManualReview)
    && First(rest, HasKey(KeyOf(Remedy(ReverseDuplicateCharge, 0, h)))).None?
  }

  lemma BecomesAnalysed(s: State, h: nat, s1: State)
    requires Untried(s, h) && Inv(s1) && SameHypotheses(s, s1) && s1.flags == s.flags
    requires s1.actions == s.actions + [Analysis(h)] && s1.impacts == s.impacts + [Impact(h, 0)]
    ensures AnalysedOnce(s1, h, s.actions)
  {
    FirstSnoc(s.impacts, Impact(h, 0), ImpactFor(h));
  }

  lemma NothingTriedYet(actions: seq<Action>, h: nat, rest: seq<Action>)
    requires actions == rest + [Analysis(h)] && First(rest, IsLive).None?
    requires forall a | a in rest && a.kind == ExecuteRecovery :: a.status == NeedsManualReview
    requires First(rest, HasKey(KeyOf(Remedy(ReverseDuplicateCharge, 0, h)))).None?
    ensures First(actions, IsLive).None? && First(actions, LiveOrDoneRecovery).None? && RejectedCodes(actions) == {}
    ensures First(actions, HasKey(KeyOf(Remedy(ReverseDuplicateCharge, 0, h)))).None?
  {
    FirstSnoc(rest, Analysis(h), IsLive);
    FirstSnoc(rest, Analysis(h), HasKey(KeyOf(Remedy(ReverseDuplicateCharge, 0, h))));
    forall i | 0 <= i < |actions| ensures !LiveOrDoneRecovery(actions[i]) {
      assert i < |rest| ==> actions[i] in rest;
    }
  }

  lemma AnalysedChoosesReversal(s: State, h: nat, rest: seq<Action>)
    requires AnalysedOnce(s, h, rest)
    ensures Choose(s.(reevaluate := false), 0) == Offer(ReversalProposal(h))
    ensures First(s.actions, IsLive).None? && First(s.actions, HasKey(KeyOf(ReversalProposal(h).target))).None?
  {
    NothingTriedYet(s.actions, h, rest);
    ReversalIsChosen(s.(reevaluate := false), h);
  }

  function ReversalProposal(h: nat): Proposal {
    Proposal(Remedy(ReverseDuplicateCharge, 0, h), false, FinanceApprover, Some(ActionInProgress),
      Some(RecoveryOptionsRanked))
  }

  lemma AnalysedIsReversed(s: State, h: nat, rest: seq<Action>)
    requires AnalysedOnce(s, h, rest)
    ensures Decide(s, 0, 0).0.actions == s.actions + [Reversal(h)]
    ensures Decide(s, 0, 0).0.impacts == s.impacts
    ensures BeforeActions(s) ==> BeforeActions(Decide(s, 0, 0).0)
  {
    hide AnalysedOnce, Decide, Choose;
    AnalysedChoosesReversal(s, h, rest);
    OfferIsInserted(s, 0, 0, ReversalProposal(h));
  }

  /** Two decisions from an untried hypothesis: its analysis, then the reversal, proposed ungated. */
  lemma UntriedIsReversed(s: State, h: nat, s1: State, s2: State)
    requires Untried(s, h) && s1 == Decide(s, 0, 0).0 && s2 == Decide(s1, 0, 0).0
    ensures s2.actions == s.actions + [Analysis(h), Reversal(h)] && s2.impacts == s.impacts + [Impact(h, 0)]
    ensures SameHypotheses(s, s2) && s2.flags == s.flags && Inv(s2)
    ensures BeforeActions(s) ==> BeforeActions(s2)
  {
    hide Untried, AnalysedOnce, Decide, Inv;
    UntriedIsAnalysed(s, h);
    BecomesAnalysed(s, h, s1);
    AnalysedIsReversed(s1, h, s.actions);
    DecisionKeeps(s1, 0, 0, s2);
    assert s.actions + [Analysis(h), Reversal(h)] == s.actions + [Analysis(h)] + [Reversal(h)];
  }

  /** The connector answers once, and wants a human to look. */
  const REVIEW := Connector([Answered(true, true, [])])

  /** Running the proposed reversal against it parks the reversal, and changes nothing else. */
  lemma ReversalIsParked(s: State, h: nat, rest: seq<Action>)
    requires Inv(s) && s.actions == rest + [Reversal(h)]
    ensures var after := ExecuteIfReady(s, |rest|, REVIEW, []);
            && after.actions == rest + [Reversal(h).(status := NeedsManualReview)]
            && SameHypotheses(s, after) && after.flags == s.flags && after.impacts == s.impacts && Inv(after)
  {
    hide Traced, Led, StoreOk, Attempts, AdvanceStage;
    var a := |rest|;
    assert s.actions[a] == Reversal(h);
    RunKeeps(s, a, REVIEW, []);
    ReadyRunsNow(s, a);
    ExecuteEffect(s, a, REVIEW, []);
    ReviewParks();
    var s1 := Attempts(Started(s, a), a, REVIEW, 1);
    assert AbsorbEvidence(s1, [], []) == s1;
  }

  lemma ReviewParks()
    ensures Made(REVIEW, 1) == 1 && On(REVIEW, 1) == Answered(true, true, [])
            && FinalStatus(REVIEW) == NeedsManualReview
  {}

  ghost predicate Reachable(s: State) {
    exists caseId, customer, prior, ops :: s == Case(caseId, customer, prior, ops)
  }

  lemma ReachesNext(s: State, op: Op, after: State)
    requires Reachable(s) && after == Apply(s, op)
    ensures Reachable(after)
    ensures Undecided(s) && Standalone(op) ==> Undecided(after)
  {
    hide Apply, Opened;
    var caseId, customer, prior, ops :| s == Case(caseId, customer, prior, ops);
    assert (ops + [op])[..|ops|] == ops;
    assert after == Case(caseId, customer, prior, ops + [op]);
    if Undecided(s) && Standalone(op) {
      StaysUndecided(s, op, after);
    }
  }

  /** Reached without a single decision. */
  ghost predicate Undecided(s: State) {
    exists caseId, customer, prior, ops ::
      s == Case(caseId, customer, prior, ops) && forall op | op in ops :: Standalone(op)
  }

  lemma StaysUndecided(s: State, op: Op, after: State)
    requires Undecided(s) && Standalone(op) && after == Apply(s, op)
    ensures Undecided(after)
  {
    hide Apply, Opened;
    var caseId, customer, prior, ops :|
      s == Case(caseId, customer, prior, ops) && forall op | op in ops :: Standalone(op);
    assert (ops + [op])[..|ops|] == ops;
    assert after == Case(caseId, customer, prior, ops + [op]);
  }

  /** A case nothing has been decided in yet. */
  ghost predicate Early(s: State, flags: seq<Flag>, rows: seq<Evidence>) {
    && Reachable(s) && Undecided(s) && Inv(s)
    && s.customer == 0 && s.flags == flags && s.evidence == rows
    && s.actions == [] && s.impacts == [] && BeforeActions(s)
  }

  lemma GenerationStage(s: State, specs: seq<Spec>)
    ensures BeforeActions(s) ==> BeforeActions(Generated(s, specs))
  {
    hide CreateAll, Merge, Told, TopActive, Best, Retire, HasEvidence;
  }

  lemma OpensWithFlags(flags: seq<Flag>, s0: State, s1: State)
    requires s0 == Opened(0, 0, []) && s1 == Reconciled(s0, flags)
    ensures Early(s1, flags, []) && s1.hypotheses == []
  {
    hide Inv, RecordFlags, Opened, AdvanceStage, Reachable, Undecided;
    OpeningIsReachable(s0);
    OpeningIsEmpty(s0);
    ReconcilingStaysEarly(s0, flags);
    ReconcileKeeps(s0, flags);
    ReachesNext(s0, Reconcile(flags), s1);
    assert s0.flags + flags == flags;
  }

  lemma OpeningIsEmpty(s: State)
    requires s == Opened(0, 0, [])
    ensures s.customer == 0 && s.flags == [] && s.evidence == [] && s.actions == [] && s.impacts == []
            && s.hypotheses == []
    ensures BeforeActions(s)
  {}

  lemma ReconcilingStaysEarly(s: State, flags: seq<Flag>)
    requires BeforeActions(s)
    ensures BeforeActions(Reconciled(s, flags))
  {
    hide RecordFlags;
  }

  lemma OpeningIsReachable(s: State)
    requires s == Opened(0, 0, [])
    ensures Reachable(s) && Undecided(s) && Inv(s)
  {
    hide Inv, Opened;
    OpenedHolds(0, 0, []);
    assert s == Case(0, 0, [], []);
  }

  lemma ClickArrives(flags: seq<Flag>, s1: State, s2: State)
    requires Early(s1, flags, []) && s2 == IngestInto(s1, CLICK)
    ensures Early(s2, flags, [NewRow(CLICK)]) && s2.hypotheses == s1.hypotheses
  {
    DeliverKeeps(s1, CLICK);
    ReachesNext(s1, Deliver(CLICK), s2);
    FactThenRepeat(CLICK);
  }

  lemma FirstSuspicion(flags: seq<Flag>, s2: State, s3: State)
    requires Early(s2, flags, [NewRow(CLICK)]) && s2.hypotheses == [] && s3 == Generated(s2, Suspicion(DuplicateCharge))
    ensures Early(s3, flags, [NewRow(CLICK)]) && |s3.hypotheses| == 1
    ensures Grounds(s3) == Some(0) && s3.hypotheses[0].category == DuplicateCharge
    ensures s3.hypotheses[0] == Suspected([NewRow(CLICK)], DuplicateCharge)
  {
    hide Generated, Reachable, Undecided, Ratio;
    SuspicionArises(s2, DuplicateCharge);
    GenerationStage(s2, Suspicion(DuplicateCharge));
    GeneratedFrame(s2, Suspicion(DuplicateCharge));
    RegenerateKeeps(s2, Suspicion(DuplicateCharge));
    ReachesNext(s2, Regenerate(Suspicion(DuplicateCharge)), s3);
  }

  lemma RowsAfterParking(actions: seq<Action>, h: nat)
    requires actions == [Analysis(0), Reversal(0).(status := NeedsManualReview)] && h > 0
    ensures First(actions, IsLive).None?
    ensures forall a | a in actions && a.kind == ExecuteRecovery :: a.status == NeedsManualReview
    ensures First(actions, HasKey(KeyOf(Remedy(ReverseDuplicateCharge, 0, h)))).None?
  {}

  lemma NoImpactYet(impacts: seq<Impact>, h: nat)
    requires impacts == [Impact(0, 0)] && h > 0
    ensures First(impacts, ImpactFor(h)).None?
  {}

  /** After the parked reversal, the same suspicion makes an untried hypothesis again. */
  lemma SuspicionReturns(s: State, h: nat, after: State)
    requires Inv(s) && s.evidence == [NewRow(CLICK)] && s.customer == 0 && s.flags == []
    requires |s.hypotheses| == h > 0 && s.impacts == [Impact(0, 0)]
    requires s.actions == [Analysis(0), Reversal(0).(status := NeedsManualReview)]
    requires after == Generated(s, Suspicion(DuplicateCharge))
    ensures Untried(after, h) && after.actions == s.actions
  {
    SuspicionArises(s, DuplicateCharge);
    GeneratedFrame(s, Suspicion(DuplicateCharge));
    RegenerateKeeps(s, Suspicion(DuplicateCharge));
    RowsAfterParking(s.actions, h);
    NoImpactYet(s.impacts, h);
  }

  lemma DecisionReaches(s: State, after: State)
    requires Reachable(s) && after == Decide(s, 0, 0).0
    ensures Reachable(after)
  {
    ReachesNext(s, DecideNext(0, 0), after);
  }

  ghost predicate ReversalPending(s: State, h: nat, after: State) {
    && Reachable(after) && Inv(after) && SameHypotheses(s, after) && after.flags == s.flags
    && after.actions == s.actions + [Analysis(h), Reversal(h)] && after.impacts == s.impacts + [Impact(h, 0)]
    && (BeforeActions(s) ==> BeforeActions(after))
  }

  /** From a case with an untried hypothesis, its reversal gets proposed. */
  lemma ReversalIsProposed(s: State, h: nat)
    requires Reachable(s) && Untried(s, h)
    ensures exists after :: ReversalPending(s, h, after)
  {
    var s1 := Decide(s, 0, 0).0;
    var s2 := Decide(s1, 0, 0).0;
    UntriedIsReversed(s, h, s1, s2);
    DecisionReaches(s, s1);
    DecisionReaches(s1, s2);
    assert ReversalPending(s, h, s2);
  }

  predicate SameOptionTwice(actions: seq<Action>) {
    exists i, j :: 0 <= i < j < |actions| && actions[i].target.Remedy? && actions[j].target.Remedy?
      && actions[i].target.code == actions[j].target.code
  }

  /** The first hypothesis analysed and its reversal proposed, on one click. */
  ghost predicate FirstPending(before: State, s: State) {
    && ReversalPending(before, 0, s) && before.actions == [] && before.impacts == []
    && Grounds(s) == Some(0) && |s.hypotheses| == 1 && s.hypotheses[0].category == DuplicateCharge
    && s.evidence == [NewRow(CLICK)] && s.customer == 0 && s.flags == [] && BeforeActions(s)
  }

  /** One click, one weak hypothesis, nothing decided. */
  lemma FirstHypothesis()
    ensures exists s :: Early(s, [], [NewRow(CLICK)]) && |s.hypotheses| == 1 && Grounds(s) == Some(0)
              && s.hypotheses[0].category == DuplicateCharge
              && s.hypotheses[0] == Suspected([NewRow(CLICK)], DuplicateCharge)
  {
    hide Inv, Reachable, Undecided, Generated, Reconciled, Suspected;
    var s0 := Opened(0, 0, []);
    var s1 := Reconciled(s0, []);
    OpensWithFlags([], s0, s1);
    var s2 := IngestInto(s1, CLICK);
    ClickArrives([], s1, s2);
    FirstSuspicion([], s2, Generated(s2, Suspicion(DuplicateCharge)));
  }

  lemma FirstReversal()
    ensures exists s, before :: FirstPending(before, s)
  {
    hide Inv, Reachable, Undecided;
    FirstHypothesis();
    var before :| Early(before, [], [NewRow(CLICK)]) && |before.hypotheses| == 1 && Grounds(before) == Some(0)
      && before.hypotheses[0].category == DuplicateCharge;
    EarlyIsUntried(before);
    ReversalIsProposed(before, 0);
    var s :| ReversalPending(before, 0, s);
    assert FirstPending(before, s);
  }

  lemma EarlyIsUntried(s: State)
    requires Early(s, [], [NewRow(CLICK)]) && Grounds(s) == Some(0) && s.hypotheses[0].category == DuplicateCharge
    ensures Untried(s, 0)
  {}

  /** Two rows, the second a reversal parked for review. */
  ghost predicate Parked(s: State) {
    && Reachable(s) && Inv(s) && |s.hypotheses| == 1 && s.evidence == [NewRow(CLICK)] && s.customer == 0
    && s.actions == [Analysis(0), Reversal(0).(status := NeedsManualReview)] && s.impacts == [Impact(0, 0)]
      && s.flags == []
  }

  lemma Parks(s: State, rest: seq<Action>, parked: State)
    requires Reachable(s) && Inv(s) && |s.hypotheses| == 1 && s.evidence == [NewRow(CLICK)] && s.customer == 0
    requires rest == [Analysis(0)] && s.actions == rest + [Reversal(0)] && s.impacts == [Impact(0, 0)] && s.flags == []
    requires parked == ExecuteIfReady(s, |rest|, REVIEW, [])
    ensures Parked(parked)
  {
    hide Inv, Reachable, Undecided, ExecuteIfReady;
    ReversalIsParked(s, 0, rest);
    RunReaches(s, |rest|, parked);
  }

  lemma RunReaches(s: State, a: nat, after: State)
    requires Reachable(s) && after == ExecuteIfReady(s, a, REVIEW, [])
    ensures Reachable(after)
  {
    ReachesNext(s, Run(a, REVIEW, []), after);
  }

  lemma SecondReversal(parked: State, again: State)
    requires Parked(parked) && again == Generated(parked, Suspicion(DuplicateCharge))
    ensures exists after :: Reachable(after) && SameOptionTwice(after.actions)
  {
    hide Untried, SameOptionTwice, Generated, Reachable, Undecided, Inv;
    SuspicionReturns(parked, 1, again);
    ReachesNext(parked, Regenerate(Suspicion(DuplicateCharge)), again);
    ReversalIsProposed(again, 1);
    var after :| ReversalPending(again, 1, after);
    OptionTwice(after.actions, parked.actions);
  }

  lemma OptionTwice(actions: seq<Action>, before: seq<Action>)
    requires before == [Analysis(0), Reversal(0).(status := NeedsManualReview)]
    requires actions == before + [Analysis(1), Reversal(1)]
    ensures SameOptionTwice(actions)
  {
    assert actions[1] == Reversal(0).(status := NeedsManualReview) && actions[3] == Reversal(1);
  }

  /**
   Pairwise distinct options would be too much to ask: a reversal parked in manual review is
   proposed a second time, for the next hypothesis of the same category.
   */
  lemma ParkedOptionIsOfferedAgain()
    ensures exists s :: Reachable(s) && SameOptionTwice(s.actions)
  {
    hide Inv, Reachable, Undecided, Generated, ExecuteIfReady, Parked;
    FirstReversal();
    var s, before :| FirstPending(before, s);
    assert s.actions == [Analysis(0)] + [Reversal(0)] && s.impacts == [Impact(0, 0)];
    var rest := [Analysis(0)];
    var parked := ExecuteIfReady(s, |rest|, REVIEW, []);
    Parks(s, rest, parked);
    SecondReversal(parked, Generated(parked, Suspicion(DuplicateCharge)));
  }

  // ----- Listing flags in a different order at each step defeats the phase argument -----

  /** Orders nobody has paid for, each reported once. */
  function OrderOf(i: nat): Delivery {
    Delivery(0, Some(i), EvidenceKey(Order, i, 0), 0, Payload(NoStatus, NoDisposition, 0), 0)
  }

  function OrderRows(n: nat): (rows: seq<Evidence>)
    ensures |rows| == n && forall i | 0 <= i < n :: rows[i] == NewRow(OrderOf(i))
  {
    seq(n, i requires 0 <= i => NewRow(OrderOf(i)))
  }

  lemma OrderArrives(n: nat)
    ensures Ingested(OrderRows(n), OrderOf(n)) == OrderRows(n + 1)
  {
    assert OrderRows(n) + [NewRow(OrderOf(n))] == OrderRows(n + 1);
  }

  /** The gap each of them leaves once its hour for payment has passed. */
  function Gaps(n: nat): (flags: seq<Flag>)
    ensures |flags| == n && forall i | 0 <= i < n :: flags[i] == Flag(Missing, [i], MissingFollowup(Payment, Order, i))
  {
    seq(n, i requires 0 <= i => Flag(Missing, [i], MissingFollowup(Payment, Order, i)))
  }

  const LATER := 2 * HOUR

  lemma OrderIsOverdue(n: nat, i: nat)
    requires i < n
    ensures Overdue(OrderRows(n), 0, LATER, i)
            && MissingFor(OrderRows(n)[i], Payment) == MissingFollowup(Payment, Order, i)
  {}

  lemma NothingElseViolated(n: nat, d: Description, cited: set<nat>)
    requires Cites(OrderRows(n), 0, LATER, d, cited)
    ensures exists i :: 0 <= i < n && d == MissingFollowup(Payment, Order, i)
  {
    var rows := OrderRows(n);
    assert forall sort, order :: Of(rows, 0, sort, order) == {};
    match d
    case MissingFollowup(_, _, _) =>
      var id :| cited == {id} && Overdue(rows, 0, LATER, id)
        && d == MissingFor(rows[id], ExpectedFollowup(rows[id].key.source).value.0);
    case _ =>
  }

  /** Detection raises exactly these gaps. */
  lemma GapsAreDetected(n: nat)
    ensures Detects(OrderRows(n), 0, LATER, {}, Gaps(n))
  {
    var rows, flags := OrderRows(n), Gaps(n);
    forall k | 0 <= k < n ensures Justified(rows, 0, LATER, flags[k]) {
      OrderIsOverdue(n, k);
      assert Elements([k]) == {k};
    }
    forall d | Violated(rows, 0, LATER, d) ensures IsOpen({}, flags, d) {
      var cited :| Cites(rows, 0, LATER, d, cited);
      NothingElseViolated(n, d, cited);
      var i :| 0 <= i < n && d == MissingFollowup(Payment, Order, i);
      assert flags[i] in flags && flags[i].description == d;
    }
  }

  /** The connector answers at once, with nothing to add. */
  const HELPFUL := Connector([Answered(true, false, [])])

  function AskFor(flag: nat): Turn {
    Turn(flag, 0, HELPFUL, [])
  }

  predicate Asked(actions: seq<Action>, flag: nat) {
    First(actions, HasKey(KeyOf(MissingEvidence(flag)))).Some?
  }

  /** Too little confidence, nothing but gaps in the evidence, and the first n already asked about. */
  ghost predicate Thirsty(s: State, n: nat) {
    && Inv(s) && First(s.actions, IsLive).None?
    && Grounds(s).Some? && s.hypotheses[Grounds(s).value].confidence < ACTION_THRESHOLD
    && s.flags != [] && (forall i | 0 <= i < |s.flags| :: IsMissing(s.flags[i]))
    && (forall flag: nat | flag < |s.flags| :: Asked(s.actions, flag) <==> flag < n)
  }

  lemma {:induction false} WhereAll(flags: seq<Flag>)
    requires forall i | 0 <= i < |flags| :: IsMissing(flags[i])
    ensures |Where(flags, IsMissing)| == |flags| && forall i | 0 <= i < |flags| :: Where(flags, IsMissing)[i] == i
  {
    if flags != [] {
      WhereAll(flags[..|flags| - 1]);
    }
  }

  function RequestFor(flag: nat): Proposal {
    Proposal(MissingEvidence(flag), false, Supervisor, Some(PendingEvidence), Some(EvidenceChecked))
  }

  lemma Remainder(n: nat, m: nat)
    requires n < m
    ensures n % m == n
  {}

  /** A query that lists all flags can answer with any of them. */
  lemma ListedAt(flags: seq<Flag>, n: nat)
    requires n < |flags| && forall i | 0 <= i < |flags| :: IsMissing(flags[i])
    ensures Where(flags, IsMissing) != [] && AnyOf(Where(flags, IsMissing), n) == n
  {
    hide Where;
    WhereAll(flags);
    Remainder(n, |flags|);
  }

  lemma ThirstyAsks(s: State, n: nat)
    requires Thirsty(s, n) && n < |s.flags|
    ensures Choose(s.(reevaluate := false), n) == Offer(RequestFor(n))
  {
    hide Inv, ChooseRemedy, NeedsItsmCheck, Asked, First, Where, AnyOf;
    ListedAt(s.flags, n);
  }

  lemma HelpSucceeds()
    ensures Made(HELPFUL, 1) == 1 && On(HELPFUL, 1) == Answered(true, false, []) && FinalStatus(HELPFUL) == Succeeded
  {}

  /** Running a proposed evidence request against it only settles the request. */
  lemma RequestIsMet(s: State, a: nat)
    requires Inv(s) && a < |s.actions| && s.actions[a].status == Proposed
    ensures var after := ExecuteIfReady(s, a, HELPFUL, []);
            && after.actions == s.actions[a := s.actions[a].(status := Succeeded)]
            && SameHypotheses(s, after) && after.flags == s.flags && after.impacts == s.impacts && Inv(after)
  {
    hide Traced, Led, StoreOk, Attempts, AdvanceStage;
    RunKeeps(s, a, HELPFUL, []);
    ReadyRunsNow(s, a);
    ExecuteEffect(s, a, HELPFUL, []);
    HelpSucceeds();
    var s1 := Attempts(Started(s, a), a, HELPFUL, 1);
    assert AbsorbEvidence(s1, [], []) == s1;
  }

  lemma NextIsAsked(actions: seq<Action>, gaps: nat, n: nat, x: Action)
    requires First(actions, IsLive).None? && x.status == Succeeded && x.key == KeyOf(MissingEvidence(n))
    requires forall flag: nat | flag < gaps :: Asked(actions, flag) <==> flag < n
    ensures First(actions + [x], IsLive).None?
    ensures forall flag: nat | flag < gaps :: Asked(actions + [x], flag) <==> flag < n + 1
  {
    FirstSnoc(actions, x, IsLive);
    forall flag: nat | flag < gaps ensures Asked(actions + [x], flag) <==> flag < n + 1 {
      FirstSnoc(actions, x, HasKey(KeyOf(MissingEvidence(flag))));
      assert Asked(actions, flag) <==> flag < n;
    }
  }

  lemma RequestIsProposed(s: State, n: nat, s1: State)
    requires Thirsty(s, n) && n < |s.flags| && s1 == Decide(s, n, 0).0
    ensures Decide(s, n, 0).1 == Some(|s.actions|)
    ensures s1.actions == s.actions + [NewAction(RequestFor(n))] && SameHypotheses(s, s1) && s1.flags == s.flags
            && Inv(s1)
  {
    ThirstyAsks(s, n);
    assert !Asked(s.actions, n);
    OfferIsInserted(s, n, 0, RequestFor(n));
    DecisionKeeps(s, n, 0, s1);
  }

  lemma RequestMeansThirst(s: State, n: nat, s1: State, s2: State)
    requires Thirsty(s, n) && n < |s.flags|
    requires s1.actions == s.actions + [NewAction(RequestFor(n))] && SameHypotheses(s, s1) && s1.flags == s.flags
             && Inv(s1)
    requires s2 == ExecuteIfReady(s1, |s.actions|, HELPFUL, [])
    ensures Thirsty(s2, n + 1) && s2.flags == s.flags && s2.evidence == s.evidence && |s2.actions| == |s.actions| + 1
            && s2.actions[|s.actions|].status == Succeeded
  {
    hide Inv, ExecuteIfReady, Asked;
    RequestIsMet(s1, |s.actions|);
    var x := NewAction(RequestFor(n)).(status := Succeeded);
    assert s2.actions == s.actions + [x];
    NextIsAsked(s.actions, |s.flags|, n, x);
  }

  lemma ThirstyStep(s: State, n: nat, r: (State, Option<nat>))
    requires Thirsty(s, n) && n < |s.flags| && r == Advance(s, AskFor(n))
    ensures r.1 == Some(|s.actions|)
    ensures Thirsty(r.0, n + 1) && r.0.flags == s.flags && r.0.evidence == s.evidence
            && |r.0.actions| == |s.actions| + 1 && r.0.actions[|s.actions|].status == Succeeded
  {
    var s1 := Decide(s, n, 0).0;
    RequestIsProposed(s, n, s1);
    AdvanceFrom(s, AskFor(n), s1, Some(|s.actions|));
    RequestMeansThirst(s, n, s1, r.0);
  }

  lemma {:induction false} ThirstyDrive(s: State, n: nat, turns: seq<Turn>, before: seq<nat>)
    requires Thirsty(s, n) && n + |turns| == |s.flags|
    requires forall i | 0 <= i < |turns| :: turns[i] == AskFor(n + i)
    requires forall a | a in before :: a < |s.actions|
    ensures var d := Driven(s, turns, before);
            d.stop == Capped && d.state.flags == s.flags && d.state.evidence == s.evidence
    decreases |turns|
  {
    hide Thirsty, Advance;
    if turns != [] {
      var r := Advance(s, turns[0]);
      assert turns[0] == AskFor(n);
      ThirstyStep(s, n, r);
      ThirstyDrive(r.0, n + 1, turns[1..], before + [|s.actions|]);
      DrivenJoins(s, turns, before, r);
    }
  }

  lemma EarlyIsThirsty(s: State)
    requires Early(s, Gaps(MAX_AUTO_STEPS), OrderRows(MAX_AUTO_STEPS)) && Grounds(s) == Some(0)
    requires s.hypotheses[0] == Suspected(s.evidence, DuplicateCharge)
    ensures Thirsty(s, 0)
  {
    hide Inv, Reachable, Undecided;
    assert Ratio(10, 0) == 5_000;
  }

  lemma {:induction false} OrdersReach(n: nat)
    ensures exists s :: Early(s, [], OrderRows(n)) && s.hypotheses == []
  {
    hide Inv, Reachable, Undecided, Ingested, Reconciled;
    if n == 0 {
      var s0 := Opened(0, 0, []);
      OpensWithFlags([], s0, Reconciled(s0, []));
      assert OrderRows(0) == [];
    } else {
      OrdersReach(n - 1);
      var s :| Early(s, [], OrderRows(n - 1)) && s.hypotheses == [];
      OrderArrives(n - 1);
      DeliverKeeps(s, OrderOf(n - 1));
      ReachesNext(s, Deliver(OrderOf(n - 1)), IngestInto(s, OrderOf(n - 1)));
      assert Early(IngestInto(s, OrderOf(n - 1)), [], OrderRows(n));
    }
  }

  lemma GapsRaised(s: State, flags: seq<Flag>, rows: seq<Evidence>)
    requires Early(s, [], rows) && s.hypotheses == []
    ensures Early(Reconciled(s, flags), flags, rows) && Reconciled(s, flags).hypotheses == []
  {
    hide Inv, Reachable, Undecided, RecordFlags, Told;
    ReconcileKeeps(s, flags);
    ReachesNext(s, Reconcile(flags), Reconciled(s, flags));
    assert s.flags + flags == flags;
  }

  lemma OrderSuspicion(s: State, flags: seq<Flag>, rows: seq<Evidence>, c: Category)
    requires Early(s, flags, rows) && s.hypotheses == [] && rows != [] && IsCurrentFor(rows[0], 0)
    ensures var after := Generated(s, Suspicion(c));
            Early(after, flags, rows) && Grounds(after) == Some(0) && after.hypotheses[0] == Suspected(rows, c)
  {
    hide Generated, Reachable, Undecided, Suspected;
    SuspicionArises(s, c);
    GenerationStage(s, Suspicion(c));
    GeneratedFrame(s, Suspicion(c));
    RegenerateKeeps(s, Suspicion(c));
    ReachesNext(s, Regenerate(Suspicion(c)), Generated(s, Suspicion(c)));
  }

  /** Twelve unpaid orders, the flags detection raises for them, and one weak hypothesis. */
  lemma ThirstIsReachable()
    ensures exists s ::
            Reachable(s) && Thirsty(s, 0) && |s.flags| == MAX_AUTO_STEPS
            && Detects(s.evidence, s.customer, LATER, {}, s.flags)
  {
    hide Inv, Reachable, Undecided, Generated, Reconciled, Thirsty, Detects, Suspected, Grounds;
    var rows, flags := OrderRows(MAX_AUTO_STEPS), Gaps(MAX_AUTO_STEPS);
    OrdersReach(MAX_AUTO_STEPS);
    var s :| Early(s, [], rows) && s.hypotheses == [];
    GapsRaised(s, flags, rows);
    OrderSuspicion(Reconciled(s, flags), flags, rows, DuplicateCharge);
    var after := Generated(Reconciled(s, flags), Suspicion(DuplicateCharge));
    EarlyIsThirsty(after);
    GapsAreDetected(MAX_AUTO_STEPS);
  }

  /**
   The insertion order matters: when the query for open flags lists them differently each time,
   a case with twelve gaps keeps the loop asking for evidence until the bound cuts it off.
   */
  lemma UnstableOrderReachesTheBound()
    ensures exists s, turns ::
              && Reachable(s) && Detects(s.evidence, s.customer, LATER, {}, s.flags)
              && |turns| == MAX_AUTO_STEPS && Driven(s, turns, []).stop == Capped
  {
    hide Thirsty, Driven, Reachable, Undecided, Detects;
    ThirstIsReachable();
    var s :| Reachable(s) && Thirsty(s, 0) && |s.flags| == MAX_AUTO_STEPS
      && Detects(s.evidence, s.customer, LATER, {}, s.flags);
    var turns := seq(MAX_AUTO_STEPS, i requires 0 <= i => AskFor(i));
    ThirstyDrive(s, 0, turns, []);
  }

  // ----- Replay has a finished analysis as proposed -----

  /** The first action is done and the second is not begun; at rest, replay names both as proposed. */
  ghost predicate LooksUnfinished(s: State) {
    var r := Replayed(s.log, s.caseId);
    && |s.actions| == 2 && s.actions[0].status == Succeeded && s.actions[1].status == Proposed
    && (forall a: nat | a < 2 :: a in r.actions && Named(r.actions[a], DecisionIn(r, s.approvals, a)) == Some(Proposed))
    && s.log != [] && !WrittenAhead(s.log[|s.log| - 1], s.caseId)
  }

  lemma BothReplayAsProposed(s: State)
    requires Inv(s) && s.actions == [Analysis(0), Reversal(0)]
    ensures LooksUnfinished(s)
  {
    hide Safe, Led, StoreOk, EntryOk, StageIsMax, Coherent;
    var r := Replayed(s.log, s.caseId);
    assert r.actions[0] == [WasProposed(RunAnalysis, false)];
    assert r.actions[1] == [WasProposed(ExecuteRecovery, false)];
    assert Mirrored(s.log, s.snapshots, s.caseId, |s.log| - 1);
  }

  /** An inline action's success is not logged, so replay cannot tell it from a proposal just made. */
  lemma SettledAnalysisReplaysAsProposed()
    ensures exists s :: Reachable(s) && LooksUnfinished(s)
  {
    hide Inv, Reachable, Undecided, LooksUnfinished;
    FirstReversal();
    var s, before :| FirstPending(before, s);
    assert s.actions == [Analysis(0), Reversal(0)];
    BothReplayAsProposed(s);
  }

  // ----- Replay lags at one write of every first carried-out action -----

  /** A reversal that is carried out writes its stage entry ahead of its last event. */
  lemma CarryingOutWritesAhead(s: State, h: nat, rest: seq<Action>, after: State)
    requires Inv(s) && s.actions == rest + [Reversal(h)] && BeforeActions(s)
    requires after == ExecuteIfReady(s, |rest|, HELPFUL, [])
    ensures Inv(after) && |after.log| >= 2 && WrittenAhead(after.log[|after.log| - 2], after.caseId)
  {
    hide Inv, Told, Settled;
    assert s.actions[|rest|] == Reversal(h);
    RunKeeps(s, |rest|, HELPFUL, []);
    NotRunYet(s, |rest|);
    HelpSucceeds();
    var s1 := Attempts(Started(s, |rest|), |rest|, HELPFUL, 1);
    SettlingWrites(s1, |rest|);
  }

  lemma NotRunYet(s: State, a: nat)
    requires Inv(s) && a < |s.actions| && s.actions[a].status == Proposed
    ensures First(s.executions, SuccessOf(a)).None?
  {
    ReadyRunsNow(s, a);
  }

  lemma SettlingWrites(s: State, a: nat)
    requires a < |s.actions| && s.actions[a].kind == ExecuteRecovery && BeforeActions(s)
    ensures var after := Settled(s, a, HELPFUL, []);
            after.log == s.log + [Entry(Some(s.caseId), StageAdvanced(s.stage, ActionsCoordinated))]
              && after.caseId == s.caseId
  {
    HelpSucceeds();
    assert AbsorbEvidence(s, [], []) == s;
  }

  /** At some write, replay names a status an action executed by a connector no longer had. */
  ghost predicate Lags(s: State) {
    exists k, a: nat :: 0 <= k < |s.log| == |s.snapshots| && a < |s.snapshots[k].actions|
      && !SettledInline(s.snapshots[k].actions[a]) && !Names(Replayed(s.log[..k + 1], s.caseId), s.snapshots[k], a)
  }

  lemma AheadLags(s: State, k: nat)
    requires Inv(s) && k < |s.log| && WrittenAhead(s.log[k], s.caseId)
    ensures Lags(s)
  {
    hide Safe, Led, StoreOk, EntryOk, StageIsMax, Names, Shown;
    assert Mirrored(s.log, s.snapshots, s.caseId, k);
    FinishIsVisible(s.log, s.caseId, k);
    var r, p, a := Replayed(s.log[..k + 1], s.caseId), s.snapshots[k], s.log[k + 1].event.action;
    OneEventShort(r, p, a, s.log[k + 1].event.event);
  }

  /** So the claim that folding the log is always the state does fail, in a reachable case. */
  lemma ReplayCanLag()
    ensures exists s :: Reachable(s) && Lags(s)
  {
    hide Inv, Reachable, Undecided, ExecuteIfReady, Lags;
    FirstReversal();
    var s, before :| FirstPending(before, s);
    var rest := [Analysis(0)];
    assert s.actions == rest + [Reversal(0)];
    var after := ExecuteIfReady(s, |rest|, HELPFUL, []);
    CarryingOutWritesAhead(s, 0, rest, after);
    AheadLags(after, |after.log| - 2);
    HelpReaches(s, |rest|, after);
  }

  lemma HelpReaches(s: State, a: nat, after: State)
    requires Reachable(s) && after == ExecuteIfReady(s, a, HELPFUL, [])
    ensures Reachable(after)
  {
    ReachesNext(s, Run(a, HELPFUL, []), after);
  }
}
