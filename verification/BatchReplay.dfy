/**
 What the log leaves open about supersession: retiring hypotheses is not logged, so which of them
 are ACTIVE has to be read off the entries that created them.
 */
module BatchReplay {
  import opened Domain
  import opened Sequences
  import opened AuditReplay
  import opened CaseState
  import opened Confidence
  import opened EvidenceStore
  import opened HypothesisMerge
  import opened HypothesisEngine
  import opened HypothesisInvariants
  import opened HypothesisTheorems
  import opened Milestones
  import opened NbaEngine
  import opened Executor
  import opened Orchestrator
  import opened ReplayTheorems
  import opened ActionSafety
  import opened Tracing
  import opened AppendOnly
  import opened Runs
  import opened Witnesses

  // ----- What one generation writes -----

  /** The entries that creating these rows writes. */
  function CreationEntries(caseId: nat, from: nat, added: seq<Hypothesis>): (entries: seq<Entry>)
    ensures |entries| == |added|
    ensures forall i | 0 <= i < |added| ::
              entries[i] == Entry(Some(caseId), HypothesisCreated(from + i, added[i].category, added[i].confidence))
  {
    seq(|added|, i requires 0 <= i < |added| =>
      Entry(Some(caseId), HypothesisCreated(from + i, added[i].category, added[i].confidence)))
  }

  function NewRows(s: State, specs: seq<Spec>): seq<Hypothesis> {
    NewHypotheses(s.evidence, s.customer, specs)
  }

  lemma {:induction false} CreateAllWrites(s: State, specs: seq<Spec>)
    requires Scored(s)
    ensures CreateAll(s, specs).log == s.log + CreationEntries(s.caseId, |s.hypotheses|, NewRows(s, specs))
  {
    hide Scored, Score, ValidIds, Create, ConfidenceOf;
    if specs == [] {
      assert CreationEntries(s.caseId, |s.hypotheses|, []) == [];
    } else {
      var rest, spec := specs[..|specs| - 1], specs[|specs| - 1];
      CreateAllWrites(s, rest);
      CreateAllKeepsScored(s, rest);
      CreateWrites(CreateAll(s, rest), spec);
    }
  }

  lemma CreateWrites(s: State, spec: Spec)
    requires Scored(s)
    ensures Create(s, spec).log ==
            s.log + if ValidIds(s.evidence, s.customer, spec.supports) == [] then []
                    else [Entry(Some(s.caseId),
                      HypothesisCreated(|s.hypotheses|, spec.category, Score(s.evidence, s.customer, spec)))]
  {
    hide Scored, Score, ConfidenceOf;
    CreateKeepsScored(s, spec);
  }

  lemma {:induction false} NewRowsConcat(s: State, xs: seq<Spec>, ys: seq<Spec>)
    ensures NewRows(s, xs + ys) == NewRows(s, xs) + NewRows(s, ys)
  {
    hide Score, ValidIds;
    if ys == [] {
      assert xs + ys == xs;
    } else {
      var n := |ys| - 1;
      assert (xs + ys)[..|xs| + n] == xs + ys[..n];
      NewRowsConcat(s, xs, ys[..n]);
    }
  }

  /** The entry of a shift in confidence, if it is big enough to be one. */
  function ShiftEntries(caseId: nat, previous: nat, top: nat): seq<Entry> {
    if top > previous + 1_500 || previous > top + 1_500 then [Entry(Some(caseId), ReevaluationTriggered(previous, top))]
    else []
  }

  /** A case that has hypotheses, and is therefore past locating the failure. */
  ghost predicate Located(s: State) {
    && Led(s) && s.hypotheses != [] && Index(s.stage) >= Index(FailureLocated) && HasEvidence(s)
  }

  /** What a later generation writes and leaves. */
  lemma GenerationWrites(s: State, specs: seq<Spec>)
    requires Located(s) && UniqueCategories(specs) && NewRows(s, specs) != []
    ensures var after, added := Generated(s, specs), NewRows(s, specs);
            && Located(after) && after.evidence == s.evidence && after.customer == s.customer
              && after.caseId == s.caseId
            && |after.hypotheses| == |s.hypotheses| + |added|
            && ActiveFrom(after.hypotheses, |s.hypotheses|)
            && TopActive(after.hypotheses) == TopActive(added)
            && after.primary == Some(|s.hypotheses| + Best(added, 0))
            && after.log == s.log + CreationEntries(s.caseId, |s.hypotheses|, added)
                            + ShiftEntries(s.caseId, TopActive(s.hypotheses), TopActive(added))
  {
    hide Generated, CreateAll, TakeOver, NewRows, Led, TopActive, ActiveFrom, Best, HasEvidence, CreationEntries,
      ShiftEntries;
    var s1, n := CreateAll(s, specs), |s.hypotheses|;
    GenerationCreates(s, specs);
    BestOfAdded(s.hypotheses, NewRows(s, specs));
    TopOfAdded(s, specs);
    HasActive(s);
    TakeOverWrites(s1, s);
    RetireKeepsLength(s1.hypotheses, n);
    SameEvidence(s, TakeOver(s1, n));
    GenerationLeads(s, specs, TakeOver(s1, n), s1.hypotheses[Best(s1.hypotheses, n)].confidence);
  }

  lemma GenerationLeads(s: State, specs: seq<Spec>, after: State, top: nat)
    requires Led(s) && after == Generated(s, specs) && |after.hypotheses| > |s.hypotheses|
    requires after.primary.Some? && after.primary.value < |after.hypotheses|
    requires after.hypotheses[after.primary.value].confidence == top
    ensures Led(after) && ActiveFrom(after.hypotheses, |s.hypotheses|) && TopActive(after.hypotheses) == top
  {
    hide Generated, Scored, ActiveFrom, PrimaryOk;
    GeneratedKeepsLed(s, specs);
    PreviousTopIsPrimary(after);
  }

  lemma GenerationCreates(s: State, specs: seq<Spec>)
    requires Located(s) && UniqueCategories(specs) && NewRows(s, specs) != []
    ensures var s1, n, added := CreateAll(s, specs), |s.hypotheses|, NewRows(s, specs);
            && s1.hypotheses == s.hypotheses + added && s1.log == s.log + CreationEntries(s.caseId, n, added)
            && Generated(s, specs) == TakeOver(s1, n)
  {
    hide CreateAll, NewHypotheses, Scored, ActiveFrom, PrimaryOk, TakeOver, HasEvidence;
    MergeOfUnique(specs);
    CreateAllKeepsScored(s, specs);
    CreateAllWrites(s, specs);
    SpecsAreSome(s, specs);
  }

  lemma TopOfAdded(s: State, specs: seq<Spec>)
    requires Located(s) && UniqueCategories(specs) && NewRows(s, specs) != []
    requires CreateAll(s, specs).hypotheses == s.hypotheses + NewRows(s, specs)
    ensures var s1, n := CreateAll(s, specs), |s.hypotheses|;
            s1.hypotheses[Best(s1.hypotheses, n)].confidence == TopActive(NewRows(s, specs))
  {
    hide CreateAll, NewHypotheses, Scored, ActiveFrom, PrimaryOk, HasEvidence, TopActive, Best;
    CreatedTop(s, specs);
  }

  lemma HasActive(s: State)
    requires Located(s)
    ensures First(s.hypotheses, IsActive).Some?
  {
    hide Scored, ActiveFrom, HasEvidence;
    PreviousTopIsPrimary(s);
  }

  lemma SameEvidence(s: State, after: State)
    requires HasEvidence(s) && after.evidence == s.evidence && after.customer == s.customer
    ensures HasEvidence(after)
  {}

  lemma SpecsAreSome(s: State, specs: seq<Spec>)
    requires NewRows(s, specs) != []
    ensures specs != []
  {}

  lemma TakeOverWrites(s1: State, s: State)
    requires |s1.hypotheses| > |s.hypotheses| && s1.hypotheses[..|s.hypotheses|] == s.hypotheses
    requires First(s.hypotheses, IsActive).Some? && Index(s1.stage) >= Index(FailureLocated)
    ensures var after, best := TakeOver(s1, |s.hypotheses|), Best(s1.hypotheses, |s.hypotheses|);
            && Index(after.stage) >= Index(FailureLocated)
            && after.primary == Some(best) && after.hypotheses == Retire(s1.hypotheses, |s.hypotheses|)
            && best < |after.hypotheses| && after.hypotheses[best].confidence == s1.hypotheses[best].confidence
            && after.log == s1.log + ShiftEntries(s1.caseId, TopActive(s.hypotheses),
                                                  s1.hypotheses[Best(s1.hypotheses, |s.hypotheses|)].confidence)
  {
    hide TopActive, Best;
  }

  // ----- One generation or two -----

  lemma UniqueParts(xs: seq<Spec>, ys: seq<Spec>)
    requires UniqueCategories(xs + ys)
    ensures UniqueCategories(xs) && UniqueCategories(ys)
  {
    var all := xs + ys;
    assert forall i | 0 <= i < |xs| :: all[i] == xs[i];
    assert forall i | 0 <= i < |ys| :: all[|xs| + i] == ys[i];
  }

  lemma {:induction false} TopOfBoth(xs: seq<Hypothesis>, ys: seq<Hypothesis>)
    ensures TopActive(xs + ys) == if TopActive(xs) >= TopActive(ys) then TopActive(xs) else TopActive(ys)
  {
    if ys == [] {
      assert xs + ys == xs;
    } else {
      assert (xs + ys)[..|xs| + |ys| - 1] == xs + ys[..|ys| - 1];
      TopOfBoth(xs, ys[..|ys| - 1]);
    }
  }

  /**
   One generation of two lists writes the same entries as a generation of each in turn if and only if
   the first of them shifts confidence by too little to be logged, and the second is logged as the
   single one would be. Which hypotheses are ACTIVE afterwards differs all the same.
   */
  lemma SplitIsInvisibleIff(s: State, xs: seq<Spec>, ys: seq<Spec>)
    requires Located(s) && UniqueCategories(xs + ys) && NewRows(s, xs) != [] && NewRows(s, ys) != []
    ensures var once, twice := Generated(s, xs + ys), Generated(Generated(s, xs), ys);
            var n, previous := |s.hypotheses|, TopActive(s.hypotheses);
            var x, y := TopActive(NewRows(s, xs)), TopActive(NewRows(s, ys));
            && (once.log == twice.log <==>
                  && ShiftEntries(s.caseId, previous, x) == []
                  && ShiftEntries(s.caseId, previous, if x >= y then x else y) == ShiftEntries(s.caseId, x, y))
            && ActiveFrom(once.hypotheses, n) && ActiveFrom(twice.hypotheses, n + |NewRows(s, xs)|)
            && |once.hypotheses| == |twice.hypotheses| == n + |NewRows(s, xs)| + |NewRows(s, ys)|
            && once.hypotheses != twice.hypotheses
            && once.primary == Some(n + Best(NewRows(s, xs) + NewRows(s, ys), 0))
            && twice.primary == Some(n + |NewRows(s, xs)| + Best(NewRows(s, ys), 0))
            && once.caseId == twice.caseId == s.caseId
  {
    hide Located, Generated, NewHypotheses, TopActive, ShiftEntries, Best, ActiveFrom;
    UniqueParts(xs, ys);
    NewRowsConcat(s, xs, ys);
    TopOfBoth(NewRows(s, xs), NewRows(s, ys));
    GenerationWrites(s, xs + ys);
    GenerationWrites(s, xs);
    var first := Generated(s, xs);
    assert NewRows(first, ys) == NewRows(s, ys);
    GenerationWrites(first, ys);
    SplitLogs(s.log, s.caseId, |s.hypotheses|, NewRows(s, xs), NewRows(s, ys),
              TopActive(s.hypotheses), TopActive(NewRows(s, xs)), TopActive(NewRows(s, ys)),
              TopActive(NewRows(s, xs) + NewRows(s, ys)));
    TwoStarts(Generated(s, xs + ys).hypotheses, Generated(first, ys).hypotheses, |s.hypotheses|, |first.hypotheses|);
  }

  lemma TwoStarts(once: seq<Hypothesis>, twice: seq<Hypothesis>, n: nat, m: nat)
    requires ActiveFrom(once, n) && ActiveFrom(twice, m) && n < m && |once| == |twice| && n < |once|
    ensures once != twice
  {
    assert IsActive(once[n]) && !IsActive(twice[n]);
  }

  lemma CreationsConcat(caseId: nat, from: nat, xs: seq<Hypothesis>, ys: seq<Hypothesis>)
    ensures CreationEntries(caseId, from, xs + ys) ==
            CreationEntries(caseId, from, xs) + CreationEntries(caseId, from + |xs|, ys)
  {}

  lemma ShiftsAreShifts(caseId: nat, previous: nat, top: nat)
    ensures ShiftEntries(caseId, previous, top) != [] ==>
              ShiftEntries(caseId, previous, top)[0].event.ReevaluationTriggered?
  {}

  lemma SplitLogs(
    log: seq<Entry>, caseId: nat, from: nat, xs: seq<Hypothesis>, ys: seq<Hypothesis>,
    previous: nat, x: nat, y: nat, both: nat)
    requires ys != []
    ensures var once := log + CreationEntries(caseId, from, xs + ys) + ShiftEntries(caseId, previous, both);
            var twice := log + CreationEntries(caseId, from, xs) + ShiftEntries(caseId, previous, x)
                         + CreationEntries(caseId, from + |xs|, ys) + ShiftEntries(caseId, x, y);
            once == twice <==>
              && ShiftEntries(caseId, previous, x) == []
              && ShiftEntries(caseId, previous, both) == ShiftEntries(caseId, x, y)
  {
    hide ShiftEntries;
    var a, b := CreationEntries(caseId, from, xs), CreationEntries(caseId, from + |xs|, ys);
    ShiftsAreShifts(caseId, previous, x);
    var r, q, p := ShiftEntries(caseId, previous, x), ShiftEntries(caseId, previous, both), ShiftEntries(caseId, x, y);
    CreationsConcat(caseId, from, xs, ys);
    var once, twice := log + (a + b) + q, log + a + r + b + p;
    var k := |log| + |a|;
    assert once[k] == b[0];
    if r == [] {
      assert log + a + r == log + a;
      assert once == (log + a + b) + q && twice == (log + a + b) + p;
      assert once[|log + a + b|..] == q && twice[|log + a + b|..] == p;
    } else {
      assert twice[k] == r[0] && r[0].event.ReevaluationTriggered?;
    }
  }

  /** In every reachable case. */
  lemma BatchesAreNotLogged(
    caseId: nat, customer: nat, prior: seq<Delivery>, ops: seq<Op>, xs: seq<Spec>, ys: seq<Spec>)
    requires var s := Case(caseId, customer, prior, ops);
      && s.hypotheses != [] && HasEvidence(s)
      && UniqueCategories(xs + ys) && NewRows(s, xs) != [] && NewRows(s, ys) != []
    ensures var s := Case(caseId, customer, prior, ops);
            var once := Case(caseId, customer, prior, ops + [Regenerate(xs + ys)]);
            var twice := Case(caseId, customer, prior, ops + [Regenerate(xs)] + [Regenerate(ys)]);
            var previous, x, y := TopActive(s.hypotheses), TopActive(NewRows(s, xs)), TopActive(NewRows(s, ys));
            && (once.log == twice.log <==>
                  && ShiftEntries(caseId, previous, x) == []
                  && ShiftEntries(caseId, previous, if x >= y then x else y) == ShiftEntries(caseId, x, y))
            && once.hypotheses != twice.hypotheses
  {
    hide Generated, Opened, NewHypotheses, Merge, TopActive, ShiftEntries;
    var s := Case(caseId, customer, prior, ops);
    CaseHolds(caseId, customer, prior, ops);
    HypothesesLocateTheFailure(caseId, customer, prior, ops);
    EarlierIs(s.stage, FailureLocated);
    CaseIdStays(caseId, customer, prior, ops);
    CaseNext(caseId, customer, prior, ops, Regenerate(xs + ys));
    CaseNext(caseId, customer, prior, ops, Regenerate(xs));
    CaseNext(caseId, customer, prior, ops + [Regenerate(xs)], Regenerate(ys));
    SplitIsInvisibleIff(s, xs, ys);
  }

  lemma CaseNext(caseId: nat, customer: nat, prior: seq<Delivery>, ops: seq<Op>, op: Op)
    ensures Case(caseId, customer, prior, ops + [op]) == Apply(Case(caseId, customer, prior, ops), op)
  {
    hide Apply, Opened;
    assert (ops + [op])[..|ops|] == ops;
  }

  lemma CaseIdStays(caseId: nat, customer: nat, prior: seq<Delivery>, ops: seq<Op>)
    ensures Case(caseId, customer, prior, ops).caseId == caseId
  {
    hide Play;
    PlayExtends(Opened(caseId, customer, prior), ops);
  }

  // ----- Such a pair -----

  function Pair(): (seq<Spec>, seq<Spec>) {
    ([Spec(DuplicateCharge, [0], [], true)], [Spec(RefundNotIssued, [0], [], true)])
  }

  lemma PairRows(s: State)
    requires s.evidence == [NewRow(CLICK)] && s.customer == 0
    ensures NewRows(s, Pair().0) == [Hypothesis(DuplicateCharge, 3_333, Active)]
    ensures NewRows(s, Pair().1) == [Hypothesis(RefundNotIssued, 3_333, Active)]
  {
    hide NewHypotheses, Score, ValidIds;
    var x, y := Pair().0[0], Pair().1[0];
    FirstRowCounts(s.evidence, x);
    FirstRowCounts(s.evidence, y);
    OnlyOneIsNew(s.evidence, x);
    OnlyOneIsNew(s.evidence, y);
    assert Ratio(5, 0) == 3_333;
  }

  /** With a first hypothesis on the click, both of the pair are as confident as it is. */
  ghost predicate Clicked(s: State) {
    && Reachable(s) && Located(s) && s.evidence == [NewRow(CLICK)] && s.customer == 0
    && |s.hypotheses| == 1 && TopActive(s.hypotheses) == 3_333
  }

  lemma ClickIsReachable()
    ensures exists s :: Clicked(s)
  {
    hide Inv, Reachable, Undecided, Located, TopActive, Suspected;
    FirstHypothesis();
    var s :| Early(s, [], [NewRow(CLICK)]) && |s.hypotheses| == 1 && Grounds(s) == Some(0)
      && s.hypotheses[0] == Suspected([NewRow(CLICK)], DuplicateCharge);
    FirstTop(s);
  }

  lemma FirstTop(s: State)
    requires Reachable(s) && Inv(s) && s.evidence == [NewRow(CLICK)] && s.customer == 0
    requires |s.hypotheses| == 1 && s.hypotheses[0] == Suspected([NewRow(CLICK)], DuplicateCharge)
    ensures Clicked(s)
  {
    hide Safe, Traced, StoreOk, Case;
    var caseId, customer, prior, ops :| s == Case(caseId, customer, prior, ops);
    HypothesesLocateTheFailure(caseId, customer, prior, ops);
    EarlierIs(s.stage, FailureLocated);
    assert IsCurrent(0)(s.evidence[0]);
    TopOfOne(s.hypotheses);
  }

  lemma TopOfOne(hypotheses: seq<Hypothesis>)
    requires hypotheses == [Suspected([NewRow(CLICK)], DuplicateCharge)]
    ensures TopActive(hypotheses) == 3_333
  {
    assert Ratio(5, 0) == 3_333;
    assert hypotheses[..|hypotheses| - 1] == [];
  }

  /**
   In a reachable case, one generation of two equally confident hypotheses and two generations of one
   each write the same log, and leave different hypotheses ACTIVE and another one primary.
   */
  lemma OneGenerationOrTwo()
    ensures exists s :: Reachable(s)
              && var once, twice := Generated(s, Pair().0 + Pair().1), Generated(Generated(s, Pair().0), Pair().1);
                 && once.log == twice.log && Replayed(once.log, once.caseId) == Replayed(twice.log, twice.caseId)
                 && ActiveFrom(once.hypotheses, 1) && ActiveFrom(twice.hypotheses, 2) && |twice.hypotheses| == 3
                 && once.primary == Some(1) && twice.primary == Some(2)
  {
    hide Reachable, Generated, Located;
    ClickIsReachable();
    var s :| Clicked(s);
    PairDiffers(s);
  }

  lemma PairDiffers(s: State)
    requires Clicked(s)
    ensures var once, twice := Generated(s, Pair().0 + Pair().1), Generated(Generated(s, Pair().0), Pair().1);
            && once.log == twice.log && once.caseId == twice.caseId
            && ActiveFrom(once.hypotheses, 1) && ActiveFrom(twice.hypotheses, 2) && |twice.hypotheses| == 3
            && once.primary == Some(1) && twice.primary == Some(2)
  {
    hide Reachable, Generated, NewHypotheses, Scored;
    var xs, ys := Pair().0, Pair().1;
    PairRows(s);
    assert [Hypothesis(DuplicateCharge, 3_333, Active)][..0] == []
      && [Hypothesis(RefundNotIssued, 3_333, Active)][..0] == [];
    assert UniqueCategories(xs + ys);
    SplitIsInvisibleIff(s, xs, ys);
  }

  // ----- When the log does tell -----

  predicate Creates(e: Entry, caseId: nat) {
    e.owner == Some(caseId) && e.event.HypothesisCreated?
  }

  /** The first hypothesis of the last unbroken block of creation entries. */
  function BlockStart(log: seq<Entry>, caseId: nat): nat {
    if log == [] then 0
    else
      var n := |log| - 1;
      if Creates(log[n], caseId) && (n == 0 || !Creates(log[n - 1], caseId)) then log[n].event.hypothesis
      else BlockStart(log[..n], caseId)
  }

  /** More was written, and nothing of it created a hypothesis. */
  ghost predicate Uncreated(s: State, after: State) {
    && after.caseId == s.caseId && s.log <= after.log
    && forall k | |s.log| <= k < |after.log| :: !Creates(after.log[k], s.caseId)
  }

  lemma Along(s: State, t: State, u: State)
    requires Uncreated(s, t) && Uncreated(t, u)
    ensures Uncreated(s, u)
  {}

  lemma {:induction false} UncreatedBlock(log: seq<Entry>, more: seq<Entry>, caseId: nat)
    requires log <= more && forall k | |log| <= k < |more| :: !Creates(more[k], caseId)
    ensures BlockStart(more, caseId) == BlockStart(log, caseId)
  {
    if |more| > |log| {
      UncreatedBlock(log, more[..|more| - 1], caseId);
    } else {
      assert more == log;
    }
  }

  lemma AdvanceStageCreatesNone(s: State, stage: Stage)
    ensures Uncreated(s, AdvanceStage(s, stage))
  {}

  lemma {:induction false} IngestAllCreatesNone(s: State, ds: seq<Delivery>)
    ensures Uncreated(s, IngestAll(s, ds))
  {
    if ds != [] {
      IngestAllCreatesNone(s, ds[..|ds| - 1]);
    }
  }

  lemma {:induction false} RecordFlagsCreatesNone(s: State, from: nat, n: nat)
    ensures Uncreated(s, RecordFlags(s, from, n))
  {
    if n > 0 {
      RecordFlagsCreatesNone(s, from, n - 1);
    }
  }

  lemma ReconciledCreatesNone(s: State, raised: seq<Flag>)
    ensures Uncreated(s, Reconciled(s, raised))
  {
    var s0 := s.(flags := s.flags + raised);
    var s1 := RecordFlags(s0, |s.flags|, |raised|);
    RecordFlagsCreatesNone(s0, |s.flags|, |raised|);
    AdvanceStageCreatesNone(s1, JourneyAssembled);
  }

  lemma ProposeCreatesNone(s: State, p: Proposal)
    ensures Uncreated(s, Propose(s, p).0)
  {
    if p.stage.Some? {
      AdvanceStageCreatesNone(if p.status.Some? then s.(status := p.status.value) else s, p.stage.value);
    }
  }

  lemma AnalysedCreatesNone(s: State, h: nat, exposure: nat)
    ensures Uncreated(s, Analysed(s, h, exposure).0)
  {
    hide Propose, AdvanceStage;
    var p := Proposal(ImpactOf(h), false, Supervisor, Some(Investigating), None);
    ProposeCreatesNone(s, p);
    var s1 := Propose(s, p).0;
    var s2 := Record(s1.(impacts := s1.impacts + [Impact(h, exposure)]), ImpactComputed(|s1.impacts|));
    AdvanceStageCreatesNone(s2, ImpactAssessed);
  }

  lemma ClosedOutCreatesNone(s: State, h: nat)
    ensures Uncreated(s, ClosedOut(s, h).0)
  {
    hide Propose, AdvanceStage;
    var p := Proposal(Closure(h), false, Supervisor, None, None);
    ProposeCreatesNone(s, p);
    AdvanceStageCreatesNone(Propose(s, p).0.(status := Closed), OutcomeRetained);
  }

  lemma DecideCreatesNone(s: State, scan: nat, exposure: nat)
    ensures Uncreated(s, Decide(s, scan, exposure).0)
  {
    hide Choose, Propose, Analysed, ClosedOut;
    if First(s.actions, IsLive).None? {
      var calm := s.(reevaluate := false);
      match Choose(calm, scan) {
        case Offer(p) => ProposeCreatesNone(calm, p);
        case Analyse(h) => AnalysedCreatesNone(calm, h, exposure);
        case Close(h) => ClosedOutCreatesNone(calm, h);
        case _ =>
      }
    }
  }

  lemma {:induction false} AttemptsCreateNone(s: State, a: nat, c: Connector, attempt: nat)
    requires 1 <= attempt <= MAX_ATTEMPTS
    ensures Uncreated(s, Attempts(s, a, c, attempt))
    decreases MAX_ATTEMPTS - attempt
  {
    if !Succeeds(c, attempt) && attempt < MAX_ATTEMPTS {
      AttemptsCreateNone(Try(s, a, c, attempt), a, c, attempt + 1);
    }
  }

  lemma AbsorbCreatesNone(s: State, evidence: seq<Delivery>, raised: seq<Flag>)
    ensures Uncreated(s, AbsorbEvidence(s, evidence, raised))
  {
    hide IngestAll, Reconciled, Filed;
    if evidence != [] {
      var s1 := IngestAll(s, Filed(s.customer, evidence));
      IngestAllCreatesNone(s, Filed(s.customer, evidence));
      ReconciledCreatesNone(s1, raised);
      Along(s, s1, Reconciled(s1, raised));
    }
  }

  lemma SettledCreatesNone(s: State, a: nat, c: Connector, raised: seq<Flag>)
    requires a < |s.actions|
    ensures Uncreated(s, Settled(s, a, c, raised))
  {
    hide AbsorbEvidence, AdvanceStage, Made, On;
    var last := On(c, Made(c, 1));
    if last.Answered? && last.success {
      AbsorbCreatesNone(s, last.evidence, raised);
      var s1 := SetStatus(AbsorbEvidence(s, last.evidence, raised), a, FinalStatus(c));
      if StageOnSuccess(s.actions[a].kind).Some? {
        AdvanceStageCreatesNone(s1, StageOnSuccess(s.actions[a].kind).value);
      }
    }
  }

  lemma RunCreatesNone(s: State, a: nat, c: Connector, raised: seq<Flag>)
    ensures Uncreated(s, ExecuteIfReady(s, a, c, raised))
  {
    hide Attempts, Settled;
    if a < |s.actions| {
      var s1 := Attempts(Started(s, a), a, c, 1);
      AttemptsCreateNone(Started(s, a), a, c, 1);
      SettledCreatesNone(s1, a, c, raised);
    }
  }

  /** Only a generation writes creation entries. */
  lemma OthersCreateNone(s: State, op: Op)
    requires !op.Regenerate?
    ensures Uncreated(s, Apply(s, op))
  {
    hide Decide, ExecuteIfReady, Reconciled;
    match op
    case Reconcile(raised) => ReconciledCreatesNone(s, raised);
    case DecideNext(scan, exposure) => DecideCreatesNone(s, scan, exposure);
    case Run(a, c, raised) => RunCreatesNone(s, a, c, raised);
    case _ =>
  }

  lemma {:induction false} CreationsExtendBlock(log: seq<Entry>, caseId: nat, from: nat, added: seq<Hypothesis>)
    requires added != []
    ensures BlockStart(log + CreationEntries(caseId, from, added), caseId) ==
            if log != [] && Creates(log[|log| - 1], caseId) then BlockStart(log, caseId) else from
  {
    var entries := CreationEntries(caseId, from, added);
    var all, n := log + entries, |added| - 1;
    assert all[..|all| - 1] == log + entries[..n] && entries[..n] == CreationEntries(caseId, from, added[..n]);
    if n == 0 {
      assert log + [] == log;
    } else {
      CreationsExtendBlock(log, caseId, from, added[..n]);
    }
  }

  lemma TakeOverCreatesNone(s: State, from: nat)
    requires from < |s.hypotheses|
    ensures Uncreated(s, TakeOver(s, from))
  {
    hide Retire, Best, TopActive;
  }

  /** A generation that creates something starts its block no later than its batch. */
  lemma GenerationBlock(s: State, specs: seq<Spec>)
    requires Scored(s) && BlockStart(s.log, s.caseId) <= |s.hypotheses|
    ensures var after := Generated(s, specs);
            && BlockStart(after.log, s.caseId) <= |s.hypotheses| <= |after.hypotheses|
            && (|after.hypotheses| == |s.hypotheses| ==> BlockStart(after.log, s.caseId) == BlockStart(s.log, s.caseId))
  {
    hide Merge, CreateAll, NewHypotheses, Scored, TakeOver, BlockStart;
    var s1, added := CreateAll(s, Merge(specs)), NewRows(s, Merge(specs));
    CreateAllKeepsScored(s, Merge(specs));
    CreateAllWrites(s, Merge(specs));
    if added != [] {
      TakeOverBlock(s, s1, added);
    } else {
      assert CreationEntries(s.caseId, |s.hypotheses|, added) == [];
      assert s1.log == s.log && s1.hypotheses == s.hypotheses;
    }
  }

  lemma TakeOverBlock(s: State, s1: State, added: seq<Hypothesis>)
    requires added != [] && s1.hypotheses == s.hypotheses + added && s1.caseId == s.caseId
    requires s1.log == s.log + CreationEntries(s.caseId, |s.hypotheses|, added)
    requires BlockStart(s.log, s.caseId) <= |s.hypotheses|
    ensures var after := TakeOver(s1, |s.hypotheses|);
            BlockStart(after.log, s.caseId) <= |s.hypotheses| < |after.hypotheses|
  {
    hide TakeOver, BlockStart, CreationEntries;
    CreationsExtendBlock(s.log, s.caseId, |s.hypotheses|, added);
    TakeOverCreatesNone(s1, |s.hypotheses|);
    UncreatedBlock(s1.log, TakeOver(s1, |s.hypotheses|).log, s.caseId);
    RetireKeepsLength(s1.hypotheses, |s.hypotheses|);
  }

  lemma RetireKeepsLength(hypotheses: seq<Hypothesis>, from: nat)
    ensures |Retire(hypotheses, from)| == |hypotheses|
  {}

  /** The batch starts within the last block. */
  ghost predicate WithinBlock(s: State, from: nat) {
    && BlockStart(s.log, s.caseId) <= |s.hypotheses|
    && (s.hypotheses != [] ==> BlockStart(s.log, s.caseId) <= from)
  }

  lemma {:induction false} BatchWithinBlock(caseId: nat, customer: nat, prior: seq<Delivery>, ops: seq<Op>)
    ensures WithinBlock(Case(caseId, customer, prior, ops), BatchStart(Opened(caseId, customer, prior), ops))
  {
    hide Apply, Inv, Opened, WithinBlock;
    if ops == [] {
      NoBlockYet(caseId, customer, prior);
    } else {
      var rest, op := ops[..|ops| - 1], ops[|ops| - 1];
      BatchWithinBlock(caseId, customer, prior, rest);
      CaseHolds(caseId, customer, prior, rest);
      BlockStep(Case(caseId, customer, prior, rest), op, BatchStart(Opened(caseId, customer, prior), rest));
    }
  }

  lemma NoBlockYet(caseId: nat, customer: nat, prior: seq<Delivery>)
    ensures WithinBlock(Opened(caseId, customer, prior), 0)
  {
    var blank, s := Blank(caseId, customer), IngestAll(Blank(caseId, customer), prior);
    IngestAllCreatesNone(blank, prior);
    UncreatedBlock([], Record(s, CaseOpened).log, caseId);
  }

  lemma BlockStep(s: State, op: Op, from: nat)
    requires Inv(s) && WithinBlock(s, from)
    ensures var after := Apply(s, op);
            WithinBlock(after, if |after.hypotheses| > |s.hypotheses| then |s.hypotheses| else from)
  {
    hide Safe, Traced, Scored, StoreOk, Generated, BlockStart, Apply;
    var after := Apply(s, op);
    if op.Regenerate? {
      GenerationBlock(s, op.specs);
      RegenerationIs(s, op.specs);
    } else {
      OthersCreateNone(s, op);
      UncreatedBlock(s.log, after.log, s.caseId);
      OnlyGenerationTouches(s, op);
    }
  }

  lemma RegenerationIs(s: State, specs: seq<Spec>)
    ensures Apply(s, Regenerate(specs)) == Generated(s, specs) && Generated(s, specs).caseId == s.caseId
  {
    GeneratedFrame(s, specs);
  }

  /**
   Two runs that wrote the same log agree on categories and confidences, and their batches start
   within its last block of creations. If that is a single entry, they agree on every status and on
   the primary too.
   */
  lemma SingleEntryTellsTheBatch(
    caseId: nat, customer: nat, prior: seq<Delivery>, ops: seq<Op>, others: nat, before: seq<Delivery>,
      instead: seq<Op>)
    requires var s, t := Case(caseId, customer, prior, ops), Case(caseId, others, before, instead);
      s.log == t.log && s.hypotheses != [] && BlockStart(s.log, caseId) == |s.hypotheses| - 1
    ensures var s, t := Case(caseId, customer, prior, ops), Case(caseId, others, before, instead);
            s.hypotheses == t.hypotheses && s.primary == t.primary == Some(|s.hypotheses| - 1)
  {
    hide Play, Opened, BlockStart;
    var s, t := Case(caseId, customer, prior, ops), Case(caseId, others, before, instead);
    ReplayIsLiveStateNow(caseId, customer, prior, ops);
    ReplayIsLiveStateNow(caseId, others, before, instead);
    SameRows(s, t);
    CaseIdStays(caseId, customer, prior, ops);
    CaseIdStays(caseId, others, before, instead);
    BatchWithinBlock(caseId, customer, prior, ops);
    BatchWithinBlock(caseId, others, before, instead);
    LastBatchIsActive(caseId, customer, prior, ops);
    LastBatchIsActive(caseId, others, before, instead);
    OneActiveBatch(caseId, customer, prior, ops);
    OneActiveBatch(caseId, others, before, instead);
    assert forall i | 0 <= i < |s.hypotheses| :: IsActive(s.hypotheses[i]) <==> i == |s.hypotheses| - 1;
    assert forall i | 0 <= i < |s.hypotheses| :: IsActive(t.hypotheses[i]) <==> i == |s.hypotheses| - 1;
  }

  lemma SameRows(s: State, t: State)
    requires LiveHypotheses(s.hypotheses) == LiveHypotheses(t.hypotheses)
    ensures |s.hypotheses| == |t.hypotheses|
    ensures forall h | 0 <= h < |s.hypotheses| ::
              s.hypotheses[h].category == t.hypotheses[h].category
                && s.hypotheses[h].confidence == t.hypotheses[h].confidence
  {
    var x, y := LiveHypotheses(s.hypotheses), LiveHypotheses(t.hypotheses);
    assert forall h: nat :: h in x <==> h < |s.hypotheses|;
    assert forall h: nat :: h in y <==> h < |t.hypotheses|;
    assert |s.hypotheses| in x <==> |s.hypotheses| in y;
    assert |t.hypotheses| in x <==> |t.hypotheses| in y;
    forall h: nat | h < |s.hypotheses|
      ensures s.hypotheses[h].category == t.hypotheses[h].category
              && s.hypotheses[h].confidence == t.hypotheses[h].confidence
    {
      assert x[h] == y[h];
    }
  }
}
