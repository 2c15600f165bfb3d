/** The log is append-only, and no row is ever removed or has anything but its status or mark changed. */
module AppendOnly {
  import opened Domain
  import opened Sequences
  import opened CaseState
  import opened HypothesisMerge
  import opened HypothesisEngine
  import opened NbaEngine
  import opened Executor
  import opened Approvals
  import opened Runs

  ghost predicate ActionsKept(actions: seq<Action>, after: seq<Action>) {
    && |actions| <= |after|
    && forall a | 0 <= a < |actions| :: after[a] == actions[a].(status := after[a].status)
  }

  ghost predicate HypothesesKept(hypotheses: seq<Hypothesis>, after: seq<Hypothesis>) {
    && |hypotheses| <= |after|
    && forall h | 0 <= h < |hypotheses| :: after[h] == hypotheses[h].(status := after[h].status)
  }

  ghost predicate EvidenceKept(rows: seq<Evidence>, after: seq<Evidence>) {
    && |rows| <= |after|
    && forall i | 0 <= i < |rows| :: after[i] == rows[i].(superseded := after[i].superseded)
  }

  /** A later state of the same case. */
  ghost predicate Extends(s: State, after: State) {
    && after.caseId == s.caseId && after.customer == s.customer
    && s.log <= after.log && s.snapshots <= after.snapshots
    && s.requests <= after.requests
    && EvidenceKept(s.evidence, after.evidence)
    && s.flags <= after.flags && s.links <= after.links && s.impacts <= after.impacts
      && s.executions <= after.executions
    && ActionsKept(s.actions, after.actions)
    && HypothesesKept(s.hypotheses, after.hypotheses)
  }

  lemma Transitive(s: State, t: State, u: State)
    requires Extends(s, t) && Extends(t, u)
    ensures Extends(s, u)
  {}

  lemma AdvanceStageExtends(s: State, stage: Stage)
    ensures Extends(s, AdvanceStage(s, stage))
  {}

  lemma {:induction false} IngestAllExtends(s: State, ds: seq<Delivery>)
    ensures Extends(s, IngestAll(s, ds))
  {
    if ds != [] {
      IngestAllExtends(s, ds[..|ds| - 1]);
    }
  }

  lemma {:induction false} RecordFlagsExtends(s: State, from: nat, n: nat)
    ensures Extends(s, RecordFlags(s, from, n))
  {
    if n > 0 {
      RecordFlagsExtends(s, from, n - 1);
    }
  }

  lemma ReconciledExtends(s: State, raised: seq<Flag>)
    ensures Extends(s, Reconciled(s, raised))
  {
    var s0 := s.(flags := s.flags + raised);
    var s1 := RecordFlags(s0, |s.flags|, |raised|);
    RecordFlagsExtends(s0, |s.flags|, |raised|);
    Transitive(s, s0, s1);
    AdvanceStageExtends(s1, JourneyAssembled);
    Transitive(s, s1, AdvanceStage(s1, JourneyAssembled));
  }

  lemma CreateExtends(s: State, spec: Spec)
    ensures Extends(s, Create(s, spec))
  {}

  lemma {:induction false} CreateAllExtends(s: State, specs: seq<Spec>)
    ensures Extends(s, CreateAll(s, specs))
  {
    if specs != [] {
      var s1 := CreateAll(s, specs[..|specs| - 1]);
      CreateAllExtends(s, specs[..|specs| - 1]);
      CreateExtends(s1, specs[|specs| - 1]);
      Transitive(s, s1, CreateAll(s, specs));
    }
  }

  lemma TakeOverExtends(s: State, from: nat)
    requires from < |s.hypotheses|
    ensures Extends(s, TakeOver(s, from))
  {
    var s0 := s.(hypotheses := Retire(s.hypotheses, from), primary := Some(Best(s.hypotheses, from)));
    AdvanceStageExtends(s0, FailureLocated);
    Transitive(s, s0, AdvanceStage(s0, FailureLocated));
  }

  lemma GeneratedExtends(s: State, specs: seq<Spec>)
    ensures Extends(s, Generated(s, specs))
  {
    var s1 := CreateAll(s, Merge(specs));
    CreateAllExtends(s, Merge(specs));
    if |s1.hypotheses| > |s.hypotheses| {
      TakeOverExtends(s1, |s.hypotheses|);
      Transitive(s, s1, TakeOver(s1, |s.hypotheses|));
    }
  }

  lemma ProposeExtends(s: State, p: Proposal)
    ensures Extends(s, Propose(s, p).0)
    ensures Propose(s, p).1 < |Propose(s, p).0.actions|
  {
    hide AdvanceStage;
    var s1 := if p.status.Some? then s.(status := p.status.value) else s;
    if p.stage.Some? {
      AdvanceStageExtends(s1, p.stage.value);
    }
    assert Extends(s, Prepared(s, p));
    Transitive(s, Prepared(s, p), Insert(Prepared(s, p), p));
  }

  lemma AnalysedExtends(s: State, h: nat, exposure: nat)
    ensures Extends(s, Analysed(s, h, exposure).0)
  {
    hide Propose, AdvanceStage;
    var p := Proposal(ImpactOf(h), false, Supervisor, Some(Investigating), None);
    ProposeExtends(s, p);
    var (s1, a) := Propose(s, p);
    var s2 := Record(s1.(impacts := s1.impacts + [Impact(h, exposure)]), ImpactComputed(|s1.impacts|));
    Transitive(s, s1, s2);
    AdvanceStageExtends(s2, ImpactAssessed);
    Transitive(s, s2, AdvanceStage(s2, ImpactAssessed));
    Transitive(s, AdvanceStage(s2, ImpactAssessed), Analysed(s, h, exposure).0);
  }

  lemma ClosedOutExtends(s: State, h: nat)
    ensures Extends(s, ClosedOut(s, h).0)
  {
    var p := Proposal(Closure(h), false, Supervisor, None, None);
    ProposeExtends(s, p);
    var (s1, a) := Propose(s, p);
    if s1.actions[a].status != Succeeded {
      var s2 := AdvanceStage(s1.(status := Closed), OutcomeRetained);
      AdvanceStageExtends(s1.(status := Closed), OutcomeRetained);
      Transitive(s, s1, s2);
      Transitive(s, s2, ClosedOut(s, h).0);
    }
  }

  lemma DecideExtends(s: State, scan: nat, exposure: nat)
    ensures Extends(s, Decide(s, scan, exposure).0)
  {
    hide Propose, Analysed, ClosedOut, Choose;
    if First(s.actions, IsLive).None? {
      var s1 := s.(reevaluate := false);
      match Choose(s1, scan) {
        case Offer(p) => ProposeExtends(s1, p);
        case Analyse(h) => AnalysedExtends(s1, h, exposure);
        case Close(h) => ClosedOutExtends(s1, h);
        case _ =>
      }
      Transitive(s, s1, Decide(s, scan, exposure).0);
    }
  }

  lemma {:induction false} AttemptsExtends(s: State, a: nat, c: Connector, attempt: nat)
    requires 1 <= attempt <= MAX_ATTEMPTS
    ensures Extends(s, Attempts(s, a, c, attempt))
    decreases MAX_ATTEMPTS - attempt
  {
    if !Succeeds(c, attempt) && attempt < MAX_ATTEMPTS {
      AttemptsExtends(Try(s, a, c, attempt), a, c, attempt + 1);
      Transitive(s, Try(s, a, c, attempt), Attempts(s, a, c, attempt));
    }
  }

  lemma AbsorbExtends(s: State, evidence: seq<Delivery>, raised: seq<Flag>)
    ensures Extends(s, AbsorbEvidence(s, evidence, raised))
  {
    if evidence != [] {
      var s1 := IngestAll(s, Filed(s.customer, evidence));
      IngestAllExtends(s, Filed(s.customer, evidence));
      ReconciledExtends(s1, raised);
      Transitive(s, s1, Reconciled(s1, raised));
    }
  }

  lemma SettledExtends(s: State, a: nat, c: Connector, raised: seq<Flag>)
    requires a < |s.actions|
    ensures Extends(s, Settled(s, a, c, raised))
  {
    var last := On(c, Made(c, 1));
    if last.Answered? && last.success {
      AbsorbExtends(s, last.evidence, raised);
      var s1 := SetStatus(AbsorbEvidence(s, last.evidence, raised), a, FinalStatus(c));
      Transitive(s, AbsorbEvidence(s, last.evidence, raised), s1);
      var stage := StageOnSuccess(s.actions[a].kind);
      if stage.Some? {
        AdvanceStageExtends(s1, stage.value);
        Transitive(s, s1, AdvanceStage(s1, stage.value));
      }
    }
  }

  lemma ExecuteExtends(s: State, a: nat, c: Connector, raised: seq<Flag>)
    requires a < |s.actions|
    ensures Extends(s, Execute(s, a, c, raised))
  {
    if First(s.executions, SuccessOf(a)).None? {
      var s1 := Attempts(Started(s, a), a, c, 1);
      AttemptsExtends(Started(s, a), a, c, 1);
      Transitive(s, Started(s, a), s1);
      SettledExtends(s1, a, c, raised);
      Transitive(s, s1, Settled(s1, a, c, raised));
      Transitive(s, Settled(s1, a, c, raised), Execute(s, a, c, raised));
    }
  }

  lemma DecidedExtends(s: State, p: nat, decision: ApprovalStatus, user: User)
    requires p < |s.approvals| && Decided(s, p, decision, user).Success?
    ensures Extends(s, Decided(s, p, decision, user).value)
  {}

  lemma ApplyExtends(s: State, op: Op)
    ensures Extends(s, Apply(s, op))
  {
    hide Decide, Execute, Generated, Reconciled, Decided;
    match op
    case Deliver(d) =>
    case Reconcile(raised) => ReconciledExtends(s, raised);
    case Regenerate(specs) => GeneratedExtends(s, specs);
    case DecideNext(scan, exposure) => DecideExtends(s, scan, exposure);
    case Run(a, c, raised) =>
      if a < |s.actions| {
        ExecuteExtends(s, a, c, raised);
      }
    case Approve(p, decision, user) =>
      if p < |s.approvals| && Decided(s, p, decision, user).Success? {
        DecidedExtends(s, p, decision, user);
      }
    case Elsewhere(owner, event) =>
  }

  /** However long a case goes on, what was written stays written. */
  lemma {:induction false} PlayExtends(s: State, ops: seq<Op>)
    ensures Extends(s, Play(s, ops))
  {
    if ops != [] {
      var s1 := Play(s, ops[..|ops| - 1]);
      PlayExtends(s, ops[..|ops| - 1]);
      ApplyExtends(s1, ops[|ops| - 1]);
      Transitive(s, s1, Play(s, ops));
    }
  }
}
