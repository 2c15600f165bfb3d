/** Runs of a case: every operation, in any order, against any environment, keeps the invariants. */
module Runs {
  import opened Domain
  import opened CaseState
  import opened EvidenceStore
  import opened HypothesisEngine
  import opened HypothesisInvariants
  import opened NbaEngine
  import opened Executor
  import opened Approvals
  import opened Orchestrator
  import opened ActionSafety
  import opened Tracing
  import opened TracedSteps

  /** What may happen to a case, with everything its environment decides. */
  datatype Op =
    | Deliver(delivery: Delivery)
    | Reconcile(raised: seq<Flag>)
    | Regenerate(specs: seq<Spec>)
    | DecideNext(scan: nat, exposure: nat)
    | Run(action: nat, connector: Connector, raised: seq<Flag>)
    | Approve(approval: nat, decision: ApprovalStatus, user: User)
    | Elsewhere(owner: Option<nat>, event: Event)

  /** An approval that does not exist or is refused changes nothing; other cases write their own entries. */
  function Apply(s: State, op: Op): State {
    match op
    case Deliver(d) => IngestInto(s, d)
    case Reconcile(raised) => Reconciled(s, raised)
    case Regenerate(specs) => Generated(s, specs)
    case DecideNext(scan, exposure) => Decide(s, scan, exposure).0
    case Run(a, c, raised) => ExecuteIfReady(s, a, c, raised)
    case Approve(p, decision, user) =>
      if p < |s.approvals| && Decided(s, p, decision, user).Success? then Decided(s, p, decision, user).value else s
    case Elsewhere(owner, event) =>
      if owner == Some(s.caseId) then s else Write(s, owner, event)
  }

  function Play(s: State, ops: seq<Op>): State {
    if ops == [] then s else Apply(Play(s, ops[..|ops| - 1]), ops[|ops| - 1])
  }

  /** A case opened on evidence delivered before, after the given operations. */
  function Case(caseId: nat, customer: nat, prior: seq<Delivery>, ops: seq<Op>): State {
    Play(Opened(caseId, customer, prior), ops)
  }

  lemma {:induction false} PlayConcat(s: State, xs: seq<Op>, ys: seq<Op>)
    ensures Play(s, xs + ys) == Play(Play(s, xs), ys)
  {
    hide Apply;
    if ys == [] {
      assert xs + ys == xs;
    } else {
      assert (xs + ys)[..|xs| + |ys| - 1] == xs + ys[..|ys| - 1];
      PlayConcat(s, xs, ys[..|ys| - 1]);
    }
  }

  /** One advance is a decision, and a run of whatever it answered. */
  function AdvanceOps(s: State, t: Turn): seq<Op> {
    var a := Decide(s, t.scan, t.exposure).1;
    [DecideNext(t.scan, t.exposure)] + if a.None? then [] else [Run(a.value, t.connector, t.raised)]
  }

  lemma AdvanceIsPlayed(s: State, t: Turn)
    ensures Advance(s, t).0 == Play(s, AdvanceOps(s, t))
  {
    var (s1, a) := Decide(s, t.scan, t.exposure);
    PlayOne(s, DecideNext(t.scan, t.exposure));
    if a.Some? {
      PlayTwo(s, DecideNext(t.scan, t.exposure), Run(a.value, t.connector, t.raised), s1);
    }
  }

  lemma PlayOne(s: State, op: Op)
    ensures Play(s, [op] + []) == Apply(s, op)
  {
    assert ([op] + [])[..0] == [];
  }

  lemma PlayTwo(s: State, first: Op, second: Op, s1: State)
    requires Apply(s, first) == s1
    ensures Play(s, [first] + [second]) == Apply(s1, second)
  {
    PlayOne(s, first);
    assert ([first] + [second])[..1] == [first] + [];
  }

  // ----- The invariant -----

  ghost predicate StoreOk(rows: seq<Evidence>) {
    Chained(rows) && forall key :: Conserved(rows, key)
  }

  ghost predicate Inv(s: State) {
    Safe(s) && Traced(s) && Led(s) && StoreOk(s.evidence)
  }

  // ----- Evidence -----

  lemma DeliveryKeepsStore(rows: seq<Evidence>, d: Delivery)
    requires StoreOk(rows)
    ensures StoreOk(Ingested(rows, d))
  {
    IngestKeepsChains(rows, d);
    forall key ensures Conserved(Ingested(rows, d), key) {
      IngestConserves(rows, d, key);
    }
  }

  lemma DeliveryKeepsLed(s: State, d: Delivery)
    requires Led(s)
    ensures Led(s.(evidence := Ingested(s.evidence, d)))
  {
    IngestGrows(s.evidence, d);
    GrowthKeepsLed(s, s.(evidence := Ingested(s.evidence, d)));
  }

  /** What the engines' tables look like does not depend on the columns they do not read. */
  ghost predicate SameHypotheses(s: State, after: State) {
    && after.hypotheses == s.hypotheses && after.links == s.links && after.primary == s.primary
    && after.customer == s.customer && after.evidence == s.evidence
  }

  lemma SameLed(s: State, after: State)
    requires Led(s) && SameHypotheses(s, after)
    ensures Led(after)
  {
    GrowthKeepsLed(s, after);
  }

  lemma {:induction false} IngestAllKeeps(s: State, ds: seq<Delivery>)
    requires Led(s) && StoreOk(s.evidence)
    ensures Led(IngestAll(s, ds)) && StoreOk(IngestAll(s, ds).evidence)
  {
    if ds != [] {
      var s1, d := IngestAll(s, ds[..|ds| - 1]), ds[|ds| - 1];
      IngestAllKeeps(s, ds[..|ds| - 1]);
      DeliveryKeepsStore(s1.evidence, d);
      DeliveryKeepsLed(s1, d);
      SameLed(s1.(evidence := Ingested(s1.evidence, d)), IngestInto(s1, d));
    }
  }

  lemma AbsorbKeeps(s: State, evidence: seq<Delivery>, raised: seq<Flag>)
    requires Led(s) && StoreOk(s.evidence)
    ensures Led(AbsorbEvidence(s, evidence, raised)) && StoreOk(AbsorbEvidence(s, evidence, raised).evidence)
  {
    if evidence != [] {
      var s1 := IngestAll(s, Filed(s.customer, evidence));
      IngestAllKeeps(s, Filed(s.customer, evidence));
      SameLed(s1, Reconciled(s1, raised));
    }
  }

  // ----- Each operation -----

  /** Safety only looks at the tables of the action side and at the flags, which may grow. */
  lemma SameSafe(s: State, after: State)
    requires Safe(s)
    requires after.actions == s.actions && after.approvals == s.approvals && after.executions == s.executions
    requires after.impacts == s.impacts && s.flags <= after.flags
    ensures Safe(after)
  {}

  lemma DeliverKeeps(s: State, d: Delivery)
    requires Inv(s)
    ensures Inv(IngestInto(s, d))
  {
    SameSafe(s, IngestInto(s, d));
    IngestIntoTraced(s, d);
    DeliveryKeepsStore(s.evidence, d);
    DeliveryKeepsLed(s, d);
    SameLed(s.(evidence := Ingested(s.evidence, d)), IngestInto(s, d));
  }

  lemma ReconcileKeeps(s: State, raised: seq<Flag>)
    requires Inv(s)
    ensures Inv(Reconciled(s, raised))
  {
    SameSafe(s, Reconciled(s, raised));
    ReconciledTraced(s, raised);
    SameLed(s, Reconciled(s, raised));
  }

  lemma GeneratedFrame(s: State, specs: seq<Spec>)
    ensures var r := Generated(s, specs);
            r == s.(hypotheses := r.hypotheses, links := r.links, primary := r.primary, reevaluate := r.reevaluate,
                    stage := r.stage, requests := r.requests, log := r.log, snapshots := r.snapshots)
  {}

  lemma RegenerateKeeps(s: State, specs: seq<Spec>)
    requires Inv(s)
    ensures Inv(Generated(s, specs))
  {
    GeneratedFrame(s, specs);
    SameSafe(s, Generated(s, specs));
    GeneratedTraced(s, specs);
    GeneratedKeepsLed(s, specs);
  }

  /** Clearing the re-evaluation mark is invisible to every invariant. */
  lemma CalmKeeps(s: State, after: State)
    requires Inv(s) && after == s.(reevaluate := after.reevaluate)
    ensures Inv(after)
  {
    SameSafe(s, after);
    SilentStep(s, after);
    SameLed(s, after);
  }

  lemma DecideFrame(s: State, scan: nat, exposure: nat)
    requires Safe(s)
    ensures SameHypotheses(s, Decide(s, scan, exposure).0)
    ensures var r := Decide(s, scan, exposure).0;
            r == s.(actions := r.actions, approvals := r.approvals, impacts := r.impacts, reevaluate := r.reevaluate,
                    status := r.status, stage := r.stage, requests := r.requests, log := r.log,
                      snapshots := r.snapshots)
  {
    hide Choose;
    var s1 := s.(reevaluate := false);
    ChoiceWarranted(s1, scan);
    match Choose(s1, scan) {
      case Analyse(h) => AnalysisIsFresh(s1, h, exposure);
      case Close(h) => ClosureIsFresh(s1, h);
      case _ =>
    }
  }

  lemma DecideKeeps(s: State, scan: nat, exposure: nat)
    requires Inv(s)
    ensures Inv(Decide(s, scan, exposure).0)
  {
    DecideKeepsSafe(s, scan, exposure);
    DecideTraced(s, scan, exposure);
    DecideFrame(s, scan, exposure);
    SameLed(s, Decide(s, scan, exposure).0);
  }

  lemma SettledKeepsLed(s: State, a: nat, c: Connector, raised: seq<Flag>)
    requires a < |s.actions| && Led(s) && StoreOk(s.evidence)
    ensures Led(Settled(s, a, c, raised)) && StoreOk(Settled(s, a, c, raised).evidence)
  {
    var last := On(c, Made(c, 1));
    if last.Answered? && last.success {
      AbsorbKeeps(s, last.evidence, raised);
      SameLed(AbsorbEvidence(s, last.evidence, raised), Settled(s, a, c, raised));
    } else {
      SameLed(s, Settled(s, a, c, raised));
    }
  }

  lemma RunKeeps(s: State, a: nat, c: Connector, raised: seq<Flag>)
    requires Inv(s)
    ensures Inv(ExecuteIfReady(s, a, c, raised))
  {
    hide Safe, Traced, Led, StoreOk, Settled, Attempts;
    var after := ExecuteIfReady(s, a, c, raised);
    if a < |s.actions| && (s.actions[a].status == Proposed || s.actions[a].status == Approved) {
      ReadyRunsNow(s, a);
      ExecuteKeepsSafe(s, a, c, raised);
      ExecuteTraced(s, a, c, raised);
      var s1 := Attempts(Started(s, a), a, c, 1);
      SameLed(s, s1);
      SettledKeepsLed(s1, a, c, raised);
      SameLed(Settled(s1, a, c, raised), after);
    }
  }

  lemma ApproveKeeps(s: State, p: nat, decision: ApprovalStatus, user: User)
    requires Inv(s) && p < |s.approvals| && Decided(s, p, decision, user).Success?
    ensures Inv(Decided(s, p, decision, user).value)
  {
    DecidedKeepsSafe(s, p, decision, user);
    DecidedTraced(s, p, decision, user);
    SameLed(s, Decided(s, p, decision, user).value);
  }

  lemma ElsewhereKeeps(s: State, owner: Option<nat>, event: Event)
    requires Inv(s) && owner != Some(s.caseId)
    ensures Inv(Write(s, owner, event))
  {
    ForeignTraced(s, owner, event);
    SameSafe(s, Write(s, owner, event));
    SameLed(s, Write(s, owner, event));
  }

  lemma ApplyKeeps(s: State, op: Op)
    requires Inv(s)
    ensures Inv(Apply(s, op))
  {
    hide Inv, Decide, Decided, Generated, Reconciled, ExecuteIfReady;
    match op
    case Deliver(d) => DeliverKeeps(s, d);
    case Reconcile(raised) => ReconcileKeeps(s, raised);
    case Regenerate(specs) => RegenerateKeeps(s, specs);
    case DecideNext(scan, exposure) => DecideKeeps(s, scan, exposure);
    case Run(a, c, raised) => RunKeeps(s, a, c, raised);
    case Approve(p, decision, user) =>
      if p < |s.approvals| && Decided(s, p, decision, user).Success? {
        ApproveKeeps(s, p, decision, user);
      }
    case Elsewhere(owner, event) =>
      if owner != Some(s.caseId) {
        ElsewhereKeeps(s, owner, event);
      }
  }

  /** A case just opened. */
  lemma BlankHolds(caseId: nat, customer: nat)
    ensures Inv(Blank(caseId, customer))
  {
    var s := Blank(caseId, customer);
    assert LiveHypotheses([]) == map[] && LiveActions([]) == map[] && LiveApprovals([]) == map[];
    assert ActiveFrom(s.hypotheses, 0);
  }

  lemma OpenedHolds(caseId: nat, customer: nat, prior: seq<Delivery>)
    ensures Inv(Opened(caseId, customer, prior))
  {
    hide Traced, Led, StoreOk;
    var blank, s := Blank(caseId, customer), IngestAll(Blank(caseId, customer), prior);
    BlankHolds(caseId, customer);
    IngestAllTraced(blank, prior);
    IngestAllKeeps(blank, prior);
    OpeningIsNoted(s);
    SameSafe(blank, Record(s, CaseOpened));
    SameLed(s, Record(s, CaseOpened));
  }

  lemma OpeningIsNoted(s: State)
    requires Traced(s)
    ensures Traced(Record(s, CaseOpened))
  {
    NoteStep(s, s, Some(s.caseId), CaseOpened);
  }

  /** Whatever happens to a case, in whatever order, the invariant holds throughout. */
  lemma {:induction false} PlayKeeps(s: State, ops: seq<Op>)
    requires Inv(s)
    ensures Inv(Play(s, ops))
  {
    if ops != [] {
      PlayKeeps(s, ops[..|ops| - 1]);
      ApplyKeeps(Play(s, ops[..|ops| - 1]), ops[|ops| - 1]);
    }
  }

  lemma CaseHolds(caseId: nat, customer: nat, prior: seq<Delivery>, ops: seq<Op>)
    ensures Inv(Case(caseId, customer, prior, ops))
  {
    OpenedHolds(caseId, customer, prior);
    PlayKeeps(Opened(caseId, customer, prior), ops);
  }
}
