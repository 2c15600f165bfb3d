/** What is settled stays settled: outcomes, decisions, attempts, confidences and superseded marks. */
module Finality {
  import opened Domain
  import opened Sequences
  import opened CaseState
  import opened EvidenceStore
  import opened HypothesisMerge
  import opened HypothesisEngine
  import opened NbaEngine
  import opened Executor
  import opened Approvals
  import opened Orchestrator
  import opened ActionTable
  import opened ActionSafety
  import opened Runs
  import opened CaseCycle

  ghost predicate ActionsFinal(actions: seq<Action>, after: seq<Action>) {
    && |actions| <= |after|
    && forall a | 0 <= a < |actions| && actions[a].status in {Rejected, Succeeded, Failed, NeedsManualReview} ::
      after[a] == actions[a]
  }

  ghost predicate ApprovalsFinal(approvals: seq<Approval>, after: seq<Approval>) {
    && |approvals| <= |after|
    && forall p | 0 <= p < |approvals| && approvals[p].status != Pending :: after[p] == approvals[p]
  }

  ghost predicate HypothesesFinal(hypotheses: seq<Hypothesis>, after: seq<Hypothesis>) {
    && |hypotheses| <= |after|
    && forall h | 0 <= h < |hypotheses| && hypotheses[h].status == HypothesisStatus.Superseded ::
      after[h] == hypotheses[h]
  }

  ghost predicate EvidenceFinal(rows: seq<Evidence>, after: seq<Evidence>) {
    && |rows| <= |after|
    && forall i | 0 <= i < |rows| && rows[i].superseded :: after[i] == rows[i]
  }

  /** Nothing settled has changed. */
  ghost predicate Keeps(s: State, after: State) {
    && ActionsFinal(s.actions, after.actions)
    && ApprovalsFinal(s.approvals, after.approvals)
    && HypothesesFinal(s.hypotheses, after.hypotheses)
    && EvidenceFinal(s.evidence, after.evidence)
  }

  lemma KeepsAlong(s: State, t: State, u: State)
    requires Keeps(s, t) && Keeps(t, u)
    ensures Keeps(s, u)
  {}

  /** Superseded rows can only stay so, in any later state whose rows differ in that mark at most. */
  lemma {:induction false} IngestAllKeepsMarks(s: State, ds: seq<Delivery>)
    ensures EvidenceFinal(s.evidence, IngestAll(s, ds).evidence)
  {
    if ds != [] {
      IngestAllKeepsMarks(s, ds[..|ds| - 1]);
      IngestGrows(IngestAll(s, ds[..|ds| - 1]).evidence, ds[|ds| - 1]);
    }
  }

  lemma AbsorbKeepsMarks(s: State, evidence: seq<Delivery>, raised: seq<Flag>)
    ensures EvidenceFinal(s.evidence, AbsorbEvidence(s, evidence, raised).evidence)
  {
    hide IngestAll, Filed;
    if evidence != [] {
      IngestAllKeepsMarks(s, Filed(s.customer, evidence));
    }
  }

  lemma ExecuteKeepsMarks(s: State, a: nat, c: Connector, raised: seq<Flag>)
    requires a < |s.actions|
    ensures EvidenceFinal(s.evidence, Execute(s, a, c, raised).evidence)
  {
    hide AbsorbEvidence, Made, AdvanceStage, Told;
    var s1, last := Attempts(Started(s, a), a, c, 1), On(c, Made(c, 1));
    if last.Answered? && last.success {
      AbsorbKeepsMarks(s1, last.evidence, raised);
    }
  }

  // ----- Every operation -----

  lemma RunKeepsFinal(s: State, a: nat, c: Connector, raised: seq<Flag>, after: State)
    requires Safe(s) && after == ExecuteIfReady(s, a, c, raised)
    ensures Keeps(s, after)
  {
    hide Execute, Safe, EvidenceFinal;
    if a < |s.actions| && (s.actions[a].status == Proposed || s.actions[a].status == Approved) {
      ReadyRunsNow(s, a);
      ExecuteEffect(s, a, c, raised);
      ExecuteKeepsMarks(s, a, c, raised);
    } else {
      SameKeeps(s, after);
    }
  }

  lemma SameKeeps(s: State, after: State)
    requires after.actions == s.actions && after.approvals == s.approvals
    requires after.hypotheses == s.hypotheses && after.evidence == s.evidence
    ensures Keeps(s, after)
  {}

  lemma AppendKeepsFinal(s: State, after: State)
    requires s.actions <= after.actions && s.approvals <= after.approvals
    requires after.hypotheses == s.hypotheses && after.evidence == s.evidence
    ensures Keeps(s, after)
  {}

  lemma ProposeAppends(s: State, p: Proposal)
    ensures s.actions <= Propose(s, p).0.actions && s.approvals <= Propose(s, p).0.approvals
  {
    hide AdvanceStage, Told, NewAction;
  }

  lemma DecideAppends(s: State, scan: nat, exposure: nat)
    requires Safe(s)
    ensures var after := Decide(s, scan, exposure).0; s.actions <= after.actions && s.approvals <= after.approvals
  {
    hide Safe, Propose, Analysed, ClosedOut, Choose, Decide;
    if First(s.actions, IsLive).Some? {
      DecideLive(s, scan, exposure);
    } else {
      var calm := s.(reevaluate := false);
      DecideFresh(s, scan, exposure);
      ChoiceWarranted(calm, scan);
      CalmIsSafe(s, calm);
      match Choose(calm, scan) {
        case Offer(p) => ProposeAppends(calm, p);
        case Analyse(h) => AnalysisIsFresh(calm, h, exposure);
        case Close(h) => ClosingAppends(calm, h);
        case _ =>
      }
    }
  }

  lemma CalmIsSafe(s: State, calm: State)
    requires Safe(s) && calm == s.(reevaluate := false)
    ensures Safe(calm)
  {
    SameSafe(s, calm);
  }

  lemma ClosingAppends(s: State, h: nat)
    requires Safe(s) && First(s.actions, OfKind(CloseCase)).None?
    ensures s.actions <= ClosedOut(s, h).0.actions && s.approvals <= ClosedOut(s, h).0.approvals
  {
    hide ApprovalsOk, ExecutionsOk, ImpactsOk, ClosedOut;
    ClosureIsFresh(s, h);
  }

  lemma DecideKeepsFinal(s: State, scan: nat, exposure: nat)
    requires Safe(s)
    ensures Keeps(s, Decide(s, scan, exposure).0)
  {
    hide Safe, Decide, Keeps;
    DecideAppends(s, scan, exposure);
    DecideFrame(s, scan, exposure);
    AppendKeepsFinal(s, Decide(s, scan, exposure).0);
  }

  lemma GeneratedKeepsFinal(s: State, specs: seq<Spec>)
    ensures Keeps(s, Generated(s, specs))
  {
    hide CreateAll, HasEvidence, Merge, Best, AdvanceStage, TopActive, First;
    var after, s1, n := Generated(s, specs), CreateAll(s, Merge(specs)), |s.hypotheses|;
    if |after.hypotheses| > n {
      assert forall h | 0 <= h < n :: s1.hypotheses[h] == s1.hypotheses[..n][h] == s.hypotheses[h];
    }
  }

  lemma ApproveKeepsFinal(s: State, p: nat, decision: ApprovalStatus, user: User)
    requires Safe(s) && p < |s.approvals| && Decided(s, p, decision, user).Success?
    ensures Keeps(s, Decided(s, p, decision, user).value)
  {
    hide TableOk, ExecutionsOk, ImpactsOk, HasApproval;
    assert ApprovalOk(s.actions, s.approvals[p]);
    PendingIsLive(s, s.approvals[p].action);
  }

  lemma PendingIsLive(s: State, a: nat)
    requires Safe(s) && a < |s.actions| && ApprovalFor(s.actions[a].status) == Pending
    ensures IsLive(s.actions[a])
  {}

  lemma ApplyKeepsFinal(s: State, op: Op)
    requires Inv(s)
    ensures Keeps(s, Apply(s, op))
  {
    hide Safe, Keeps, Decide, ExecuteIfReady, Generated, Reconciled, Decided;
    match op
    case Deliver(d) =>
      IngestGrows(s.evidence, d);
      DeliverKeepsFinal(s, d);
    case DecideNext(scan, exposure) => DecideKeepsFinal(s, scan, exposure);
    case Regenerate(specs) => GeneratedKeepsFinal(s, specs);
    case Run(a, c, raised) => RunKeepsFinal(s, a, c, raised, Apply(s, op));
    case Approve(p, decision, user) =>
      if p < |s.approvals| && Decided(s, p, decision, user).Success? {
        ApproveKeepsFinal(s, p, decision, user);
      } else {
        SameKeeps(s, s);
      }
    case _ => SameKeeps(s, Apply(s, op));
  }

  lemma DeliverKeepsFinal(s: State, d: Delivery)
    ensures Keeps(s, IngestInto(s, d))
  {
    IngestGrows(s.evidence, d);
  }

  lemma {:induction false} PlayKeepsFinal(s: State, ops: seq<Op>)
    requires Inv(s)
    ensures Keeps(s, Play(s, ops))
  {
    hide Apply, Inv, Keeps;
    if ops == [] {
      SameKeeps(s, s);
    } else {
      var rest := ops[..|ops| - 1];
      PlayKeepsFinal(s, rest);
      PlayKeeps(s, rest);
      ApplyKeepsFinal(Play(s, rest), ops[|ops| - 1]);
      KeepsAlong(s, Play(s, rest), Play(s, ops));
    }
  }

  /**
   Whatever happens to a case later: an action that is no longer live, an approval that was
   decided, a superseded hypothesis and superseded evidence are exactly as they were.
   */
  lemma SettledForGood(caseId: nat, customer: nat, prior: seq<Delivery>, past: seq<Op>, future: seq<Op>)
    ensures Keeps(Case(caseId, customer, prior, past), Case(caseId, customer, prior, past + future))
  {
    hide Apply, Keeps;
    CaseHolds(caseId, customer, prior, past);
    PlayConcat(Opened(caseId, customer, prior), past, future);
    PlayKeepsFinal(Case(caseId, customer, prior, past), future);
  }

  /** The approval, its action and one last entry say what was decided, and by whom; no other row changes. */
  ghost predicate IsDecidedBy(s: State, p: nat, decision: ApprovalStatus, user: User, after: State)
    requires p < |s.approvals|
  {
    var approval := s.approvals[p];
    && after.approvals ==
         s.approvals[p := Approval(approval.action, approval.requiredRole, decision, Some(user.id))]
    && approval.action < |s.actions| == |after.actions|
    && after.actions[approval.action] ==
         s.actions[approval.action].(status := if decision == Granted then Approved else Rejected)
    && (forall a | 0 <= a < |s.actions| && a != approval.action :: after.actions[a] == s.actions[a])
    && after.log == s.log + [Entry(Some(s.caseId), ApprovalDecided(p, decision == Granted, user.id, user.role))]
    && after == s.(approvals := after.approvals, actions := after.actions, log := after.log,
                   snapshots := after.snapshots)
  }

  /** In a reachable case an approval can be decided exactly once, by a permitted role, either way. */
  lemma ApprovalsAreDecidedOnce(
    caseId: nat, customer: nat, prior: seq<Delivery>, past: seq<Op>, future: seq<Op>, p: nat, decision: ApprovalStatus,
      user: User)
    requires p < |Case(caseId, customer, prior, past).approvals|
    ensures var s := Case(caseId, customer, prior, past);
            && (Decided(s, p, decision, user).Success? <==>
                  decision != Pending && s.approvals[p].status == Pending
                    && (user.role == Admin || user.role == s.approvals[p].requiredRole))
            && (Decided(s, p, decision, user).Success? ==>
                  IsDecidedBy(s, p, decision, user, Decided(s, p, decision, user).value))
            && (s.approvals[p].status != Pending ==>
                  var later := Case(caseId, customer, prior, past + future);
                  p < |later.approvals| && Decided(later, p, decision, user).Failure?)
  {
    hide Play, Safe;
    CaseHolds(caseId, customer, prior, past);
    SettledForGood(caseId, customer, prior, past, future);
    ApprovedActionExists(Case(caseId, customer, prior, past), p);
  }

  lemma ApprovedActionExists(s: State, p: nat)
    requires Safe(s) && p < |s.approvals|
    ensures s.approvals[p].action < |s.actions|
  {
    assert ApprovalOk(s.actions, s.approvals[p]);
  }
}
