/** Deciding, executing and approving keep the action, approval, execution and impact tables safe. */
module ActionSafety {
  import opened Domain
  import opened Sequences
  import opened CaseState
  import opened NbaEngine
  import opened Executor
  import opened Approvals
  import opened ActionTable
  import Catalog = RecoveryCatalog

  ghost predicate Safe(s: State) {
    && TableOk(s.actions)
    && ApprovalsOk(s.actions, s.approvals)
    && ExecutionsOk(s.actions, s.executions)
    && ImpactsOk(s.actions, s.impacts)
    && RequestsOk(s.actions, s.flags)
  }

  // ----- Inserting a row -----

  /** A row may be added: nothing older stands against it. Its key may still be taken. */
  ghost predicate Admissible(s: State, x: Action) {
    && RowOk(x)
    && (forall i | 0 <= i < |s.actions| :: Yields(s.actions[i], x))
    && CausesOk(s.actions + [x], |s.actions|)
    && (x.target.MissingEvidence? ==> x.target.flag < |s.flags| && IsMissing(s.flags[x.target.flag]))
  }

  lemma FreshApprovals(actions: seq<Action>, approvals: seq<Approval>, x: Action, role: Role)
    requires ApprovalsOk(actions, approvals)
    requires x.requiresApproval ==>
        x.status == ActionStatus.PendingApproval && x.target.Remedy? && role == Catalog.SignOff(x.target.code)
    ensures ApprovalsOk(actions + [x],
                        approvals + if x.requiresApproval then [Approval(|actions|, role, Pending, None)] else [])
  {
    var after := approvals + if x.requiresApproval then [Approval(|actions|, role, Pending, None)] else [];
    forall a | 0 <= a < |actions + [x]| && (actions + [x])[a].requiresApproval ensures HasApproval(after, a) {
      if a < |actions| {
        assert HasApproval(approvals, a);
        var p :| 0 <= p < |approvals| && approvals[p].action == a;
        assert after[p].action == a;
      } else {
        assert after[|approvals|].action == a;
      }
    }
  }

  lemma NoTraceYet(executions: seq<Execution>, n: nat)
    requires forall x | 0 <= x < |executions| :: executions[x].action < n
    ensures TraceOf(executions, n) == []
  {
    FilterNone(executions, ByAction(n));
  }

  lemma FirstSnoc<T>(rows: seq<T>, x: T, p: T -> bool)
    ensures First(rows + [x], p) == if First(rows, p).Some? then First(rows, p) else if p(x) then Some(|rows|) else None
  {
    assert (rows + [x])[..|rows|] == rows;
  }

  /** The new assessment, if the new row is an analysis. */
  ghost predicate AssessedWith(s: State, x: Action, after: State) {
    && (x.kind != RunAnalysis ==> after.impacts == s.impacts)
    && (x.kind == RunAnalysis ==>
          x.target.ImpactOf? && exists e :: after.impacts == s.impacts + [Impact(x.target.hypothesis, e)])
  }

  lemma AddKeepsImpacts(s: State, x: Action, after: State)
    requires ImpactsOk(s.actions, s.impacts) && RowOk(x) && First(s.actions, HasKey(x.key)).None?
    requires after.actions == s.actions + [x] && AssessedWith(s, x, after)
    ensures ImpactsOk(after.actions, after.impacts)
  {
    hide First;
    forall h: nat
      ensures First(after.impacts, ImpactFor(h)).Some? <==> First(after.actions, HasKey(KeyOf(ImpactOf(h)))).Some?
    {
      FirstSnoc(s.actions, x, HasKey(KeyOf(ImpactOf(h))));
      if x.kind == RunAnalysis {
        FirstSnoc(s.impacts, after.impacts[|s.impacts|], ImpactFor(h));
      }
    }
    if x.kind == RunAnalysis {
      var h := x.target.hypothesis;
      assert First(s.impacts, ImpactFor(h)).None?;
    }
  }

  /** Adding an admissible row under a free key; an analysis comes with its assessment. */
  lemma AddKeepsSafe(s: State, x: Action, role: Role, after: State)
    requires Safe(s) && Admissible(s, x) && First(s.actions, HasKey(x.key)).None?
    requires x.requiresApproval ==>
        x.status == ActionStatus.PendingApproval && x.target.Remedy? && role == Catalog.SignOff(x.target.code)
    requires x.status == Succeeded ==> IsInline(x.kind)
    requires x.status != Failed && x.status != NeedsManualReview
    requires after.actions == s.actions + [x] && after.executions == s.executions && after.flags == s.flags
    requires after.approvals == s.approvals + if x.requiresApproval then [Approval(|s.actions|, role, Pending, None)]
             else []
    requires AssessedWith(s, x, after)
    ensures Safe(after)
  {
    hide ImpactsOk, AssessedWith, TraceOf, CausesOk, Yields, First;
    AppendKeeps(s.actions, x);
    FreshApprovals(s.actions, s.approvals, x, role);
    NoTraceYet(s.executions, |s.actions|);
    AddKeepsImpacts(s, x, after);
  }

  // ----- Deciding -----

  /** What the seven branches have checked by the time they choose. */
  ghost predicate Warranted(s: State, choice: Choice) {
    match choice
    case Offer(p) =>
      (match p.target
       case NoActiveHypothesis => Grounds(s).None? && !p.requiresApproval
       case MissingEvidence(f) => Grounds(s).Some? && f in Where(s.flags, IsMissing) && !p.requiresApproval
       case SystemicCheck(h) => Grounds(s) == Some(h) && First(s.actions, OfKind(EscalateItsm)).None?
         && !p.requiresApproval
       case Remedy(code, cost, h) =>
         && Grounds(s) == Some(h)
         && First(s.actions, LiveOrDoneRecovery).None?
         && code !in RejectedCodes(s.actions)
         && (p.requiresApproval <==> !Catalog.EscapesApproval(code, cost))
         && (p.requiresApproval ==> p.role == Catalog.SignOff(code))
       case RecoveryNotice(r) =>
         && r < |s.actions| && Done(ExecuteRecovery)(s.actions[r])
         && First(s.actions, OfKind(NotifyCustomer)).None? && !p.requiresApproval
       case _ => false)
    case Analyse(h) => Grounds(s) == Some(h) && First(s.impacts, ImpactFor(h)).None?
    case Close(h) =>
      && Grounds(s) == Some(h)
      && First(s.actions, Done(NotifyCustomer)).Some? && First(s.actions, OfKind(CloseCase)).None?
    case _ => true
  }

  lemma RemedyWarranted(s: State, h: nat, exposure: nat)
    requires Grounds(s) == Some(h)
    ensures Warranted(s, ChooseRemedy(s, h, exposure))
  {
    Catalog.ApprovalGate(s.hypotheses[h].category, exposure, RejectedCodes(s.actions));
  }

  lemma ChoiceWarranted(s: State, scan: nat)
    ensures Warranted(s, Choose(s, scan))
  {
    var grounds := Grounds(s);
    if grounds.Some? {
      var impact := First(s.impacts, ImpactFor(grounds.value));
      if impact.Some? {
        RemedyWarranted(s, grounds.value, s.impacts[impact.value].exposure);
      }
    }
  }

  lemma OfferIsAdmissible(s: State, p: Proposal)
    requires Safe(s) && First(s.actions, IsLive).None? && Warranted(s, Offer(p))
    ensures Admissible(s, NewAction(p))
    ensures !IsInline(KindOf(p.target))
  {
    hide ApprovalsOk, ExecutionsOk, ImpactsOk;
    var x := NewAction(p);
    forall i | 0 <= i < |s.actions| ensures Yields(s.actions[i], x) {
      assert RowOk(s.actions[i]);
      if p.target.Remedy? {
        assert !LiveOrDoneRecovery(s.actions[i]);
        assert s.actions[i] in s.actions;
      }
    }
    if p.target.RecoveryNotice? {
      assert (s.actions + [x])[p.target.recovery] == s.actions[p.target.recovery];
    }
  }

  lemma ProposeKeepsSafe(s: State, p: Proposal)
    requires Safe(s) && First(s.actions, IsLive).None? && Warranted(s, Offer(p))
    ensures Safe(Propose(s, p).0)
  {
    OfferIsAdmissible(s, p);
    if First(s.actions, HasKey(KeyOf(p.target))).None? {
      AddKeepsSafe(s, NewAction(p), p.role, Propose(s, p).0);
    }
  }

  /** An analysis is always the first for its hypothesis, and leaves one settled row. */
  lemma AnalysisIsFresh(s: State, h: nat, exposure: nat)
    requires Safe(s) && First(s.impacts, ImpactFor(h)).None?
    ensures var (after, a) := Analysed(s, h, exposure);
            && a == |s.actions|
            && after.actions == s.actions + [Action(RunAnalysis, ImpactOf(h), Succeeded, false, KeyOf(ImpactOf(h)))]
            && after.impacts == s.impacts + [Impact(h, exposure)]
            && after == s.(actions := after.actions, impacts := after.impacts, status := Investigating,
                           stage := after.stage, requests := after.requests, log := after.log,
                             snapshots := after.snapshots)
  {
    var x := NewAction(Proposal(ImpactOf(h), false, Supervisor, Some(Investigating), None));
    assert (s.actions + [x])[|s.actions| := x.(status := Succeeded)] == s.actions + [x.(status := Succeeded)];
  }

  lemma AnalysedKeepsSafe(s: State, h: nat, exposure: nat)
    requires Safe(s) && First(s.actions, IsLive).None?
    requires First(s.impacts, ImpactFor(h)).None?
    ensures Safe(Analysed(s, h, exposure).0)
  {
    hide ApprovalsOk, ExecutionsOk, RequestsOk;
    AnalysisIsFresh(s, h, exposure);
    assert First(s.actions, HasKey(KeyOf(ImpactOf(h)))).None?;
    var after := Analysed(s, h, exposure).0;
    assert AssessedWith(s, after.actions[|s.actions|], after);
    AddKeepsSafe(s, Action(RunAnalysis, ImpactOf(h), Succeeded, false, KeyOf(ImpactOf(h))), Supervisor, after);
  }

  lemma NoClosureKey(actions: seq<Action>, h: nat)
    requires First(actions, OfKind(CloseCase)).None? && TableOk(actions)
    ensures First(actions, HasKey(KeyOf(Closure(h)))).None?
  {
    hide PairOk, CausesOk;
    forall i | 0 <= i < |actions| ensures actions[i].key != KeyOf(Closure(h)) {
      assert RowOk(actions[i]);
    }
  }

  /** A closure is always the first one. */
  lemma ClosureIsFresh(s: State, h: nat)
    requires First(s.actions, OfKind(CloseCase)).None? && TableOk(s.actions)
    ensures var (after, a) := ClosedOut(s, h);
            && a == |s.actions|
            && after.actions == s.actions + [Action(CloseCase, Closure(h), Succeeded, false, KeyOf(Closure(h)))]
            && after == s.(actions := after.actions, status := Closed, stage := after.stage,
                           requests := after.requests, log := after.log, snapshots := after.snapshots)
  {
    hide AdvanceStage, TableOk;
    NoClosureKey(s.actions, h);
    var x := NewAction(Proposal(Closure(h), false, Supervisor, None, None));
    assert (s.actions + [x])[|s.actions| := x.(status := Succeeded)] == s.actions + [x.(status := Succeeded)];
  }

  lemma ClosedOutKeepsSafe(s: State, h: nat)
    requires Safe(s) && First(s.actions, IsLive).None?
    requires First(s.actions, OfKind(CloseCase)).None? && First(s.actions, Done(NotifyCustomer)).Some?
    ensures Safe(ClosedOut(s, h).0)
  {
    hide ApprovalsOk, ExecutionsOk, ImpactsOk, RequestsOk;
    ClosureIsFresh(s, h);
    var x := Action(CloseCase, Closure(h), Succeeded, false, KeyOf(Closure(h)));
    var notice := First(s.actions, Done(NotifyCustomer)).value;
    assert (s.actions + [x])[notice] == s.actions[notice];
    assert forall i | 0 <= i < |s.actions| :: RowOk(s.actions[i]);
    AddKeepsSafe(s, x, Supervisor, ClosedOut(s, h).0);
  }

  lemma EnactKeepsSafe(s: State, choice: Choice, exposure: nat)
    requires Safe(s) && First(s.actions, IsLive).None? && Warranted(s, choice)
    ensures Safe(Enact(s, choice, exposure).0)
  {
    match choice
    case Offer(p) => ProposeKeepsSafe(s, p);
    case Analyse(h) => AnalysedKeepsSafe(s, h, exposure);
    case Close(h) => ClosedOutKeepsSafe(s, h);
    case _ =>
  }

  lemma DecideKeepsSafe(s: State, scan: nat, exposure: nat)
    requires Safe(s)
    ensures Safe(Decide(s, scan, exposure).0)
  {
    if First(s.actions, IsLive).None? {
      var s1 := s.(reevaluate := false);
      ChoiceWarranted(s1, scan);
      EnactKeepsSafe(s1, Choose(s1, scan), exposure);
    }
  }

  // ----- Executing -----

  function Row(a: nat, c: Connector, attempt: nat): Execution {
    Execution(a, attempt, StatusOf(c, attempt))
  }

  /** The attempts made, as rows. */
  function Rows(a: nat, c: Connector, attempt: nat, n: nat): (r: seq<Execution>)
    requires attempt <= n + 1
    ensures |r| == n + 1 - attempt
    ensures forall k | 0 <= k < |r| :: r[k] == Row(a, c, attempt + k)
  {
    seq(n + 1 - attempt, k requires 0 <= k => Row(a, c, attempt + k))
  }

  lemma {:induction false} AttemptsAppend(s: State, a: nat, c: Connector, attempt: nat)
    requires 1 <= attempt <= MAX_ATTEMPTS
    ensures Attempts(s, a, c, attempt).executions == s.executions + Rows(a, c, attempt, Made(c, attempt))
    decreases MAX_ATTEMPTS - attempt
  {
    if !Succeeds(c, attempt) && attempt < MAX_ATTEMPTS {
      AttemptsAppend(Try(s, a, c, attempt), a, c, attempt + 1);
      assert [Row(a, c, attempt)] + Rows(a, c, attempt + 1, Made(c, attempt + 1)) ==
        Rows(a, c, attempt, Made(c, attempt));
    } else {
      assert Rows(a, c, attempt, attempt) == [Row(a, c, attempt)];
    }
  }

  lemma AttemptsExtendTraces(s: State, a: nat, c: Connector, other: nat)
    ensures var rows := Rows(a, c, 1, Made(c, 1));
            TraceOf(s.executions + rows, other) == TraceOf(s.executions, other) + if other == a then rows else []
  {
    var rows := Rows(a, c, 1, Made(c, 1));
    FilterConcat(s.executions, rows, ByAction(other));
    if other == a {
      FilterAll(rows, ByAction(other));
    } else {
      FilterNone(rows, ByAction(other));
    }
  }

  /** The tables after an execution that really runs. */
  lemma ExecuteEffect(s: State, a: nat, c: Connector, raised: seq<Flag>)
    requires a < |s.actions| && First(s.executions, SuccessOf(a)).None?
    ensures var after := Execute(s, a, c, raised);
            && after.actions == s.actions[a := s.actions[a].(status := FinalStatus(c))]
            && after.executions == s.executions + Rows(a, c, 1, Made(c, 1))
            && after == s.(actions := after.actions, executions := after.executions, evidence := after.evidence,
                           flags := after.flags, stage := after.stage, requests := after.requests,
                           log := after.log, snapshots := after.snapshots)
            && s.flags <= after.flags
  {
    AttemptsAppend(Started(s, a), a, c, 1);
    var s1 := Attempts(Started(s, a), a, c, 1);
    assert s1.actions == s.actions[a := s.actions[a].(status := Executing)];
    var s2 := Settled(s1, a, c, raised);
    assert s2.actions == s.actions[a := s.actions[a].(status := FinalStatus(c))];
  }

  /** A ready action has no execution yet, so the success guard never stops it. */
  lemma ReadyRunsNow(s: State, a: nat)
    requires Safe(s) && a < |s.actions| && (s.actions[a].status == Proposed || s.actions[a].status == Approved)
    ensures First(s.executions, SuccessOf(a)).None? && TraceOf(s.executions, a) == []
  {
    assert RowOk(s.actions[a]) && TraceOk(s.actions[a], TraceOf(s.executions, a));
    FilterNone(s.executions, ByAction(a));
    assert forall i | 0 <= i < |s.executions| :: s.executions[i] in s.executions;
  }

  lemma ExecuteKeepsSafe(s: State, a: nat, c: Connector, raised: seq<Flag>)
    requires Safe(s) && a < |s.actions| && (s.actions[a].status == Proposed || s.actions[a].status == Approved)
    ensures Safe(Execute(s, a, c, raised))
  {
    ReadyRunsNow(s, a);
    ExecuteEffect(s, a, c, raised);
    RunKeepsSafe(s, a, c, Execute(s, a, c, raised));
  }

  lemma RunKeepsSafe(s: State, a: nat, c: Connector, after: State)
    requires Safe(s) && a < |s.actions| && (s.actions[a].status == Proposed || s.actions[a].status == Approved)
    requires TraceOf(s.executions, a) == []
    requires after.actions == s.actions[a := s.actions[a].(status := FinalStatus(c))]
    requires after.executions == s.executions + Rows(a, c, 1, Made(c, 1))
    requires after.approvals == s.approvals && after.impacts == s.impacts && s.flags <= after.flags
    ensures Safe(after)
  {
    hide PairOk, CausesOk, TraceOf, ApprovalOk, HasApproval, First, Made, On;
    assert RowOk(s.actions[a]);
    MoveKeeps(s.actions, a, FinalStatus(c));
    SameApprovals(s, a, after);
    RunKeepsTraces(s, a, c, after);
    SameImpacts(s.actions, after.actions, s.impacts);
  }

  lemma RunKeepsTraces(s: State, a: nat, c: Connector, after: State)
    requires ExecutionsOk(s.actions, s.executions) && a < |s.actions| && !IsInline(s.actions[a].kind)
    requires TraceOf(s.executions, a) == []
    requires after.actions == s.actions[a := s.actions[a].(status := FinalStatus(c))]
    requires after.executions == s.executions + Rows(a, c, 1, Made(c, 1))
    ensures ExecutionsOk(after.actions, after.executions)
  {
    forall b: nat | b < |after.actions| ensures TraceOk(after.actions[b], TraceOf(after.executions, b)) {
      AttemptsExtendTraces(s, a, c, b);
      assert TraceOk(s.actions[b], TraceOf(s.executions, b));
      if b == a {
        AttemptsAreOrderly(s.actions[a], a, c);
        assert [] + Rows(a, c, 1, Made(c, 1)) == Rows(a, c, 1, Made(c, 1));
      }
    }
  }

  /** The attempts made are a trace that fits the status they end in. */
  lemma AttemptsAreOrderly(row: Action, a: nat, c: Connector)
    requires !IsInline(row.kind)
    ensures TraceOk(row.(status := FinalStatus(c)), Rows(a, c, 1, Made(c, 1)))
  {
    var n := Made(c, 1);
    var rows := Rows(a, c, 1, n);
    forall k | 0 <= k < n - 1 ensures rows[k].status != ToolSuccess {
      assert !Succeeds(c, k + 1) && rows[k] == Row(a, c, k + 1);
    }
    assert rows[n - 1] == Row(a, c, n);
  }

  lemma SameImpacts(before: seq<Action>, after: seq<Action>, impacts: seq<Impact>)
    requires ImpactsOk(before, impacts)
    requires |before| == |after| && forall i | 0 <= i < |before| :: before[i].key == after[i].key
    ensures ImpactsOk(after, impacts)
  {
    SameKeys(before, after);
  }

  lemma SameApprovals(s: State, a: nat, after: State)
    requires ApprovalsOk(s.actions, s.approvals) && a < |s.actions| == |after.actions| && after.approvals == s.approvals
    requires after.actions == s.actions[a := s.actions[a].(status := after.actions[a].status)]
    requires ApprovalFor(after.actions[a].status) == ApprovalFor(s.actions[a].status) || !s.actions[a].requiresApproval
    ensures ApprovalsOk(after.actions, after.approvals)
  {
    forall p | 0 <= p < |s.approvals| ensures ApprovalOk(after.actions, s.approvals[p]) {
      assert ApprovalOk(s.actions, s.approvals[p]);
    }
    forall b | 0 <= b < |after.actions| && after.actions[b].requiresApproval ensures HasApproval(s.approvals, b) {
      assert s.actions[b].requiresApproval;
    }
  }

  /** Queries by key do not see status changes. */
  lemma SameKeys(before: seq<Action>, after: seq<Action>)
    requires |before| == |after| && forall i | 0 <= i < |before| :: before[i].key == after[i].key
    ensures forall k :: First(before, HasKey(k)) == First(after, HasKey(k))
  {
    forall k ensures First(before, HasKey(k)) == First(after, HasKey(k)) {
      var x, y := First(before, HasKey(k)), First(after, HasKey(k));
      if x.Some? { assert HasKey(k)(after[x.value]); }
      if y.Some? { assert HasKey(k)(before[y.value]); }
    }
  }

  // ----- Approving -----

  lemma DecidedKeepsSafe(s: State, p: nat, decision: ApprovalStatus, user: User)
    requires Safe(s) && p < |s.approvals| && Decided(s, p, decision, user).Success?
    ensures Safe(Decided(s, p, decision, user).value)
  {
    hide PairOk, CausesOk, TraceOk, TraceOf;
    var after := Decided(s, p, decision, user).value;
    var a := s.approvals[p].action;
    assert ApprovalOk(s.actions, s.approvals[p]) && RowOk(s.actions[a]);
    MoveKeeps(s.actions, a, after.actions[a].status);
    DecisionKeepsApprovals(s, p, a, after);
    DecisionKeepsTraces(s, a, after);
    SameImpacts(s.actions, after.actions, s.impacts);
  }

  lemma DecisionKeepsApprovals(s: State, p: nat, a: nat, after: State)
    requires ApprovalsOk(s.actions, s.approvals) && p < |s.approvals| == |after.approvals| && s.approvals[p].action == a
    requires a < |s.actions| == |after.actions|
    requires after.actions == s.actions[a := s.actions[a].(status := after.actions[a].status)]
    requires after.approvals ==
             s.approvals[p := s.approvals[p].(status := after.approvals[p].status,
             decidedBy := after.approvals[p].decidedBy)]
    requires after.approvals[p].status == ApprovalFor(after.actions[a].status) != Pending
    requires after.approvals[p].decidedBy.Some?
    ensures ApprovalsOk(after.actions, after.approvals)
  {
    forall q | 0 <= q < |after.approvals| ensures ApprovalOk(after.actions, after.approvals[q]) {
      assert ApprovalOk(s.actions, s.approvals[q]);
      assert q != p ==> s.approvals[q].action != a;
    }
    forall b | 0 <= b < |after.actions| && after.actions[b].requiresApproval ensures HasApproval(after.approvals, b) {
      assert s.actions[b].requiresApproval && HasApproval(s.approvals, b);
      var q :| 0 <= q < |s.approvals| && s.approvals[q].action == b;
      assert after.approvals[q].action == b;
    }
  }

  lemma DecisionKeepsTraces(s: State, a: nat, after: State)
    requires ExecutionsOk(s.actions, s.executions) && after.executions == s.executions
             && a < |s.actions| == |after.actions|
    requires after.actions == s.actions[a := s.actions[a].(status := after.actions[a].status)]
    requires s.actions[a].status == ActionStatus.PendingApproval
    requires after.actions[a].status == Approved || after.actions[a].status == Rejected
    ensures ExecutionsOk(after.actions, after.executions)
  {
    hide TraceOf;
    forall b: nat | b < |after.actions| ensures TraceOk(after.actions[b], TraceOf(after.executions, b)) {
      assert TraceOk(s.actions[b], TraceOf(s.executions, b));
    }
  }
}
